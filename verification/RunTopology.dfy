/** The topology part of `RunBundle._validate_projection`: every child is reached from the bundle owner by a
    parent walk. Identifiers are naturals standing for canonical strings. */
module RunTopology {

  type Id = nat

  /** Children by run id, each mapped to its parent run id. */
  type Parents = map<Id, Id>

  /** `steps` parent links lead from the child to the owner, through children only. */
  ghost predicate Descends(parents: Parents, owner: Id, child: Id, steps: nat)
    decreases steps
  {
    child in parents &&
    (if steps == 0 then parents[child] == owner else Descends(parents, owner, parents[child], steps - 1))
  }

  ghost predicate Rooted(parents: Parents, owner: Id, child: Id) {
    exists steps: nat :: Descends(parents, owner, child, steps)
  }

  /** The children form a tree below the owner. */
  ghost predicate IsTree(parents: Parents, owner: Id) {
    owner !in parents && forall c :: c in parents ==> Rooted(parents, owner, c)
  }

  lemma {:induction false} ClosedIsUnrooted(parents: Parents, owner: Id, s: set<Id>, child: Id, steps: nat)
    requires child in s && owner !in parents
    requires forall v :: v in s ==> v in parents && parents[v] != owner && parents[v] in s
    ensures !Descends(parents, owner, child, steps)
    decreases steps
  {
    if steps > 0 { ClosedIsUnrooted(parents, owner, s, parents[child], steps - 1); }
  }

  lemma RootedStep(parents: Parents, owner: Id, child: Id)
    requires child in parents && parents[child] != owner
    ensures Rooted(parents, owner, child) <==> Rooted(parents, owner, parents[child])
  {
    if Rooted(parents, owner, child) {
      var n: nat :| Descends(parents, owner, child, n);
      assert n > 0 && Descends(parents, owner, parents[child], n - 1);
    }
    if Rooted(parents, owner, parents[child]) {
      var n: nat :| Descends(parents, owner, parents[child], n);
      assert Descends(parents, owner, child, n + 1);
    }
  }

  datatype Walk = ReachedOwner | LeftTopology | Cycle

  /** The walk from one child: it ends on every set of children, and it ends well exactly when the child
      descends from the owner. */
  method WalkToOwner(parents: Parents, owner: Id, child: Id) returns (w: Walk)
    requires owner !in parents && child in parents
    ensures w == ReachedOwner <==> Rooted(parents, owner, child)
  {
    var visited := {child};
    var cursor := child;
    while parents[cursor] != owner
      invariant cursor in parents && cursor in visited && visited <= parents.Keys
      invariant Rooted(parents, owner, child) <==> Rooted(parents, owner, cursor)
      invariant child in visited
      invariant forall v :: v in visited && v != cursor ==> parents[v] != owner && parents[v] in visited
      decreases parents.Keys - visited
    {
      RootedStep(parents, owner, cursor);
      var parent := parents[cursor];
      if parent !in parents {
        assert forall n: nat :: !Descends(parents, owner, parent, n);
        return LeftTopology;
      }
      if parent in visited {
        forall n: nat ensures !Descends(parents, owner, child, n) { ClosedIsUnrooted(parents, owner, visited, child, n); }
        return Cycle;
      }
      visited := visited + {parent};
      cursor := parent;
    }
    assert Descends(parents, owner, cursor, 0);
    w := ReachedOwner;
  }

  /** Accepts exactly the trees rooted at the owner; `order` lists the children in any order. */
  method ValidateTopology(parents: Parents, owner: Id, order: seq<Id>) returns (ok: bool)
    requires forall c :: c in order <==> c in parents
    ensures ok <==> IsTree(parents, owner)
  {
    if owner in parents { return false; }
    for i := 0 to |order|
      invariant forall k :: 0 <= k < i ==> parents[order[k]] == owner || parents[order[k]] in parents
    {
      var child := order[i];
      assert child in order;
      if parents[child] != owner && parents[child] !in parents {
        RootedStep(parents, owner, child);
        assert forall n: nat :: !Descends(parents, owner, parents[child], n);
        return false;
      }
    }
    for i := 0 to |order|
      invariant forall k :: 0 <= k < i ==> Rooted(parents, owner, order[k])
    {
      assert order[i] in order;
      var w := WalkToOwner(parents, owner, order[i]);
      if w != ReachedOwner { return false; }
    }
    ok := true;
    forall c | c in parents ensures Rooted(parents, owner, c) { assert c in order; }
  }
}
