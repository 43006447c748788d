/** `find_durable_persistence_failure`: a bounded depth-first search over an arbitrary, possibly cyclic
    (even infinite) graph of exceptions, whose "nothing found" answer has to be sound. */
module Durability {

  type ExcId = nat

  const MAX_NODES: nat := 1024
  const MAX_DEPTH: nat := 32

  /** Any Python value, seen through `isinstance(value, BaseException)`. */
  datatype Item = NonException | Exception(exc: ExcId)
  /** The outcome of `_safe_exception_attribute`. */
  datatype Attribute = Unreadable | Value(item: Item)
  datatype Marker = MarkerUnreadable | MarkerTrue | MarkerAbsent
  /** `interrupted`: inspecting the tuple itself raised. */
  datatype Group = NotAGroup | GroupUnreadable | NotATuple | Members(items: seq<Item>, interrupted: bool)

  /** `attributes` holds original, real, last_error, __cause__ and __context__, in that order. */
  datatype Node = Node(boundary: bool, marker: Marker, attributes: seq<Attribute>, group: Group)
  type Graph = ExcId -> Node

  datatype Outcome = NothingFound | Found(exc: ExcId) | Exhausted

  // ----- What the search is about ---------------------------------------------------------------

  predicate Durable(n: Node) { n.boundary || n.marker == MarkerTrue }

  /** Some of the node's evidence cannot be read. */
  predicate Hostile(n: Node) {
    || n.marker == MarkerUnreadable
    || Unreadable in n.attributes
    || n.group == GroupUnreadable
    || (n.group.Members? && n.group.interrupted)
  }

  predicate Links(n: Node, x: ExcId) {
    || Value(Exception(x)) in n.attributes
    || (n.group.Members? && Exception(x) in n.group.items)
  }

  ghost predicate Path(g: Graph, p: seq<ExcId>, root: ExcId, x: ExcId)
    decreases |p|
  {
    && |p| > 0 && p[|p| - 1] == x
    && if |p| == 1 then x == root
       else Links(g(p[|p| - 2]), x) && Path(g, p[..|p| - 1], root, p[|p| - 2])
  }

  ghost predicate ReachableWithin(g: Graph, root: ExcId, x: ExcId, steps: nat) {
    exists p :: Path(g, p, root, x) && |p| <= steps + 1
  }

  ghost predicate Reachable(g: Graph, root: ExcId, x: ExcId) {
    exists p :: Path(g, p, root, x)
  }

  ghost predicate Closed(g: Graph, s: set<ExcId>) {
    forall v, x :: v in s && Links(g(v), x) ==> x in s
  }

  ghost predicate Distinct(s: seq<ExcId>) {
    forall i, j :: 0 <= i < j < |s| ==> s[i] != s[j]
  }

  /** Paths that visit nothing twice stay within the depth limit. */
  ghost predicate Shallow(g: Graph, root: ExcId) {
    forall p, x :: Path(g, p, root, x) && Distinct(p) ==> |p| <= MAX_DEPTH + 1
  }

  /** A graph every budget covers: no more nodes than the node limit, with room for the longest group, no simple
      path beyond the depth limit, and nothing unreadable. */
  ghost predicate WithinBudgets(g: Graph, root: ExcId, s: set<ExcId>) {
    && root in s && |s| <= MAX_NODES && Closed(g, s) && Shallow(g, root)
    && forall v :: v in s ==> !Hostile(g(v)) && (g(v).group.Members? ==> |g(v).group.items| + |s| <= MAX_NODES)
  }

  ghost predicate AllReachable(g: Graph, root: ExcId, s: set<ExcId>) { forall x :: x in s ==> Reachable(g, root, x) }

  /** Why a search may give up: something reachable cannot be read, a simple path is too long, there are too many reachable
      nodes, or a reachable group leaves no room for what is already known. */
  ghost predicate BudgetMet(g: Graph, root: ExcId) {
    || (exists v :: Reachable(g, root, v) && Hostile(g(v)))
    || !Shallow(g, root)
    || (exists s: set<ExcId> :: AllReachable(g, root, s) && |s| > MAX_NODES)
    || (exists v, s: set<ExcId> :: Reachable(g, root, v) && AllReachable(g, root, s) && g(v).group.Members? && |g(v).group.items| + |s| > MAX_NODES)
  }

  /** `y` is the first exception among the node's attributes. */
  ghost predicate FirstLink(n: Node, y: ExcId) {
    exists i :: 0 <= i < |n.attributes| && n.attributes[i] == Value(Exception(y)) &&
      forall k :: 0 <= k < i ==> !(n.attributes[k].Value? && n.attributes[k].item.Exception?)
  }

  lemma {:induction false} PathStaysInside(g: Graph, s: set<ExcId>, p: seq<ExcId>, root: ExcId, x: ExcId)
    requires Closed(g, s) && root in s && Path(g, p, root, x)
    ensures x in s
    decreases |p|
  {
    if |p| > 1 {
      PathStaysInside(g, s, p[..|p| - 1], root, p[|p| - 2]);
    }
  }

  lemma ClosedHoldsReachable(g: Graph, s: set<ExcId>, root: ExcId)
    requires Closed(g, s) && root in s
    ensures forall x :: Reachable(g, root, x) ==> x in s
  {
    forall x | Reachable(g, root, x) ensures x in s {
      var p :| Path(g, p, root, x);
      PathStaysInside(g, s, p, root, x);
    }
  }

  // ----- The traversal ---------------------------------------------------------------------------

  /** The exceptions one node points at, with the group cut at `limit`; `incomplete` says whether
      anything could not be read or was cut. */
  method CollectCandidates(node: Node, limit: nat) returns (candidates: seq<ExcId>, incomplete: bool)
    ensures forall x :: x in candidates ==> Links(node, x)
    ensures !incomplete ==> forall x :: Links(node, x) ==> x in candidates
    ensures incomplete <==> Hostile(node.(marker := MarkerAbsent)) || (node.group.Members? && |node.group.items| > limit)
    ensures forall y :: FirstLink(node, y) ==> candidates != [] && candidates[0] == y
  {
    candidates, incomplete := [], false;
    for i := 0 to |node.attributes|
      invariant incomplete <==> Unreadable in node.attributes[..i]
      invariant forall x :: x in candidates <==> Value(Exception(x)) in node.attributes[..i]
      invariant forall k :: 0 <= k < i && node.attributes[k].Value? && node.attributes[k].item.Exception? ==> candidates != []
      invariant candidates != [] ==> FirstLink(node, candidates[0])
    {
      match node.attributes[i]
      case Unreadable => incomplete := true;
      case Value(Exception(x)) => candidates := candidates + [x];
      case Value(NonException) =>
    }
    assert node.attributes[..|node.attributes|] == node.attributes;
    FirstLinkUnique(node);
    ghost var led := forall y :: FirstLink(node, y) ==> candidates != [] && candidates[0] == y;
    assert led;
    match node.group
    case NotAGroup =>
    case NotATuple =>
    case GroupUnreadable => incomplete := true;
    case Members(items, interrupted) =>
      var prefix := if interrupted then [] else if |items| > limit then items[..limit] else items;
      if interrupted || |items| > limit { incomplete := true; }
      ghost var direct := candidates;
      for i := 0 to |prefix|
        invariant forall x :: x in candidates <==> x in direct || Exception(x) in prefix[..i]
        invariant direct <= candidates
      {
        if prefix[i].Exception? { candidates := candidates + [prefix[i].exc]; }
      }
      assert prefix[..|prefix|] == prefix;
  }

  lemma FirstLinkUnique(n: Node)
    ensures forall x, y :: FirstLink(n, x) && FirstLink(n, y) ==> x == y
  {}

  /** First occurrences of the candidates that are neither visited nor queued. */
  method FilterUnique(candidates: seq<ExcId>, visited: set<ExcId>, queued: set<ExcId>) returns (unique: seq<ExcId>)
    ensures forall x :: x in unique <==> x in candidates && x !in visited && x !in queued
    ensures forall i, j :: 0 <= i < j < |unique| ==> unique[i] != unique[j]
    ensures candidates != [] && candidates[0] !in visited && candidates[0] !in queued ==> unique != [] && unique[0] == candidates[0]
  {
    unique := [];
    var seen: set<ExcId> := {};
    for i := 0 to |candidates|
      invariant forall x :: x in seen <==> x in unique
      invariant forall x :: x in unique <==> x in candidates[..i] && x !in visited && x !in queued
      invariant forall i, j :: 0 <= i < j < |unique| ==> unique[i] != unique[j]
      invariant i == 0 ==> unique == []
      invariant i > 0 && candidates[0] !in visited && candidates[0] !in queued ==> unique != [] && unique[0] == candidates[0]
    {
      var c := candidates[i];
      if c !in visited && c !in queued && c !in seen {
        seen := seen + {c};
        unique := unique + [c];
      }
    }
    assert candidates[..|candidates|] == candidates;
  }

  function Stacked(kept: seq<ExcId>, depth: nat): seq<(ExcId, nat)> {
    if kept == [] then [] else Stacked(kept[1..], depth) + [(kept[0], depth)]
  }

  /** The first of the kept candidates ends on top of the stack. */
  lemma StackedTop(kept: seq<ExcId>, depth: nat)
    requires kept != []
    ensures var r := Stacked(kept, depth); r != [] && r[|r| - 1] == (kept[0], depth)
  {}

  /** Pushes the kept candidates in reverse, so that the first one is popped first. */
  method Push(pending: seq<(ExcId, nat)>, kept: seq<ExcId>, depth: nat) returns (r: seq<(ExcId, nat)>)
    ensures r == pending + Stacked(kept, depth)
  {
    r := pending;
    var i := |kept|;
    while i > 0
      invariant 0 <= i <= |kept| && r == pending + Stacked(kept[i..], depth)
    {
      i := i - 1;
      r := r + [(kept[i], depth)];
      assert kept[i..][1..] == kept[i + 1..];
    }
    assert kept[0..] == kept;
  }

  function Elements(s: seq<ExcId>): set<ExcId> { set x | x in s }

  // ----- Bookkeeping of the stack ----------------------------------------------------------------

  ghost function Ids(pending: seq<(ExcId, nat)>): set<ExcId> {
    if pending == [] then {} else Ids(pending[..|pending| - 1]) + {pending[|pending| - 1].0}
  }

  lemma {:induction false} IdsSize(pending: seq<(ExcId, nat)>)
    ensures |Ids(pending)| <= |pending|
  {
    if pending != [] {
      var rest := pending[..|pending| - 1];
      IdsSize(rest);
    }
  }

  lemma QueuePop(rest: seq<(ExcId, nat)>, queued: set<ExcId>, current: ExcId, depth: nat)
    requires queued == Ids(rest + [(current, depth)]) && HasSize(queued, |rest| + 1)
    ensures queued - {current} == Ids(rest) && queued == (queued - {current}) + {current}
    ensures HasSize(queued - {current}, |rest|)
  {
    HasSizeIff(queued, |rest| + 1);
    IdsSize(rest);
    assert (rest + [(current, depth)])[..|rest|] == rest;
    assert queued == Ids(rest) + {current};
    HasSizeIff(queued - {current}, |rest|);
  }

  lemma {:induction false} StackedElements(kept: seq<ExcId>, depth: nat)
    ensures forall e :: e in Stacked(kept, depth) ==> e.0 in kept && e.1 == depth
    ensures |Stacked(kept, depth)| == |kept|
  {
    if kept != [] { StackedElements(kept[1..], depth); }
  }

  lemma {:induction false} QueuePush(pending: seq<(ExcId, nat)>, kept: seq<ExcId>, depth: nat)
    ensures Ids(pending + Stacked(kept, depth)) == Ids(pending) + Elements(kept)
  {
    if kept == [] {
      assert pending + [] == pending;
    } else {
      QueuePush(pending, kept[1..], depth);
      var s := pending + Stacked(kept[1..], depth);
      assert pending + Stacked(kept, depth) == s + [(kept[0], depth)];
      assert (s + [(kept[0], depth)])[..|s|] == s;
      assert kept == [kept[0]] + kept[1..];
      assert Elements(kept) == Elements(kept[1..]) + {kept[0]};
    }
  }

  /** `|s| == n`, kept away from the solver's own theory of cardinalities. */
  ghost predicate HasSize(s: set<ExcId>, n: nat) {
    exists t: seq<ExcId> :: Distinct(t) && Elements(t) == s && |t| == n
  }

  lemma HasSizeIff(s: set<ExcId>, n: nat)
    ensures HasSize(s, n) <==> |s| == n
  {
    if HasSize(s, n) {
      var t: seq<ExcId> :| Distinct(t) && Elements(t) == s && |t| == n;
      DistinctSize(t);
    }
    if |s| == n { Enumerate(s); }
  }

  lemma SizeAdd(s: set<ExcId>, n: nat, x: ExcId)
    requires HasSize(s, n) && x !in s
    ensures HasSize(s + {x}, n + 1)
  {
    var t: seq<ExcId> :| Distinct(t) && Elements(t) == s && |t| == n;
    AppendElement(t, x);
    assert |t + [x]| == n + 1;
  }

  lemma {:induction false} Enumerate(s: set<ExcId>)
    ensures HasSize(s, |s|)
  {
    if s == {} {
      assert Distinct([]) && Elements([]) == s;
    } else {
      var x :| x in s;
      Enumerate(s - {x});
      SizeAdd(s - {x}, |s - {x}|, x);
      assert (s - {x}) + {x} == s;
    }
  }

  lemma AppendElement(t: seq<ExcId>, x: ExcId)
    requires Distinct(t) && x !in Elements(t)
    ensures Distinct(t + [x]) && Elements(t + [x]) == Elements(t) + {x}
  {
    assert forall i :: 0 <= i < |t| ==> t[i] in Elements(t);
  }

  lemma SubsetSize(a: set<ExcId>, b: set<ExcId>)
    requires a <= b
    ensures |a| <= |b|
    ensures |a| == |b| ==> a == b
  {
    assert b == a + (b - a);
    assert |b| == |a| + |b - a|;
  }

  lemma {:induction false} DistinctSize(s: seq<ExcId>)
    requires Distinct(s)
    ensures |Elements(s)| == |s|
  {
    if s != [] {
      var t := s[..|s| - 1];
      DistinctSize(t);
      assert s == t + [s[|s| - 1]] && s[|s| - 1] !in t;
      assert Elements(s) == Elements(t) + {s[|s| - 1]};
    }
  }

  // ----- What every iteration keeps ---------------------------------------------------------------

  /** The search found `x` along a path of visited nodes that repeats nothing. */
  ghost predicate Threaded(g: Graph, root: ExcId, x: ExcId, depth: nat, visited: set<ExcId>) {
    exists p :: Path(g, p, root, x) && |p| == depth + 1 && Distinct(p) && forall i :: 0 <= i < depth ==> p[i] in visited
  }

  ghost predicate PendingOk(g: Graph, root: ExcId, pending: seq<(ExcId, nat)>, visited: set<ExcId>) {
    forall e :: e in pending ==> e.1 <= MAX_DEPTH && Threaded(g, root, e.0, e.1, visited)
  }

  lemma ThreadedIsReachable(g: Graph, root: ExcId, x: ExcId, depth: nat, visited: set<ExcId>)
    requires Threaded(g, root, x, depth, visited)
    ensures ReachableWithin(g, root, x, depth)
  {
    var p :| Path(g, p, root, x) && |p| == depth + 1 && Distinct(p) && forall i :: 0 <= i < depth ==> p[i] in visited;
  }

  lemma ThreadedGrows(g: Graph, root: ExcId, x: ExcId, depth: nat, visited: set<ExcId>, more: set<ExcId>)
    requires Threaded(g, root, x, depth, visited) && visited <= more
    ensures Threaded(g, root, x, depth, more)
  {
    var p :| Path(g, p, root, x) && |p| == depth + 1 && Distinct(p) && forall i :: 0 <= i < depth ==> p[i] in visited;
  }

  /** A new link of a visited node extends its thread. */
  lemma ThreadedStep(g: Graph, root: ExcId, v: ExcId, x: ExcId, depth: nat, visited: set<ExcId>)
    requires Threaded(g, root, v, depth, visited) && v in visited && Links(g(v), x) && x !in visited
    ensures Threaded(g, root, x, depth + 1, visited)
  {
    var p :| Path(g, p, root, v) && |p| == depth + 1 && Distinct(p) && forall i :: 0 <= i < depth ==> p[i] in visited;
    var q := p + [x];
    assert q[..|p|] == p;
    assert forall i :: 0 <= i < |p| ==> p[i] in visited;
    assert Path(g, q, root, x) && Distinct(q);
  }

  /** In a shallow graph a node at the depth limit has no new link. */
  lemma ShallowEnds(g: Graph, root: ExcId, v: ExcId, x: ExcId, depth: nat, visited: set<ExcId>)
    requires Shallow(g, root) && Threaded(g, root, v, depth, visited) && v in visited && Links(g(v), x) && x !in visited
    ensures depth < MAX_DEPTH
  {
    ThreadedStep(g, root, v, x, depth, visited);
    var p :| Path(g, p, root, x) && |p| == depth + 2 && Distinct(p) && forall i :: 0 <= i < depth + 1 ==> p[i] in visited;
  }

  ghost predicate VisitedOk(g: Graph, root: ExcId, visited: set<ExcId>) {
    forall v :: v in visited ==> !Durable(g(v)) && ReachableWithin(g, root, v, MAX_DEPTH)
  }

  /** Every link of the node leads to a visited or queued node, and the node hides nothing. */
  ghost predicate Covered(n: Node, known: set<ExcId>) {
    !Hostile(n) && forall x :: Links(n, x) ==> x in known
  }

  ghost predicate AllCovered(g: Graph, visited: set<ExcId>, known: set<ExcId>) {
    forall v :: v in visited ==> Covered(g(v), known)
  }

  ghost predicate SmallOk(g: Graph, root: ExcId, known: set<ExcId>, truncated: bool) {
    forall s :: WithinBudgets(g, root, s) ==> known <= s && !truncated
  }

  ghost predicate Progress(g: Graph, root: ExcId, pending: seq<(ExcId, nat)>, queued: set<ExcId>,
                           visited: set<ExcId>, truncated: bool) {
    && queued == Ids(pending) && visited !! queued && root in visited + queued
    && PendingOk(g, root, pending, visited)
    && VisitedOk(g, root, visited)
    && (!truncated ==> AllCovered(g, visited, visited + queued))
  }

  ghost predicate Sizes(pending: seq<(ExcId, nat)>, queued: set<ExcId>, visited: set<ExcId>, count: nat) {
    HasSize(queued, |pending|) && HasSize(visited, count) && count + |pending| <= MAX_NODES
  }

  /** On a small harmless graph no budget is met while expanding a node. */
  lemma SmallNeverTruncates(g: Graph, root: ExcId, s: set<ExcId>, queued: set<ExcId>, visited: set<ExcId>,
                            count: nat, waiting: nat, current: ExcId, depth: nat, limit: nat, unique: seq<ExcId>)
    requires WithinBudgets(g, root, s) && visited !! queued && visited + queued <= s && current in visited
    requires Threaded(g, root, current, depth, visited)
    requires HasSize(visited, count) && HasSize(queued, waiting) && limit == MAX_NODES - count - waiting
    requires forall x :: x in unique ==> Links(g(current), x) && x !in visited && x !in queued
    requires forall i, j :: 0 <= i < j < |unique| ==> unique[i] != unique[j]
    ensures forall x :: x in unique ==> x in s
    ensures depth >= MAX_DEPTH ==> unique == []
    ensures |unique| <= limit
    ensures !Hostile(g(current)) && (g(current).group.Members? ==> |g(current).group.items| <= limit)
  {
    if unique != [] { assert unique[0] in unique; ShallowEnds(g, root, current, unique[0], depth, visited); }
    HasSizeIff(visited, count);
    HasSizeIff(queued, waiting);
    var novel := Elements(unique);
    DistinctSize(unique);
    assert novel <= s;
    assert |visited + queued| == |visited| + |queued|;
    SubsetSize(visited + queued, s);
    assert |novel + (visited + queued)| == |novel| + |visited + queued|;
    SubsetSize(novel + (visited + queued), s);
  }

  lemma CoverageGrows(g: Graph, visited: set<ExcId>, current: ExcId, known: set<ExcId>, known': set<ExcId>)
    requires AllCovered(g, visited - {current}, known) && known <= known' && Covered(g(current), known')
    ensures AllCovered(g, visited, known')
  {
    forall v | v in visited ensures Covered(g(v), known') {
      if v != current { assert v in visited - {current}; assert Covered(g(v), known); }
    }
  }

  lemma VisitedGrows(g: Graph, root: ExcId, visited: set<ExcId>, current: ExcId, depth: nat)
    requires VisitedOk(g, root, visited - {current}) && !Durable(g(current))
    requires ReachableWithin(g, root, current, depth) && depth <= MAX_DEPTH
    ensures VisitedOk(g, root, visited)
  {
    forall v | v in visited ensures !Durable(g(v)) && ReachableWithin(g, root, v, MAX_DEPTH) {
      if v != current { assert v in visited - {current}; }
    }
  }

  lemma PendingGrows(g: Graph, root: ExcId, current: ExcId, depth: nat, pending: seq<(ExcId, nat)>, kept: seq<ExcId>, visited: set<ExcId>)
    requires PendingOk(g, root, pending, visited) && Threaded(g, root, current, depth, visited) && current in visited
    requires kept == [] || depth < MAX_DEPTH
    requires forall x :: x in kept ==> Links(g(current), x) && x !in visited
    ensures PendingOk(g, root, pending + Stacked(kept, depth + 1), visited)
  {
    StackedElements(kept, depth + 1);
    var all := pending + Stacked(kept, depth + 1);
    forall e | e in all ensures e.1 <= MAX_DEPTH && Threaded(g, root, e.0, e.1, visited) {
      if e !in pending { ThreadedStep(g, root, current, e.0, depth, visited); }
    }
  }

  /** Links of the node that are neither visited nor queued, each once. */
  ghost predicate FreshLinks(n: Node, known: set<ExcId>, s: seq<ExcId>) {
    && (forall x :: x in s ==> Links(n, x) && x !in known)
    && (forall i, j :: 0 <= i < j < |s| ==> s[i] != s[j])
  }

  /** What may cut an expansion short: unreadable evidence, a group longer than the room left, depth, or
      more new nodes than the room left. */
  ghost predicate Cut(n: Node, depth: nat, limit: nat, unique: seq<ExcId>) {
    || Hostile(n) || (n.group.Members? && |n.group.items| > limit)
    || (depth >= MAX_DEPTH && unique != []) || |unique| > limit
  }

  /** Expanding one node: the two budgets and the unreadable cases decide what is queued and what is
      reported as truncated. */
  method Expand(node: Node, depth: nat, pending: seq<(ExcId, nat)>, queued: set<ExcId>, visited: set<ExcId>, count: nat)
    returns (pending': seq<(ExcId, nat)>, queued': set<ExcId>, cut: bool, ghost kept: seq<ExcId>, ghost unique: seq<ExcId>)
    requires count + |pending| <= MAX_NODES
    ensures FreshLinks(node, visited + queued, unique) && kept <= unique
    ensures pending' == pending + Stacked(kept, depth + 1) && queued' == queued + Elements(kept)
    ensures depth >= MAX_DEPTH ==> kept == []
    ensures count + |pending| + |kept| <= MAX_NODES
    ensures cut <==> Cut(node, depth, MAX_NODES - count - |pending|, unique)
    ensures !cut ==> Covered(node, visited + queued')
    ensures forall y :: FirstLink(node, y) && y !in visited && y !in queued && depth < MAX_DEPTH && count + |pending| < MAX_NODES ==>
              kept != [] && kept[0] == y
  {
    cut := node.marker == MarkerUnreadable;
    var limit := MAX_NODES - count - |pending|;
    var candidates, incomplete := CollectCandidates(node, limit);
    if incomplete { cut := true; }
    var fresh' := FilterUnique(candidates, visited, queued);
    unique, kept := fresh', [];
    pending', queued' := pending, queued;
    if depth >= MAX_DEPTH {
      if fresh' != [] { cut := true; }
      assert pending + [] == pending;
    } else {
      if |fresh'| > limit { cut := true; }
      var valid := if |fresh'| > limit then fresh'[..limit] else fresh';
      kept := valid;
      queued' := queued + Elements(valid);
      pending' := Push(pending, valid, depth + 1);
    }
  }

  lemma SmallKept(g: Graph, root: ExcId, queued: set<ExcId>, visited: set<ExcId>, count: nat, waiting: nat, current: ExcId, depth: nat,
                  limit: nat, unique: seq<ExcId>, kept: seq<ExcId>, truncated: bool)
    requires SmallOk(g, root, visited + (queued + {current}), truncated)
    requires visited !! queued && current !in queued && current !in visited
    requires Threaded(g, root, current, depth, visited)
    requires HasSize(visited, count) && HasSize(queued, waiting) && limit == MAX_NODES - count - 1 - waiting
    requires FreshLinks(g(current), visited + {current} + queued, unique) && kept <= unique
    ensures SmallOk(g, root, visited + {current} + (queued + Elements(kept)),
                    truncated || Cut(g(current), depth, limit, unique))
  {
    SizeAdd(visited, count, current);
    ThreadedGrows(g, root, current, depth, visited, visited + {current});
    forall s | WithinBudgets(g, root, s)
      ensures visited + {current} + (queued + Elements(kept)) <= s && !truncated && !Cut(g(current), depth, limit, unique)
    {
      SmallNeverTruncates(g, root, s, queued, visited + {current}, count + 1, waiting, current, depth, limit, unique);
      assert forall x :: x in kept ==> x in unique;
    }
  }

  lemma StepReached(g: Graph, root: ExcId, rest: seq<(ExcId, nat)>, current: ExcId, depth: nat,
                    visited: set<ExcId>, kept: seq<ExcId>)
    requires PendingOk(g, root, rest + [(current, depth)], visited) && VisitedOk(g, root, visited)
    requires current !in visited && !Durable(g(current))
    requires depth >= MAX_DEPTH ==> kept == []
    requires forall x :: x in kept ==> Links(g(current), x) && x !in visited + {current}
    ensures PendingOk(g, root, rest + Stacked(kept, depth + 1), visited + {current})
    ensures VisitedOk(g, root, visited + {current})
  {
    var more := visited + {current};
    assert (current, depth) in rest + [(current, depth)];
    ThreadedIsReachable(g, root, current, depth, visited);
    ThreadedGrows(g, root, current, depth, visited, more);
    forall e | e in rest ensures e.1 <= MAX_DEPTH && Threaded(g, root, e.0, e.1, more) {
      assert e in rest + [(current, depth)];
      ThreadedGrows(g, root, e.0, e.1, visited, more);
    }
    PendingGrows(g, root, current, depth, rest, kept, more);
    assert more - {current} == visited;
    VisitedGrows(g, root, more, current, depth);
  }

  lemma StepCovered(g: Graph, current: ExcId, queued: set<ExcId>, visited: set<ExcId>, kept: seq<ExcId>)
    requires current !in visited && AllCovered(g, visited, visited + (queued + {current}))
    requires Covered(g(current), visited + {current} + (queued + Elements(kept)))
    ensures AllCovered(g, visited + {current}, visited + {current} + (queued + Elements(kept)))
  {
    assert visited + {current} - {current} == visited;
    CoverageGrows(g, visited + {current}, current, visited + (queued + {current}), visited + {current} + (queued + Elements(kept)));
  }

  /** One round of the loop: pop, mark visited, expand. */
  lemma StepKeepsProgress(g: Graph, root: ExcId, rest: seq<(ExcId, nat)>, current: ExcId, depth: nat, queued: set<ExcId>,
                          visited: set<ExcId>, truncated: bool, kept: seq<ExcId>, cut: bool)
    requires Progress(g, root, rest + [(current, depth)], queued + {current}, visited, truncated)
    requires queued == Ids(rest) && current !in queued && !Durable(g(current))
    requires forall x :: x in kept ==> Links(g(current), x) && x !in visited + {current} + queued
    requires depth >= MAX_DEPTH ==> kept == []
    requires !cut ==> Covered(g(current), visited + {current} + (queued + Elements(kept)))
    ensures Progress(g, root, rest + Stacked(kept, depth + 1), queued + Elements(kept), visited + {current}, truncated || cut)
  {
    assert PendingOk(g, root, rest + Stacked(kept, depth + 1), visited + {current}) && VisitedOk(g, root, visited + {current}) by {
      StepReached(g, root, rest, current, depth, visited, kept);
    }
    assert queued + Elements(kept) == Ids(rest + Stacked(kept, depth + 1)) by { QueuePush(rest, kept, depth + 1); }
    if !(truncated || cut) { StepCovered(g, current, queued, visited, kept); }
  }

  /** The budget bookkeeping of one round. */
  lemma StepKeepsSizes(rest: seq<(ExcId, nat)>, current: ExcId, depth: nat, queued: set<ExcId>, visited: set<ExcId>,
                       count: nat, kept: seq<ExcId>)
    requires HasSize(queued, |rest|) && HasSize(visited, count) && current !in visited
    requires forall x :: x in kept ==> x !in queued
    requires forall i, j :: 0 <= i < j < |kept| ==> kept[i] != kept[j]
    requires count + 1 + |rest| + |kept| <= MAX_NODES
    ensures Sizes(rest + Stacked(kept, depth), queued + Elements(kept), visited + {current}, count + 1)
  {
    StackedElements(kept, depth);
    SizeAdd(visited, count, current);
    HasSizeIff(queued, |rest|);
    DistinctSize(kept);
    assert |queued + Elements(kept)| == |queued| + |kept|;
    HasSizeIff(queued + Elements(kept), |rest| + |kept|);
  }

  /** What the traversal has settled after `count` nodes: first the root, then the root's first link. */
  ghost predicate Settled(g: Graph, root: ExcId, pending: seq<(ExcId, nat)>, visited: set<ExcId>, count: nat) {
    && (count == 0 ==> pending == [(root, 0)] && visited == {})
    && (count == 1 ==> visited == {root} && forall y :: FirstLink(g(root), y) && y != root ==> pending != [] && pending[|pending| - 1].0 == y)
    && (count >= 1 ==> !Durable(g(root)))
    && (count >= 2 ==> forall y :: FirstLink(g(root), y) && y != root ==> !Durable(g(y)))
  }

  ghost predicate SomethingDurable(g: Graph, root: ExcId) { exists x :: Reachable(g, root, x) && Durable(g(x)) }

  /** A None answer is sound: every reachable exception is known, none is durable or unreadable, and all lie within the two
      budgets. */
  ghost predicate Harmless(g: Graph, root: ExcId) {
    && (forall x :: Reachable(g, root, x) ==> !Durable(g(x)) && !Hostile(g(x)) && ReachableWithin(g, root, x, MAX_DEPTH))
    && (exists s: set<ExcId> :: |s| <= MAX_NODES && forall x :: Reachable(g, root, x) ==> x in s)
  }

  /** What the answer about an exception must be. */
  ghost predicate AnswerOk(g: Graph, root: ExcId, r: Outcome) {
    && (r == NothingFound ==> Harmless(g, root))
    && (r.Found? ==> Reachable(g, root, r.exc) && Durable(g(r.exc)))
    // giving up means that a budget was met
    && (r == Exhausted ==> BudgetMet(g, root) && !Durable(g(root)))
    // within the budgets something durable is found exactly when it is there
    && ((exists s :: WithinBudgets(g, root, s)) ==> if SomethingDurable(g, root) then r.Found? else r == NothingFound)
    // the root itself, and then the first of its attributes, take precedence
    && (Durable(g(root)) ==> r == Found(root))
    && (!Durable(g(root)) ==> forall y :: FirstLink(g(root), y) && y != root && Durable(g(y)) ==> r == Found(y))
  }

  method FindDurableFailure(g: Graph, error: Item) returns (r: Outcome)
    ensures if error.NonException? then r == NothingFound else AnswerOk(g, error.exc, r)
  {
    if error.NonException? { return NothingFound; }
    var root := error.exc;
    var pending := [(root, 0)];
    var queued, visited, truncated := {root}, {}, false;
    var visitedNodes := 0;
    Start(g, root);
    while pending != [] && visitedNodes < MAX_NODES
      invariant Sizes(pending, queued, visited, visitedNodes)
      invariant Progress(g, root, pending, queued, visited, truncated)
      invariant SmallOk(g, root, visited + queued, truncated)
      invariant truncated ==> BudgetMet(g, root)
      invariant Settled(g, root, pending, visited, visitedNodes)
      decreases MAX_NODES - visitedNodes, |pending|
    {
      var rest := pending[..|pending| - 1];
      var (current, depth) := pending[|pending| - 1];
      assert pending == rest + [(current, depth)];
      QueuePop(rest, queued, current, depth);
      queued := queued - {current};
      pending := rest;
      if current !in visited {
        if Durable(g(current)) {
          FoundAnswer(g, root, rest, current, depth, queued, visited, visitedNodes, truncated);
          return Found(current);
        }
        ghost var before := visited;
        pending, queued, visited, truncated := Round(g, root, rest, current, depth, queued, visited, visitedNodes, truncated);
        SettledNext(g, root, rest, current, depth, before, visitedNodes, pending);
        visitedNodes := visitedNodes + 1;
      }
    }
    assert pending == [];
    if pending != [] { truncated := true; }
    if truncated {
      GaveUpAnswer(g, root, queued, visited, visitedNodes);
      return Exhausted;
    }
    NothingAnswer(g, root, queued, visited, visitedNodes);
    return NothingFound;
  }

  lemma SettledNext(g: Graph, root: ExcId, rest: seq<(ExcId, nat)>, current: ExcId, depth: nat, visited: set<ExcId>, count: nat,
                    next: seq<(ExcId, nat)>)
    requires Settled(g, root, rest + [(current, depth)], visited, count) && !Durable(g(current))
    requires count == 0 ==> forall y :: FirstLink(g(root), y) && y != root ==> next != [] && next[|next| - 1].0 == y
    ensures Settled(g, root, next, visited + {current}, count + 1)
  {
    var pending := rest + [(current, depth)];
    assert pending[|pending| - 1] == (current, depth);
  }

  lemma FoundAnswer(g: Graph, root: ExcId, rest: seq<(ExcId, nat)>, current: ExcId, depth: nat, queued: set<ExcId>,
                    visited: set<ExcId>, count: nat, truncated: bool)
    requires Progress(g, root, rest + [(current, depth)], queued + {current}, visited, truncated) && Durable(g(current))
    requires Settled(g, root, rest + [(current, depth)], visited, count)
    ensures AnswerOk(g, root, Found(current))
  {
    var pending := rest + [(current, depth)];
    assert pending[|pending| - 1] == (current, depth);
    FoundIsReal(g, root, rest, current, depth, queued, visited, truncated);
    RootIsReachable(g, root);
    if count == 1 { FirstLinkUnique(g(root)); }
  }

  lemma RootIsReachable(g: Graph, root: ExcId)
    ensures Reachable(g, root, root)
  {
    assert Path(g, [root], root, root);
  }

  lemma GaveUpAnswer(g: Graph, root: ExcId, queued: set<ExcId>, visited: set<ExcId>, count: nat)
    requires Settled(g, root, [], visited, count) && BudgetMet(g, root) && SmallOk(g, root, visited + queued, true)
    ensures AnswerOk(g, root, Exhausted)
  {}

  lemma NothingAnswer(g: Graph, root: ExcId, queued: set<ExcId>, visited: set<ExcId>, count: nat)
    requires Progress(g, root, [], queued, visited, false) && Settled(g, root, [], visited, count)
    requires HasSize(visited, count) && count <= MAX_NODES
    ensures AnswerOk(g, root, NothingFound)
  {
    FinishedIsClosed(g, root, queued, visited);
    HasSizeIff(visited, count);
  }

  lemma Start(g: Graph, root: ExcId)
    ensures Progress(g, root, [(root, 0)], {root}, {}, false) && Sizes([(root, 0)], {root}, {}, 0)
    ensures SmallOk(g, root, {} + {root}, false)
  {
    var pending := [(root, 0)];
    assert Path(g, [root], root, root);
    assert pending[..0] == [];
    HasSizeIff({root}, 1);
    HasSizeIff({}, 0);
  }

  /** The body of the loop once the popped node turned out to be new and not durable. */
  method Round(g: Graph, ghost root: ExcId, rest: seq<(ExcId, nat)>, current: ExcId, depth: nat, queued: set<ExcId>,
               visited: set<ExcId>, count: nat, truncated: bool)
    returns (pending': seq<(ExcId, nat)>, queued': set<ExcId>, visited': set<ExcId>, truncated': bool)
    requires Progress(g, root, rest + [(current, depth)], queued + {current}, visited, truncated)
    requires SmallOk(g, root, visited + (queued + {current}), truncated)
    requires queued == Ids(rest) && current !in queued && current !in visited && !Durable(g(current))
    requires HasSize(queued, |rest|) && HasSize(visited, count) && count + 1 + |rest| <= MAX_NODES
    ensures Progress(g, root, pending', queued', visited', truncated')
    ensures Sizes(pending', queued', visited', count + 1)
    ensures SmallOk(g, root, visited' + queued', truncated')
    ensures truncated' ==> truncated || BudgetMet(g, root)
    ensures visited' == visited + {current}
    ensures forall y :: FirstLink(g(current), y) && y !in visited' && y !in queued && depth < MAX_DEPTH && count + 1 + |rest| < MAX_NODES ==>
              pending' != [] && pending'[|pending'| - 1].0 == y
  {
    ghost var kept, unique;
    var cut;
    visited' := visited + {current};
    pending', queued', cut, kept, unique := Expand(g(current), depth, rest, queued, visited', count + 1);
    truncated' := truncated || cut;
    RoundKeepsSizes(g(current), rest, current, depth, queued, visited, count, kept, unique);
    RoundKeepsProgress(g, root, rest, current, depth, queued, visited, truncated, kept, unique, cut);
    RoundKeepsSmall(g, root, rest, current, depth, queued, visited, count, truncated, kept, unique);
    if cut { RoundBudget(g, root, rest, current, depth, queued, visited, count, truncated, unique); }
    if kept != [] { StackedTop(kept, depth + 1); }
  }

  lemma RoundKeepsSizes(node: Node, rest: seq<(ExcId, nat)>, current: ExcId, depth: nat, queued: set<ExcId>,
                        visited: set<ExcId>, count: nat, kept: seq<ExcId>, unique: seq<ExcId>)
    requires HasSize(queued, |rest|) && HasSize(visited, count) && current !in visited && count + 1 + |rest| + |kept| <= MAX_NODES
    requires FreshLinks(node, visited + {current} + queued, unique) && kept <= unique
    ensures Sizes(rest + Stacked(kept, depth + 1), queued + Elements(kept), visited + {current}, count + 1)
  {
    assert forall x :: x in kept ==> x in unique;
    StepKeepsSizes(rest, current, depth + 1, queued, visited, count, kept);
  }

  lemma RoundKeepsProgress(g: Graph, root: ExcId, rest: seq<(ExcId, nat)>, current: ExcId, depth: nat, queued: set<ExcId>,
                           visited: set<ExcId>, truncated: bool, kept: seq<ExcId>, unique: seq<ExcId>, cut: bool)
    requires Progress(g, root, rest + [(current, depth)], queued + {current}, visited, truncated)
    requires queued == Ids(rest) && current !in queued && !Durable(g(current))
    requires FreshLinks(g(current), visited + {current} + queued, unique) && kept <= unique && (depth >= MAX_DEPTH ==> kept == [])
    requires !cut ==> Covered(g(current), visited + {current} + (queued + Elements(kept)))
    ensures Progress(g, root, rest + Stacked(kept, depth + 1), queued + Elements(kept), visited + {current}, truncated || cut)
  {
    assert forall x :: x in kept ==> x in unique;
    StepKeepsProgress(g, root, rest, current, depth, queued, visited, truncated, kept, cut);
  }

  lemma RoundKeepsSmall(g: Graph, root: ExcId, rest: seq<(ExcId, nat)>, current: ExcId, depth: nat, queued: set<ExcId>,
                        visited: set<ExcId>, count: nat, truncated: bool, kept: seq<ExcId>, unique: seq<ExcId>)
    requires Progress(g, root, rest + [(current, depth)], queued + {current}, visited, truncated)
    requires SmallOk(g, root, visited + (queued + {current}), truncated)
    requires current !in queued && current !in visited
    requires HasSize(queued, |rest|) && HasSize(visited, count) && count + 1 + |rest| <= MAX_NODES
    requires FreshLinks(g(current), visited + {current} + queued, unique) && kept <= unique
    ensures SmallOk(g, root, visited + {current} + (queued + Elements(kept)),
                    truncated || Cut(g(current), depth, MAX_NODES - count - 1 - |rest|, unique))
  {
    assert Threaded(g, root, current, depth, visited) by { assert (current, depth) in rest + [(current, depth)]; }
    SmallKept(g, root, queued, visited, count, |rest|, current, depth, MAX_NODES - count - 1 - |rest|, unique, kept, truncated);
  }

  lemma {:induction false} IdsMember(pending: seq<(ExcId, nat)>, x: ExcId)
    requires x in Ids(pending)
    ensures exists e :: e in pending && e.0 == x
  {
    var n := |pending| - 1;
    if pending[n].0 == x {
      assert pending[n] in pending;
    } else {
      IdsMember(pending[..n], x);
      var e :| e in pending[..n] && e.0 == x;
      assert e in pending;
    }
  }

  /** Everything visited or queued is reachable. */
  lemma KnownIsReachable(g: Graph, root: ExcId, pending: seq<(ExcId, nat)>, visited: set<ExcId>)
    requires PendingOk(g, root, pending, visited) && VisitedOk(g, root, visited)
    ensures AllReachable(g, root, visited + Ids(pending))
  {
    forall x | x in visited + Ids(pending) ensures Reachable(g, root, x) {
      if x in visited {
        assert ReachableWithin(g, root, x, MAX_DEPTH);
      } else {
        IdsMember(pending, x);
        var e :| e in pending && e.0 == x;
        ThreadedIsReachable(g, root, e.0, e.1, visited);
      }
    }
  }

  /** An expansion is only cut short where a budget is met. */
  lemma CutMeansBudget(g: Graph, root: ExcId, known: set<ExcId>, current: ExcId, depth: nat, visited: set<ExcId>, room: nat, unique: seq<ExcId>)
    requires AllReachable(g, root, known) && current in known && visited <= known && |known| + room == MAX_NODES
    requires Threaded(g, root, current, depth, visited) && FreshLinks(g(current), known, unique) && Cut(g(current), depth, room, unique)
    ensures BudgetMet(g, root)
  {
    assert Reachable(g, root, current);
    if depth >= MAX_DEPTH && unique != [] {
      assert unique[0] in unique;
      TooDeep(g, root, current, unique[0], depth, visited);
    } else if |unique| > room {
      TooMany(g, root, known, current, unique);
    } else if !Hostile(g(current)) {
      assert |g(current).group.items| + |known| > MAX_NODES;
    }
  }

  lemma RoundBudget(g: Graph, root: ExcId, rest: seq<(ExcId, nat)>, current: ExcId, depth: nat, queued: set<ExcId>,
                    visited: set<ExcId>, count: nat, truncated: bool, unique: seq<ExcId>)
    requires Progress(g, root, rest + [(current, depth)], queued + {current}, visited, truncated)
    requires current !in queued && current !in visited && HasSize(queued, |rest|) && HasSize(visited, count) && count + 1 + |rest| <= MAX_NODES
    requires FreshLinks(g(current), visited + {current} + queued, unique)
    requires Cut(g(current), depth, MAX_NODES - count - 1 - |rest|, unique)
    ensures BudgetMet(g, root)
  {
    var known := visited + (queued + {current});
    assert AllReachable(g, root, known) by { KnownIsReachable(g, root, rest + [(current, depth)], visited); }
    assert Threaded(g, root, current, depth, visited) by { assert (current, depth) in rest + [(current, depth)]; }
    KnownSize(queued, visited, current, |rest|, count);
    assert known == visited + {current} + queued;
    CutMeansBudget(g, root, known, current, depth, visited, MAX_NODES - count - 1 - |rest|, unique);
  }

  lemma KnownSize(queued: set<ExcId>, visited: set<ExcId>, current: ExcId, waiting: nat, count: nat)
    requires visited !! queued && current !in queued && current !in visited && HasSize(queued, waiting) && HasSize(visited, count)
    ensures |visited + (queued + {current})| == count + 1 + waiting
  {
    HasSizeIff(visited, count);
    HasSizeIff(queued, waiting);
    assert |queued + {current}| == waiting + 1;
  }

  lemma TooDeep(g: Graph, root: ExcId, v: ExcId, x: ExcId, depth: nat, visited: set<ExcId>)
    requires Threaded(g, root, v, depth, visited) && depth >= MAX_DEPTH && Links(g(v), x) && x !in visited && x != v
    ensures !Shallow(g, root)
  {
    ThreadedGrows(g, root, v, depth, visited, visited + {v});
    if Shallow(g, root) { ShallowEnds(g, root, v, x, depth, visited + {v}); }
  }

  lemma TooMany(g: Graph, root: ExcId, known: set<ExcId>, current: ExcId, unique: seq<ExcId>)
    requires AllReachable(g, root, known) && current in known && |known| + |unique| > MAX_NODES
    requires (forall x :: x in unique ==> Links(g(current), x) && x !in known) && Distinct(unique)
    ensures exists s: set<ExcId> :: AllReachable(g, root, s) && |s| > MAX_NODES
  {
    var all := known + Elements(unique);
    DistinctSize(unique);
    assert |all| == |known| + |Elements(unique)|;
    var p :| Path(g, p, root, current);
    forall x | x in unique ensures Reachable(g, root, x) {
      assert (p + [x])[..|p|] == p;
      assert Path(g, p + [x], root, x);
    }
    assert AllReachable(g, root, all);
  }

  lemma FoundIsReal(g: Graph, root: ExcId, rest: seq<(ExcId, nat)>, current: ExcId, depth: nat, queued: set<ExcId>,
                    visited: set<ExcId>, truncated: bool)
    requires Progress(g, root, rest + [(current, depth)], queued + {current}, visited, truncated) && Durable(g(current))
    ensures Reachable(g, root, current)
  {
    assert (current, depth) in rest + [(current, depth)];
    ThreadedIsReachable(g, root, current, depth, visited);
  }

  lemma FinishedIsClosed(g: Graph, root: ExcId, queued: set<ExcId>, visited: set<ExcId>)
    requires Progress(g, root, [], queued, visited, false)
    ensures Closed(g, visited)
    ensures forall x :: Reachable(g, root, x) ==>
              x in visited && !Durable(g(x)) && !Hostile(g(x)) && ReachableWithin(g, root, x, MAX_DEPTH)
  {
    assert queued == {};
    assert visited + queued == visited;
    forall v, x | v in visited && Links(g(v), x) ensures x in visited {
      assert Covered(g(v), visited + queued);
    }
    ClosedHoldsReachable(g, visited, root);
  }
}
