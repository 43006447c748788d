/** Checkpoint requests: exact sparse journal sources plus the receipts that authorise derived messages
    (`checkpoints.py`). The request id digests every other field, so it is represented by the request itself. */
module Checkpoints {
  import opened Wrappers
  import opened ContextTypes
  import opened Sorting

  /** A workflow step identity as both sides record it. */
  datatype Workflow = Workflow(node: Option<Id>, step: Option<nat>, steps: Option<nat>, iteration: Option<nat>)

  /** `successful`: the receipt is a run_completed event with status completed. */
  datatype Dependency = Dependency(source: Cursor, receipt: Cursor, successful: bool, attempt: Id, workflow: Workflow, digest: nat)

  datatype Range = Range(start: Cursor, end: Cursor)

  datatype Request = Request(sources: seq<Cursor>, digests: seq<nat>, messages: seq<Message>, dependencies: seq<Dependency>, range: Range)

  // ----- Records ----------------------------------------------------------------------------------

  /** The constructor of one dependency; `idOk` is the identifier syntax check. */
  predicate DependencyOk(idOk: Id -> bool, d: Dependency) {
    && 0 < d.source.at < d.receipt.at && d.successful && idOk(d.attempt)
    && (d.workflow.node.Some? ==> idOk(d.workflow.node.value))
    && (d.workflow.step.Some? <==> d.workflow.steps.Some?)
    && (d.workflow.step.Some? ==> d.workflow.step.value < d.workflow.steps.value)
  }

  /** `_validate_source_events`. */
  predicate SourcesOk(sources: seq<Cursor>) {
    && sources != []
    && (forall i, j :: 0 <= i < j < |sources| ==> sources[i].id != sources[j].id)
    && (forall i :: 0 <= i < |sources| ==> sources[i].at > 0)
    && (forall i, j :: 0 <= i < j < |sources| ==> sources[i].at < sources[j].at)
  }

  // ----- Dependencies -----------------------------------------------------------------------------

  /** Sources lie in the manifest and are distinct; no receipt shares an event id or a sequence number with a
      source or with another receipt. */
  predicate DependenciesOk(sources: seq<Cursor>, ds: seq<Dependency>) {
    && (forall i :: 0 <= i < |ds| ==> ds[i].source in sources)
    && (forall i, k :: 0 <= i < |ds| && 0 <= k < |sources| ==>
          ds[i].receipt.id != sources[k].id && ds[i].receipt.at != sources[k].at)
    && (forall i, j :: 0 <= i < j < |ds| ==>
          ds[i].source != ds[j].source && ds[i].receipt.id != ds[j].receipt.id && ds[i].receipt.at != ds[j].receipt.at)
  }

  /** `_validate_dependencies`: one pass with growing sets of used ids, sequence numbers and sources. */
  method ValidateDependencies(sources: seq<Cursor>, ds: seq<Dependency>) returns (ok: bool)
    ensures ok <==> DependenciesOk(sources, ds)
  {
    var manifest := set c | c in sources;
    var ids := set c | c in sources :: c.id;
    var seqs := set c | c in sources :: c.at;
    var used: set<Cursor>, receipts: set<Cursor> := {}, {};
    for i := 0 to |ds|
      invariant DependenciesOk(sources, ds[..i])
      invariant used == set k | 0 <= k < i :: ds[k].source
      invariant receipts == set k | 0 <= k < i :: ds[k].receipt
      invariant ids == (set c | c in sources :: c.id) + (set k | 0 <= k < i :: ds[k].receipt.id)
      invariant seqs == (set c | c in sources :: c.at) + (set k | 0 <= k < i :: ds[k].receipt.at)
    {
      var d := ds[i];
      if d.source !in manifest { return false; }
      if d.receipt.id in ids || d.receipt.at in seqs {
        Aliased(sources, ds, i);
        return false;
      }
      if d.source in used || d.receipt in receipts {
        Aliased(sources, ds, i);
        return false;
      }
      used, receipts := used + {d.source}, receipts + {d.receipt};
      ids, seqs := ids + {d.receipt.id}, seqs + {d.receipt.at};
      NotAliased(sources, ds, i);
    }
    assert ds[..|ds|] == ds;
    ok := true;
  }

  lemma Aliased(sources: seq<Cursor>, ds: seq<Dependency>, i: nat)
    requires i < |ds|
    requires (exists c :: c in sources && (c.id == ds[i].receipt.id || c.at == ds[i].receipt.at)) ||
             (exists k :: 0 <= k < i && (ds[k].receipt.id == ds[i].receipt.id || ds[k].receipt.at == ds[i].receipt.at || ds[k].source == ds[i].source))
    ensures !DependenciesOk(sources, ds)
  {
    if c :| c in sources && (c.id == ds[i].receipt.id || c.at == ds[i].receipt.at) {
      var k :| 0 <= k < |sources| && sources[k] == c;
    }
  }

  lemma NotAliased(sources: seq<Cursor>, ds: seq<Dependency>, i: nat)
    requires i < |ds| && DependenciesOk(sources, ds[..i]) && ds[i].source in sources
    requires forall c :: c in sources ==> c.id != ds[i].receipt.id && c.at != ds[i].receipt.at
    requires forall k :: 0 <= k < i ==>
               ds[k].receipt.id != ds[i].receipt.id && ds[k].receipt.at != ds[i].receipt.at && ds[k].source != ds[i].source
    ensures DependenciesOk(sources, ds[..i + 1])
  {
    var (a, b) := (ds[..i], ds[..i + 1]);
    assert forall k :: 0 <= k < i ==> b[k] == a[k];
    assert b[i] == ds[i];
    forall k | 0 <= k < |sources| ensures b[i].receipt.id != sources[k].id && b[i].receipt.at != sources[k].at {
      assert sources[k] in sources;
    }
    assert forall k :: 0 <= k < i ==> a[k] == ds[k];
  }

  // ----- Coverage ---------------------------------------------------------------------------------

  function Receipts(ds: seq<Dependency>): seq<Cursor> {
    seq(|ds|, i requires 0 <= i < |ds| => ds[i].receipt)
  }

  lemma BeforeIsStrictTotal() ensures StrictTotal(BeforeFn()) {}

  /** `_coverage_range`: the extremes of all cursors a checkpoint speaks about. */
  function CoverageRange(sources: seq<Cursor>, ds: seq<Dependency>): (r: Range)
    requires sources != []
    ensures r.start in sources + Receipts(ds) && r.end in sources + Receipts(ds)
    ensures forall c :: c in sources + Receipts(ds) ==> (c == r.start || Before(r.start, c)) && (c == r.end || Before(c, r.end))
  {
    var all := sources + Receipts(ds);
    var ordered := SortUnique(BeforeFn(), all);
    assert sources[0] in all;
    BeforeIsStrictTotal();
    SortUniqueOk(BeforeFn(), all);
    OrderedExtremes(ordered);
    Range(ordered[0], ordered[|ordered| - 1])
  }

  lemma OrderedExtremes(s: seq<Cursor>)
    requires Increasing(BeforeFn(), s) && exists c :: c in s
    ensures s != []
    ensures forall c :: c in s ==> (c == s[0] || Before(s[0], c)) && (c == s[|s| - 1] || Before(c, s[|s| - 1]))
  {
    forall c | c in s ensures (c == s[0] || Before(s[0], c)) && (c == s[|s| - 1] || Before(c, s[|s| - 1])) {
      var i :| 0 <= i < |s| && s[i] == c;
      assert BeforeFn()(s[0], s[i]) || i == 0;
      assert BeforeFn()(s[i], s[|s| - 1]) || i == |s| - 1;
    }
  }

  /** `build_checkpoint_request`. */
  function Build(sources: seq<Cursor>, messages: seq<Message>, digests: seq<nat>, ds: seq<Dependency>): Result<Request> {
    if !SourcesOk(sources) || |messages| != |sources| || |digests| != |sources| || !DependenciesOk(sources, ds) then Rejected
    else Ok(Request(sources, digests, messages, ds, CoverageRange(sources, ds)))
  }

  // ----- Requests for source messages ---------------------------------------------------------------

  /** The compiler's messages, the cursors they are bound to, and what the journal projection knows about them.
      `digest` is used for a message whose event digest is not known. */
  datatype Manifest = Manifest(
    messages: seq<Message>, cursors: map<nat, Cursor>, digests: map<Cursor, nat>, dependencies: seq<Dependency>,
    digest: (Cursor, Message) -> nat)

  predicate Bound(m: Manifest, indexes: seq<nat>) {
    forall k :: 0 <= k < |indexes| ==> indexes[k] in m.cursors && indexes[k] < |m.messages|
  }

  function Cursors(m: Manifest, indexes: seq<nat>): seq<Cursor>
    requires Bound(m, indexes)
  { seq(|indexes|, k requires 0 <= k < |indexes| => m.cursors[indexes[k]]) }

  function Messages(m: Manifest, indexes: seq<nat>): seq<Message>
    requires Bound(m, indexes)
  { seq(|indexes|, k requires 0 <= k < |indexes| => m.messages[indexes[k]]) }

  function Digests(m: Manifest, indexes: seq<nat>): seq<nat>
    requires Bound(m, indexes)
  {
    var known := forall k :: 0 <= k < |indexes| ==> m.cursors[indexes[k]] in m.digests;
    seq(|indexes|, k requires 0 <= k < |indexes| =>
          if known then m.digests[m.cursors[indexes[k]]] else m.digest(m.cursors[indexes[k]], m.messages[indexes[k]]))
  }

  function Relevant(ds: seq<Dependency>, sources: seq<Cursor>): seq<Dependency> {
    if ds == [] then []
    else Relevant(ds[..|ds| - 1], sources) + (if ds[|ds| - 1].source in sources then [ds[|ds| - 1]] else [])
  }

  /** `_checkpoint_request_for_indexes`, for indexes already sorted and distinct. */
  function RequestFor(m: Manifest, indexes: seq<nat>): Result<Request> {
    if indexes == [] || !Bound(m, indexes) then Rejected
    else
      var sources := Cursors(m, indexes);
      Build(sources, Messages(m, indexes), Digests(m, indexes), Relevant(m.dependencies, sources))
  }

  /** What a projected history guarantees: bound messages follow journal order, and receipts are journal
      positions of their own. */
  ghost predicate ManifestOk(m: Manifest) {
    && (forall i :: i in m.cursors ==> i < |m.messages| && m.cursors[i].at > 0)
    && (forall i, j :: i in m.cursors && j in m.cursors && i < j ==>
          m.cursors[i].at < m.cursors[j].at && m.cursors[i].id != m.cursors[j].id)
    && (forall k, i :: 0 <= k < |m.dependencies| && i in m.cursors ==>
          m.dependencies[k].receipt.id != m.cursors[i].id && m.dependencies[k].receipt.at != m.cursors[i].at)
    && (forall k, l :: 0 <= k < l < |m.dependencies| ==> Apart(m.dependencies[k], m.dependencies[l]))
  }

  ghost predicate Sorted(indexes: seq<nat>) { forall k, l :: 0 <= k < l < |indexes| ==> indexes[k] < indexes[l] }

  predicate Apart(d: Dependency, e: Dependency) {
    d.source != e.source && d.receipt.id != e.receipt.id && d.receipt.at != e.receipt.at
  }

  /** `Relevant` picks what is selected, and keeps dependencies apart. */
  lemma {:induction false} RelevantPicks(ds: seq<Dependency>, sources: seq<Cursor>)
    ensures forall d :: d in Relevant(ds, sources) <==> d in ds && d.source in sources
    ensures (forall k, l :: 0 <= k < l < |ds| ==> Apart(ds[k], ds[l])) ==>
              forall k, l :: 0 <= k < l < |Relevant(ds, sources)| ==> Apart(Relevant(ds, sources)[k], Relevant(ds, sources)[l])
  {
    if ds != [] {
      var n := |ds| - 1;
      RelevantPicks(ds[..n], sources);
      SplitLast(ds);
      if forall k, l :: 0 <= k < l < |ds| ==> Apart(ds[k], ds[l]) {
        var (front, all) := (Relevant(ds[..n], sources), Relevant(ds, sources));
        forall k, l | 0 <= k < l < |all| ensures Apart(all[k], all[l]) {
          if l == |front| {
            assert all[k] in front;
            var a :| 0 <= a < n && ds[..n][a] == all[k];
            assert Apart(ds[a], ds[n]);
          }
        }
      }
    }
  }

  /** Every non-empty set of cursor-bearing messages of a projected history can be checkpointed; the request
      names exactly those messages and exactly the receipts of those that need one. */
  lemma EveryHistoryCheckpoints(m: Manifest, indexes: seq<nat>)
    requires ManifestOk(m) && Sorted(indexes) && indexes != [] && forall k :: 0 <= k < |indexes| ==> indexes[k] in m.cursors
    ensures RequestFor(m, indexes).Ok?
    ensures var q := RequestFor(m, indexes).value;
            && q.sources == Cursors(m, indexes) && q.messages == Messages(m, indexes)
            && (forall d :: d in q.dependencies <==> d in m.dependencies && d.source in q.sources)
            && Names(m, indexes, q)
  {
    var sources := Cursors(m, indexes);
    RequestNames(m, indexes);
    assert SourcesOk(sources);
    RelevantPicks(m.dependencies, sources);
    DependenciesOfManifest(m, indexes);
  }

  lemma DependenciesOfManifest(m: Manifest, indexes: seq<nat>)
    requires ManifestOk(m) && Bound(m, indexes)
    ensures DependenciesOk(Cursors(m, indexes), Relevant(m.dependencies, Cursors(m, indexes)))
  {
    var sources := Cursors(m, indexes);
    var ds := Relevant(m.dependencies, sources);
    RelevantPicks(m.dependencies, sources);
    forall i | 0 <= i < |ds| ensures ds[i] in m.dependencies && ds[i].source in sources { assert ds[i] in ds; }
    forall i, k | 0 <= i < |ds| && 0 <= k < |sources|
      ensures ds[i].receipt.id != sources[k].id && ds[i].receipt.at != sources[k].at
    {
      var a :| 0 <= a < |m.dependencies| && m.dependencies[a] == ds[i];
      assert indexes[k] in m.cursors;
    }
    forall i, j | 0 <= i < j < |ds|
      ensures ds[i].source != ds[j].source && ds[i].receipt.id != ds[j].receipt.id && ds[i].receipt.at != ds[j].receipt.at
    {
      assert Apart(ds[i], ds[j]);
    }
  }

  // ----- What a request says, and when there is one -------------------------------------------------

  /** `idx` are the positions at which `ds` stands in `all`. */
  ghost predicate StandsAt(all: seq<Dependency>, ds: seq<Dependency>, idx: seq<nat>) {
    |idx| == |ds| && Sorted(idx) && forall k :: 0 <= k < |idx| ==> idx[k] < |all| && all[idx[k]] == ds[k]
  }

  /** The selected dependencies are all those of selected sources, in their order. */
  lemma {:induction false} RelevantAt(ds: seq<Dependency>, sources: seq<Cursor>) returns (idx: seq<nat>)
    ensures StandsAt(ds, Relevant(ds, sources), idx)
    ensures forall i: nat :: i in idx <==> i < |ds| && ds[i].source in sources
  {
    if ds == [] {
      idx := [];
    } else {
      var n := |ds| - 1;
      var front := RelevantAt(ds[..n], sources);
      assert forall k :: 0 <= k < |front| ==> front[k] in front;
      idx := front + (if ds[n].source in sources then [n] else []);
      assert forall i: nat :: i < n ==> ds[..n][i] == ds[i];
    }
  }

  /** Journal positions ascend, and the dependencies of the selected messages are apart from each other and from them. */
  ghost predicate Coverable(m: Manifest, indexes: seq<nat>) {
    && indexes != [] && (forall k :: 0 <= k < |indexes| ==> indexes[k] in m.cursors && indexes[k] < |m.messages| && m.cursors[indexes[k]].at > 0)
    && (forall k, l :: 0 <= k < l < |indexes| ==>
          m.cursors[indexes[k]].at < m.cursors[indexes[l]].at && m.cursors[indexes[k]].id != m.cursors[indexes[l]].id)
    && (forall a: nat, k :: a < |m.dependencies| && Depends(m, indexes, a) && 0 <= k < |indexes| ==>
          m.dependencies[a].receipt.id != m.cursors[indexes[k]].id && m.dependencies[a].receipt.at != m.cursors[indexes[k]].at)
    && (forall a: nat, b: nat :: a < b < |m.dependencies| && Depends(m, indexes, a) && Depends(m, indexes, b) ==>
          Apart(m.dependencies[a], m.dependencies[b]))
  }

  ghost predicate Depends(m: Manifest, indexes: seq<nat>, a: nat)
    requires a < |m.dependencies|
  { exists k :: 0 <= k < |indexes| && indexes[k] in m.cursors && m.cursors[indexes[k]] == m.dependencies[a].source }

  /** The request's fields, message by message. */
  ghost predicate Names(m: Manifest, indexes: seq<nat>, q: Request) {
    && |q.sources| == |q.messages| == |q.digests| == |indexes| && Bound(m, indexes)
    && (forall k :: 0 <= k < |indexes| ==> q.sources[k] == m.cursors[indexes[k]] && q.messages[k] == m.messages[indexes[k]])
    && (if forall k :: 0 <= k < |indexes| ==> m.cursors[indexes[k]] in m.digests
        then forall k :: 0 <= k < |indexes| ==> q.digests[k] == m.digests[m.cursors[indexes[k]]]
        else forall k :: 0 <= k < |indexes| ==> q.digests[k] == m.digest(m.cursors[indexes[k]], m.messages[indexes[k]]))
    && (exists idx :: StandsAt(m.dependencies, q.dependencies, idx) && forall a: nat :: a in idx <==> a < |m.dependencies| && Depends(m, indexes, a))
    && Involves(q, q.range.start) && Involves(q, q.range.end)
    && (forall c :: Involves(q, c) ==> q.range.start.at <= c.at <= q.range.end.at)
  }

  ghost predicate Involves(q: Request, c: Cursor) { c in q.sources || exists k :: 0 <= k < |q.dependencies| && q.dependencies[k].receipt == c }

  lemma InvolvesIs(q: Request, c: Cursor)
    ensures Involves(q, c) <==> c in q.sources + Receipts(q.dependencies)
  {
    var receipts := Receipts(q.dependencies);
    assert |receipts| == |q.dependencies| && forall k :: 0 <= k < |receipts| ==> receipts[k] == q.dependencies[k].receipt;
  }

  lemma DependsIs(m: Manifest, indexes: seq<nat>, a: nat)
    requires a < |m.dependencies| && Bound(m, indexes)
    ensures Depends(m, indexes, a) <==> m.dependencies[a].source in Cursors(m, indexes)
  {
    var sources := Cursors(m, indexes);
    assert forall k :: 0 <= k < |indexes| ==> sources[k] == m.cursors[indexes[k]];
  }

  lemma RequestNames(m: Manifest, indexes: seq<nat>)
    ensures RequestFor(m, indexes).Ok? ==> Names(m, indexes, RequestFor(m, indexes).value)
  {
    if RequestFor(m, indexes).Ok? {
      var q := RequestFor(m, indexes).value;
      var idx := RelevantAt(m.dependencies, Cursors(m, indexes));
      forall a: nat | a < |m.dependencies| ensures Depends(m, indexes, a) <==> m.dependencies[a].source in q.sources { DependsIs(m, indexes, a); }
      assert StandsAt(m.dependencies, q.dependencies, idx);
      forall c ensures Involves(q, c) <==> c in q.sources + Receipts(q.dependencies) { InvolvesIs(q, c); }
    }
  }

  lemma SourcesAre(m: Manifest, indexes: seq<nat>)
    requires Bound(m, indexes)
    ensures SourcesOk(Cursors(m, indexes)) <==>
              && indexes != [] && (forall k :: 0 <= k < |indexes| ==> m.cursors[indexes[k]].at > 0)
              && (forall k, l :: 0 <= k < l < |indexes| ==>
                    m.cursors[indexes[k]].at < m.cursors[indexes[l]].at && m.cursors[indexes[k]].id != m.cursors[indexes[l]].id)
  {
    var sources := Cursors(m, indexes);
    assert |sources| == |indexes| && forall k :: 0 <= k < |indexes| ==> sources[k] == m.cursors[indexes[k]];
  }

  /** Conditions on the selected dependencies are conditions on their positions. */
  lemma DependenciesAt(sources: seq<Cursor>, all: seq<Dependency>, ds: seq<Dependency>, idx: seq<nat>)
    requires StandsAt(all, ds, idx) && forall i: nat :: i in idx <==> i < |all| && all[i].source in sources
    ensures DependenciesOk(sources, ds) <==>
              && (forall a: nat, k :: a < |all| && all[a].source in sources && 0 <= k < |sources| ==>
                    all[a].receipt.id != sources[k].id && all[a].receipt.at != sources[k].at)
              && (forall a: nat, b: nat :: a < b < |all| && all[a].source in sources && all[b].source in sources ==> Apart(all[a], all[b]))
  {
    assert forall k :: 0 <= k < |idx| ==> idx[k] in idx;
    if DependenciesOk(sources, ds) {
      forall a: nat, b: nat | a < b < |all| && all[a].source in sources && all[b].source in sources ensures Apart(all[a], all[b]) {
        var i :| 0 <= i < |idx| && idx[i] == a;
        var j :| 0 <= j < |idx| && idx[j] == b;
        assert ds[i].source != ds[j].source;
      }
      forall a: nat, k | a < |all| && all[a].source in sources && 0 <= k < |sources|
        ensures all[a].receipt.id != sources[k].id && all[a].receipt.at != sources[k].at
      {
        var i :| 0 <= i < |idx| && idx[i] == a;
        assert ds[i] == all[a];
      }
    }
  }

  /** There is a request exactly for a coverable selection, and it names the selection's cursors, messages and digests, and the
      receipts its messages depend on. */
  lemma RequestExactly(m: Manifest, indexes: seq<nat>)
    ensures RequestFor(m, indexes).Ok? <==> Coverable(m, indexes)
    ensures RequestFor(m, indexes).Ok? ==> Names(m, indexes, RequestFor(m, indexes).value)
  {
    RequestNames(m, indexes);
    if indexes != [] && Bound(m, indexes) { CoverableIs(m, indexes); }
  }

  lemma CoverableIs(m: Manifest, indexes: seq<nat>)
    requires indexes != [] && Bound(m, indexes)
    ensures var sources := Cursors(m, indexes);
            Coverable(m, indexes) <==> SourcesOk(sources) && DependenciesOk(sources, Relevant(m.dependencies, sources))
  {
    var sources := Cursors(m, indexes);
    SourcesAre(m, indexes);
    var idx := RelevantAt(m.dependencies, sources);
    DependenciesAt(sources, m.dependencies, Relevant(m.dependencies, sources), idx);
    forall a: nat | a < |m.dependencies| ensures Depends(m, indexes, a) <==> m.dependencies[a].source in sources { DependsIs(m, indexes, a); }
    ClearIs(m, indexes, sources);
  }

  lemma ClearIs(m: Manifest, indexes: seq<nat>, sources: seq<Cursor>)
    requires |sources| == |indexes| && forall k :: 0 <= k < |indexes| ==> indexes[k] in m.cursors && sources[k] == m.cursors[indexes[k]]
    requires forall a: nat :: a < |m.dependencies| ==> (Depends(m, indexes, a) <==> m.dependencies[a].source in sources)
    ensures (forall a: nat, k :: a < |m.dependencies| && Depends(m, indexes, a) && 0 <= k < |indexes| ==>
               m.dependencies[a].receipt.id != m.cursors[indexes[k]].id && m.dependencies[a].receipt.at != m.cursors[indexes[k]].at) <==>
            (forall a: nat, k :: a < |m.dependencies| && m.dependencies[a].source in sources && 0 <= k < |sources| ==>
               m.dependencies[a].receipt.id != sources[k].id && m.dependencies[a].receipt.at != sources[k].at)
  {}

  /** A request determines the messages it covers. */
  lemma RequestDeterminesIndexes(m: Manifest, a: seq<nat>, b: seq<nat>)
    requires RequestFor(m, a).Ok? && RequestFor(m, a) == RequestFor(m, b)
    requires forall i, j :: i in m.cursors && j in m.cursors && i != j ==> m.cursors[i] != m.cursors[j]
    ensures a == b
  {
    assert Cursors(m, a) == Cursors(m, b);
    assert |a| == |Cursors(m, a)| == |b|;
    forall k | 0 <= k < |a| ensures a[k] == b[k] {
      assert Cursors(m, a)[k] == m.cursors[a[k]] && Cursors(m, b)[k] == m.cursors[b[k]];
    }
  }
}
