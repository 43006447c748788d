/** `RunBundleReducer.reduce` and `reduce_bundles`, against the recomputation in `RunBundle._validate_projection`. */
module RunReducer {
  import opened Wrappers
  import opened Usage
  import opened Sorting
  import opened RunTopology
  import opened RunBundle

  datatype Bundle = Bundle(
    identity: Identity, status: nat, receipts: seq<Receipt>, children: seq<Child>, events: seq<Event>,
    directCalls: seq<Id>, descendantCalls: seq<Id>, allCalls: seq<Id>,
    directUsage: Usage, descendantUsage: Usage, allUsage: Usage,
    slices: seq<Slice>, coverage: Coverage, cost: Cost,
    receiptDigests: set<Receipt>, rawUsages: set<Id>, snapshots: set<Id>, legacy: bool)

  function CallOf(r: Receipt): Id { r.call }
  function RunOf(c: Child): Id { c.run }
  function EventId(ids: EventIds): Event -> Id { (e: Event) => ids(e.key) }

  function Direct(run: Id, rs: seq<Receipt>): seq<Receipt> { Filter((r: Receipt) => r.owner == run, rs) }
  function Descendant(run: Id, rs: seq<Receipt>): seq<Receipt> { Filter((r: Receipt) => r.owner != run, rs) }

  function RawUsages(rs: seq<Receipt>): set<Id> { set r | r in rs && r.rawUsage.Some? :: r.rawUsage.value }

  predicate HasLegacy(rs: seq<Receipt>) { exists i :: 0 <= i < |rs| && rs[i].usage.source == LegacyPartial }

  function AttemptEvents(rs: seq<Receipt>): seq<Event> {
    seq(|rs|, i requires 0 <= i < |rs| => AttemptEvent(rs[i]))
  }

  /** Everything `reduce` computes before handing it to the constructor. */
  function Assemble(id: Identity, status: nat, rs: seq<Receipt>, cs: seq<Child>, es: seq<Event>): Result<Bundle> {
    var (direct, descendant) := (Direct(id.run, rs), Descendant(id.run, rs));
    var (u, v, w) := (SumUsage(Usages(direct)), SumUsage(Usages(descendant)), TotalsOf(rs));
    var slices := SlicesOf(SliceGroups(rs));
    if u.Rejected? || v.Rejected? || w.Rejected? || slices.Rejected? then Rejected
    else Ok(Bundle(
      id, status, rs, cs, es, Calls(direct), Calls(descendant), Calls(rs), u.value, v.value, w.value.usage,
      slices.value, w.value.coverage, w.value.cost,
      (set r | r in rs), RawUsages(rs), Snapshots(rs), HasLegacy(rs)))
  }

  // ----- The constructor's checks -----------------------------------------------------------------

  function ParentsOf(cs: seq<Child>): Parents {
    if cs == [] then map[] else ParentsOf(cs[..|cs| - 1])[cs[|cs| - 1].run := cs[|cs| - 1].parent]
  }

  /** The child named by an owner id. */
  function Attempts(id: Identity, cs: seq<Child>): map<Id, (Id, Option<Id>)> {
    if cs == [] then map[id.run := (id.attempt, id.parent)]
    else Attempts(id, cs[..|cs| - 1])[cs[|cs| - 1].run := (cs[|cs| - 1].attempt, Some(cs[|cs| - 1].parent))]
  }

  predicate ChildOk(id: Identity, c: Child) {
    var identity := Identity(id.execution, c.attempt, id.root, c.run, Some(c.parent), ChildRun(c.kind));
    c.bundle == Some(identity) && IdentityOk(identity)
  }

  predicate ReceiptOk(id: Identity, owners: map<Id, (Id, Option<Id>)>, r: Receipt) {
    r.execution == id.execution && r.root == id.root && r.owner in owners && r.attempt == owners[r.owner].0
  }

  predicate EventOk(id: Identity, owners: map<Id, (Id, Option<Id>)>, e: Event) {
    && e.key.execution == id.execution && e.key.root == id.root
    && e.key.owner in owners && e.key.attempt == owners[e.key.owner].0 && e.key.parent == owners[e.key.owner].1
  }

  /** The last model-attempt event about a call, in event order. */
  function LastAttempt(es: seq<Event>, call: Id): Option<Event> {
    if es == [] then None
    else if es[|es| - 1].key.kind == ModelAttempt && es[|es| - 1].key.subject == call then Some(es[|es| - 1])
    else LastAttempt(es[..|es| - 1], call)
  }

  /** What the caller's facts must satisfy besides the topology. */
  predicate FactsFit(id: Identity, rs: seq<Receipt>, cs: seq<Child>, es: seq<Event>) {
    var owners := Attempts(id, cs);
    && |rs| <= MAX_RECEIPTS && |es| <= MAX_METRIC_EVENTS
    && (forall i :: 0 <= i < |cs| ==> ChildOk(id, cs[i]))
    && (forall i :: 0 <= i < |rs| ==> ReceiptOk(id, owners, rs[i]))
    && (forall i :: 0 <= i < |es| ==> EventOk(id, owners, es[i]))
    && (forall i :: 0 <= i < |es| && es[i].key.kind == ModelAttempt ==> es[i].key.subject in Calls(rs))
    && (forall i :: 0 <= i < |rs| ==>
          LastAttempt(es, rs[i].call).Some? && LastAttempt(es, rs[i].call).value.outcome == Ended(rs[i].status))
  }

  /** `by_id[call]`, as a sequence of at most one receipt. */
  function Find(rs: seq<Receipt>, call: Id): seq<Receipt> {
    if rs == [] then []
    else if rs[|rs| - 1].call == call then [rs[|rs| - 1]] else Find(rs[..|rs| - 1], call)
  }

  function Select(rs: seq<Receipt>, calls: seq<Id>): seq<Receipt> {
    if calls == [] then [] else Select(rs, calls[..|calls| - 1]) + Find(rs, calls[|calls| - 1])
  }

  function SlicedCalls(slices: seq<Slice>): seq<Id> {
    if slices == [] then [] else slices[0].calls + SlicedCalls(slices[1..])
  }

  predicate SliceOk(rs: seq<Receipt>, s: Slice) {
    && s.calls != []
    && (forall i :: 0 <= i < |Select(rs, s.calls)| ==> KeyOf(Select(rs, s.calls)[i]) == s.key)
    && TotalsOf(Select(rs, s.calls)) == Ok(s.totals)
  }

  /** Every derived field is what the receipts say it is. */
  predicate Recomputes(b: Bundle) {
    var (direct, descendant) := (Direct(b.identity.run, b.receipts), Descendant(b.identity.run, b.receipts));
    && b.directCalls == Calls(direct) && b.descendantCalls == Calls(descendant) && b.allCalls == Calls(b.receipts)
    && SumUsage(Usages(direct)) == Ok(b.directUsage) && SumUsage(Usages(descendant)) == Ok(b.descendantUsage)
    && TotalsOf(b.receipts) == Ok(Totals(b.allUsage, b.coverage, b.cost))
    // usage slices partition the calls exactly once
    && multiset(SlicedCalls(b.slices)) == multiset(Calls(b.receipts))
    && (forall i :: 0 <= i < |b.slices| ==> SliceOk(b.receipts, b.slices[i]))
    && b.receiptDigests == (set r | r in b.receipts) && b.rawUsages == RawUsages(b.receipts)
    && b.snapshots == Snapshots(b.receipts) && b.legacy == HasLegacy(b.receipts)
  }

  ghost predicate ValidProjection(b: Bundle) {
    && IsTree(ParentsOf(b.children), b.identity.run)
    && FactsFit(b.identity, b.receipts, b.children, b.events)
    && Recomputes(b)
  }

  ghost function Reduce(w: Wire, id: Identity, status: nat, facts: Facts): Result<Bundle> {
    var (rs, cs) := (Arrange(CallOf, facts.receipts), Arrange(RunOf, facts.children));
    if rs.Rejected? || cs.Rejected? then Rejected
    else
      var es := Arrange(EventId(w.ids), facts.events + AttemptEvents(rs.value));
      if es.Rejected? then Rejected
      else
        var b := Assemble(id, status, rs.value, cs.value, es.value);
        if b.Rejected? || !ValidProjection(b.value) || w.size(id, status, rs.value, cs.value, es.value) > MAX_CANONICAL_BYTES then Rejected
        else b
  }

  // ----- The reducer as it runs -------------------------------------------------------------------

  lemma {:induction false} ParentsKeys(cs: seq<Child>)
    ensures forall c :: c in ParentsOf(cs) <==> c in Keys(RunOf, cs)
  {
    if cs != [] {
      var (front, last) := (cs[..|cs| - 1], cs[|cs| - 1]);
      ParentsKeys(front);
      assert Keys(RunOf, cs) == Keys(RunOf, front) + [last.run];
    }
  }

  method ArrangeItems<V(==)>(key: V -> Id, items: seq<V>) returns (r: Result<seq<V>>)
    ensures r == Arrange(key, items)
  {
    var byId := Index(key, items);
    if byId.Rejected? { return Rejected; }
    r := Ok(Lookup(byId.value, SortUnique(Less(), Keys(key, items))));
  }

  method ReduceRun(w: Wire, id: Identity, status: nat, facts: Facts) returns (r: Result<Bundle>)
    ensures r == Reduce(w, id, status, facts)
  {
    var rs := ArrangeItems(CallOf, facts.receipts);
    if rs.Rejected? { return Rejected; }
    var cs := ArrangeItems(RunOf, facts.children);
    if cs.Rejected? { return Rejected; }
    var es := ArrangeItems(EventId(w.ids), facts.events + AttemptEvents(rs.value));
    if es.Rejected? { return Rejected; }
    r := Assemble(id, status, rs.value, cs.value, es.value);
    if r.Rejected? { return; }
    ParentsKeys(cs.value);
    var tree := ValidateTopology(ParentsOf(cs.value), id.run, Keys(RunOf, cs.value));
    if !tree || !FactsFit(id, rs.value, cs.value, es.value) || !Recomputes(r.value) { return Rejected; }
    if w.size(id, status, rs.value, cs.value, es.value) > MAX_CANONICAL_BYTES { return Rejected; }
  }

  /** The loop of `reduce_bundles` over the bundles to merge. */
  method GatherBundles(id: Identity, own: Facts, bundles: seq<Bundle>) returns (r: Option<Facts>)
    ensures r == Gather(id, own, bundles)
  {
    var all := own;
    for i := 0 to |bundles|
      invariant Gather(id, own, bundles[..i]) == Some(all)
    {
      assert bundles[..i + 1][..i] == bundles[..i];
      var next := Contribution(id, bundles[i]);
      if next.None? {
        GatherSticks(id, own, bundles, i + 1);
        return None;
      }
      all := Facts(all.receipts + next.value.receipts, all.children + next.value.children, all.events + next.value.events);
    }
    assert bundles[..|bundles|] == bundles;
    r := Some(all);
  }

  lemma {:induction false} GatherSticks(id: Identity, own: Facts, bundles: seq<Bundle>, k: nat)
    requires k <= |bundles| && Gather(id, own, bundles[..k]).None?
    ensures Gather(id, own, bundles).None?
  {
    if k == |bundles| {
      assert bundles[..k] == bundles;
    } else {
      assert bundles[..|bundles| - 1][..k] == bundles[..k];
      GatherSticks(id, own, bundles[..|bundles| - 1], k);
    }
  }

  // ----- Re-validation ----------------------------------------------------------------------------

  lemma {:induction false} FindOk(rs: seq<Receipt>, r: Receipt)
    requires Ascending(CallOf, rs) && r in rs
    ensures Find(rs, r.call) == [r]
  {
    var k := |rs| - 1;
    var i :| 0 <= i < |rs| && rs[i] == r;
    assert CallOf(rs[i]) < CallOf(rs[k]) || i == k;
    if i < k {
      assert rs[..k][i] == r;
      FindOk(rs[..k], r);
    }
  }

  lemma {:induction false} SelectGroup(rs: seq<Receipt>, group: seq<Receipt>)
    requires Ascending(CallOf, rs) && forall r :: r in group ==> r in rs
    ensures Select(rs, Calls(group)) == group
  {
    if group != [] {
      var (front, r) := (group[..|group| - 1], group[|group| - 1]);
      SplitLast(group);
      SelectGroup(rs, front);
      FindOk(rs, r);
      CallsAppend(front, r);
      assert Calls(group)[..|group| - 1] == Calls(front);
    }
  }

  lemma {:induction false} SlicesMatchGroups(groups: seq<Group>)
    requires SlicesOf(groups).Ok?
    ensures |SlicesOf(groups).value| == |groups|
    ensures forall i :: 0 <= i < |groups| ==> SliceFits(SlicesOf(groups).value[i], groups[i])
  {
    if groups != [] {
      var n := |groups| - 1;
      SlicesMatchGroups(groups[..n]);
      var last := SlicesExtend(groups);
      FitsExtend(SlicesOf(groups[..n]).value, last, groups);
    }
  }

  lemma SlicesExtend(groups: seq<Group>) returns (last: Slice)
    requires groups != [] && SlicesOf(groups).Ok?
    ensures SlicesOf(groups[..|groups| - 1]).Ok? && SlicesOf(groups).value == SlicesOf(groups[..|groups| - 1]).value + [last]
    ensures SliceFits(last, groups[|groups| - 1])
  {
    var g := groups[|groups| - 1];
    last := Slice(g.key, Calls(g.receipts), TotalsOf(g.receipts).value);
  }

  lemma FitsExtend(front: seq<Slice>, last: Slice, groups: seq<Group>)
    requires |groups| == |front| + 1 && SliceFits(last, groups[|groups| - 1])
    requires forall i :: 0 <= i < |front| ==> SliceFits(front[i], groups[..|groups| - 1][i])
    ensures forall i :: 0 <= i < |groups| ==> SliceFits((front + [last])[i], groups[i])
  {}

  predicate SliceFits(s: Slice, g: Group) {
    s.key == g.key && s.calls == Calls(g.receipts) && TotalsOf(g.receipts) == Ok(s.totals)
  }

  lemma {:induction false} SlicedCallsMatch(groups: seq<Group>, slices: seq<Slice>)
    requires |slices| == |groups| && forall i :: 0 <= i < |groups| ==> slices[i].calls == Calls(groups[i].receipts)
    ensures SlicedCalls(slices) == GroupedCalls(groups)
  {
    if groups != [] { SlicedCallsMatch(groups[1..], slices[1..]); }
  }

  lemma SlicesRecompute(rs: seq<Receipt>, slices: seq<Slice>)
    requires Ascending(CallOf, rs) && SlicesOf(SliceGroups(rs)) == Ok(slices)
    ensures multiset(SlicedCalls(slices)) == multiset(Calls(rs))
    ensures forall i :: 0 <= i < |slices| ==> SliceOk(rs, slices[i])
  {
    var groups := SliceGroups(rs);
    SlicesPartition(One, rs);
    SlicesMatchGroups(groups);
    assert SlicedCalls(slices) == GroupedCalls(groups) by { SlicedCallsMatch(groups, slices); }
    forall i | 0 <= i < |slices| ensures SliceOk(rs, slices[i]) {
      SliceRecomputes(rs, groups[i], slices[i]);
    }
  }

  lemma SliceRecomputes(rs: seq<Receipt>, g: Group, s: Slice)
    requires Ascending(CallOf, rs) && g in SliceGroups(rs) && SliceFits(s, g)
    ensures SliceOk(rs, s)
  {
    GroupFits(rs, g);
    SelectGroup(rs, g.receipts);
    assert |Calls(g.receipts)| == |g.receipts| > 0;
    forall k | 0 <= k < |g.receipts| ensures KeyOf(g.receipts[k]) == g.key { assert g.receipts[k] in g.receipts; }
  }

  lemma GroupFits(rs: seq<Receipt>, g: Group)
    requires g in SliceGroups(rs)
    ensures g.receipts != [] && forall r :: r in g.receipts ==> r in rs && KeyOf(r) == g.key
  {
    SlicesPartition(One, rs);
    var i :| 0 <= i < |SliceGroups(rs)| && SliceGroups(rs)[i] == g;
    SliceHolds(rs);
    ByKeyMembers(g.key, rs);
  }

  /** What the reducer computes always survives the constructor's recomputation. */
  lemma AssembleRecomputes(id: Identity, status: nat, rs: seq<Receipt>, cs: seq<Child>, es: seq<Event>)
    requires Ascending(CallOf, rs) && Assemble(id, status, rs, cs, es).Ok?
    ensures Recomputes(Assemble(id, status, rs, cs, es).value)
  {
    SlicesRecompute(rs, Assemble(id, status, rs, cs, es).value.slices);
  }

  /** `arranged` holds the given items once each, in key order. */
  ghost predicate ArrangedAs<V(!new)>(key: V -> Id, items: seq<V>, arranged: seq<V>) {
    Ascending(key, arranged) && forall x :: x in arranged <==> x in items
  }

  lemma ArrangedIsArrange<V(!new)>(key: V -> Id, items: seq<V>, arranged: seq<V>)
    requires ArrangedAs(key, items, arranged)
    ensures Arrange(key, items) == Ok(arranged)
  {
    forall x, y | x in items && y in items && key(x) == key(y) ensures x == y {
      var i :| 0 <= i < |arranged| && arranged[i] == x;
      var j :| 0 <= j < |arranged| && arranged[j] == y;
      assert i == j;
    }
    ArrangeOk(key, items);
    AscendingUnique(key, Arrange(key, items).value, arranged);
  }

  predicate SafeUsage(rs: seq<Receipt>) { rs == [] || AllSafe(Raw(Usages(rs))) }

  /** Every sum the reducer forms stays in the safe range: the direct part, the descendant part, the whole, the receipts
      of every provider, model and tier, and the priced amounts. */
  predicate SumsSafe(run: Id, rs: seq<Receipt>) {
    && SafeUsage(Direct(run, rs)) && SafeUsage(Descendant(run, rs)) && SafeUsage(rs)
    && (forall r :: r in rs ==> SafeUsage(ByKey(KeyOf(r), rs)))
    && SumBy(Amount, rs) <= MAX_SAFE_INTEGER
  }

  predicate UsagesHeld(rs: seq<Receipt>) { forall i :: 0 <= i < |rs| ==> Held(rs[i].usage) }

  /** What makes facts reducible: the receipts, children and events can be arranged without conflict, the sums stay in
      the safe range, the children form a tree below the owner, the facts name that topology, and the finished bundle is
      not too large to encode. */
  ghost predicate Reducible(w: Wire, id: Identity, status: nat, facts: Facts) {
    exists rs, cs, es :: ReducibleAs(w, id, status, facts, rs, cs, es)
  }

  ghost predicate ReducibleAs(w: Wire, id: Identity, status: nat, facts: Facts, rs: seq<Receipt>, cs: seq<Child>, es: seq<Event>) {
    && ArrangedAs(CallOf, facts.receipts, rs) && ArrangedAs(RunOf, facts.children, cs)
    && ArrangedAs(EventId(w.ids), facts.events + AttemptEvents(rs), es)
    && SumsSafe(id.run, rs) && IsTree(ParentsOf(cs), id.run) && FactsFit(id, rs, cs, es)
    && w.size(id, status, rs, cs, es) <= MAX_CANONICAL_BYTES
  }

  /** `reduce` accepts exactly the reducible facts: no recomputed field can refuse them. */
  lemma ReduceAcceptsExactly(w: Wire, id: Identity, status: nat, facts: Facts)
    requires UsagesHeld(facts.receipts)
    ensures Reduce(w, id, status, facts).Ok? <==> Reducible(w, id, status, facts)
  {
    if Reduce(w, id, status, facts).Ok? { AcceptedIsReducible(w, id, status, facts); }
    if Reducible(w, id, status, facts) {
      var rs, cs, es :| ReducibleAs(w, id, status, facts, rs, cs, es);
      ReducibleIsAccepted(w, id, status, facts, rs, cs, es);
    }
  }

  lemma AcceptedIsReducible(w: Wire, id: Identity, status: nat, facts: Facts)
    requires UsagesHeld(facts.receipts) && Reduce(w, id, status, facts).Ok?
    ensures Reducible(w, id, status, facts)
  {
    var rs := Arrange(CallOf, facts.receipts).value;
    var cs := Arrange(RunOf, facts.children).value;
    var es := Arrange(EventId(w.ids), facts.events + AttemptEvents(rs)).value;
    ArrangeOk(CallOf, facts.receipts);
    ArrangeOk(RunOf, facts.children);
    ArrangeOk(EventId(w.ids), facts.events + AttemptEvents(rs));
    HeldInside(facts.receipts, rs);
    AssembleAccepts(id, status, rs, cs, es);
    assert ReducibleAs(w, id, status, facts, rs, cs, es);
  }

  lemma ReducibleIsAccepted(w: Wire, id: Identity, status: nat, facts: Facts, rs: seq<Receipt>, cs: seq<Child>, es: seq<Event>)
    requires UsagesHeld(facts.receipts) && ReducibleAs(w, id, status, facts, rs, cs, es)
    ensures Reduce(w, id, status, facts).Ok?
  {
    ArrangedIsArrange(CallOf, facts.receipts, rs);
    ArrangedIsArrange(RunOf, facts.children, cs);
    ArrangedIsArrange(EventId(w.ids), facts.events + AttemptEvents(rs), es);
    HeldInside(facts.receipts, rs);
    AssembleAccepts(id, status, rs, cs, es);
    AssembleRecomputes(id, status, rs, cs, es);
  }

  lemma HeldInside(all: seq<Receipt>, rs: seq<Receipt>)
    requires UsagesHeld(all) && forall r :: r in rs ==> r in all
    ensures UsagesHeld(rs)
  {
    forall i | 0 <= i < |rs| ensures Held(rs[i].usage) { assert rs[i] in all; }
  }

  // ----- When sums are accepted ---------------------------------------------------------------------

  lemma LastIsLargest(rs: seq<Receipt>)
    requires Ascending(CallOf, rs)
    ensures rs != [] ==> (forall x :: x in rs[..|rs| - 1] ==> x.call < rs[|rs| - 1].call) && forall x :: x in rs ==> x.call <= rs[|rs| - 1].call
  {
    if rs != [] {
      var n := |rs| - 1;
      SplitLast(rs);
      forall x | x in rs[..n] ensures x.call < rs[n].call {
        var k :| 0 <= k < n && rs[..n][k] == x;
        assert CallOf(rs[k]) < CallOf(rs[n]);
      }
    }
  }

  lemma AppendLarger(rs: seq<Receipt>, r: Receipt)
    requires Ascending(CallOf, rs) && forall x :: x in rs ==> x.call < r.call
    ensures Ascending(CallOf, rs + [r])
  {
    var all := rs + [r];
    forall i, j | 0 <= i < j < |all| ensures CallOf(all[i]) < CallOf(all[j]) {
      assert all[i] == rs[i] && rs[i] in rs;
    }
  }

  lemma {:induction false} FilterMembers<T>(p: T -> bool, s: seq<T>)
    ensures forall x :: x in Filter(p, s) ==> x in s && p(x)
  {
    if s != [] {
      FilterMembers(p, s[..|s| - 1]);
      SplitLast(s);
    }
  }

  lemma {:induction false} FilterAscends(p: Receipt -> bool, rs: seq<Receipt>)
    requires Ascending(CallOf, rs)
    ensures Ascending(CallOf, Filter(p, rs))
  {
    if rs != [] {
      var front := rs[..|rs| - 1];
      AscendingFront(CallOf, rs);
      FilterAscends(p, front);
      FilterMembers(p, front);
      LastIsLargest(rs);
      AppendLarger(Filter(p, front), rs[|rs| - 1]);
    }
  }

  lemma {:induction false} ByKeyAscends(key: SliceKey, rs: seq<Receipt>)
    requires Ascending(CallOf, rs)
    ensures Ascending(CallOf, ByKey(key, rs))
  {
    if rs != [] {
      var front := rs[..|rs| - 1];
      AscendingFront(CallOf, rs);
      ByKeyAscends(key, front);
      ByKeyMembers(key, front);
      LastIsLargest(rs);
      AppendLarger(ByKey(key, front), rs[|rs| - 1]);
    }
  }

  /** Call ids of ascending receipts are distinct, so coverage never refuses them. */
  lemma CoverageAccepts(rs: seq<Receipt>)
    requires Ascending(CallOf, rs)
    ensures CoverageOf(rs).Ok?
  {
    var missing := Filter((r: Receipt) => !Observed(r), rs);
    FilterAscends((r: Receipt) => !Observed(r), rs);
    CallsIncrease(missing);
    LessIsStrictTotal();
    SortUniqueFixed(Less(), Calls(missing));
  }

  lemma CallsIncrease(rs: seq<Receipt>)
    requires Ascending(CallOf, rs)
    ensures Increasing(Less(), Calls(rs))
  {
    forall i, j | 0 <= i < j < |rs| ensures Less()(Calls(rs)[i], Calls(rs)[j]) { assert CallOf(rs[i]) < CallOf(rs[j]); }
  }

  lemma CostAccepts(rs: seq<Receipt>)
    ensures CostOf(rs).Ok? <==> SumBy(Amount, rs) <= MAX_SAFE_INTEGER
  {
    if SumBy(PricedBit, rs) == 0 { UnpricedIsFree(rs); }
  }

  lemma UsageAccepts(rs: seq<Receipt>)
    requires UsagesHeld(rs)
    ensures SumUsage(Usages(rs)).Ok? <==> SafeUsage(rs)
  {
    if rs != [] {
      assert Usages(rs) != [] && AllHeld(Usages(rs));
      SumIsClosed(Usages(rs));
    }
  }

  lemma TotalsAccept(rs: seq<Receipt>)
    requires UsagesHeld(rs) && Ascending(CallOf, rs)
    ensures TotalsOf(rs).Ok? <==> SafeUsage(rs) && SumBy(Amount, rs) <= MAX_SAFE_INTEGER
  {
    CoverageAccepts(rs);
    CostAccepts(rs);
    UsageAccepts(rs);
  }

  lemma {:induction false} SlicesAccept(groups: seq<Group>)
    ensures SlicesOf(groups).Ok? <==> forall g :: g in groups ==> TotalsOf(g.receipts).Ok?
  {
    if groups != [] {
      SlicesAccept(groups[..|groups| - 1]);
      SplitLast(groups);
    }
  }

  lemma {:induction false} GroupWithinSum(m: Receipt -> nat, groups: seq<Group>, g: Group)
    requires g in groups
    ensures SumBy(m, g.receipts) <= SumGroups(m, groups)
  {
    if g != groups[0] {
      assert groups == [groups[0]] + groups[1..];
      GroupWithinSum(m, groups[1..], g);
    }
  }

  lemma GroupAccepts(rs: seq<Receipt>, g: Group)
    requires UsagesHeld(rs) && Ascending(CallOf, rs) && g in SliceGroups(rs) && SumBy(Amount, rs) <= MAX_SAFE_INTEGER
    ensures TotalsOf(g.receipts).Ok? <==> SafeUsage(ByKey(g.key, rs))
  {
    assert SumBy(Amount, g.receipts) <= MAX_SAFE_INTEGER by {
      SlicesPartition(Amount, rs);
      GroupWithinSum(Amount, SliceGroups(rs), g);
    }
    assert g.receipts == ByKey(g.key, rs) by { SliceHolds(rs); }
    ByKeyAscends(g.key, rs);
    ByKeyMembers(g.key, rs);
    HeldInside(rs, g.receipts);
    TotalsAccept(g.receipts);
  }

  lemma SliceSumsAccept(rs: seq<Receipt>)
    requires UsagesHeld(rs) && Ascending(CallOf, rs) && SumBy(Amount, rs) <= MAX_SAFE_INTEGER
    ensures SlicesOf(SliceGroups(rs)).Ok? <==> forall r :: r in rs ==> SafeUsage(ByKey(KeyOf(r), rs))
  {
    SlicesAccept(SliceGroups(rs));
    forall g | g in SliceGroups(rs)
      ensures TotalsOf(g.receipts).Ok? <==> SafeUsage(ByKey(g.key, rs))
      ensures exists r :: r in rs && KeyOf(r) == g.key
    {
      GroupAccepts(rs, g);
      GroupFits(rs, g);
      assert g.receipts[0] in g.receipts;
    }
    SliceHolds(rs);
  }

  /** The reducer's sums are all accepted exactly when they stay in the safe range. */
  lemma AssembleAccepts(id: Identity, status: nat, rs: seq<Receipt>, cs: seq<Child>, es: seq<Event>)
    requires UsagesHeld(rs) && Ascending(CallOf, rs)
    ensures Assemble(id, status, rs, cs, es).Ok? <==> SumsSafe(id.run, rs)
  {
    PartAccepts((r: Receipt) => r.owner == id.run, rs);
    PartAccepts((r: Receipt) => r.owner != id.run, rs);
    TotalsAccept(rs);
    if SumBy(Amount, rs) <= MAX_SAFE_INTEGER { SliceSumsAccept(rs); }
  }

  lemma PartAccepts(p: Receipt -> bool, rs: seq<Receipt>)
    requires UsagesHeld(rs)
    ensures SumUsage(Usages(Filter(p, rs))).Ok? <==> SafeUsage(Filter(p, rs))
  {
    FilterMembers(p, rs);
    HeldInside(rs, Filter(p, rs));
    UsageAccepts(Filter(p, rs));
  }

  // ----- Set semantics ----------------------------------------------------------------------------

  ghost predicate SameFacts(a: Facts, b: Facts) {
    && (forall r :: r in a.receipts <==> r in b.receipts)
    && (forall c :: c in a.children <==> c in b.children)
    && (forall e :: e in a.events <==> e in b.events)
  }

  /** Only the sets of receipts, children and events matter, not their order or repetition. */
  lemma ReduceIsSetFunction(w: Wire, id: Identity, status: nat, a: Facts, b: Facts)
    requires SameFacts(a, b)
    ensures Reduce(w, id, status, a) == Reduce(w, id, status, b)
  {
    ArrangeSetOnly(CallOf, a.receipts, b.receipts);
    ArrangeSetOnly(RunOf, a.children, b.children);
    if Arrange(CallOf, a.receipts).Ok? {
      var attempts := AttemptEvents(Arrange(CallOf, a.receipts).value);
      forall e ensures e in a.events + attempts <==> e in b.events + attempts {}
      ArrangeSetOnly(EventId(w.ids), a.events + attempts, b.events + attempts);
    }
  }

  // ----- Costs ------------------------------------------------------------------------------------

  function OrNothing(a: Option<nat>): nat { if a.Some? then a.value else 0 }

  function SliceAmounts(slices: seq<Slice>): nat {
    if slices == [] then 0 else OrNothing(slices[0].totals.cost.amount) + SliceAmounts(slices[1..])
  }

  lemma {:induction false} UnpricedIsFree(rs: seq<Receipt>)
    requires SumBy(PricedBit, rs) == 0
    ensures SumBy(Amount, rs) == 0
  {
    if rs != [] { UnpricedIsFree(rs[..|rs| - 1]); }
  }

  lemma CostAmount(rs: seq<Receipt>)
    requires CostOf(rs).Ok?
    ensures OrNothing(CostOf(rs).value.amount) == SumBy(Amount, rs)
  {
    if SumBy(PricedBit, rs) == 0 { UnpricedIsFree(rs); }
  }

  lemma {:induction false} SliceAmountsMatch(groups: seq<Group>, slices: seq<Slice>)
    requires |slices| == |groups| && forall i :: 0 <= i < |groups| ==> TotalsOf(groups[i].receipts) == Ok(slices[i].totals)
    ensures SliceAmounts(slices) == SumGroups(Amount, groups)
  {
    if groups != [] {
      assert TotalsOf(groups[0].receipts) == Ok(slices[0].totals);
      CostAmount(groups[0].receipts);
      SliceAmountsMatch(groups[1..], slices[1..]);
    }
  }

  /** The costs of the slices add up to the cost of the bundle. */
  lemma SliceCostsAddUp(id: Identity, status: nat, rs: seq<Receipt>, cs: seq<Child>, es: seq<Event>)
    requires Assemble(id, status, rs, cs, es).Ok?
    ensures var b := Assemble(id, status, rs, cs, es).value; SliceAmounts(b.slices) == OrNothing(b.cost.amount)
  {
    SlicesMatchGroups(SliceGroups(rs));
    SliceAmountsMatch(SliceGroups(rs), Assemble(id, status, rs, cs, es).value.slices);
    SlicesPartition(Amount, rs);
    CostAmount(rs);
  }

  // ----- Nested and replayed bundles ---------------------------------------------------------------

  /** What one merged bundle contributes; `None` where the source raises. */
  function Contribution(id: Identity, b: Bundle): Option<Facts> {
    if b.identity.execution != id.execution || b.identity.root != id.root then None
    else if b.identity.run == id.run then Some(Facts(b.receipts, b.children, b.events))
    else if b.identity.parent.None? || b.identity.relation == RootRun then None
    else Some(Facts(b.receipts,
                    b.children + [Child(b.identity.run, b.identity.attempt, b.identity.parent.value,
                                        b.identity.relation.kind, Some(b.identity), b.status)],
                    b.events))
  }

  function Gather(id: Identity, own: Facts, bundles: seq<Bundle>): Option<Facts> {
    if bundles == [] then Some(own)
    else
      var front := Gather(id, own, bundles[..|bundles| - 1]);
      var last := Contribution(id, bundles[|bundles| - 1]);
      if front.None? || last.None? then None
      else Some(Facts(front.value.receipts + last.value.receipts, front.value.children + last.value.children,
                      front.value.events + last.value.events))
  }

  ghost function ReduceBundles(w: Wire, id: Identity, status: nat, own: Facts, bundles: seq<Bundle>): Result<Bundle> {
    var all := Gather(id, own, bundles);
    if all.None? then Rejected else Reduce(w, id, status, all.value)
  }

  /** Bundles merged from bundles, to any depth; the same sub-bundle may appear any number of times. */
  datatype Merge = Merge(identity: Identity, status: nat, own: Facts, parts: seq<Merge>)

  ghost function ReduceMerge(w: Wire, m: Merge): Result<Bundle>
    decreases m, 1
  {
    var parts := ReduceAll(w, m.parts);
    if parts.Rejected? then Rejected else ReduceBundles(w, m.identity, m.status, m.own, parts.value)
  }

  ghost function ReduceAll(w: Wire, ms: seq<Merge>): Result<seq<Bundle>>
    decreases ms, 0
  {
    if ms == [] then Ok([])
    else
      var (first, rest) := (ReduceMerge(w, ms[0]), ReduceAll(w, ms[1..]));
      if first.Rejected? || rest.Rejected? then Rejected else Ok([first.value] + rest.value)
  }

  function ReceiptsIn(m: Merge): seq<Receipt>
    decreases m, 1
  { m.own.receipts + ReceiptsInAll(m.parts) }

  function ReceiptsInAll(ms: seq<Merge>): seq<Receipt>
    decreases ms, 0
  { if ms == [] then [] else ReceiptsIn(ms[0]) + ReceiptsInAll(ms[1..]) }

  ghost predicate HeldBy(r: Receipt, bundles: seq<Bundle>) {
    exists i :: 0 <= i < |bundles| && r in bundles[i].receipts
  }

  lemma {:induction false} GatherReceipts(id: Identity, own: Facts, bundles: seq<Bundle>)
    requires Gather(id, own, bundles).Some?
    ensures forall r :: r in Gather(id, own, bundles).value.receipts <==> r in own.receipts || HeldBy(r, bundles)
  {
    if bundles != [] {
      var (front, last) := (bundles[..|bundles| - 1], bundles[|bundles| - 1]);
      GatherReceipts(id, own, front);
      forall r ensures HeldBy(r, bundles) <==> HeldBy(r, front) || r in last.receipts {
        if HeldBy(r, front) {
          var i :| 0 <= i < |front| && r in front[i].receipts;
          assert bundles[i] == front[i];
        }
        if HeldBy(r, bundles) {
          var i :| 0 <= i < |bundles| && r in bundles[i].receipts;
          assert i < |front| ==> front[i] == bundles[i];
        }
      }
    }
  }

  lemma ReduceHolds(w: Wire, id: Identity, status: nat, facts: Facts)
    requires Reduce(w, id, status, facts).Ok?
    ensures var b := Reduce(w, id, status, facts).value;
            && b.receipts == Arrange(CallOf, facts.receipts).value && Arrange(CallOf, facts.receipts).Ok?
            && TotalsOf(b.receipts) == Ok(Totals(b.allUsage, b.coverage, b.cost))
  {}

  /** However often and however deeply receipts were merged, the result holds each of them exactly once, in
      call order, and its totals are those of that set; conflicting receipts are rejected instead. */
  lemma {:induction false} MergeCountsOnce(w: Wire, m: Merge)
    requires ReduceMerge(w, m).Ok?
    ensures NoConflict(CallOf, ReceiptsIn(m))
    ensures var b := ReduceMerge(w, m).value;
            && Ascending(CallOf, b.receipts) && (forall r :: r in b.receipts <==> r in ReceiptsIn(m))
            && Arrange(CallOf, ReceiptsIn(m)) == Ok(b.receipts)
            && TotalsOf(b.receipts) == Ok(Totals(b.allUsage, b.coverage, b.cost))
    decreases m, 1
  {
    MergeAllHold(w, m.parts);
    var bundles := ReduceAll(w, m.parts).value;
    var all := Gather(m.identity, m.own, bundles).value;
    GatherReceipts(m.identity, m.own, bundles);
    ReduceHolds(w, m.identity, m.status, all);
    ArrangeOk(CallOf, all.receipts);
    forall r ensures r in all.receipts <==> r in ReceiptsIn(m) {}
    ArrangeSetOnly(CallOf, all.receipts, ReceiptsIn(m));
    ArrangeOk(CallOf, ReceiptsIn(m));
  }

  lemma {:induction false} MergeAllHold(w: Wire, ms: seq<Merge>)
    requires ReduceAll(w, ms).Ok?
    ensures forall r :: HeldBy(r, ReduceAll(w, ms).value) <==> r in ReceiptsInAll(ms)
    decreases ms, 0
  {
    if ms != [] {
      MergeCountsOnce(w, ms[0]);
      MergeAllHold(w, ms[1..]);
      HeldByCons(ReduceMerge(w, ms[0]).value, ReduceAll(w, ms[1..]).value);
    }
  }

  lemma HeldByCons(first: Bundle, rest: seq<Bundle>)
    ensures forall r :: HeldBy(r, [first] + rest) <==> r in first.receipts || HeldBy(r, rest)
  {
    var all := [first] + rest;
    forall r ensures HeldBy(r, all) <==> r in first.receipts || HeldBy(r, rest) {
      if HeldBy(r, rest) { var i :| 0 <= i < |rest| && r in rest[i].receipts; assert all[i + 1] == rest[i]; }
      if r in first.receipts { assert all[0] == first; }
      if HeldBy(r, all) {
        var i :| 0 <= i < |all| && r in all[i].receipts;
        assert i > 0 ==> rest[i - 1] == all[i];
      }
    }
  }
}
