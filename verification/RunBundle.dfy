/** The receipt-set reducer behind a run bundle: union of receipts, children and metric events, the totals and
    slices computed from them, and the constructor's recomputation of all of it. Identifiers are naturals whose
    order stands for the order of canonical strings; digests are represented by what they digest. */
module RunBundle {
  import opened Wrappers
  import opened Usage
  import opened Sorting
  import opened RunTopology

  const MAX_RECEIPTS: nat := 10_000
  const MAX_METRIC_EVENTS: nat := 50_000
  const MAX_CANONICAL_BYTES: nat := 2 * 1024 * 1024

  // ----- Facts ----------------------------------------------------------------------------------

  datatype Relation = RootRun | ChildRun(kind: nat)
  datatype Identity = Identity(execution: Id, attempt: Id, root: Id, run: Id, parent: Option<Id>, relation: Relation)

  predicate IdentityOk(i: Identity) {
    if i.relation == RootRun then i.run == i.root && i.parent == None else i.run != i.root && i.parent.Some?
  }

  datatype Status = Completed | Failed | Uncertain
  datatype Pricing = Priced(snapshot: Id, amount: nat) | Unpriced(reference: Option<Id>)

  datatype Receipt = Receipt(
    call: Id, execution: Id, root: Id, owner: Id, parent: Option<Id>, attempt: Id,
    provider: Id, model: Id, tier: Option<Id>, status: Status, usage: Usage, pricing: Pricing, rawUsage: Option<Id>)

  /** `bundle` is the identity its bundle id was derived from. */
  datatype Child = Child(run: Id, attempt: Id, parent: Id, kind: nat, bundle: Option<Identity>, status: nat)

  datatype EventKind = ModelAttempt | OtherKind(code: nat)
  datatype EventOutcome = Ended(status: Status) | Requested | Skipped
  datatype EventKey = EventKey(execution: Id, attempt: Id, root: Id, owner: Id, parent: Option<Id>, kind: EventKind, subject: Id)
  datatype Event = Event(key: EventKey, outcome: EventOutcome, detail: nat)

  /** The deterministic metric event id. */
  type EventIds = EventKey -> Id

  /** What depends on the encoding: the metric event id, and the canonical size of the bundle that arranged facts make. */
  datatype Wire = Wire(ids: EventIds, size: (Identity, nat, seq<Receipt>, seq<Child>, seq<Event>) -> nat)

  datatype Facts = Facts(receipts: seq<Receipt>, children: seq<Child>, events: seq<Event>)

  function AttemptEvent(r: Receipt): Event {
    Event(EventKey(r.execution, r.attempt, r.root, r.owner, r.parent, ModelAttempt, r.call), Ended(r.status), 0)
  }

  // ----- Deduplication --------------------------------------------------------------------------

  /** One entry per key; two different entries under one key are a conflict. */
  function IndexOf<V(==)>(key: V -> Id, items: seq<V>): Result<map<Id, V>> {
    if items == [] then Ok(map[])
    else
      var before := IndexOf(key, items[..|items| - 1]);
      var x := items[|items| - 1];
      if before.Rejected? then Rejected
      else if key(x) in before.value && before.value[key(x)] != x then Rejected
      else Ok(before.value[key(x) := x])
  }

  method Index<V(==)>(key: V -> Id, items: seq<V>) returns (r: Result<map<Id, V>>)
    ensures r == IndexOf(key, items)
  {
    var byId: map<Id, V> := map[];
    for i := 0 to |items|
      invariant IndexOf(key, items[..i]) == Ok(byId)
    {
      assert items[..i + 1][..i] == items[..i];
      var x := items[i];
      if key(x) in byId && byId[key(x)] != x {
        RejectionSticks(key, items, i + 1);
        return Rejected;
      }
      byId := byId[key(x) := x];
    }
    assert items[..|items|] == items;
    r := Ok(byId);
  }

  lemma {:induction false} RejectionSticks<V>(key: V -> Id, items: seq<V>, k: nat)
    requires k <= |items| && IndexOf(key, items[..k]).Rejected?
    ensures IndexOf(key, items).Rejected?
  {
    if k == |items| {
      assert items[..k] == items;
    } else {
      assert items[..|items| - 1][..k] == items[..k];
      RejectionSticks(key, items[..|items| - 1], k);
    }
  }

  ghost predicate NoConflict<V>(key: V -> Id, items: seq<V>) {
    forall x, y :: x in items && y in items && key(x) == key(y) ==> x == y
  }

  ghost predicate Indexes<V>(key: V -> Id, items: seq<V>, m: map<Id, V>) {
    && (forall x :: x in items ==> key(x) in m && m[key(x)] == x)
    && (forall k :: k in m ==> m[k] in items && key(m[k]) == k)
  }

  lemma {:induction false} IndexOk<V(!new)>(key: V -> Id, items: seq<V>)
    ensures IndexOf(key, items).Ok? <==> NoConflict(key, items)
    ensures IndexOf(key, items).Ok? ==> Indexes(key, items, IndexOf(key, items).value)
  {
    if items != [] {
      var (front, x) := (items[..|items| - 1], items[|items| - 1]);
      assert items == front + [x];
      IndexOk(key, front);
      if IndexOf(key, front).Ok? {
        var m := IndexOf(key, front).value;
        if key(x) in m && m[key(x)] != x {
          assert m[key(x)] in items && x in items;
        }
      } else {
        var a, b :| a in front && b in front && key(a) == key(b) && a != b;
        assert a in items && b in items;
      }
    }
  }

  function Keys<V>(key: V -> Id, items: seq<V>): seq<Id> {
    seq(|items|, i requires 0 <= i < |items| => key(items[i]))
  }

  function Less(): (Id, Id) -> bool { (a: Id, b: Id) => a < b }

  lemma LessIsStrictTotal() ensures StrictTotal(Less()) {}

  /** The deduplicated items in key order: `tuple(byId[k] for k in sorted(byId))`. */
  function Arrange<V(==)>(key: V -> Id, items: seq<V>): Result<seq<V>> {
    var byId := IndexOf(key, items);
    if byId.Rejected? then Rejected else Ok(Lookup(byId.value, SortUnique(Less(), Keys(key, items))))
  }

  function Lookup<V>(m: map<Id, V>, ids: seq<Id>): seq<V> {
    if ids == [] then []
    else Lookup(m, ids[..|ids| - 1]) + (if ids[|ids| - 1] in m then [m[ids[|ids| - 1]]] else [])
  }

  lemma {:induction false} LookupAll<V>(key: V -> Id, m: map<Id, V>, ids: seq<Id>)
    requires forall k :: k in ids ==> k in m && key(m[k]) == k
    ensures |Lookup(m, ids)| == |ids|
    ensures forall i :: 0 <= i < |ids| ==> ids[i] in m && Lookup(m, ids)[i] == m[ids[i]]
  {
    if ids != [] {
      assert ids == ids[..|ids| - 1] + [ids[|ids| - 1]];
      LookupAll(key, m, ids[..|ids| - 1]);
    }
  }

  lemma KeysContain<V(!new)>(key: V -> Id, items: seq<V>)
    ensures forall x :: x in items ==> key(x) in Keys(key, items)
    ensures forall k :: k in Keys(key, items) ==> exists x :: x in items && key(x) == k
  {
    forall x | x in items ensures key(x) in Keys(key, items) {
      var i :| 0 <= i < |items| && items[i] == x;
      assert Keys(key, items)[i] == key(x);
    }
    forall k | k in Keys(key, items) ensures exists x :: x in items && key(x) == k {
      var i :| 0 <= i < |items| && Keys(key, items)[i] == k;
      assert items[i] in items;
    }
  }

  /** Arranging keeps every item once, in key order, or reports a conflict. */
  lemma ArrangeOk<V(!new)>(key: V -> Id, items: seq<V>)
    ensures Arrange(key, items).Ok? <==> NoConflict(key, items)
    ensures Arrange(key, items).Ok? ==>
              var s := Arrange(key, items).value; Ascending(key, s) && forall x :: x in s <==> x in items
  {
    IndexOk(key, items);
    if Arrange(key, items).Ok? {
      var m := IndexOf(key, items).value;
      var ids := SortUnique(Less(), Keys(key, items));
      LessIsStrictTotal();
      SortUniqueOk(Less(), Keys(key, items));
      KeysContain(key, items);
      LookupAll(key, m, ids);
      ArrangedElements(key, items, m, ids);
    }
  }

  lemma ArrangedElements<V(!new)>(key: V -> Id, items: seq<V>, m: map<Id, V>, ids: seq<Id>)
    requires Indexes(key, items, m) && Increasing(Less(), ids)
    requires forall k :: k in ids ==> k in m
    requires forall x :: x in items ==> key(x) in ids
    requires |Lookup(m, ids)| == |ids|
    requires forall i :: 0 <= i < |ids| ==> ids[i] in m && Lookup(m, ids)[i] == m[ids[i]]
    ensures Ascending(key, Lookup(m, ids)) && forall x :: x in Lookup(m, ids) <==> x in items
  {
    var s := Lookup(m, ids);
    forall i, j | 0 <= i < j < |s| ensures key(s[i]) < key(s[j]) {
      assert Less()(ids[i], ids[j]);
      assert ids[i] in ids && ids[j] in ids;
    }
    forall x | x in s ensures x in items {
      var i :| 0 <= i < |s| && s[i] == x;
      assert ids[i] in ids;
    }
    forall x | x in items ensures x in s {
      var i :| 0 <= i < |ids| && ids[i] == key(x);
      assert s[i] == x;
    }
  }

  lemma ArrangeSetOnly<V(!new)>(key: V -> Id, a: seq<V>, b: seq<V>)
    requires forall x :: x in a <==> x in b
    ensures Arrange(key, a) == Arrange(key, b)
  {
    ArrangeOk(key, a);
    ArrangeOk(key, b);
    if Arrange(key, a).Ok? {
      AscendingUnique(key, Arrange(key, a).value, Arrange(key, b).value);
    }
  }

  // ----- Totals ---------------------------------------------------------------------------------

  function Filter<T>(p: T -> bool, s: seq<T>): seq<T> {
    if s == [] then []
    else Filter(p, s[..|s| - 1]) + (if p(s[|s| - 1]) then [s[|s| - 1]] else [])
  }

  function Calls(rs: seq<Receipt>): seq<Id> { Keys((r: Receipt) => r.call, rs) }

  function Usages(rs: seq<Receipt>): seq<Usage> {
    seq(|rs|, i requires 0 <= i < |rs| => rs[i].usage)
  }

  predicate Observed(r: Receipt) { r.status == Completed && r.usage.total.Known? }

  function SumBy(m: Receipt -> nat, rs: seq<Receipt>): nat {
    if rs == [] then 0 else SumBy(m, rs[..|rs| - 1]) + m(rs[|rs| - 1])
  }

  function One(r: Receipt): nat { 1 }
  function ObservedBit(r: Receipt): nat { if Observed(r) then 1 else 0 }
  function UncertainBit(r: Receipt): nat { if r.status == Uncertain then 1 else 0 }
  function PricedBit(r: Receipt): nat { if r.pricing.Priced? then 1 else 0 }
  function Amount(r: Receipt): nat { if r.pricing.Priced? then r.pricing.amount else 0 }

  datatype Level = None_ | Some_ | All_

  function LevelOf(part: nat, whole: nat): Level {
    if part == 0 then None_ else if part == whole then All_ else Some_
  }

  /** `UsageCoverage`: status, counts and the calls without usage. */
  datatype Coverage = Coverage(status: Level, receipts: nat, observed: nat, missing: nat, uncertain: nat, missingCalls: seq<Id>)
  /** `RunCost`: an amount is present unless nothing is priced. */
  datatype Cost = Cost(status: Level, amount: Option<nat>, snapshots: set<Id>)
  datatype Totals = Totals(usage: Usage, coverage: Coverage, cost: Cost)

  function CoverageOf(rs: seq<Receipt>): Result<Coverage> {
    var observed := SumBy(ObservedBit, rs);
    var missing := Calls(Filter((r: Receipt) => !Observed(r), rs));
    if |SortUnique(Less(), missing)| != |missing| then Rejected   // missing call ids must be unique
    else Ok(Coverage(LevelOf(observed, |rs|), |rs|, observed, |missing|, SumBy(UncertainBit, rs), missing))
  }

  function SnapshotOf(r: Receipt): Option<Id> {
    if r.pricing.Priced? then Some(r.pricing.snapshot) else r.pricing.reference
  }

  function Snapshots(rs: seq<Receipt>): set<Id> {
    set r | r in rs && SnapshotOf(r).Some? :: SnapshotOf(r).value
  }

  function CostOf(rs: seq<Receipt>): Result<Cost> {
    var (priced, amount) := (SumBy(PricedBit, rs), SumBy(Amount, rs));
    if priced == 0 then Ok(Cost(None_, None, Snapshots(rs)))
    else if amount > MAX_SAFE_INTEGER then Rejected
    else Ok(Cost(LevelOf(priced, |rs|), Some(amount), Snapshots(rs)))
  }

  function TotalsOf(rs: seq<Receipt>): Result<Totals> {
    var (u, v, w) := (SumUsage(Usages(rs)), CoverageOf(rs), CostOf(rs));
    if u.Ok? && v.Ok? && w.Ok? then Ok(Totals(u.value, v.value, w.value)) else Rejected
  }

  // ----- Slices ---------------------------------------------------------------------------------

  datatype SliceKey = SliceKey(provider: Id, model: Id, tier: Option<Id>)

  function KeyOf(r: Receipt): SliceKey { SliceKey(r.provider, r.model, r.tier) }

  datatype Group = Group(key: SliceKey, receipts: seq<Receipt>)

  /** `grouped.setdefault(key, []).append(receipt)`. */
  function AddTo(groups: seq<Group>, r: Receipt): seq<Group> {
    if groups == [] then [Group(KeyOf(r), [r])]
    else if groups[0].key == KeyOf(r) then [groups[0].(receipts := groups[0].receipts + [r])] + groups[1..]
    else [groups[0]] + AddTo(groups[1..], r)
  }

  function GroupsOf(rs: seq<Receipt>): seq<Group> {
    if rs == [] then [] else AddTo(GroupsOf(rs[..|rs| - 1]), rs[|rs| - 1])
  }

  method GroupReceipts(rs: seq<Receipt>) returns (groups: seq<Group>)
    ensures groups == GroupsOf(rs)
  {
    groups := [];
    for i := 0 to |rs|
      invariant groups == GroupsOf(rs[..i])
    {
      assert rs[..i + 1][..i] == rs[..i];
      groups := AddReceipt(groups, rs[i]);
    }
    assert rs[..|rs|] == rs;
  }

  method AddReceipt(groups: seq<Group>, r: Receipt) returns (grown: seq<Group>)
    ensures grown == AddTo(groups, r)
  {
    var k := 0;
    while k < |groups| && groups[k].key != KeyOf(r)
      invariant 0 <= k <= |groups|
      invariant forall i :: 0 <= i < k ==> groups[i].key != KeyOf(r)
    {
      k := k + 1;
    }
    AddToAt(groups, r, k);
    if k < |groups| {
      grown := groups[..k] + [groups[k].(receipts := groups[k].receipts + [r])] + groups[k + 1..];
    } else {
      grown := groups + [Group(KeyOf(r), [r])];
    }
  }

  lemma {:induction false} AddToAt(groups: seq<Group>, r: Receipt, k: nat)
    requires k <= |groups| && (forall i :: 0 <= i < k ==> groups[i].key != KeyOf(r)) && (k < |groups| ==> groups[k].key == KeyOf(r))
    ensures AddTo(groups, r) ==
              if k == |groups| then groups + [Group(KeyOf(r), [r])]
              else groups[..k] + [groups[k].(receipts := groups[k].receipts + [r])] + groups[k + 1..]
  {
    if k > 0 {
      AddToAt(groups[1..], r, k - 1);
      assert groups == [groups[0]] + groups[1..];
      assert k < |groups| ==> groups[..k] == [groups[0]] + groups[1..][..k - 1] && groups[k + 1..] == groups[1..][k..];
    }
  }

  datatype Slice = Slice(key: SliceKey, calls: seq<Id>, totals: Totals)

  function SlicesOf(groups: seq<Group>): Result<seq<Slice>> {
    if groups == [] then Ok([])
    else
      var front := SlicesOf(groups[..|groups| - 1]);
      var g := groups[|groups| - 1];
      if front.Rejected? || TotalsOf(g.receipts).Rejected? then Rejected
      else Ok(front.value + [Slice(g.key, Calls(g.receipts), TotalsOf(g.receipts).value)])
  }

  function SumGroups(m: Receipt -> nat, groups: seq<Group>): nat {
    if groups == [] then 0 else SumBy(m, groups[0].receipts) + SumGroups(m, groups[1..])
  }

  function GroupedCalls(groups: seq<Group>): seq<Id> {
    if groups == [] then [] else Calls(groups[0].receipts) + GroupedCalls(groups[1..])
  }

  ghost predicate GroupsOk(groups: seq<Group>) {
    && (forall i :: 0 <= i < |groups| ==> groups[i].receipts != [])
    && (forall i, r :: 0 <= i < |groups| && r in groups[i].receipts ==> KeyOf(r) == groups[i].key)
    && (forall i, j :: 0 <= i < j < |groups| ==> groups[i].key != groups[j].key)
  }

  lemma {:induction false} AddToKeys(groups: seq<Group>, r: Receipt)
    ensures forall g :: g in AddTo(groups, r) ==> g.key == KeyOf(r) || g in groups
    ensures forall g :: g in AddTo(groups, r) ==> g in groups || (g.key == KeyOf(r) && g.receipts != [])
  {
    if groups != [] && groups[0].key != KeyOf(r) {
      AddToKeys(groups[1..], r);
      assert groups == [groups[0]] + groups[1..];
    } else if groups != [] {
      assert groups == [groups[0]] + groups[1..];
    }
  }

  lemma {:induction false} AddToOk(groups: seq<Group>, r: Receipt)
    requires GroupsOk(groups)
    ensures GroupsOk(AddTo(groups, r))
  {
    if groups != [] && groups[0].key == KeyOf(r) {
      AddToFirst(groups, r);
    } else if groups != [] {
      AddToOk(groups[1..], r);
      AddToKeys(groups[1..], r);
      GroupsCons(groups[0], AddTo(groups[1..], r), groups[1..], r);
    }
  }

  lemma AddToFirst(groups: seq<Group>, r: Receipt)
    requires GroupsOk(groups) && groups != [] && groups[0].key == KeyOf(r)
    ensures GroupsOk([groups[0].(receipts := groups[0].receipts + [r])] + groups[1..])
  {
    var all := [groups[0].(receipts := groups[0].receipts + [r])] + groups[1..];
    forall i, j | 0 <= i < j < |all| ensures all[i].key != all[j].key {
      assert all[i].key == groups[i].key && all[j].key == groups[j].key;
    }
    forall i, x | 0 <= i < |all| && x in all[i].receipts ensures KeyOf(x) == all[i].key {
      assert i > 0 ==> all[i] == groups[i];
    }
  }

  lemma GroupsCons(first: Group, rest: seq<Group>, before: seq<Group>, r: Receipt)
    requires GroupsOk(rest) && GroupsOk([first] + before) && first.key != KeyOf(r)
    requires forall g :: g in rest ==> g.key == KeyOf(r) || g in before
    ensures GroupsOk([first] + rest)
  {
    var (all, old') := ([first] + rest, [first] + before);
    assert old'[0] == first;
    forall j | 1 <= j < |all| ensures all[0].key != all[j].key {
      assert rest[j - 1] in rest;
      if rest[j - 1].key != KeyOf(r) {
        var i :| 0 <= i < |before| && before[i] == rest[j - 1];
        assert old'[i + 1] == before[i];
      }
    }
  }

  lemma {:induction false} AddToSum(m: Receipt -> nat, groups: seq<Group>, r: Receipt)
    ensures SumGroups(m, AddTo(groups, r)) == SumGroups(m, groups) + m(r)
  {
    var all := AddTo(groups, r);
    if groups == [] {
      SumAppend(m, [], r);
      assert [] + [r] == [r];
    } else if groups[0].key == KeyOf(r) {
      SumAppend(m, groups[0].receipts, r);
      assert all[1..] == groups[1..];
    } else {
      AddToSum(m, groups[1..], r);
      assert all[1..] == AddTo(groups[1..], r);
    }
  }

  lemma {:induction false} AddToCalls(groups: seq<Group>, r: Receipt)
    ensures multiset(GroupedCalls(AddTo(groups, r))) == multiset(GroupedCalls(groups)) + multiset{r.call}
  {
    var all := AddTo(groups, r);
    if groups == [] {
      assert all[1..] == [];
      assert Calls([r]) == [r.call];
    } else if groups[0].key == KeyOf(r) {
      CallsAppend(groups[0].receipts, r);
      assert all[1..] == groups[1..];
    } else {
      AddToCalls(groups[1..], r);
      assert all[1..] == AddTo(groups[1..], r);
    }
  }

  lemma SumAppend(m: Receipt -> nat, rs: seq<Receipt>, r: Receipt)
    ensures SumBy(m, rs + [r]) == SumBy(m, rs) + m(r)
  {
    assert (rs + [r])[..|rs|] == rs;
  }

  lemma CallsAppend(rs: seq<Receipt>, r: Receipt)
    ensures Calls(rs + [r]) == Calls(rs) + [r.call]
  {}

  lemma PartitionStep(groups: seq<Group>, front: seq<Receipt>, r: Receipt)
    requires GroupsOk(groups) && multiset(GroupedCalls(groups)) == multiset(Calls(front))
    ensures GroupsOk(AddTo(groups, r)) && multiset(GroupedCalls(AddTo(groups, r))) == multiset(Calls(front + [r]))
  {
    AddToOk(groups, r);
    AddToCalls(groups, r);
    CallsAppend(front, r);
  }

  /** The groups partition the receipts: every call is in exactly one of them, and there is one per key. */
  lemma {:induction false} GroupsPartition(rs: seq<Receipt>)
    ensures GroupsOk(GroupsOf(rs))
    ensures multiset(GroupedCalls(GroupsOf(rs))) == multiset(Calls(rs))
  {
    if rs != [] {
      var (front, r) := (rs[..|rs| - 1], rs[|rs| - 1]);
      GroupsPartition(front);
      PartitionStep(GroupsOf(front), front, r);
      SplitLast(rs);
    }
  }

  /** Whatever is added up over receipts adds up over the groups. */
  lemma {:induction false} GroupsAddUp(m: Receipt -> nat, rs: seq<Receipt>)
    ensures SumGroups(m, GroupsOf(rs)) == SumBy(m, rs)
  {
    if rs != [] {
      GroupsAddUp(m, rs[..|rs| - 1]);
      AddToSum(m, GroupsOf(rs[..|rs| - 1]), rs[|rs| - 1]);
    }
  }

  // ----- Slices in key order --------------------------------------------------------------------

  /** The sort key `(provider, model, service_tier or "")`. */
  predicate KeyBefore(a: SliceKey, b: SliceKey) {
    || a.provider < b.provider
    || (a.provider == b.provider && a.model < b.model)
    || (a.provider == b.provider && a.model == b.model && b.tier.Some? && (a.tier.None? || a.tier.value < b.tier.value))
  }

  function InsertGroup(groups: seq<Group>, g: Group): seq<Group> {
    if groups == [] then [g]
    else if KeyBefore(groups[0].key, g.key) then [groups[0]] + InsertGroup(groups[1..], g)
    else [g] + groups
  }

  function SortGroups(groups: seq<Group>): seq<Group> {
    if groups == [] then [] else InsertGroup(SortGroups(groups[1..]), groups[0])
  }

  /** The groups the usage slices are made from. */
  function SliceGroups(rs: seq<Receipt>): seq<Group> { SortGroups(GroupsOf(rs)) }

  ghost predicate InKeyOrder(groups: seq<Group>) {
    forall i, j :: 0 <= i < j < |groups| ==> KeyBefore(groups[i].key, groups[j].key)
  }

  lemma {:induction false} InsertGroupMembers(groups: seq<Group>, g: Group)
    ensures forall h :: h in InsertGroup(groups, g) <==> h == g || h in groups
  {
    if groups != [] {
      assert groups == [groups[0]] + groups[1..];
      if KeyBefore(groups[0].key, g.key) { InsertGroupMembers(groups[1..], g); }
    }
  }

  lemma {:induction false} InsertGroupOrdered(groups: seq<Group>, g: Group)
    requires InKeyOrder(groups) && forall h :: h in groups ==> h.key != g.key
    ensures InKeyOrder(InsertGroup(groups, g))
  {
    if groups != [] {
      assert forall i :: 0 <= i < |groups| ==> groups[i] in groups;
      if KeyBefore(groups[0].key, g.key) {
        assert forall h :: h in groups[1..] ==> h in groups;
        InsertGroupOrdered(groups[1..], g);
        InsertGroupMembers(groups[1..], g);
        OrderedCons(groups[0], InsertGroup(groups[1..], g));
      } else {
        OrderedCons(g, groups);
      }
    }
  }

  lemma OrderedCons(first: Group, rest: seq<Group>)
    requires InKeyOrder(rest) && forall h :: h in rest ==> KeyBefore(first.key, h.key)
    ensures InKeyOrder([first] + rest)
  {
    var all := [first] + rest;
    forall i, j | 0 <= i < j < |all| ensures KeyBefore(all[i].key, all[j].key) {
      assert all[j] == rest[j - 1] && rest[j - 1] in rest;
    }
  }

  lemma {:induction false} InsertGroupSums(m: Receipt -> nat, groups: seq<Group>, g: Group)
    ensures SumGroups(m, InsertGroup(groups, g)) == SumGroups(m, groups) + SumBy(m, g.receipts)
    ensures multiset(GroupedCalls(InsertGroup(groups, g))) == multiset(GroupedCalls(groups)) + multiset(Calls(g.receipts))
  {
    var all := InsertGroup(groups, g);
    if groups == [] {
      assert all[1..] == [];
    } else if KeyBefore(groups[0].key, g.key) {
      InsertGroupSums(m, groups[1..], g);
      assert all[1..] == InsertGroup(groups[1..], g);
    } else {
      assert all[1..] == groups;
    }
  }

  lemma {:induction false} SortGroupsOk(groups: seq<Group>)
    requires forall i, j :: 0 <= i < j < |groups| ==> groups[i].key != groups[j].key
    ensures InKeyOrder(SortGroups(groups)) && forall h :: h in SortGroups(groups) <==> h in groups
  {
    if groups != [] {
      SortGroupsOk(groups[1..]);
      InsertGroupMembers(SortGroups(groups[1..]), groups[0]);
      FirstKeyIsFresh(groups);
      InsertGroupOrdered(SortGroups(groups[1..]), groups[0]);
      assert groups == [groups[0]] + groups[1..];
    }
  }

  lemma FirstKeyIsFresh(groups: seq<Group>)
    requires groups != [] && forall i, j :: 0 <= i < j < |groups| ==> groups[i].key != groups[j].key
    ensures forall h :: h in groups[1..] ==> h.key != groups[0].key
  {}

  lemma {:induction false} SortGroupsSums(m: Receipt -> nat, groups: seq<Group>)
    ensures SumGroups(m, SortGroups(groups)) == SumGroups(m, groups)
    ensures multiset(GroupedCalls(SortGroups(groups))) == multiset(GroupedCalls(groups))
  {
    if groups != [] {
      SortGroupsSums(m, groups[1..]);
      InsertGroupSums(m, SortGroups(groups[1..]), groups[0]);
    }
  }

  lemma OrderedGroupsOk(groups: seq<Group>, sorted: seq<Group>)
    requires GroupsOk(groups) && InKeyOrder(sorted) && forall h :: h in sorted <==> h in groups
    ensures GroupsOk(sorted)
  {
    forall i | 0 <= i < |sorted|
      ensures sorted[i].receipts != [] && forall r :: r in sorted[i].receipts ==> KeyOf(r) == sorted[i].key
    {
      assert sorted[i] in groups;
      var k :| 0 <= k < |groups| && groups[k] == sorted[i];
    }
    forall i, j | 0 <= i < j < |sorted| ensures sorted[i].key != sorted[j].key {
      assert KeyBefore(sorted[i].key, sorted[j].key);
    }
  }

  /** The slices partition the receipts in key order: every call is in exactly one of them, there is one per key, and
      whatever is added up over receipts adds up over them. */
  lemma SlicesPartition(m: Receipt -> nat, rs: seq<Receipt>)
    ensures GroupsOk(SliceGroups(rs)) && InKeyOrder(SliceGroups(rs))
    ensures forall g :: g in SliceGroups(rs) <==> g in GroupsOf(rs)
    ensures multiset(GroupedCalls(SliceGroups(rs))) == multiset(Calls(rs))
    ensures SumGroups(m, SliceGroups(rs)) == SumBy(m, rs)
  {
    GroupsPartition(rs);
    GroupsAddUp(m, rs);
    SortGroupsOk(GroupsOf(rs));
    SortGroupsSums(m, GroupsOf(rs));
    OrderedGroupsOk(GroupsOf(rs), SliceGroups(rs));
  }

  // ----- What a slice holds ----------------------------------------------------------------------

  function ByKey(key: SliceKey, rs: seq<Receipt>): seq<Receipt> {
    if rs == [] then []
    else ByKey(key, rs[..|rs| - 1]) + (if KeyOf(rs[|rs| - 1]) == key then [rs[|rs| - 1]] else [])
  }

  /** A group's content under a key; nothing when there is no such group. */
  function Under(groups: seq<Group>, key: SliceKey): seq<Receipt> {
    if groups == [] then [] else if groups[0].key == key then groups[0].receipts else Under(groups[1..], key)
  }

  lemma {:induction false} UnderAdded(groups: seq<Group>, r: Receipt, key: SliceKey)
    ensures Under(AddTo(groups, r), key) == Under(groups, key) + (if KeyOf(r) == key then [r] else [])
  {
    var all := AddTo(groups, r);
    if groups == [] {
      assert all[1..] == [];
    } else if groups[0].key == KeyOf(r) {
      assert all[1..] == groups[1..];
    } else {
      UnderAdded(groups[1..], r, key);
      assert all[1..] == AddTo(groups[1..], r);
    }
  }

  lemma {:induction false} UnderIsByKey(rs: seq<Receipt>, key: SliceKey)
    ensures Under(GroupsOf(rs), key) == ByKey(key, rs)
  {
    if rs != [] {
      UnderIsByKey(rs[..|rs| - 1], key);
      UnderAdded(GroupsOf(rs[..|rs| - 1]), rs[|rs| - 1], key);
    }
  }

  lemma {:induction false} UnderFinds(groups: seq<Group>, i: nat)
    requires i < |groups| && forall a, b :: 0 <= a < b < |groups| ==> groups[a].key != groups[b].key
    ensures Under(groups, groups[i].key) == groups[i].receipts
  {
    if i > 0 {
      assert groups[0].key != groups[i].key;
      UnderFinds(groups[1..], i - 1);
    }
  }

  /** Every slice holds exactly the receipts of its key, in order, and every key that occurs has one. */
  lemma SliceHolds(rs: seq<Receipt>)
    ensures forall g :: g in SliceGroups(rs) ==> g.receipts == ByKey(g.key, rs)
    ensures forall r :: r in rs ==> exists g :: g in SliceGroups(rs) && g.key == KeyOf(r)
  {
    SlicesPartition(One, rs);
    forall g | g in SliceGroups(rs) ensures g.receipts == ByKey(g.key, rs) {
      var i :| 0 <= i < |GroupsOf(rs)| && GroupsOf(rs)[i] == g;
      GroupsPartition(rs);
      UnderFinds(GroupsOf(rs), i);
      UnderIsByKey(rs, g.key);
    }
    forall r | r in rs ensures exists g :: g in SliceGroups(rs) && g.key == KeyOf(r) { KeyHasGroup(rs, r); }
  }

  lemma KeyHasGroup(rs: seq<Receipt>, r: Receipt)
    requires r in rs
    ensures exists g :: g in GroupsOf(rs) && g.key == KeyOf(r)
  {
    ByKeyMembers(KeyOf(r), rs);
    UnderIsByKey(rs, KeyOf(r));
    UnderHasGroup(GroupsOf(rs), KeyOf(r));
  }

  lemma {:induction false} UnderHasGroup(groups: seq<Group>, key: SliceKey)
    requires Under(groups, key) != []
    ensures exists g :: g in groups && g.key == key
  {
    if groups[0].key == key {
      assert groups[0] in groups;
    } else {
      UnderHasGroup(groups[1..], key);
      var g :| g in groups[1..] && g.key == key;
      assert g in groups;
    }
  }

  lemma {:induction false} ByKeyMembers(key: SliceKey, rs: seq<Receipt>)
    ensures forall r :: r in ByKey(key, rs) <==> r in rs && KeyOf(r) == key
  {
    if rs != [] {
      ByKeyMembers(key, rs[..|rs| - 1]);
      SplitLast(rs);
    }
  }
}
