/** What the fields of an accepted bundle say about its receipts, in terms of the receipts' own fields. */
module BundleFacts {
  import opened Wrappers
  import opened Usage
  import opened Sorting
  import opened RunTopology
  import opened RunBundle
  import opened RunReducer

  // ----- Cost -----------------------------------------------------------------------------------------------

  /** The prices of the priced receipts, added up. */
  function Prices(rs: seq<Receipt>): nat {
    if rs == [] then 0 else (match rs[0].pricing case Priced(_, amount) => amount case Unpriced(_) => 0) + Prices(rs[1..])
  }

  ghost predicate SomePriced(rs: seq<Receipt>) { exists i :: 0 <= i < |rs| && rs[i].pricing.Priced? }
  ghost predicate AllPriced(rs: seq<Receipt>) { forall i :: 0 <= i < |rs| ==> rs[i].pricing.Priced? }

  /** The cost of receipts: their prices added up, absent exactly when none is priced; complete exactly when all are. */
  ghost predicate CostDescribes(rs: seq<Receipt>, cost: Cost) {
    && cost.amount == (if SomePriced(rs) then Some(Prices(rs)) else None)
    && (cost.status == None_ <==> !SomePriced(rs))
    && (cost.status == All_ <==> SomePriced(rs) && AllPriced(rs))
    && (forall x :: x in cost.snapshots <==>
          exists i :: 0 <= i < |rs| && ((rs[i].pricing.Priced? && rs[i].pricing.snapshot == x) || rs[i].pricing == Unpriced(Some(x))))
  }

  lemma {:induction false} PricesAppend(rs: seq<Receipt>, r: Receipt)
    ensures Prices(rs + [r]) == Prices(rs) + Prices([r])
  {
    if rs == [] {
      assert [] + [r] == [r];
    } else {
      PricesAppend(rs[1..], r);
      assert (rs + [r])[1..] == rs[1..] + [r];
    }
  }

  lemma {:induction false} AmountIsPrices(rs: seq<Receipt>)
    ensures SumBy(Amount, rs) == Prices(rs)
    ensures SumBy(PricedBit, rs) <= |rs|
    ensures SumBy(PricedBit, rs) == 0 <==> !SomePriced(rs)
    ensures SumBy(PricedBit, rs) == |rs| <==> AllPriced(rs)
  {
    if rs != [] {
      var (front, r) := (rs[..|rs| - 1], rs[|rs| - 1]);
      AmountIsPrices(front);
      SplitLast(rs);
      PricesAppend(front, r);
      assert [r][1..] == [];
      PricedSplits(front, r, rs);
    }
  }

  lemma PricedSplits(front: seq<Receipt>, r: Receipt, rs: seq<Receipt>)
    requires rs == front + [r]
    ensures SomePriced(rs) <==> SomePriced(front) || r.pricing.Priced?
    ensures AllPriced(rs) <==> AllPriced(front) && r.pricing.Priced?
  {
    assert rs[|front|] == r && forall i :: 0 <= i < |front| ==> rs[i] == front[i];
  }

  lemma CostIs(rs: seq<Receipt>)
    requires CostOf(rs).Ok?
    ensures CostDescribes(rs, CostOf(rs).value)
  {
    AmountIsPrices(rs);
    SnapshotsAre(rs);
  }

  lemma SnapshotsAre(rs: seq<Receipt>)
    ensures forall x :: x in Snapshots(rs) <==>
              exists i :: 0 <= i < |rs| && ((rs[i].pricing.Priced? && rs[i].pricing.snapshot == x) || rs[i].pricing == Unpriced(Some(x)))
  {
    forall x | x in Snapshots(rs)
      ensures exists i :: 0 <= i < |rs| && ((rs[i].pricing.Priced? && rs[i].pricing.snapshot == x) || rs[i].pricing == Unpriced(Some(x)))
    {
      var r :| r in rs && SnapshotOf(r) == Some(x);
      var i :| 0 <= i < |rs| && rs[i] == r;
    }
    forall i | 0 <= i < |rs| ensures rs[i] in rs {}
  }

  // ----- Coverage --------------------------------------------------------------------------------------------

  ghost predicate HasUsage(r: Receipt) { r.status == Completed && r.usage.total != Unknown }

  function IndexesWith(rs: seq<Receipt>, p: Receipt -> bool): set<nat> { set i: nat | i < |rs| && p(rs[i]) }

  /** Coverage counts the completed receipts with a known total, the others with their calls, and the uncertain ones. */
  ghost predicate CoverageDescribes(rs: seq<Receipt>, c: Coverage) {
    && c.receipts == |rs| && c.observed + c.missing == |rs| && |c.missingCalls| == c.missing
    && c.observed == |IndexesWith(rs, (r: Receipt) => r.status == Completed && r.usage.total != Unknown)|
    && c.uncertain == |IndexesWith(rs, (r: Receipt) => r.status == Uncertain)|
    && (c.status == None_ <==> forall i :: 0 <= i < |rs| ==> !HasUsage(rs[i]))
    && (c.status == All_ <==> rs != [] && forall i :: 0 <= i < |rs| ==> HasUsage(rs[i]))
    && (forall x :: x in c.missingCalls <==> exists i :: 0 <= i < |rs| && rs[i].call == x && !HasUsage(rs[i]))
  }

  lemma {:induction false} CountsAre(rs: seq<Receipt>, bit: Receipt -> nat, p: Receipt -> bool)
    requires forall r :: bit(r) == if p(r) then 1 else 0
    ensures SumBy(bit, rs) == |IndexesWith(rs, p)| <= |rs|
    ensures SumBy(bit, rs) == 0 <==> forall i :: 0 <= i < |rs| ==> !p(rs[i])
    ensures SumBy(bit, rs) == |rs| <==> forall i :: 0 <= i < |rs| ==> p(rs[i])
  {
    if rs != [] {
      var n := |rs| - 1;
      CountsAre(rs[..n], bit, p);
      assert IndexesWith(rs, p) == IndexesWith(rs[..n], p) + (if p(rs[n]) then {n} else {});
      assert forall i :: 0 <= i < n ==> rs[..n][i] == rs[i];
    }
  }

  lemma {:induction false} FilterCount(p: Receipt -> bool, rs: seq<Receipt>)
    ensures |Filter(p, rs)| == |IndexesWith(rs, p)|
    ensures forall r :: r in Filter(p, rs) <==> r in rs && p(r)
  {
    if rs != [] {
      var n := |rs| - 1;
      FilterCount(p, rs[..n]);
      SplitLast(rs);
      assert IndexesWith(rs, p) == IndexesWith(rs[..n], p) + (if p(rs[n]) then {n} else {});
    }
  }

  lemma CoverageIs(rs: seq<Receipt>)
    requires CoverageOf(rs).Ok?
    ensures CoverageDescribes(rs, CoverageOf(rs).value)
  {
    var (seen, unsure) := ((r: Receipt) => r.status == Completed && r.usage.total != Unknown, (r: Receipt) => r.status == Uncertain);
    var without := (r: Receipt) => !Observed(r);
    CountsAre(rs, ObservedBit, seen);
    CountsAre(rs, UncertainBit, unsure);
    FilterCount(without, rs);
    Complement(rs, seen, without);
    MissingAre(rs, Filter(without, rs));
  }

  lemma Complement(rs: seq<Receipt>, p: Receipt -> bool, q: Receipt -> bool)
    requires forall r :: p(r) <==> !q(r)
    ensures |IndexesWith(rs, p)| + |IndexesWith(rs, q)| == |rs|
  {
    var (a, b) := (IndexesWith(rs, p), IndexesWith(rs, q));
    var anything := (r: Receipt) => true;
    assert a + b == IndexesWith(rs, anything) && a * b == {};
    CountsAre(rs, One, anything);
    assert |a + b| == |a| + |b|;
  }

  lemma MissingAre(rs: seq<Receipt>, missing: seq<Receipt>)
    requires forall r :: r in missing <==> r in rs && !HasUsage(r)
    ensures forall x :: x in Calls(missing) <==> exists i :: 0 <= i < |rs| && rs[i].call == x && !HasUsage(rs[i])
  {
    forall x | x in Calls(missing) ensures exists i :: 0 <= i < |rs| && rs[i].call == x && !HasUsage(rs[i]) {
      var k :| 0 <= k < |missing| && Calls(missing)[k] == x;
      assert missing[k] in missing;
      var i :| 0 <= i < |rs| && rs[i] == missing[k];
    }
    forall i | 0 <= i < |rs| && !HasUsage(rs[i]) ensures rs[i].call in Calls(missing) {
      assert rs[i] in missing;
      var k :| 0 <= k < |missing| && missing[k] == rs[i];
      assert Calls(missing)[k] == rs[i].call;
    }
  }

  // ----- Usage -----------------------------------------------------------------------------------------------

  /** One counter of all receipts, added up. */
  function Counted(rs: seq<Receipt>, f: Field): nat {
    if rs == [] then 0 else OrZero(rs[0].usage.Get(f)) + Counted(rs[1..], f)
  }

  ghost predicate Everywhere(rs: seq<Receipt>, f: Field) { rs != [] && forall i :: 0 <= i < |rs| ==> rs[i].usage.Get(f) != Unknown }

  ghost predicate EverySource(rs: seq<Receipt>, s: Source) { forall i :: 0 <= i < |rs| ==> rs[i].usage.source == s }
  ghost predicate SomeSource(rs: seq<Receipt>, s: Source) { exists i :: 0 <= i < |rs| && rs[i].usage.source == s }

  /** A usage adds up every counter that all receipts know, knows no other, and is labelled by its sources. */
  ghost predicate UsageDescribes(rs: seq<Receipt>, u: Usage) {
    && (forall f :: u.Get(f) == if Everywhere(rs, f) then Known(Counted(rs, f)) else Unknown)
    && (u.source == LegacyPartial <==> SomeSource(rs, LegacyPartial))
    && (u.source == Unavailable <==> EverySource(rs, Unavailable))
    && (u.source == ProviderObserved <==> rs != [] && EverySource(rs, ProviderObserved) && forall f :: Everywhere(rs, f))
  }

  lemma {:induction false} CountedAppend(rs: seq<Receipt>, r: Receipt, f: Field)
    ensures Counted(rs + [r], f) == Counted(rs, f) + OrZero(r.usage.Get(f))
  {
    if rs == [] {
      assert [] + [r] == [r] && [r][1..] == [];
    } else {
      CountedAppend(rs[1..], r, f);
      assert (rs + [r])[1..] == rs[1..] + [r];
    }
  }

  lemma {:induction false} AddedIsCounted(rs: seq<Receipt>, f: Field)
    ensures Added(Usages(rs), f) == Counted(rs, f)
  {
    if rs != [] {
      var n := |rs| - 1;
      AddedIsCounted(rs[..n], f);
      CountedAppend(rs[..n], rs[n], f);
      SplitLast(rs);
      assert Usages(rs)[..n] == Usages(rs[..n]);
    }
  }

  lemma ColumnIs(rs: seq<Receipt>, f: Field)
    requires rs != []
    ensures Column(Usages(rs), f) == if Everywhere(rs, f) then Known(Counted(rs, f)) else Unknown
  {
    AddedIsCounted(rs, f);
    var us := Usages(rs);
    if Everywhere(rs, f) {
      forall i | 0 <= i < |us| ensures us[i].Get(f).Known? { assert rs[i].usage.Get(f) != Unknown; }
    } else {
      var i :| 0 <= i < |rs| && rs[i].usage.Get(f) == Unknown;
      assert us[i].Get(f).Unknown?;
    }
  }

  lemma SourcesAre(rs: seq<Receipt>, s: Source)
    ensures Any(Usages(rs), s) <==> SomeSource(rs, s)
    ensures Every(Usages(rs), s) <==> EverySource(rs, s)
  {
    var us := Usages(rs);
    assert forall i :: 0 <= i < |rs| ==> us[i].source == rs[i].usage.source;
  }

  lemma UsageIs(rs: seq<Receipt>)
    requires UsagesHeld(rs) && SumUsage(Usages(rs)).Ok?
    ensures UsageDescribes(rs, SumUsage(Usages(rs)).value)
  {
    if rs == [] {
      assert Usages(rs) == [];
    } else {
      var us := Usages(rs);
      assert us != [] && AllHeld(us);
      SumIsClosed(us);
      forall f ensures Raw(us).Get(f) == if Everywhere(rs, f) then Known(Counted(rs, f)) else Unknown { ColumnIs(rs, f); RawGet(us, f); }
      LabelIs(rs, us);
    }
  }

  lemma LabelIs(rs: seq<Receipt>, us: seq<Usage>)
    requires rs != [] && us == Usages(rs) && forall f :: Raw(us).Get(f).Known? <==> Everywhere(rs, f)
    ensures var s := Raw(us).source;
            && (s == LegacyPartial <==> SomeSource(rs, LegacyPartial)) && (s == Unavailable <==> EverySource(rs, Unavailable))
            && (s == ProviderObserved <==> EverySource(rs, ProviderObserved) && forall f :: Everywhere(rs, f))
  {
    RawGet(us, Total);
    SourcesAre(rs, LegacyPartial);
    SourcesAre(rs, Unavailable);
    SourcesAre(rs, ProviderObserved);
    assert Complete(Raw(us)) <==> forall f :: Everywhere(rs, f);
    assert rs[0].usage.source == rs[0].usage.source;
  }

  // ----- The parts of a bundle -------------------------------------------------------------------------------

  /** `part` holds exactly the receipts with `p`, in call order. */
  ghost predicate PartOf(rs: seq<Receipt>, p: Receipt -> bool, part: seq<Receipt>) {
    Ascending(CallOf, part) && forall r :: r in part <==> r in rs && p(r)
  }

  ghost predicate CallsAre(part: seq<Receipt>, calls: seq<Id>) {
    |calls| == |part| && forall i :: 0 <= i < |part| ==> calls[i] == part[i].call
  }

  ghost predicate TotalsDescribe(rs: seq<Receipt>, t: Totals) {
    UsageDescribes(rs, t.usage) && CoverageDescribes(rs, t.coverage) && CostDescribes(rs, t.cost)
  }

  lemma TotalsAre(rs: seq<Receipt>)
    requires UsagesHeld(rs) && TotalsOf(rs).Ok?
    ensures TotalsDescribe(rs, TotalsOf(rs).value)
  {
    UsageIs(rs);
    CoverageIs(rs);
    CostIs(rs);
  }

  /** A call list and a usage are those of the receipts with `p`. */
  ghost predicate Splits(rs: seq<Receipt>, p: Receipt -> bool, calls: seq<Id>, u: Usage) {
    exists part :: PartOf(rs, p, part) && CallsAre(part, calls) && UsageDescribes(part, u)
  }

  lemma PartIs(rs: seq<Receipt>, p: Receipt -> bool)
    requires Ascending(CallOf, rs) && UsagesHeld(rs) && SumUsage(Usages(Filter(p, rs))).Ok?
    ensures Splits(rs, p, Calls(Filter(p, rs)), SumUsage(Usages(Filter(p, rs))).value)
  {
    var part := Filter(p, rs);
    FilterAscends(p, rs);
    FilterCount(p, rs);
    HeldInside(rs, part);
    UsageIs(part);
    assert PartOf(rs, p, part) && CallsAre(part, Calls(part));
  }

  ghost predicate OfSlice(r: Receipt, provider: Id, model: Id, tier: Option<Id>) {
    r.provider == provider && r.model == model && r.tier == tier
  }

  /** A slice is made of exactly the receipts of one provider, model and tier, and totals them. */
  ghost predicate SliceDescribes(rs: seq<Receipt>, s: Slice) {
    exists part :: part != [] && PartOf(rs, (r: Receipt) => OfSlice(r, s.key.provider, s.key.model, s.key.tier), part)
                   && CallsAre(part, s.calls) && TotalsDescribe(part, s.totals)
  }

  lemma SliceIs(rs: seq<Receipt>, g: Group, s: Slice)
    requires Ascending(CallOf, rs) && UsagesHeld(rs) && g in SliceGroups(rs) && SliceFits(s, g)
    ensures SliceDescribes(rs, s)
  {
    var part := g.receipts;
    SliceHolds(rs);
    GroupFits(rs, g);
    ByKeyMembers(g.key, rs);
    ByKeyAscends(g.key, rs);
    HeldInside(rs, part);
    TotalsAre(part);
    assert PartOf(rs, (r: Receipt) => OfSlice(r, s.key.provider, s.key.model, s.key.tier), part);
    assert CallsAre(part, s.calls);
  }

  /** Every receipt has its slice. */
  lemma SlicesAre(rs: seq<Receipt>, slices: seq<Slice>)
    requires Ascending(CallOf, rs) && UsagesHeld(rs) && SlicesOf(SliceGroups(rs)) == Ok(slices)
    ensures forall i :: 0 <= i < |slices| ==> SliceDescribes(rs, slices[i])
    ensures forall r :: r in rs ==> exists i :: 0 <= i < |slices| && OfSlice(r, slices[i].key.provider, slices[i].key.model, slices[i].key.tier)
    ensures forall i, k :: 0 <= i < k < |slices| ==> KeyBefore(slices[i].key, slices[k].key)
  {
    var groups := SliceGroups(rs);
    SlicesMatchGroups(groups);
    forall i | 0 <= i < |slices| ensures SliceDescribes(rs, slices[i]) { SliceIs(rs, groups[i], slices[i]); }
    forall r | r in rs ensures exists i :: 0 <= i < |slices| && OfSlice(r, slices[i].key.provider, slices[i].key.model, slices[i].key.tier) {
      var i := SliceOf(rs, slices, r);
    }
    forall i, k | 0 <= i < k < |slices| ensures KeyBefore(slices[i].key, slices[k].key) { KeysAscend(rs, slices, i, k); }
  }

  lemma SliceOf(rs: seq<Receipt>, slices: seq<Slice>, r: Receipt) returns (i: nat)
    requires r in rs && |slices| == |SliceGroups(rs)| && forall k :: 0 <= k < |slices| ==> SliceFits(slices[k], SliceGroups(rs)[k])
    ensures i < |slices| && OfSlice(r, slices[i].key.provider, slices[i].key.model, slices[i].key.tier)
  {
    var groups := SliceGroups(rs);
    SliceHolds(rs);
    var g :| g in groups && g.key == KeyOf(r);
    i :| 0 <= i < |groups| && groups[i] == g;
    assert SliceFits(slices[i], groups[i]);
  }

  lemma KeysAscend(rs: seq<Receipt>, slices: seq<Slice>, i: nat, k: nat)
    requires |slices| == |SliceGroups(rs)| && forall k :: 0 <= k < |slices| ==> SliceFits(slices[k], SliceGroups(rs)[k])
    requires i < k < |slices|
    ensures KeyBefore(slices[i].key, slices[k].key)
  {
    SlicesPartition(One, rs);
    assert SliceFits(slices[i], SliceGroups(rs)[i]) && SliceFits(slices[k], SliceGroups(rs)[k]);
  }

  ghost predicate PartsDescribe(b: Bundle) {
    && CallsAre(b.receipts, b.allCalls)
    && Splits(b.receipts, OwnedBy(b.identity.run), b.directCalls, b.directUsage)
    && Splits(b.receipts, OwnedElsewhere(b.identity.run), b.descendantCalls, b.descendantUsage)
  }

  function OwnedBy(run: Id): Receipt -> bool { (r: Receipt) => r.owner == run }
  function OwnedElsewhere(run: Id): Receipt -> bool { (r: Receipt) => r.owner != run }

  ghost predicate SlicesDescribe(b: Bundle) {
    && (forall i :: 0 <= i < |b.slices| ==> SliceDescribes(b.receipts, b.slices[i]))
    && (forall i, k :: 0 <= i < k < |b.slices| ==> KeyBefore(b.slices[i].key, b.slices[k].key))
    && (forall r :: r in b.receipts ==> exists i :: 0 <= i < |b.slices| && OfSlice(r, b.slices[i].key.provider, b.slices[i].key.model, b.slices[i].key.tier))
  }

  /** What an accepted bundle says about its receipts. */
  ghost predicate BundleDescribes(b: Bundle) {
    && Ascending(CallOf, b.receipts) && PartsDescribe(b) && SlicesDescribe(b)
    && TotalsDescribe(b.receipts, Totals(b.allUsage, b.coverage, b.cost))
  }

  /** What it keeps as evidence. */
  ghost predicate EvidenceDescribes(b: Bundle) {
    var rs := b.receipts;
    && (forall r :: r in b.receiptDigests <==> r in rs)
    && (forall x :: x in b.rawUsages <==> exists i :: 0 <= i < |rs| && rs[i].rawUsage == Some(x))
    && b.snapshots == b.cost.snapshots && (b.legacy <==> SomeSource(rs, LegacyPartial))
  }

  lemma PartsAre(b: Bundle)
    requires Ascending(CallOf, b.receipts) && UsagesHeld(b.receipts)
    requires b.directCalls == Calls(Direct(b.identity.run, b.receipts)) && SumUsage(Usages(Direct(b.identity.run, b.receipts))) == Ok(b.directUsage)
    requires b.descendantCalls == Calls(Descendant(b.identity.run, b.receipts))
    requires SumUsage(Usages(Descendant(b.identity.run, b.receipts))) == Ok(b.descendantUsage) && b.allCalls == Calls(b.receipts)
    ensures PartsDescribe(b)
  {
    OwnPart(b.identity.run, b.receipts);
    OtherPart(b.identity.run, b.receipts);
  }

  lemma SliceListIs(b: Bundle)
    requires Ascending(CallOf, b.receipts) && UsagesHeld(b.receipts) && SlicesOf(SliceGroups(b.receipts)) == Ok(b.slices)
    ensures SlicesDescribe(b)
  {
    SlicesAre(b.receipts, b.slices);
  }

  lemma EvidenceIs(b: Bundle)
    requires b.receiptDigests == (set r | r in b.receipts) && b.rawUsages == RawUsages(b.receipts)
    requires b.snapshots == b.cost.snapshots && b.legacy == HasLegacy(b.receipts)
    ensures EvidenceDescribes(b)
  {
    RawUsagesAre(b.receipts);
  }

  lemma AssembleFields(id: Identity, status: nat, rs: seq<Receipt>, cs: seq<Child>, es: seq<Event>)
    requires Assemble(id, status, rs, cs, es).Ok?
    ensures var b := Assemble(id, status, rs, cs, es).value;
            && b.identity == id && b.status == status && b.children == cs && b.events == es && b.receipts == rs
            && SlicesOf(SliceGroups(rs)) == Ok(b.slices) && b.snapshots == b.cost.snapshots
  {}

  lemma RecomputedDescribes(b: Bundle)
    requires Ascending(CallOf, b.receipts) && UsagesHeld(b.receipts) && Recomputes(b)
    requires SlicesOf(SliceGroups(b.receipts)) == Ok(b.slices) && b.snapshots == b.cost.snapshots
    ensures BundleDescribes(b) && EvidenceDescribes(b)
  {
    assert PartsDescribe(b) by { PartsAre(b); }
    assert SlicesDescribe(b) by { SliceListIs(b); }
    assert EvidenceDescribes(b) by { EvidenceIs(b); }
    assert TotalsDescribe(b.receipts, Totals(b.allUsage, b.coverage, b.cost)) by { TotalsAre(b.receipts); }
  }

  lemma {:induction false} SameFilter(p: Receipt -> bool, q: Receipt -> bool, rs: seq<Receipt>)
    requires forall r :: p(r) <==> q(r)
    ensures Filter(p, rs) == Filter(q, rs)
  {
    if rs != [] { SameFilter(p, q, rs[..|rs| - 1]); }
  }

  lemma OwnPart(run: Id, rs: seq<Receipt>)
    requires Ascending(CallOf, rs) && UsagesHeld(rs) && SumUsage(Usages(Direct(run, rs))).Ok?
    ensures Splits(rs, OwnedBy(run), Calls(Direct(run, rs)), SumUsage(Usages(Direct(run, rs))).value)
  {
    SameFilter((r: Receipt) => r.owner == run, OwnedBy(run), rs);
    PartIs(rs, OwnedBy(run));
  }

  lemma OtherPart(run: Id, rs: seq<Receipt>)
    requires Ascending(CallOf, rs) && UsagesHeld(rs) && SumUsage(Usages(Descendant(run, rs))).Ok?
    ensures Splits(rs, OwnedElsewhere(run), Calls(Descendant(run, rs)), SumUsage(Usages(Descendant(run, rs))).value)
  {
    SameFilter((r: Receipt) => r.owner != run, OwnedElsewhere(run), rs);
    PartIs(rs, OwnedElsewhere(run));
  }

  lemma RawUsagesAre(rs: seq<Receipt>)
    ensures forall x :: x in RawUsages(rs) <==> exists i :: 0 <= i < |rs| && rs[i].rawUsage == Some(x)
  {
    forall x | x in RawUsages(rs) ensures exists i :: 0 <= i < |rs| && rs[i].rawUsage == Some(x) {
      var r :| r in rs && r.rawUsage == Some(x);
      var i :| 0 <= i < |rs| && rs[i] == r;
    }
    forall i | 0 <= i < |rs| ensures rs[i] in rs {}
  }

  /** An accepted reduction describes its receipts: which calls are its own, what they used, what they cost and which lack
      usage, as a whole and by provider, model and tier. */
  lemma ReductionDescribes(w: Wire, id: Identity, status: nat, facts: Facts)
    requires UsagesHeld(facts.receipts) && Reduce(w, id, status, facts).Ok?
    ensures var b := Reduce(w, id, status, facts).value;
            && BundleDescribes(b) && EvidenceDescribes(b) && b.identity == id && b.status == status
            && (forall r :: r in b.receipts <==> r in facts.receipts) && ArrangedAs(RunOf, facts.children, b.children)
            && ArrangedAs(EventId(w.ids), facts.events + AttemptEvents(b.receipts), b.events)
  {
    var (rs, cs) := (Arrange(CallOf, facts.receipts).value, Arrange(RunOf, facts.children).value);
    var es := Arrange(EventId(w.ids), facts.events + AttemptEvents(rs)).value;
    ArrangeOk(CallOf, facts.receipts);
    ArrangeOk(RunOf, facts.children);
    ArrangeOk(EventId(w.ids), facts.events + AttemptEvents(rs));
    HeldInside(facts.receipts, rs);
    AssembleFields(id, status, rs, cs, es);
    RecomputedDescribes(Assemble(id, status, rs, cs, es).value);
  }
}
