/** When facts are accepted into a bundle, in terms of the facts' own fields, and what merged bundles contribute. */
module BundleAcceptance {
  import opened Wrappers
  import opened Usage
  import opened Sorting
  import opened RunTopology
  import opened RunBundle
  import opened RunReducer
  import opened BundleFacts

  // ----- Owners -----------------------------------------------------------------------------------------------

  /** The run itself or one of its children, under its attempt and below its parent. */
  ghost predicate Owned(id: Identity, cs: seq<Child>, owner: Id, attempt: Id) {
    (owner == id.run && attempt == id.attempt) || exists i :: 0 <= i < |cs| && cs[i].run == owner && cs[i].attempt == attempt
  }

  ghost predicate OwnedBelow(id: Identity, cs: seq<Child>, owner: Id, attempt: Id, parent: Option<Id>) {
    || (owner == id.run && attempt == id.attempt && parent == id.parent)
    || exists i :: 0 <= i < |cs| && cs[i].run == owner && cs[i].attempt == attempt && parent == Some(cs[i].parent)
  }

  /** Distinct children, none of them the run itself. */
  ghost predicate Family(id: Identity, cs: seq<Child>) {
    Ascending(RunOf, cs) && forall i :: 0 <= i < |cs| ==> cs[i].run != id.run
  }

  lemma FamilyFront(id: Identity, cs: seq<Child>)
    requires Family(id, cs) && cs != []
    ensures Family(id, cs[..|cs| - 1])
    ensures forall i :: 0 <= i < |cs| - 1 ==> cs[i].run != cs[|cs| - 1].run
  {
    var n := |cs| - 1;
    AscendingFront(RunOf, cs);
    forall i | 0 <= i < n ensures cs[i].run != cs[n].run { assert RunOf(cs[i]) < RunOf(cs[n]); }
  }

  lemma {:induction false} OwnersAre(id: Identity, cs: seq<Child>)
    requires Family(id, cs)
    ensures id.run in Attempts(id, cs) && Attempts(id, cs)[id.run] == (id.attempt, id.parent)
    ensures forall i :: 0 <= i < |cs| ==> cs[i].run in Attempts(id, cs) && Attempts(id, cs)[cs[i].run] == (cs[i].attempt, Some(cs[i].parent))
    ensures forall x :: x in Attempts(id, cs) ==> x == id.run || exists i :: 0 <= i < |cs| && cs[i].run == x
  {
    if cs != [] {
      var n := |cs| - 1;
      FamilyFront(id, cs);
      OwnersAre(id, cs[..n]);
      forall i | 0 <= i < n ensures cs[..n][i] == cs[i] {}
    }
  }

  lemma {:induction false} ParentsAre(id: Identity, cs: seq<Child>)
    requires Family(id, cs)
    ensures forall i :: 0 <= i < |cs| ==> cs[i].run in ParentsOf(cs) && ParentsOf(cs)[cs[i].run] == cs[i].parent
    ensures forall x :: x in ParentsOf(cs) ==> exists i :: 0 <= i < |cs| && cs[i].run == x
  {
    if cs != [] {
      var n := |cs| - 1;
      FamilyFront(id, cs);
      ParentsAre(id, cs[..n]);
      forall i | 0 <= i < n ensures cs[..n][i] == cs[i] {}
    }
  }

  lemma OwnedIs(id: Identity, cs: seq<Child>, owner: Id, attempt: Id, parent: Option<Id>)
    requires Family(id, cs)
    ensures owner in Attempts(id, cs) && attempt == Attempts(id, cs)[owner].0 <==> Owned(id, cs, owner, attempt)
    ensures owner in Attempts(id, cs) && attempt == Attempts(id, cs)[owner].0 && parent == Attempts(id, cs)[owner].1 <==>
              OwnedBelow(id, cs, owner, attempt, parent)
  {
    OwnersAre(id, cs);
  }

  // ----- Events -----------------------------------------------------------------------------------------------

  ghost predicate AboutCall(e: Event, call: Id) { e.key.kind == ModelAttempt && e.key.subject == call }

  /** The last model-attempt event about a call says how the call ended. */
  ghost predicate Ends(es: seq<Event>, call: Id, status: Status) {
    exists k :: 0 <= k < |es| && AboutCall(es[k], call) && es[k].outcome == Ended(status) && forall l :: k < l < |es| ==> !AboutCall(es[l], call)
  }

  lemma {:induction false} LastAttemptIs(es: seq<Event>, call: Id, status: Status)
    ensures LastAttempt(es, call).Some? && LastAttempt(es, call).value.outcome == Ended(status) <==> Ends(es, call, status)
  {
    if es != [] {
      var n := |es| - 1;
      var front := es[..n];
      LastAttemptIs(front, call, status);
      if AboutCall(es[n], call) {
        assert Ends(es, call, status) ==> es[n].outcome == Ended(status);
      } else {
        if k :| 0 <= k < |es| && AboutCall(es[k], call) && es[k].outcome == Ended(status) && forall l :: k < l < |es| ==> !AboutCall(es[l], call) {
          assert front[k] == es[k] && forall l :: k < l < n ==> front[l] == es[l];
        }
        if k :| 0 <= k < n && AboutCall(front[k], call) && front[k].outcome == Ended(status) && forall l :: k < l < n ==> !AboutCall(front[l], call) {
          assert front[k] == es[k] && forall l :: k < l < n ==> front[l] == es[l];
        }
      }
    }
  }

  // ----- Fit ----------------------------------------------------------------------------------------------------

  ghost predicate ChildFits(id: Identity, c: Child) {
    c.bundle == Some(Identity(id.execution, c.attempt, id.root, c.run, Some(c.parent), ChildRun(c.kind))) && c.run != id.root
  }

  ghost predicate ReceiptFits(id: Identity, cs: seq<Child>, es: seq<Event>, r: Receipt) {
    r.execution == id.execution && r.root == id.root && Owned(id, cs, r.owner, r.attempt) && Ends(es, r.call, r.status)
  }

  ghost predicate EventFits(id: Identity, cs: seq<Child>, rs: seq<Receipt>, e: Event) {
    && e.key.execution == id.execution && e.key.root == id.root && OwnedBelow(id, cs, e.key.owner, e.key.attempt, e.key.parent)
    && (e.key.kind == ModelAttempt ==> exists i :: 0 <= i < |rs| && rs[i].call == e.key.subject)
  }

  /** Everything belongs to the run or one of its children, every model attempt is about a receipt, and every receipt's last
      attempt ended as the receipt says; within the size limits. */
  ghost predicate Fits(id: Identity, rs: seq<Receipt>, cs: seq<Child>, es: seq<Event>) {
    && |rs| <= 10_000 && |es| <= 50_000
    && (forall i :: 0 <= i < |cs| ==> ChildFits(id, cs[i]))
    && (forall i :: 0 <= i < |rs| ==> ReceiptFits(id, cs, es, rs[i]))
    && (forall i :: 0 <= i < |es| ==> EventFits(id, cs, rs, es[i]))
  }

  lemma CallListed(rs: seq<Receipt>, call: Id)
    ensures call in Calls(rs) <==> exists i :: 0 <= i < |rs| && rs[i].call == call
  {
    if call in Calls(rs) { var i :| 0 <= i < |rs| && Calls(rs)[i] == call; }
    if i :| 0 <= i < |rs| && rs[i].call == call { assert Calls(rs)[i] == call; }
  }

  lemma ReceiptFitIs(id: Identity, cs: seq<Child>, es: seq<Event>, r: Receipt)
    requires Family(id, cs)
    ensures ReceiptFits(id, cs, es, r) <==>
              ReceiptOk(id, Attempts(id, cs), r) && LastAttempt(es, r.call).Some? && LastAttempt(es, r.call).value.outcome == Ended(r.status)
  {
    OwnedIs(id, cs, r.owner, r.attempt, None);
    LastAttemptIs(es, r.call, r.status);
  }

  lemma EventFitIs(id: Identity, cs: seq<Child>, rs: seq<Receipt>, e: Event)
    requires Family(id, cs)
    ensures EventFits(id, cs, rs, e) <==>
              EventOk(id, Attempts(id, cs), e) && (e.key.kind == ModelAttempt ==> e.key.subject in Calls(rs))
  {
    OwnedIs(id, cs, e.key.owner, e.key.attempt, e.key.parent);
    CallListed(rs, e.key.subject);
  }

  lemma FitIs(id: Identity, rs: seq<Receipt>, cs: seq<Child>, es: seq<Event>)
    requires Family(id, cs)
    ensures FactsFit(id, rs, cs, es) <==> Fits(id, rs, cs, es)
  {
    forall i | 0 <= i < |rs|
      ensures ReceiptFits(id, cs, es, rs[i]) <==>
                ReceiptOk(id, Attempts(id, cs), rs[i]) && LastAttempt(es, rs[i].call).Some? && LastAttempt(es, rs[i].call).value.outcome == Ended(rs[i].status)
    {
      ReceiptFitIs(id, cs, es, rs[i]);
    }
    forall i | 0 <= i < |es|
      ensures EventFits(id, cs, rs, es[i]) <==>
                EventOk(id, Attempts(id, cs), es[i]) && (es[i].key.kind == ModelAttempt ==> es[i].key.subject in Calls(rs))
    {
      EventFitIs(id, cs, rs, es[i]);
    }
  }

  // ----- Tree -----------------------------------------------------------------------------------------------------

  /** `steps` parent links lead from the child to the owner. */
  ghost predicate LeadsTo(cs: seq<Child>, owner: Id, child: Id, steps: nat)
    decreases steps
  {
    exists i :: 0 <= i < |cs| && cs[i].run == child && (if steps == 0 then cs[i].parent == owner else LeadsTo(cs, owner, cs[i].parent, steps - 1))
  }

  ghost predicate Reaches(cs: seq<Child>, owner: Id, child: Id) { exists steps: nat :: LeadsTo(cs, owner, child, steps) }

  /** No child is the owner, and every child leads to it. */
  ghost predicate TreeBelow(cs: seq<Child>, owner: Id) {
    forall i :: 0 <= i < |cs| ==> cs[i].run != owner && Reaches(cs, owner, cs[i].run)
  }

  lemma {:induction false} LeadsToIs(id: Identity, cs: seq<Child>, child: Id, steps: nat)
    requires Family(id, cs)
    ensures LeadsTo(cs, id.run, child, steps) <==> Descends(ParentsOf(cs), id.run, child, steps)
    decreases steps
  {
    ParentsAre(id, cs);
    if child in ParentsOf(cs) {
      var i :| 0 <= i < |cs| && cs[i].run == child;
      if steps > 0 { LeadsToIs(id, cs, cs[i].parent, steps - 1); }
      SameChild(id, cs, child, i);
    }
  }

  lemma SameChild(id: Identity, cs: seq<Child>, child: Id, i: nat)
    requires Family(id, cs) && i < |cs| && cs[i].run == child
    ensures forall k :: 0 <= k < |cs| && cs[k].run == child ==> k == i
  {
    forall k | 0 <= k < |cs| && cs[k].run == child ensures k == i {
      assert k < i ==> RunOf(cs[k]) < RunOf(cs[i]);
      assert i < k ==> RunOf(cs[i]) < RunOf(cs[k]);
    }
  }

  lemma TreeIs(id: Identity, cs: seq<Child>)
    requires Ascending(RunOf, cs)
    ensures IsTree(ParentsOf(cs), id.run) <==> TreeBelow(cs, id.run)
    ensures IsTree(ParentsOf(cs), id.run) ==> Family(id, cs)
  {
    ParentsKeys(cs);
    forall i | 0 <= i < |cs| ensures cs[i].run in ParentsOf(cs) { assert Keys(RunOf, cs)[i] == cs[i].run; }
    if Family(id, cs) {
      ParentsAre(id, cs);
      forall i | 0 <= i < |cs| ensures Rooted(ParentsOf(cs), id.run, cs[i].run) <==> Reaches(cs, id.run, cs[i].run) {
        ReachesIs(id, cs, cs[i].run);
      }
    }
  }

  lemma ReachesIs(id: Identity, cs: seq<Child>, child: Id)
    requires Family(id, cs)
    ensures Rooted(ParentsOf(cs), id.run, child) <==> Reaches(cs, id.run, child)
  {
    forall steps: nat ensures LeadsTo(cs, id.run, child, steps) <==> Descends(ParentsOf(cs), id.run, child, steps) {
      LeadsToIs(id, cs, child, steps);
    }
  }

  // ----- Sums -----------------------------------------------------------------------------------------------------

  /** Every counter that all receipts know stays in the safe range when added up. */
  ghost predicate InRange(rs: seq<Receipt>) { forall f :: Everywhere(rs, f) ==> Counted(rs, f) <= 9_007_199_254_740_991 }

  lemma SafeUsageIs(rs: seq<Receipt>)
    ensures SafeUsage(rs) <==> InRange(rs)
  {
    if rs != [] {
      var us := Usages(rs);
      SafeByField(Raw(us));
      forall f ensures Safe(Raw(us).Get(f)) <==> (Everywhere(rs, f) ==> Counted(rs, f) <= MAX_SAFE_INTEGER) {
        ColumnIs(rs, f);
        RawGet(us, f);
      }
    }
  }

  /** The receipts with `p`, however they are listed, stay in range. */
  ghost predicate PartInRange(rs: seq<Receipt>, p: Receipt -> bool) { forall part :: PartOf(rs, p, part) ==> InRange(part) }

  lemma PartInRangeIs(rs: seq<Receipt>, p: Receipt -> bool, part: seq<Receipt>)
    requires PartOf(rs, p, part)
    ensures PartInRange(rs, p) <==> InRange(part)
  {
    forall other | PartOf(rs, p, other) ensures other == part { AscendingUnique(CallOf, other, part); }
  }

  function SliceOf(provider: Id, model: Id, tier: Option<Id>): Receipt -> bool {
    (r: Receipt) => r.provider == provider && r.model == model && r.tier == tier
  }

  ghost predicate SumsInRange(run: Id, rs: seq<Receipt>) {
    && InRange(rs) && PartInRange(rs, OwnedBy(run)) && PartInRange(rs, OwnedElsewhere(run))
    && (forall provider, model, tier :: PartInRange(rs, SliceOf(provider, model, tier)))
    && Prices(rs) <= 9_007_199_254_740_991
  }

  lemma SliceRange(rs: seq<Receipt>, key: SliceKey)
    requires Ascending(CallOf, rs)
    ensures PartInRange(rs, SliceOf(key.provider, key.model, key.tier)) <==> SafeUsage(ByKey(key, rs))
  {
    ByKeyMembers(key, rs);
    ByKeyAscends(key, rs);
    PartInRangeIs(rs, SliceOf(key.provider, key.model, key.tier), ByKey(key, rs));
    SafeUsageIs(ByKey(key, rs));
  }

  lemma NoSliceNoReceipts(rs: seq<Receipt>, key: SliceKey)
    requires forall r :: r in rs ==> KeyOf(r) != key
    ensures SafeUsage(ByKey(key, rs))
  {
    ByKeyMembers(key, rs);
    NonEmptyHasElement(ByKey(key, rs));
  }

  lemma SlicesInRange(rs: seq<Receipt>)
    requires Ascending(CallOf, rs)
    ensures (forall r :: r in rs ==> SafeUsage(ByKey(KeyOf(r), rs))) <==> forall provider, model, tier :: PartInRange(rs, SliceOf(provider, model, tier))
  {
    forall provider, model, tier
      ensures PartInRange(rs, SliceOf(provider, model, tier)) <==> SafeUsage(ByKey(SliceKey(provider, model, tier), rs))
    {
      SliceRange(rs, SliceKey(provider, model, tier));
    }
    if forall r :: r in rs ==> SafeUsage(ByKey(KeyOf(r), rs)) {
      forall provider, model, tier ensures PartInRange(rs, SliceOf(provider, model, tier)) {
        var key := SliceKey(provider, model, tier);
        if forall r :: r in rs ==> KeyOf(r) != key { NoSliceNoReceipts(rs, key); }
      }
    }
    if forall provider, model, tier :: PartInRange(rs, SliceOf(provider, model, tier)) {
      forall r | r in rs ensures SafeUsage(ByKey(KeyOf(r), rs)) {
        var key := KeyOf(r);
        assert PartInRange(rs, SliceOf(key.provider, key.model, key.tier));
      }
    }
  }

  lemma OwnedRange(run: Id, rs: seq<Receipt>)
    requires Ascending(CallOf, rs)
    ensures PartInRange(rs, OwnedBy(run)) <==> SafeUsage(Direct(run, rs))
    ensures PartInRange(rs, OwnedElsewhere(run)) <==> SafeUsage(Descendant(run, rs))
  {
    FilterCount((r: Receipt) => r.owner == run, rs);
    FilterAscends((r: Receipt) => r.owner == run, rs);
    PartInRangeIs(rs, OwnedBy(run), Direct(run, rs));
    SafeUsageIs(Direct(run, rs));
    FilterCount((r: Receipt) => r.owner != run, rs);
    FilterAscends((r: Receipt) => r.owner != run, rs);
    PartInRangeIs(rs, OwnedElsewhere(run), Descendant(run, rs));
    SafeUsageIs(Descendant(run, rs));
  }

  lemma SumsAre(run: Id, rs: seq<Receipt>)
    requires Ascending(CallOf, rs)
    ensures SumsSafe(run, rs) <==> SumsInRange(run, rs)
  {
    OwnedRange(run, rs);
    SlicesInRange(rs);
    SafeUsageIs(rs);
    AmountIsPrices(rs);
  }

  // ----- Acceptance -----------------------------------------------------------------------------------------------

  /** The model-attempt event that stands for a receipt. */
  ghost predicate StandsFor(e: Event, r: Receipt) {
    && e.key.execution == r.execution && e.key.attempt == r.attempt && e.key.root == r.root && e.key.owner == r.owner
    && e.key.parent == r.parent && e.key.kind == ModelAttempt && e.key.subject == r.call && e.outcome == Ended(r.status) && e.detail == 0
  }

  /** The given events and one for every receipt, each once. */
  ghost predicate EventsOf(w: Wire, given: seq<Event>, rs: seq<Receipt>, es: seq<Event>) {
    && Ascending(EventId(w.ids), es)
    && forall e :: e in es <==> e in given || exists i :: 0 <= i < |rs| && StandsFor(e, rs[i])
  }

  lemma EventsAre(w: Wire, given: seq<Event>, rs: seq<Receipt>, es: seq<Event>)
    ensures ArrangedAs(EventId(w.ids), given + AttemptEvents(rs), es) <==> EventsOf(w, given, rs, es)
  {
    forall e ensures e in AttemptEvents(rs) <==> exists i :: 0 <= i < |rs| && StandsFor(e, rs[i]) {
      if e in AttemptEvents(rs) { var i :| 0 <= i < |rs| && AttemptEvents(rs)[i] == e; assert StandsFor(e, rs[i]); }
      if i :| 0 <= i < |rs| && StandsFor(e, rs[i]) { assert AttemptEvents(rs)[i] == e; }
    }
  }

  ghost predicate AcceptedAs(w: Wire, id: Identity, status: nat, facts: Facts, rs: seq<Receipt>, cs: seq<Child>, es: seq<Event>) {
    && ArrangedAs(CallOf, facts.receipts, rs) && ArrangedAs(RunOf, facts.children, cs) && EventsOf(w, facts.events, rs, es)
    && SumsInRange(id.run, rs) && TreeBelow(cs, id.run) && Fits(id, rs, cs, es)
    && w.size(id, status, rs, cs, es) <= 2 * 1024 * 1024
  }

  lemma AcceptedIs(w: Wire, id: Identity, status: nat, facts: Facts, rs: seq<Receipt>, cs: seq<Child>, es: seq<Event>)
    ensures AcceptedAs(w, id, status, facts, rs, cs, es) <==> ReducibleAs(w, id, status, facts, rs, cs, es)
  {
    EventsAre(w, facts.events, rs, es);
    if ArrangedAs(CallOf, facts.receipts, rs) { SumsAre(id.run, rs); }
    if ArrangedAs(RunOf, facts.children, cs) {
      TreeIs(id, cs);
      if Family(id, cs) { FitIs(id, rs, cs, es); }
    }
  }

  /** A reduction accepts exactly the facts that can be arranged, stay in range, form a tree, belong to it and can be encoded:
      everything said in terms of the facts. */
  lemma AcceptsExactly(w: Wire, id: Identity, status: nat, facts: Facts)
    requires UsagesHeld(facts.receipts)
    ensures Reduce(w, id, status, facts).Ok? <==> exists rs, cs, es :: AcceptedAs(w, id, status, facts, rs, cs, es)
  {
    ReduceAcceptsExactly(w, id, status, facts);
    forall rs, cs, es ensures AcceptedAs(w, id, status, facts, rs, cs, es) <==> ReducibleAs(w, id, status, facts, rs, cs, es) {
      AcceptedIs(w, id, status, facts, rs, cs, es);
    }
  }

  // ----- Merging --------------------------------------------------------------------------------------------------

  /** A bundle of the same execution, of this run or of one below some parent. */
  ghost predicate Mergeable(id: Identity, b: Bundle) {
    && b.identity.execution == id.execution && b.identity.root == id.root
    && (b.identity.run == id.run || (b.identity.parent.Some? && b.identity.relation.ChildRun?))
  }

  /** The child that stands for a merged bundle of another run. */
  ghost predicate ChildOf(id: Identity, b: Bundle, c: Child) {
    && b.identity.run != id.run && c.run == b.identity.run && c.attempt == b.identity.attempt && Some(c.parent) == b.identity.parent
    && b.identity.relation == ChildRun(c.kind) && c.bundle == Some(b.identity) && c.status == b.status
  }

  ghost predicate GivesChild(id: Identity, bundles: seq<Bundle>, c: Child) {
    exists k :: 0 <= k < |bundles| && (c in bundles[k].children || ChildOf(id, bundles[k], c))
  }

  ghost predicate GivesEvent(bundles: seq<Bundle>, e: Event) { exists k :: 0 <= k < |bundles| && e in bundles[k].events }

  /** Merging takes exactly the mergeable bundles, and from each its receipts, its events, its children, and itself as a
      child when it is of another run. */
  lemma {:induction false} GatherIs(id: Identity, own: Facts, bundles: seq<Bundle>)
    ensures Gather(id, own, bundles).Some? <==> forall k :: 0 <= k < |bundles| ==> Mergeable(id, bundles[k])
    ensures Gather(id, own, bundles).Some? ==>
              var all := Gather(id, own, bundles).value;
              && (forall r :: r in all.receipts <==> r in own.receipts || HeldBy(r, bundles))
              && (forall c :: c in all.children <==> c in own.children || GivesChild(id, bundles, c))
              && (forall e :: e in all.events <==> e in own.events || GivesEvent(bundles, e))
  {
    if Gather(id, own, bundles).Some? { GatherReceipts(id, own, bundles); }
    if bundles != [] {
      var n := |bundles| - 1;
      var (front, last) := (bundles[..n], bundles[n]);
      GatherIs(id, own, front);
      forall k | 0 <= k < n ensures front[k] == bundles[k] {}
      if Gather(id, own, bundles).Some? { GatherLast(id, own, bundles); }
    }
  }

  lemma GatherLast(id: Identity, own: Facts, bundles: seq<Bundle>)
    requires bundles != [] && Gather(id, own, bundles).Some?
    ensures var (front, last) := (bundles[..|bundles| - 1], bundles[|bundles| - 1]);
            && (forall c :: GivesChild(id, bundles, c) <==> GivesChild(id, front, c) || c in last.children || ChildOf(id, last, c))
            && (forall e :: GivesEvent(bundles, e) <==> GivesEvent(front, e) || e in last.events)
  {
    var n := |bundles| - 1;
    var (front, last) := (bundles[..n], bundles[n]);
    forall k | 0 <= k < n ensures front[k] == bundles[k] {}
    forall c ensures GivesChild(id, bundles, c) <==> GivesChild(id, front, c) || c in last.children || ChildOf(id, last, c) {
      if GivesChild(id, bundles, c) {
        var k :| 0 <= k < |bundles| && (c in bundles[k].children || ChildOf(id, bundles[k], c));
        assert k < n ==> c in front[k].children || ChildOf(id, front[k], c);
      }
    }
    forall e ensures GivesEvent(bundles, e) <==> GivesEvent(front, e) || e in last.events {
      if GivesEvent(bundles, e) {
        var k :| 0 <= k < |bundles| && e in bundles[k].events;
        assert k < n ==> e in front[k].events;
      }
    }
  }
}
