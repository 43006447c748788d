/** `_reduce`: fitting an assembled conversation into a token budget by dropping a prefix of turns, without
    splitting tool pairs and without dropping anything a matching checkpoint does not cover. The estimator, the
    compaction functions and the checkpoint marker are parameters. */
module ContextReduce {
  import opened Wrappers
  import opened ContextTypes
  import opened Checkpoints
  import opened Sorting

  /** Where an assembled message comes from. */
  datatype Tag = FromSource(index: nat) | Injected | NativeTail | Marker(request: Request)
  datatype Item = Item(tag: Tag, message: Message)

  datatype Ref = Ref(checkpoint: bool, fragment: bool, id: nat)

  /** `compactPinned` answers `None` where a malformed pinned message raises. */
  datatype Env = Env(
    estimate: seq<Message> -> nat,
    compactPinned: Message -> Option<Message>,
    compactResult: Message -> Message,
    marker: (Ref, Request, nat) -> Message,
    planningRef: Ref)

  datatype Binding = Binding(ref: Ref, request: Request)
  datatype Resolver = NoResolver | Resolver(resolve: Request -> Option<Ref>)

  datatype Input = Input(
    items: seq<Item>, manifest: Manifest, budget: int, binding: Option<Binding>, minimumCutoff: nat, resolver: Resolver)

  datatype Failure =
    | NoBudget | PinnedMalformed | MandatoryTooLarge | NoAdmissibleCutoff | CheckpointMismatch
    | NotCheckpointable | InvalidRef | NothingOmitted | MarkerTooLarge | OrphanToolPair

  datatype Outcome =
    | Complete(items: seq<Item>, dropped: nat, included: seq<nat>, transformed: set<nat>, omitted: seq<nat>)
    | CheckpointRequired(dropped: nat, omitted: seq<nat>, request: Request)
    | Failed(failure: Failure)

  // ----- Laws of the parameters ------------------------------------------------------------------

  /** Compaction keeps the role and the tool ids; the marker is an assistant message without tool ids. */
  ghost predicate Lawful(env: Env) {
    && (forall m {:trigger env.compactPinned(m)} :: env.compactPinned(m).Some? ==> SameIds(m, env.compactPinned(m).value))
    && (forall m {:trigger env.compactResult(m)} :: SameIds(m, env.compactResult(m)))
    && (forall r, q, n {:trigger env.marker(r, q, n)} ::
          var m := env.marker(r, q, n); m.role == Assistant && m.calls == {} && m.results == {})
  }

  predicate SameIds(m: Message, n: Message) { n.role == m.role && n.calls == m.calls && n.results == m.results }

  // ----- Views of the assembled messages ----------------------------------------------------------

  datatype Part = SystemPart | InjectedPart | TailPart | TurnPart

  function PartOf(x: Item): Part {
    if x.message.role == System then SystemPart
    else if x.tag == Injected then InjectedPart
    else if x.tag == NativeTail then TailPart
    else TurnPart
  }

  function Pick(part: Part, items: seq<Item>): seq<Item> {
    if items == [] then []
    else Pick(part, items[..|items| - 1]) + (if PartOf(items[|items| - 1]) == part then [items[|items| - 1]] else [])
  }

  function MessagesOf(items: seq<Item>): seq<Message> {
    seq(|items|, i requires 0 <= i < |items| => items[i].message)
  }

  function Size(env: Env, items: seq<Item>): nat { env.estimate(MessagesOf(items)) }

  function CallsIn(items: seq<Item>): set<Id> { set x, c | x in items && c in x.message.calls :: c }
  function ResultsIn(items: seq<Item>): set<Id> { set x, c | x in items && c in x.message.results :: c }

  predicate Mentions(items: seq<Item>, c: Id) {
    exists i :: 0 <= i < |items| && (c in items[i].message.calls || c in items[i].message.results)
  }

  /** A new turn starts at each human message. */
  function Turns(items: seq<Item>): seq<seq<Item>> {
    if items == [] then []
    else
      var (before, x) := (Turns(items[..|items| - 1]), items[|items| - 1]);
      if before == [] || x.message.human then before + [[x]]
      else before[..|before| - 1] + [before[|before| - 1] + [x]]
  }

  /** `_split_turns`. */
  method SplitTurns(items: seq<Item>) returns (turns: seq<seq<Item>>)
    ensures turns == Turns(items)
  {
    turns := [];
    var current: seq<Item> := [];
    for i := 0 to |items|
      invariant Turns(items[..i]) == if current == [] then turns else turns + [current]
      invariant current == [] ==> turns == []
    {
      assert items[..i + 1][..i] == items[..i];
      var message := items[i];
      assert current != [] ==> (turns + [current])[..|turns|] == turns;
      assert [] + [message] == [message];
      if message.message.human && current != [] {
        turns := turns + [current];
        current := [];
      }
      current := current + [message];
      TurnsStep(items[..i + 1]);
    }
    assert items[..|items|] == items;
    if current != [] { turns := turns + [current]; }
  }

  lemma TurnsStep(items: seq<Item>)
    requires items != []
    ensures var (before, x) := (Turns(items[..|items| - 1]), items[|items| - 1]);
            Turns(items) == (if before == [] || x.message.human then before + [[x]]
                             else before[..|before| - 1] + [before[|before| - 1] + [x]])
  {}

  function Flatten(turns: seq<seq<Item>>): seq<Item> {
    if turns == [] then [] else Flatten(turns[..|turns| - 1]) + turns[|turns| - 1]
  }

  /** Turns cut the conversation into non-empty pieces and lose nothing. */
  lemma {:induction false} TurnsFlatten(items: seq<Item>)
    ensures Flatten(Turns(items)) == items
    ensures forall k :: 0 <= k < |Turns(items)| ==> Turns(items)[k] != []
    ensures items != [] ==> Turns(items) != []
  {
    if items != [] {
      var (front, x) := (items[..|items| - 1], items[|items| - 1]);
      TurnsFlatten(front);
      SplitLast(items);
      var before := Turns(front);
      if before == [] || x.message.human {
        assert (before + [[x]])[..|before|] == before;
      } else {
        var (init, last) := (before[..|before| - 1], before[|before| - 1]);
        var all := init + [last + [x]];
        assert all[..|all| - 1] == init;
        assert Flatten(init) + (last + [x]) == Flatten(init) + last + [x];
      }
    }
  }

  lemma {:induction false} FlattenSplits(turns: seq<seq<Item>>, c: nat)
    requires c <= |turns|
    ensures Flatten(turns) == Flatten(turns[..c]) + Flatten(turns[c..])
  {
    if c == |turns| {
      assert turns[..c] == turns && turns[c..] == [];
    } else {
      var front := turns[..|turns| - 1];
      FlattenSplits(front, c);
      assert front[..c] == turns[..c] && turns[c..][..|turns| - c - 1] == front[c..];
    }
  }

  // ----- Tool pairs ---------------------------------------------------------------------------------

  function TurnsOf(turns: seq<seq<Item>>, c: Id): set<nat> { set k: nat | k < |turns| && Mentions(turns[k], c) }

  /** No closed pair has one foot inside `s` and one outside. */
  predicate PairClosed(turns: seq<seq<Item>>, closed: set<Id>, s: set<nat>) {
    forall c :: c in closed ==> TurnsOf(turns, c) * s == {} || TurnsOf(turns, c) <= s
  }

  /** `s` is the least pair-closed set of turns that contains `indexes`. */
  ghost predicate LeastClosure(turns: seq<seq<Item>>, closed: set<Id>, indexes: set<nat>, s: set<nat>) {
    && indexes <= s && PairClosed(turns, closed, s)
    && forall t :: indexes <= t && PairClosed(turns, closed, t) ==> s <= t
  }

  /** `pair_turn_indexes`: for every closed pair, the turns that mention it. */
  method PairTurnIndexes(turns: seq<seq<Item>>, closed: set<Id>) returns (pairs: map<Id, set<nat>>)
    ensures pairs.Keys == closed && forall c :: c in closed ==> pairs[c] == TurnsOf(turns, c)
  {
    pairs := map c | c in closed :: {};
    for k := 0 to |turns|
      invariant pairs.Keys == closed
      invariant forall c :: c in closed ==> pairs[c] == TurnsOf(turns[..k], c)
    {
      forall c ensures TurnsOf(turns[..k + 1], c) == TurnsOf(turns[..k], c) + (if Mentions(turns[k], c) then {k} else {}) {
        TurnsOfNext(turns, k, c);
      }
      pairs := map c | c in closed :: if Mentions(turns[k], c) then pairs[c] + {k} else pairs[c];
    }
    assert turns[..|turns|] == turns;
  }

  lemma TurnsOfNext(turns: seq<seq<Item>>, k: nat, c: Id)
    requires k < |turns|
    ensures TurnsOf(turns[..k + 1], c) == TurnsOf(turns[..k], c) + (if Mentions(turns[k], c) then {k} else {})
  {
    assert turns[..k + 1][k] == turns[k];
    assert forall j :: 0 <= j < k ==> turns[..k + 1][j] == turns[..k][j];
  }

  /** `dependency_closure`: repeat full passes over the pairs until none of them adds anything. */
  method DependencyClosure(turns: seq<seq<Item>>, closed: set<Id>, pairs: map<Id, set<nat>>, indexes: set<nat>) returns (s: set<nat>)
    requires pairs.Keys == closed && forall c :: c in closed ==> pairs[c] == TurnsOf(turns, c)
    requires forall k :: k in indexes ==> k < |turns|
    ensures LeastClosure(turns, closed, indexes, s)
    ensures forall k :: k in s ==> k < |turns|
  {
    s := indexes;
    var changed := true;
    ghost var universe := set k: nat | k < |turns| && turns[k] == turns[k];
    while changed
      invariant indexes <= s <= universe
      invariant forall t :: indexes <= t && PairClosed(turns, closed, t) ==> s <= t
      invariant !changed ==> PairClosed(turns, closed, s)
      decreases universe - s, changed
    {
      changed := false;
      var todo := closed;
      ghost var before := s;
      while todo != {}
        invariant todo <= closed && before <= s <= universe
        invariant forall t :: indexes <= t && PairClosed(turns, closed, t) ==> s <= t
        invariant changed <==> s != before
        invariant !changed ==> forall c :: c in closed && c !in todo ==> TurnsOf(turns, c) * s == {} || TurnsOf(turns, c) <= s
        decreases todo
      {
        var c :| c in todo;
        todo := todo - {c};
        var dependent := pairs[c];
        if dependent * s != {} && !(dependent <= s) {
          Absorb(turns, closed, indexes, s, c);
          s := s + dependent;
          changed := true;
        }
      }
    }
  }

  lemma Absorb(turns: seq<seq<Item>>, closed: set<Id>, indexes: set<nat>, s: set<nat>, c: Id)
    requires c in closed && TurnsOf(turns, c) * s != {}
    requires forall t :: indexes <= t && PairClosed(turns, closed, t) ==> s <= t
    ensures forall t :: indexes <= t && PairClosed(turns, closed, t) ==> s + TurnsOf(turns, c) <= t
  {
    var k :| k in TurnsOf(turns, c) * s;
    forall t | indexes <= t && PairClosed(turns, closed, t) ensures s + TurnsOf(turns, c) <= t {
      assert k in TurnsOf(turns, c) * t;
    }
  }

  // ----- What must stay ----------------------------------------------------------------------------

  /** Turns every pair-closed superset of `indexes` contains. */
  ghost function ClosureOf(turns: seq<seq<Item>>, closed: set<Id>, indexes: set<nat>): set<nat> {
    set k: nat | k < |turns| && InEveryClosure(turns, closed, indexes, k)
  }

  ghost predicate InEveryClosure(turns: seq<seq<Item>>, closed: set<Id>, indexes: set<nat>, k: nat) {
    forall t :: indexes <= t && PairClosed(turns, closed, t) ==> k in t
  }

  lemma LeastClosureIs(turns: seq<seq<Item>>, closed: set<Id>, indexes: set<nat>, s: set<nat>)
    requires LeastClosure(turns, closed, indexes, s) && forall k :: k in s ==> k < |turns|
    ensures s == ClosureOf(turns, closed, indexes)
  {
    forall k | k in s ensures InEveryClosure(turns, closed, indexes, k) {}
    forall k | k in ClosureOf(turns, closed, indexes) ensures k in s { assert InEveryClosure(turns, closed, indexes, k); }
  }

  predicate HasPinned(turn: seq<Item>) { exists i :: 0 <= i < |turn| && turn[i].message.pinned }
  predicate MentionsAny(turn: seq<Item>, ids: set<Id>) { exists c :: c in ids && Mentions(turn, c) }

  /** The last turn, turns with pinned content and turns with an unfinished tool pair. */
  function MustKeep(turns: seq<seq<Item>>, open: set<Id>): set<nat> {
    set k: nat | k < |turns| && (k == |turns| - 1 || HasPinned(turns[k]) || MentionsAny(turns[k], open))
  }

  datatype Plan = Plan(
    systems: seq<Item>, injected: seq<Item>, tail: seq<Item>, turns: seq<seq<Item>>,
    closed: set<Id>, open: set<Id>, pinned: set<nat>, pageIndexes: set<nat>, pageCalls: set<Id>, compacting: bool)

  function Body(items: seq<Item>): seq<Item> { Pick(TurnPart, items) + Pick(TailPart, items) }
  function ClosedPairs(items: seq<Item>): set<Id> { CallsIn(Body(items)) * ResultsIn(Body(items)) }
  function OpenPairs(items: seq<Item>): set<Id> { (CallsIn(Body(items)) + ResultsIn(Body(items))) - ClosedPairs(items) }

  /** Sources of context pages in the current turn. */
  function PageIndexes(turns: seq<seq<Item>>): set<nat> {
    if turns == [] then {} else set x | x in turns[|turns| - 1] && x.tag.FromSource? && x.message.page :: x.tag.index
  }

  function PageCalls(tail: seq<Item>): set<Id> { set x, c | x in tail && x.message.page && c in x.message.results :: c }

  ghost function Views(items: seq<Item>): Plan {
    var turns := Turns(Pick(TurnPart, items));
    var tail := Pick(TailPart, items);
    Plan(Pick(SystemPart, items), Pick(InjectedPart, items), tail, turns, ClosedPairs(items), OpenPairs(items),
         ClosureOf(turns, ClosedPairs(items), MustKeep(turns, OpenPairs(items))),
         PageIndexes(turns), PageCalls(tail), false)
  }

  // ----- Compaction -------------------------------------------------------------------------------

  function Compact(env: Env, p: Plan, x: Item): Option<Item> {
    match env.compactPinned(x.message)
    case None => None
    case Some(m) =>
      if m.results != {} && !(x.tag.FromSource? && x.tag.index in p.pageIndexes) && m.results * p.pageCalls == {}
      then Some(Item(x.tag, env.compactResult(m))) else Some(Item(x.tag, m))
  }

  function CompactAll(env: Env, p: Plan, items: seq<Item>): (r: Option<seq<Item>>)
    ensures r.Some? ==> |r.value| == |items|
  {
    if items == [] then Some([])
    else
      var (front, last) := (CompactAll(env, p, items[..|items| - 1]), Compact(env, p, items[|items| - 1]));
      if front.None? || last.None? then None else Some(front.value + [last.value])
  }

  function Transform(env: Env, p: Plan, items: seq<Item>): (r: Option<seq<Item>>)
    ensures r.Some? ==> |r.value| == |items|
  {
    if p.compacting then CompactAll(env, p, items) else Some(items)
  }

  lemma {:induction false} CompactKeepsTags(env: Env, p: Plan, items: seq<Item>)
    requires Lawful(env) && CompactAll(env, p, items).Some?
    ensures var r := CompactAll(env, p, items).value;
            |r| == |items| && forall k :: 0 <= k < |items| ==> r[k].tag == items[k].tag && SameIds(items[k].message, r[k].message)
  {
    if items != [] {
      CompactKeepsTags(env, p, items[..|items| - 1]);
      var x := items[|items| - 1];
      assert SameIds(x.message, env.compactPinned(x.message).value);
      assert SameIds(env.compactPinned(x.message).value, env.compactResult(env.compactPinned(x.message).value));
    }
  }

  function PinnedItems(turns: seq<seq<Item>>, pinned: set<nat>): seq<Item> {
    if turns == [] then []
    else PinnedItems(turns[..|turns| - 1], pinned) + (if |turns| - 1 in pinned then turns[|turns| - 1] else [])
  }

  function Mandatory(p: Plan): seq<Item> { p.systems + p.injected + PinnedItems(p.turns, p.pinned) + p.tail }

  datatype Prepared = Ready(plan: Plan) | Unfit(failure: Failure)

  function Prepare(env: Env, p: Plan, budget: int): Prepared {
    if Size(env, Mandatory(p)) <= budget then Ready(p)
    else
      match CompactAll(env, p, Mandatory(p))
      case None => Unfit(PinnedMalformed)
      case Some(m) => if Size(env, m) > budget then Unfit(MandatoryTooLarge) else Ready(p.(compacting := true))
  }

  // ----- One cutoff -------------------------------------------------------------------------------

  function SourceSet(items: seq<Item>): set<nat> { set x | x in items && x.tag.FromSource? :: x.tag.index }

  function Omitted(n: nat, kept: set<nat>): seq<nat> {
    if n == 0 then [] else Omitted(n - 1, kept) + (if n - 1 in kept then [] else [n - 1])
  }

  function Retained(n: nat, kept: set<nat>): seq<nat> {
    if n == 0 then [] else Retained(n - 1, kept) + (if n - 1 in kept then [n - 1] else [])
  }

  datatype Attempt = Skip | Raise(failure: Failure) | Select(request: Option<Request>, bound: bool, items: seq<Item>)

  predicate DropsPinned(p: Plan, c: nat) { exists k :: k in p.pinned && k < c }

  predicate SplitsPair(p: Plan, c: nat) {
    exists id :: id in p.closed && (exists k :: k in TurnsOf(p.turns, id) && k < c) && (exists k :: k in TurnsOf(p.turns, id) && k >= c)
  }

  function Suffix(p: Plan, c: nat): seq<Item>
    requires c <= |p.turns|
  { p.systems + p.injected + Flatten(p.turns[c..]) + p.tail }

  /** The reference whose marker is priced: the bound one, the resolved one, or the planning placeholder;
      `Some(None)` when the resolver cannot say, `None` when its answer is not a whole checkpoint. */
  function PricedRef(env: Env, in_: Input, q: Request): Option<Option<Ref>> {
    if in_.binding.Some? && in_.binding.value.request == q then Some(Some(in_.binding.value.ref))
    else
      match in_.resolver
      case NoResolver => Some(Some(env.planningRef))
      case Resolver(resolve) =>
        match resolve(q)
        case None => Some(None)
        case Some(r) => if r.checkpoint && !r.fragment then Some(Some(r)) else None
  }

  function WithMarker(env: Env, p: Plan, items: seq<Item>, ref: Ref, q: Request, c: nat): seq<Item>
    requires |p.systems| <= |items|
  {
    items[..|p.systems|] + [Item(Marker(q), env.marker(ref, q, c))] + items[|p.systems|..]
  }

  predicate IsBound(in_: Input, q: Request) { in_.binding.Some? && in_.binding.value.request == q }

  function TryRequest(env: Env, in_: Input, p: Plan, c: nat, candidate: seq<Item>, q: Request): Attempt
    requires |p.systems| <= |candidate|
  {
    match PricedRef(env, in_, q)
    case None => Raise(InvalidRef)
    case Some(None) => if in_.binding.Some? then Skip else Select(Some(q), false, candidate)
    case Some(Some(ref)) =>
      if c == 0 then Raise(NothingOmitted) else   // a marker stands for at least one whole turn
      var projected := WithMarker(env, p, candidate, ref, q, c);
      if Size(env, projected) > in_.budget then Skip
      else if IsBound(in_, q) then Select(Some(q), true, projected)
      else if in_.binding.Some? then Skip
      else Select(Some(q), false, candidate)
  }

  /** The body of the cutoff loop, once the cutoff is known to be possible. */
  function TryCandidate(env: Env, in_: Input, p: Plan, c: nat, candidate: seq<Item>): Attempt
    requires |p.systems| <= |candidate|
  {
    var omitted := Omitted(|in_.manifest.messages|, SourceSet(candidate));
    if Size(env, candidate) > in_.budget then Skip
    else if omitted == [] then Select(None, false, candidate)
    else if !Bound(in_.manifest, omitted) then
      (if in_.binding.Some? then Skip else Select(None, false, candidate))
    else
      match RequestFor(in_.manifest, omitted)
      case Rejected => Raise(NotCheckpointable)
      case Ok(q) => TryRequest(env, in_, p, c, candidate, q)
  }

  function Try(env: Env, in_: Input, p: Plan, c: nat): Attempt
    requires c <= |p.turns|
  {
    if DropsPinned(p, c) || SplitsPair(p, c) then Skip
    else
      match Transform(env, p, Suffix(p, c))
      case None => Raise(PinnedMalformed)
      case Some(candidate) => TryCandidate(env, in_, p, c, candidate)
  }

  datatype Found = NotFound | At(cutoff: nat, attempt: Attempt)

  function Scan(env: Env, in_: Input, p: Plan, c: nat): Found
    decreases |p.turns| + 1 - c
  {
    if c > |p.turns| then NotFound
    else if Try(env, in_, p, c) == Skip then Scan(env, in_, p, c + 1)
    else At(c, Try(env, in_, p, c))
  }

  // ----- The whole reduction ------------------------------------------------------------------------

  function Changed(in_: Input, items: seq<Item>): set<nat> {
    set x | x in items && x.tag.FromSource? && x.tag.index < |in_.manifest.messages| &&
            x.message != in_.manifest.messages[x.tag.index] :: x.tag.index
  }

  predicate HasOrphan(closed: set<Id>, items: seq<Item>) {
    exists c :: c in closed && (c in CallsIn(items) <==> c !in ResultsIn(items))
  }

  function Finish(env: Env, in_: Input, p: Plan, c: nat, request: Option<Request>, bound: bool, items: seq<Item>): Outcome {
    var n := |in_.manifest.messages|;
    var omitted := Omitted(n, SourceSet(items));
    var q := if request.Some? then Ok(request.value) else RequestFor(in_.manifest, omitted);
    if omitted != [] && q.Rejected? then Failed(NotCheckpointable)
    else if omitted != [] && !bound then CheckpointRequired(c, omitted, q.value)
    else if Size(env, items) > in_.budget then Failed(MarkerTooLarge)
    else if HasOrphan(p.closed, items) then Failed(OrphanToolPair)
    else Complete(items, c, Retained(n, SourceSet(items)), Changed(in_, items) + (set i | i in omitted), omitted)
  }

  function FirstCutoff(in_: Input): nat {
    if in_.binding.Some? && in_.minimumCutoff == 0 then 1 else in_.minimumCutoff
  }

  function Conclude(env: Env, in_: Input, p: Plan, found: Found): Outcome {
    match found
    case NotFound => Failed(if in_.binding.Some? then CheckpointMismatch else NoAdmissibleCutoff)
    case At(c, Raise(f)) => Failed(f)
    case At(c, Select(q, bound, items)) => Finish(env, in_, p, c, q, bound, items)
    case At(c, Skip) => Failed(NoAdmissibleCutoff)
  }

  predicate FitsUnchanged(env: Env, in_: Input) {
    Size(env, in_.items) <= in_.budget && in_.binding.None? && in_.minimumCutoff == 0
  }

  ghost function Reduce(env: Env, in_: Input): Outcome {
    if in_.budget <= 0 then Failed(NoBudget)
    else if FitsUnchanged(env, in_) then
      Complete(in_.items, 0, Omitted(|in_.manifest.messages|, {}), {}, [])
    else
      match Prepare(env, Views(in_.items), in_.budget)
      case Unfit(f) => Failed(f)
      case Ready(p) => Conclude(env, in_, p, Scan(env, in_, p, FirstCutoff(in_)))
  }

  // ----- As the code runs it --------------------------------------------------------------------------

  method MakePlan(items: seq<Item>) returns (p: Plan)
    ensures p == Views(items)
  {
    var turns := SplitTurns(Pick(TurnPart, items));
    var tail := Pick(TailPart, items);
    var (closed, open) := (ClosedPairs(items), OpenPairs(items));
    var pairs := PairTurnIndexes(turns, closed);
    var pinned := DependencyClosure(turns, closed, pairs, MustKeep(turns, open));
    LeastClosureIs(turns, closed, MustKeep(turns, open), pinned);
    p := Plan(Pick(SystemPart, items), Pick(InjectedPart, items), tail, turns, closed, open, pinned, PageIndexes(turns), PageCalls(tail), false);
  }

  /** The cutoff loop. */
  method SearchCutoff(env: Env, in_: Input, p: Plan, first: nat) returns (found: Found)
    ensures found == Scan(env, in_, p, first)
  {
    var c := first;
    while c <= |p.turns|
      invariant Scan(env, in_, p, c) == Scan(env, in_, p, first)
    {
      var attempt := Try(env, in_, p, c);
      if !attempt.Skip? { return At(c, attempt); }
      c := c + 1;
    }
    found := NotFound;
  }

  /** `_reduce`. */
  method ReduceMessages(env: Env, in_: Input) returns (r: Outcome)
    ensures r == Reduce(env, in_)
  {
    if in_.budget <= 0 { return Failed(NoBudget); }
    if FitsUnchanged(env, in_) { return Complete(in_.items, 0, Omitted(|in_.manifest.messages|, {}), {}, []); }
    var views := MakePlan(in_.items);
    var prepared := Prepare(env, views, in_.budget);
    if prepared.Unfit? { return Failed(prepared.failure); }
    var found := SearchCutoff(env, in_, prepared.plan, FirstCutoff(in_));
    r := Conclude(env, in_, prepared.plan, found);
  }
}
