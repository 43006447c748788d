/** What a reduction answers, said about the messages themselves: what must stay, what compaction does, which cutoffs are
    passed over, and what the first one that is not leads to. */
module ReductionSpec {
  import opened Wrappers
  import opened ContextTypes
  import opened Checkpoints
  import opened Sorting
  import opened ContextReduce
  import opened ReductionTheorems

  // ----- Parts and turns ------------------------------------------------------------------------------------------

  ghost predicate InPart(part: Part, x: Item) {
    match part
    case SystemPart => x.message.role == System
    case InjectedPart => x.message.role != System && x.tag == Injected
    case TailPart => x.message.role != System && x.tag == NativeTail
    case TurnPart => x.message.role != System && x.tag != Injected && x.tag != NativeTail
  }

  ghost predicate Rises(idx: seq<nat>) { forall a, b :: 0 <= a < b < |idx| ==> idx[a] < idx[b] }

  /** A part is all of its messages, in order. */
  lemma {:induction false} PartIsSubsequence(part: Part, items: seq<Item>) returns (idx: seq<nat>)
    ensures |idx| == |Pick(part, items)| && Rises(idx)
    ensures forall k :: 0 <= k < |idx| ==> idx[k] < |items| && items[idx[k]] == Pick(part, items)[k]
    ensures forall i: nat :: i in idx <==> i < |items| && InPart(part, items[i])
  {
    if items == [] {
      idx := [];
    } else {
      var n := |items| - 1;
      var front := PartIsSubsequence(part, items[..n]);
      assert forall k :: 0 <= k < |front| ==> front[k] in front;
      idx := front + (if InPart(part, items[n]) then [n] else []);
      assert forall i: nat :: i < n ==> items[..n][i] == items[i];
    }
  }

  /** No turn is empty; a turn begins at a human message, but perhaps the first, and no other message in it is human. */
  ghost predicate BeginAtHumans(turns: seq<seq<Item>>) {
    && (forall k :: 0 <= k < |turns| ==> turns[k] != [] && (k > 0 ==> turns[k][0].message.human))
    && (forall k, i :: 0 <= k < |turns| && 0 < i < |turns[k]| ==> !turns[k][i].message.human)
  }

  lemma {:induction false} TurnsBeginAtHumans(items: seq<Item>)
    ensures BeginAtHumans(Turns(items))
  {
    if items != [] {
      var (before, x) := (Turns(items[..|items| - 1]), items[|items| - 1]);
      TurnsBeginAtHumans(items[..|items| - 1]);
      TurnsStep(items);
      if before == [] || x.message.human { NextTurn(before, x); } else { LongerTurn(before, x); }
    }
  }

  lemma NextTurn(before: seq<seq<Item>>, x: Item)
    requires BeginAtHumans(before) && (before == [] || x.message.human)
    ensures BeginAtHumans(before + [[x]])
  {}

  lemma LongerTurn(before: seq<seq<Item>>, x: Item)
    requires BeginAtHumans(before) && before != [] && !x.message.human
    ensures BeginAtHumans(before[..|before| - 1] + [before[|before| - 1] + [x]])
  {
    var (n, last) := (|before| - 1, before[|before| - 1]);
    assert last != [] && (n > 0 ==> last[0].message.human);
    assert forall i :: 0 < i < |last| ==> !last[i].message.human;
    var longer := last + [x];
    assert longer[0] == last[0];
    assert forall i :: 0 < i < |longer| ==> !longer[i].message.human;
  }

  function TurnsIn(items: seq<Item>): seq<seq<Item>> { Turns(Pick(TurnPart, items)) }

  // ----- What must stay -------------------------------------------------------------------------------------------

  ghost predicate Names(xs: seq<Item>, c: Id) { exists x :: x in xs && (c in x.message.calls || c in x.message.results) }

  /** The conversation: turns and native tail. */
  ghost predicate Spoken(items: seq<Item>, x: Item) { x in items && (InPart(TurnPart, x) || InPart(TailPart, x)) }

  ghost predicate Called(items: seq<Item>, c: Id) { exists x :: Spoken(items, x) && c in x.message.calls }
  ghost predicate Answered(items: seq<Item>, c: Id) { exists x :: Spoken(items, x) && c in x.message.results }

  /** The current turn, turns with pinned messages, and turns with one side of an unfinished exchange. */
  ghost predicate MustStay(items: seq<Item>, k: nat) {
    var turns := TurnsIn(items);
    && k < |turns|
    && (|| k == |turns| - 1
        || (exists x :: x in turns[k] && x.message.pinned)
        || (exists c :: Names(turns[k], c) && (Called(items, c) <==> !Answered(items, c))))
  }

  /** Turns that share a finished exchange stay together. */
  ghost predicate KeepsTogether(items: seq<Item>, t: set<nat>) {
    var turns := TurnsIn(items);
    forall c, a: nat, b: nat :: Called(items, c) && Answered(items, c) && a in t && a < |turns| && b < |turns| && Names(turns[a], c) && Names(turns[b], c) ==> b in t
  }

  ghost predicate Needed(items: seq<Item>, k: nat) {
    && k < |TurnsIn(items)|
    && forall t: set<nat> :: KeepsTogether(items, t) && (forall m: nat :: MustStay(items, m) ==> m in t) ==> k in t
  }

  lemma NamesIs(xs: seq<Item>, c: Id)
    ensures Names(xs, c) <==> Mentions(xs, c)
  {
    if Names(xs, c) { var x :| x in xs && (c in x.message.calls || c in x.message.results); var i :| 0 <= i < |xs| && xs[i] == x; }
    if Mentions(xs, c) { var i :| 0 <= i < |xs| && (c in xs[i].message.calls || c in xs[i].message.results); assert xs[i] in xs; }
  }

  lemma SpokenIs(items: seq<Item>, x: Item)
    ensures x in Body(items) <==> Spoken(items, x)
  {
    PickMembers(TurnPart, items);
    PickMembers(TailPart, items);
  }

  lemma PairsAre(items: seq<Item>, c: Id)
    ensures c in CallsIn(Body(items)) <==> Called(items, c)
    ensures c in ResultsIn(Body(items)) <==> Answered(items, c)
    ensures c in ClosedPairs(items) <==> Called(items, c) && Answered(items, c)
    ensures c in OpenPairs(items) <==> (Called(items, c) <==> !Answered(items, c))
  {
    forall x ensures x in Body(items) <==> Spoken(items, x) { SpokenIs(items, x); }
  }

  lemma MustStayIs(items: seq<Item>, k: nat)
    ensures k in MustKeep(TurnsIn(items), OpenPairs(items)) <==> MustStay(items, k)
  {
    var turns := TurnsIn(items);
    if k < |turns| {
      forall c ensures c in OpenPairs(items) <==> (Called(items, c) <==> !Answered(items, c)) { PairsAre(items, c); }
      forall c ensures Names(turns[k], c) <==> Mentions(turns[k], c) { NamesIs(turns[k], c); }
      PinnedIs(turns[k]);
    }
  }

  lemma PinnedIs(turn: seq<Item>)
    ensures HasPinned(turn) <==> exists x :: x in turn && x.message.pinned
  {
    if HasPinned(turn) { var i :| 0 <= i < |turn| && turn[i].message.pinned; assert turn[i] in turn; }
    if x :| x in turn && x.message.pinned { var i :| 0 <= i < |turn| && turn[i] == x; }
  }

  lemma TogetherIs(items: seq<Item>, t: set<nat>)
    ensures KeepsTogether(items, t) <==> PairClosed(TurnsIn(items), ClosedPairs(items), t)
  {
    var turns := TurnsIn(items);
    forall c ensures c in ClosedPairs(items) <==> Called(items, c) && Answered(items, c) { PairsAre(items, c); }
    forall c, k: nat | k < |turns| ensures Names(turns[k], c) <==> k in TurnsOf(turns, c) { NamesIs(turns[k], c); }
    if KeepsTogether(items, t) {
      forall c | c in ClosedPairs(items) ensures TurnsOf(turns, c) * t == {} || TurnsOf(turns, c) <= t {
        if TurnsOf(turns, c) * t != {} {
          var a :| a in TurnsOf(turns, c) * t;
          forall b | b in TurnsOf(turns, c) ensures b in t { assert Names(turns[a], c) && Names(turns[b], c); }
        }
      }
    }
    if PairClosed(turns, ClosedPairs(items), t) {
      forall c, a: nat, b: nat | Called(items, c) && Answered(items, c) && a in t && a < |turns| && b < |turns| && Names(turns[a], c) && Names(turns[b], c)
        ensures b in t
      {
        assert a in TurnsOf(turns, c) * t && b in TurnsOf(turns, c);
      }
    }
  }

  lemma NeededIs(items: seq<Item>, k: nat)
    ensures k in Views(items).pinned <==> Needed(items, k)
  {
    var (turns, closed, seeds) := (TurnsIn(items), ClosedPairs(items), MustKeep(TurnsIn(items), OpenPairs(items)));
    forall m: nat ensures m in seeds <==> MustStay(items, m) { MustStayIs(items, m); }
    forall t: set<nat> ensures KeepsTogether(items, t) <==> PairClosed(turns, closed, t) { TogetherIs(items, t); }
    if k < |turns| {
      forall t: set<nat> ensures seeds <= t <==> forall m: nat :: MustStay(items, m) ==> m in t {}
      assert InEveryClosure(turns, closed, seeds, k) <==> Needed(items, k);
    }
  }

  /** A cut that would drop a needed turn or separate a finished exchange. */
  ghost predicate Forbidden(items: seq<Item>, c: nat) {
    (exists k: nat :: k < c && Needed(items, k)) || Separates(items, TurnsIn(items), c)
  }

  lemma ForbiddenIs(items: seq<Item>, p: Plan, c: nat)
    requires p == Views(items).(compacting := p.compacting) && c <= |p.turns|
    ensures DropsPinned(p, c) || SplitsPair(p, c) <==> Forbidden(items, c)
  {
    DropsIs(items, p, c);
    assert p.turns == TurnsIn(items) && p.closed == ClosedPairs(items);
    SplitsIs(items, p, c);
  }

  lemma DropsIs(items: seq<Item>, p: Plan, c: nat)
    requires p.pinned == Views(items).pinned
    ensures DropsPinned(p, c) <==> exists k: nat :: k < c && Needed(items, k)
  {
    if DropsPinned(p, c) {
      var k :| k in p.pinned && k < c;
      NeededIs(items, k);
    }
    if k: nat :| k < c && Needed(items, k) { NeededIs(items, k); }
  }

  ghost predicate Separates(items: seq<Item>, turns: seq<seq<Item>>, c: nat) {
    exists id, a: nat, b: nat :: Called(items, id) && Answered(items, id) && a < c <= b < |turns| && Names(turns[a], id) && Names(turns[b], id)
  }

  lemma SplitsIs(items: seq<Item>, p: Plan, c: nat)
    requires p.turns == TurnsIn(items) && p.closed == ClosedPairs(items) && c <= |p.turns|
    ensures SplitsPair(p, c) <==> Separates(items, p.turns, c)
  {
    if SplitsPair(p, c) {
      var id :| id in p.closed && (exists k :: k in TurnsOf(p.turns, id) && k < c) && (exists k :: k in TurnsOf(p.turns, id) && k >= c);
      var a :| a in TurnsOf(p.turns, id) && a < c;
      var b :| b in TurnsOf(p.turns, id) && b >= c;
      SplitNamed(items, p, c, id, a, b);
    }
    if id, a: nat, b: nat :| Called(items, id) && Answered(items, id) && a < c <= b < |p.turns| && Names(p.turns[a], id) && Names(p.turns[b], id) {
      NamedSplits(items, p, c, id, a, b);
    }
  }

  lemma NamedSplits(items: seq<Item>, p: Plan, c: nat, id: Id, a: nat, b: nat)
    requires p.closed == ClosedPairs(items) && Called(items, id) && Answered(items, id)
    requires a < c <= b < |p.turns| && Names(p.turns[a], id) && Names(p.turns[b], id)
    ensures SplitsPair(p, c)
  {
    PairsAre(items, id);
    NamesIs(p.turns[a], id);
    NamesIs(p.turns[b], id);
    assert a in TurnsOf(p.turns, id) && b in TurnsOf(p.turns, id);
  }

  lemma SplitNamed(items: seq<Item>, p: Plan, c: nat, id: Id, a: nat, b: nat)
    requires p.turns == TurnsIn(items) && id in ClosedPairs(items) && c <= |p.turns|
    requires a in TurnsOf(p.turns, id) && b in TurnsOf(p.turns, id) && a < c <= b
    ensures Separates(items, p.turns, c)
  {
    PairsAre(items, id);
    NamesIs(p.turns[a], id);
    NamesIs(p.turns[b], id);
  }

  // ----- What is measured ------------------------------------------------------------------------------------------

  /** Estimates are taken over the messages, one for one. */
  lemma SizeIs(env: Env, items: seq<Item>, messages: seq<Message>)
    requires |messages| == |items| && forall k :: 0 <= k < |items| ==> messages[k] == items[k].message
    ensures Size(env, items) == env.estimate(messages)
  {
    assert MessagesOf(items) == messages;
  }

  ghost function NeededTurns(items: seq<Item>, n: nat): seq<Item>
    requires n <= |TurnsIn(items)|
  { if n == 0 then [] else NeededTurns(items, n - 1) + (if Needed(items, n - 1) then TurnsIn(items)[n - 1] else []) }

  /** The messages no reduction may leave out. */
  ghost function Required(items: seq<Item>): seq<Item> {
    Pick(SystemPart, items) + Pick(InjectedPart, items) + NeededTurns(items, |TurnsIn(items)|) + Pick(TailPart, items)
  }

  /** The messages a cut before turn `c` keeps. */
  ghost function Kept(items: seq<Item>, c: nat): seq<Item>
    requires c <= |TurnsIn(items)|
  { Pick(SystemPart, items) + Pick(InjectedPart, items) + Flatten(TurnsIn(items)[c..]) + Pick(TailPart, items) }

  lemma {:induction false} NeededTurnsAre(items: seq<Item>, pinned: set<nat>, n: nat)
    requires n <= |TurnsIn(items)| && forall k: nat :: k in pinned <==> Needed(items, k)
    ensures PinnedItems(TurnsIn(items)[..n], pinned) == NeededTurns(items, n)
  {
    if n > 0 {
      NeededTurnsAre(items, pinned, n - 1);
      assert TurnsIn(items)[..n][..n - 1] == TurnsIn(items)[..n - 1];
    }
  }

  lemma RequiredIs(items: seq<Item>)
    ensures Mandatory(Views(items)) == Required(items)
  {
    var pinned := Views(items).pinned;
    forall k: nat ensures k in pinned <==> Needed(items, k) { NeededIs(items, k); }
    NeededTurnsAre(items, pinned, |TurnsIn(items)|);
    assert TurnsIn(items)[..|TurnsIn(items)|] == TurnsIn(items);
  }

  // ----- Compaction -----------------------------------------------------------------------------------------------

  /** A source message of the current turn that is a context page, or a result that a page of the native tail answers too. */
  ghost predicate CurrentPage(items: seq<Item>, tag: Tag, results: set<Id>) {
    var turns := TurnsIn(items);
    || (tag.FromSource? && turns != [] && exists y :: y in turns[|turns| - 1] && y.tag == tag && y.message.page)
    || (exists y, c :: y in items && InPart(TailPart, y) && y.message.page && c in y.message.results && c in results)
  }

  /** What compaction makes of one message: its pinned form, and of that, for a tool result that is not a current page,
      the compacted result. `None` if the pinned content is malformed. */
  ghost function Squeezed(env: Env, items: seq<Item>, x: Item): Option<Message> {
    match env.compactPinned(x.message)
    case None => None
    case Some(m) => Some(if m.results != {} && !CurrentPage(items, x.tag, m.results) then env.compactResult(m) else m)
  }

  ghost predicate Squeezable(env: Env, xs: seq<Item>) { forall x :: x in xs ==> env.compactPinned(x.message).Some? }

  /** `ys` are the messages of `xs`, in their places, compacted. */
  ghost predicate SqueezedTo(env: Env, items: seq<Item>, xs: seq<Item>, ys: seq<Item>) {
    |ys| == |xs| && forall k :: 0 <= k < |xs| ==> ys[k].tag == xs[k].tag && Squeezed(env, items, xs[k]) == Some(ys[k].message)
  }

  lemma PageIs(items: seq<Item>, tag: Tag, results: set<Id>)
    ensures CurrentPage(items, tag, results) <==>
              (tag.FromSource? && tag.index in PageIndexes(TurnsIn(items))) || results * PageCalls(Pick(TailPart, items)) != {}
  {
    var turns := TurnsIn(items);
    var (a, b) := (tag.FromSource? && tag.index in PageIndexes(turns), results * PageCalls(Pick(TailPart, items)));
    PickMembers(TailPart, items);
    if a { var y: Item :| y in turns[|turns| - 1] && y.tag.FromSource? && y.message.page && y.tag.index == tag.index; assert y.tag == tag; }
    if b != {} {
      var c :| c in b;
      var y :| y in Pick(TailPart, items) && y.message.page && c in y.message.results;
    }
    if y, c :| y in items && InPart(TailPart, y) && y.message.page && c in y.message.results && c in results {
      assert y in Pick(TailPart, items);
      assert c in b;
    }
  }

  ghost predicate SamePages(p: Plan, items: seq<Item>) {
    p.pageIndexes == PageIndexes(TurnsIn(items)) && p.pageCalls == PageCalls(Pick(TailPart, items))
  }

  lemma CompactIs(env: Env, p: Plan, items: seq<Item>, x: Item)
    requires SamePages(p, items)
    ensures Compact(env, p, x).Some? <==> Squeezed(env, items, x).Some?
    ensures Compact(env, p, x).Some? ==> Compact(env, p, x).value == Item(x.tag, Squeezed(env, items, x).value)
  {
    if env.compactPinned(x.message).Some? { PageIs(items, x.tag, env.compactPinned(x.message).value.results); }
  }

  lemma {:induction false} CompactAllIs(env: Env, p: Plan, items: seq<Item>, xs: seq<Item>)
    requires SamePages(p, items)
    ensures CompactAll(env, p, xs).Some? <==> Squeezable(env, xs)
    ensures CompactAll(env, p, xs).Some? ==> SqueezedTo(env, items, xs, CompactAll(env, p, xs).value)
  {
    if xs != [] {
      var (front, last) := (xs[..|xs| - 1], xs[|xs| - 1]);
      CompactAllIs(env, p, items, front);
      CompactIs(env, p, items, last);
      SplitLast(xs);
      if Squeezable(env, xs) { assert last in xs; }
    }
  }

  lemma SqueezedUnique(env: Env, items: seq<Item>, xs: seq<Item>, ys: seq<Item>, zs: seq<Item>)
    requires SqueezedTo(env, items, xs, ys) && SqueezedTo(env, items, xs, zs)
    ensures ys == zs
  {}

  lemma SqueezedMeansSqueezable(env: Env, items: seq<Item>, xs: seq<Item>, ys: seq<Item>)
    requires SqueezedTo(env, items, xs, ys)
    ensures Squeezable(env, xs)
  {
    forall x | x in xs ensures env.compactPinned(x.message).Some? {
      var k :| 0 <= k < |xs| && xs[k] == x;
      assert Squeezed(env, items, xs[k]).Some?;
    }
  }

  // ----- One cutoff -----------------------------------------------------------------------------------------------

  /** What must stay does not fit as it is, so that everything is compacted. */
  ghost predicate Overfull(env: Env, in_: Input) { Size(env, Required(in_.items)) > in_.budget }

  ghost predicate Candidate(env: Env, in_: Input, c: nat, ys: seq<Item>)
    requires c <= |TurnsIn(in_.items)|
  { if Overfull(env, in_) then SqueezedTo(env, in_.items, Kept(in_.items, c), ys) else ys == Kept(in_.items, c) }

  /** The source messages a cut leaves out. */
  ghost function Missing(in_: Input, c: nat): seq<nat>
    requires c <= |TurnsIn(in_.items)|
  { Omitted(|in_.manifest.messages|, SourceSet(Kept(in_.items, c))) }

  /** `ref` is the reference whose marker is measured for `q`. */
  ghost predicate Prices(env: Env, in_: Input, q: Request, ref: Ref) {
    if in_.binding.Some? && in_.binding.value.request == q then ref == in_.binding.value.ref
    else if in_.resolver.NoResolver? then ref == env.planningRef
    else in_.resolver.resolve(q) == Some(ref) && ref.checkpoint && !ref.fragment
  }

  /** The resolver answers with something that is not a whole checkpoint. */
  ghost predicate Misresolved(in_: Input, q: Request) {
    && !(in_.binding.Some? && in_.binding.value.request == q)
    && in_.resolver.Resolver? && in_.resolver.resolve(q).Some?
    && !(in_.resolver.resolve(q).value.checkpoint && !in_.resolver.resolve(q).value.fragment)
  }

  /** `zs` is `ys` with the checkpoint's marker right behind the system messages. */
  ghost predicate Marked(env: Env, in_: Input, c: nat, ys: seq<Item>, ref: Ref, q: Request, zs: seq<Item>) {
    var n := |Pick(SystemPart, in_.items)|;
    n <= |ys| && zs == ys[..n] + [Item(Marker(q), env.marker(ref, q, c))] + ys[n..]
  }

  ghost predicate PassedRequest(env: Env, in_: Input, c: nat, ys: seq<Item>, q: Request) {
    && !Misresolved(in_, q)
    && (c > 0 || !exists ref :: Prices(env, in_, q, ref))
    && (|| (in_.binding.Some? && in_.binding.value.request != q)
        || exists ref, zs :: Prices(env, in_, q, ref) && Marked(env, in_, c, ys, ref, q, zs) && Size(env, zs) > in_.budget)
  }

  /** The cut leaves too much, cannot be covered by the bound checkpoint, or has no room for the marker. */
  ghost predicate PassedOver(env: Env, in_: Input, c: nat, ys: seq<Item>)
    requires c <= |TurnsIn(in_.items)|
  {
    var q := RequestFor(in_.manifest, Missing(in_, c));
    || Size(env, ys) > in_.budget
    || (in_.binding.Some? && exists i :: i in Missing(in_, c) && i !in in_.manifest.cursors)
    || (q.Ok? && PassedRequest(env, in_, c, ys, q.value))
  }

  ghost predicate Passed(env: Env, in_: Input, c: nat)
    requires c <= |TurnsIn(in_.items)|
  { Forbidden(in_.items, c) || exists ys :: Candidate(env, in_, c, ys) && PassedOver(env, in_, c, ys) }

  /** One side of a finished exchange is left alone. */
  ghost predicate Orphaned(items: seq<Item>, zs: seq<Item>) {
    exists id :: Called(items, id) && Answered(items, id) &&
                 ((exists x :: x in zs && id in x.message.calls) <==> !exists x :: x in zs && id in x.message.results)
  }

  ghost predicate Alters(in_: Input, zs: seq<Item>, i: nat) {
    exists x :: x in zs && x.tag == FromSource(i) && i < |in_.manifest.messages| && x.message != in_.manifest.messages[i]
  }

  ghost predicate Delivers(in_: Input, c: nat, zs: seq<Item>, r: Outcome)
    requires c <= |TurnsIn(in_.items)|
  {
    if Orphaned(in_.items, zs) then r == Failed(OrphanToolPair)
    else
      && r.Complete? && r.items == zs && r.dropped == c && r.omitted == Missing(in_, c)
      && Sorted(r.included) && (forall i :: i in r.included <==> 0 <= i < |in_.manifest.messages| && i !in r.omitted)
      && (forall i :: i in r.transformed <==> i in r.omitted || Alters(in_, zs, i))
  }

  /** What a cut that is not passed over leads to. */
  ghost predicate Settles(env: Env, in_: Input, c: nat, ys: seq<Item>, r: Outcome)
    requires c <= |TurnsIn(in_.items)|
  {
    if Missing(in_, c) == [] then Delivers(in_, c, ys, r)
    else
      match RequestFor(in_.manifest, Missing(in_, c))
      case Rejected => r == Failed(NotCheckpointable)
      case Ok(q) =>
        if Misresolved(in_, q) then r == Failed(InvalidRef)
        else if c == 0 && exists ref :: Prices(env, in_, q, ref) then r == Failed(NothingOmitted)
        else if in_.binding.Some? && in_.binding.value.request == q then
          exists zs :: Marked(env, in_, c, ys, in_.binding.value.ref, q, zs) && Delivers(in_, c, zs, r)
        else r == CheckpointRequired(c, Missing(in_, c), q)
  }

  ghost predicate Answers(env: Env, in_: Input, c: nat, r: Outcome)
    requires c <= |TurnsIn(in_.items)|
  {
    if Overfull(env, in_) && !Squeezable(env, Kept(in_.items, c)) then r == Failed(PinnedMalformed)
    else exists ys :: Candidate(env, in_, c, ys) && Settles(env, in_, c, ys, r)
  }

  // ----- The answer -----------------------------------------------------------------------------------------------

  /** The first cut that is not passed over decides; with a bound checkpoint at least one turn goes. */
  ghost predicate Searched(env: Env, in_: Input, r: Outcome) {
    var (first, n) := (if in_.binding.Some? && in_.minimumCutoff == 0 then 1 else in_.minimumCutoff, |TurnsIn(in_.items)|);
    if forall k: nat :: first <= k <= n ==> Passed(env, in_, k)
    then r == Failed(if in_.binding.Some? then CheckpointMismatch else NoAdmissibleCutoff)
    else exists c: nat :: first <= c <= n && !Passed(env, in_, c) && Answers(env, in_, c, r) && forall k: nat :: first <= k < c ==> Passed(env, in_, k)
  }

  ghost predicate Untouched(env: Env, in_: Input) {
    Size(env, in_.items) <= in_.budget && in_.binding.None? && in_.minimumCutoff == 0
  }

  /** What must stay is too large even when compacted. */
  ghost predicate Hopeless(env: Env, in_: Input) {
    Overfull(env, in_) && exists ys :: SqueezedTo(env, in_.items, Required(in_.items), ys) && Size(env, ys) > in_.budget
  }

  ghost predicate Expected(env: Env, in_: Input, r: Outcome) {
    if in_.budget <= 0 then r == Failed(NoBudget)
    else if Untouched(env, in_) then
      && r.Complete? && r.items == in_.items && r.dropped == 0 && r.transformed == {} && r.omitted == []
      && Sorted(r.included) && (forall i :: i in r.included <==> 0 <= i < |in_.manifest.messages|)
    else if Overfull(env, in_) && !Squeezable(env, Required(in_.items)) then r == Failed(PinnedMalformed)
    else if Hopeless(env, in_) then r == Failed(MandatoryTooLarge)
    else Searched(env, in_, r)
  }

  // ----- Why ------------------------------------------------------------------------------------------------------

  /** `p` is the plan of the input with the decision to compact taken. */
  ghost predicate Planned(env: Env, in_: Input, p: Plan) {
    && p.systems == Pick(SystemPart, in_.items) && p.turns == TurnsIn(in_.items) && p.closed == ClosedPairs(in_.items)
    && SamePages(p, in_.items) && (p.compacting <==> Overfull(env, in_))
    && (forall c: nat :: c <= |p.turns| ==> Suffix(p, c) == Kept(in_.items, c))
    && (forall c: nat :: c <= |p.turns| ==> (DropsPinned(p, c) || SplitsPair(p, c) <==> Forbidden(in_.items, c)))
  }

  lemma PlanIs(env: Env, in_: Input, compacting: bool)
    requires compacting <==> Overfull(env, in_)
    ensures Planned(env, in_, Views(in_.items).(compacting := compacting))
  {
    var p := Views(in_.items).(compacting := compacting);
    forall c: nat | c <= |p.turns| ensures DropsPinned(p, c) || SplitsPair(p, c) <==> Forbidden(in_.items, c) { ForbiddenIs(in_.items, p, c); }
    forall c: nat | c <= |p.turns| ensures Suffix(p, c) == Kept(in_.items, c) {}
  }

  lemma PrepareIs(env: Env, in_: Input)
    ensures match Prepare(env, Views(in_.items), in_.budget)
            case Unfit(f) =>
              Overfull(env, in_) && f == (if Squeezable(env, Required(in_.items)) then MandatoryTooLarge else PinnedMalformed) &&
              (Squeezable(env, Required(in_.items)) <==> Hopeless(env, in_))
            case Ready(p) => (Overfull(env, in_) ==> Squeezable(env, Required(in_.items)) && !Hopeless(env, in_)) && Planned(env, in_, p)
  {
    var (p, xs) := (Views(in_.items), Required(in_.items));
    RequiredIs(in_.items);
    CompactAllIs(env, p, in_.items, xs);
    if Overfull(env, in_) {
      PlanIs(env, in_, true);
      HopelessIs(env, in_, CompactAll(env, p, xs));
    } else {
      PlanIs(env, in_, false);
      assert p.(compacting := false) == p;
    }
  }

  lemma HopelessIs(env: Env, in_: Input, compacted: Option<seq<Item>>)
    requires Overfull(env, in_)
    requires compacted.Some? <==> Squeezable(env, Required(in_.items))
    requires compacted.Some? ==> SqueezedTo(env, in_.items, Required(in_.items), compacted.value)
    ensures Hopeless(env, in_) <==> compacted.Some? && Size(env, compacted.value) > in_.budget
  {
    if ys :| SqueezedTo(env, in_.items, Required(in_.items), ys) && Size(env, ys) > in_.budget {
      SqueezedMeansSqueezable(env, in_.items, Required(in_.items), ys);
      SqueezedUnique(env, in_.items, Required(in_.items), ys, compacted.value);
    }
  }

  lemma TransformIs(env: Env, in_: Input, p: Plan, c: nat)
    requires Planned(env, in_, p) && c <= |p.turns|
    ensures var t := Transform(env, p, Suffix(p, c));
            && (t.None? <==> Overfull(env, in_) && !Squeezable(env, Kept(in_.items, c)))
            && (forall ys :: Candidate(env, in_, c, ys) <==> t == Some(ys))
            && (t.Some? ==> SourceSet(t.value) == SourceSet(Kept(in_.items, c)))
  {
    var xs := Kept(in_.items, c);
    var t := Transform(env, p, xs);
    if p.compacting {
      CompactAllIs(env, p, in_.items, xs);
      forall ys | Candidate(env, in_, c, ys) ensures t == Some(ys) {
        SqueezedMeansSqueezable(env, in_.items, xs, ys);
        SqueezedUnique(env, in_.items, xs, ys, t.value);
      }
      if t.Some? { SourceSetByTags(t.value, xs); }
    }
  }

  lemma PricedIs(env: Env, in_: Input, q: Request)
    ensures PricedRef(env, in_, q).None? <==> Misresolved(in_, q)
    ensures forall ref :: Prices(env, in_, q, ref) <==> PricedRef(env, in_, q) == Some(Some(ref))
  {}

  /** What one priced request leads to, apart from where the marker goes. */
  lemma RequestTried(env: Env, in_: Input, p: Plan, c: nat, ys: seq<Item>, q: Request)
    requires p.systems == Pick(SystemPart, in_.items) && |p.systems| <= |ys|
    ensures var t := TryRequest(env, in_, p, c, ys, q);
            && (t == Skip <==> PassedRequest(env, in_, c, ys, q))
            && (t.Raise? ==> t.failure == (if Misresolved(in_, q) then InvalidRef else NothingOmitted))
            && (t.Raise? <==> Misresolved(in_, q) || (c == 0 && exists ref :: Prices(env, in_, q, ref)))
  {
    PricedIs(env, in_, q);
    var priced := PricedRef(env, in_, q);
    if priced.Some? && priced.value.Some? {
      var ref := priced.value.value;
      assert Prices(env, in_, q, ref);
      var zs := WithMarker(env, p, ys, ref, q, c);
      assert forall other, ws :: Prices(env, in_, q, other) && Marked(env, in_, c, ys, other, q, ws) ==> other == ref && ws == zs;
      assert Marked(env, in_, c, ys, ref, q, zs);
    }
  }

  lemma RequestChosen(env: Env, in_: Input, p: Plan, c: nat, ys: seq<Item>, q: Request)
    requires p.systems == Pick(SystemPart, in_.items) && |p.systems| <= |ys| && TryRequest(env, in_, p, c, ys, q).Select?
    ensures var (t, mine) := (TryRequest(env, in_, p, c, ys, q), in_.binding.Some? && in_.binding.value.request == q);
            && t.request == Some(q) && (t.bound <==> mine) && SourceSet(t.items) == SourceSet(ys)
            && (mine ==> Marked(env, in_, c, ys, in_.binding.value.ref, q, t.items) && Size(env, t.items) <= in_.budget)
            && (!mine ==> in_.binding.None?)
  {
    if in_.binding.Some? && in_.binding.value.request == q { MarkerHasNoSource(env, p, ys, in_.binding.value.ref, q, c); }
  }

  lemma OrphanedIs(items: seq<Item>, zs: seq<Item>)
    ensures HasOrphan(ClosedPairs(items), zs) <==> Orphaned(items, zs)
  {
    forall id ensures id in ClosedPairs(items) <==> Called(items, id) && Answered(items, id) { PairsAre(items, id); }
  }

  lemma AltersIs(in_: Input, zs: seq<Item>, i: nat)
    ensures i in Changed(in_, zs) <==> Alters(in_, zs, i)
  {
    if i in Changed(in_, zs) {
      var x :| x in zs && x.tag.FromSource? && x.tag.index < |in_.manifest.messages| && x.message != in_.manifest.messages[x.tag.index] && x.tag.index == i;
      assert x.tag == FromSource(i);
    }
  }

  lemma {:induction false} RetainedSorted(n: nat, kept: set<nat>)
    ensures Sorted(Retained(n, kept))
  {
    if n > 0 {
      RetainedSorted(n - 1, kept);
      OmittedIs(n - 1, kept);
      var front := Retained(n - 1, kept);
      assert forall k :: 0 <= k < |front| ==> front[k] in front;
    }
  }

  lemma FinishDelivers(env: Env, in_: Input, p: Plan, c: nat, request: Option<Request>, bound: bool, zs: seq<Item>)
    requires c <= |TurnsIn(in_.items)| && p.closed == ClosedPairs(in_.items)
    requires SourceSet(zs) == SourceSet(Kept(in_.items, c)) && Size(env, zs) <= in_.budget
    requires Missing(in_, c) == [] || (bound && request.Some?)
    ensures Delivers(in_, c, zs, Finish(env, in_, p, c, request, bound, zs))
  {
    var n := |in_.manifest.messages|;
    OmittedIs(n, SourceSet(zs));
    RetainedSorted(n, SourceSet(zs));
    OrphanedIs(in_.items, zs);
    forall i: nat ensures i in Changed(in_, zs) <==> Alters(in_, zs, i) { AltersIs(in_, zs, i); }
  }

  lemma UnboundIs(in_: Input, c: nat)
    requires c <= |TurnsIn(in_.items)|
    ensures Bound(in_.manifest, Missing(in_, c)) <==> forall i :: i in Missing(in_, c) ==> i in in_.manifest.cursors
  {
    OmittedIs(|in_.manifest.messages|, SourceSet(Kept(in_.items, c)));
    assert forall k :: 0 <= k < |Missing(in_, c)| ==> Missing(in_, c)[k] in Missing(in_, c);
  }

  lemma CandidatePassed(env: Env, in_: Input, p: Plan, c: nat, ys: seq<Item>)
    requires c <= |TurnsIn(in_.items)| && p.systems == Pick(SystemPart, in_.items) && |p.systems| <= |ys|
    requires SourceSet(ys) == SourceSet(Kept(in_.items, c))
    ensures TryCandidate(env, in_, p, c, ys) == Skip <==> PassedOver(env, in_, c, ys)
  {
    UnboundIs(in_, c);
    var q := RequestFor(in_.manifest, Missing(in_, c));
    if q.Ok? { RequestTried(env, in_, p, c, ys, q.value); }
  }

  lemma CandidateSettles(env: Env, in_: Input, p: Plan, c: nat, ys: seq<Item>)
    requires c <= |TurnsIn(in_.items)| && p.systems == Pick(SystemPart, in_.items) && |p.systems| <= |ys|
    requires p.closed == ClosedPairs(in_.items) && SourceSet(ys) == SourceSet(Kept(in_.items, c))
    requires TryCandidate(env, in_, p, c, ys) != Skip
    ensures Settles(env, in_, c, ys, Conclude(env, in_, p, At(c, TryCandidate(env, in_, p, c, ys))))
  {
    var q := RequestFor(in_.manifest, Missing(in_, c));
    if Missing(in_, c) == [] {
      FinishDelivers(env, in_, p, c, None, false, ys);
    } else if q.Ok? {
      RequestSettles(env, in_, p, c, ys, q.value);
    }
  }

  lemma RequestSettles(env: Env, in_: Input, p: Plan, c: nat, ys: seq<Item>, q: Request)
    requires c <= |TurnsIn(in_.items)| && p.systems == Pick(SystemPart, in_.items) && |p.systems| <= |ys|
    requires p.closed == ClosedPairs(in_.items) && SourceSet(ys) == SourceSet(Kept(in_.items, c))
    requires Missing(in_, c) != [] && RequestFor(in_.manifest, Missing(in_, c)) == Ok(q)
    requires TryRequest(env, in_, p, c, ys, q) != Skip
    ensures Settles(env, in_, c, ys, Conclude(env, in_, p, At(c, TryRequest(env, in_, p, c, ys, q))))
  {
    var t := TryRequest(env, in_, p, c, ys, q);
    RequestTried(env, in_, p, c, ys, q);
    if t.Select? {
      RequestChosen(env, in_, p, c, ys, q);
      if t.bound { FinishDelivers(env, in_, p, c, t.request, t.bound, t.items); }
    }
  }

  lemma TryIs(env: Env, in_: Input, p: Plan, c: nat)
    requires Planned(env, in_, p) && c <= |p.turns|
    ensures Try(env, in_, p, c) == Skip <==> Passed(env, in_, c)
    ensures Try(env, in_, p, c) != Skip ==> Answers(env, in_, c, Conclude(env, in_, p, At(c, Try(env, in_, p, c))))
  {
    TransformIs(env, in_, p, c);
    var t := Transform(env, p, Suffix(p, c));
    if t.Some? {
      assert Candidate(env, in_, c, t.value);
      CandidatePassed(env, in_, p, c, t.value);
      if !Forbidden(in_.items, c) && TryCandidate(env, in_, p, c, t.value) != Skip { CandidateSettles(env, in_, p, c, t.value); }
    }
  }

  lemma SearchedIs(env: Env, in_: Input, p: Plan)
    requires Planned(env, in_, p)
    ensures Searched(env, in_, Conclude(env, in_, p, Scan(env, in_, p, FirstCutoff(in_))))
  {
    var (first, n) := (FirstCutoff(in_), |TurnsIn(in_.items)|);
    var found := Scan(env, in_, p, first);
    ScanFindsFirst(env, in_, p, first);
    forall k: nat | first <= k <= n ensures Try(env, in_, p, k) == Skip <==> Passed(env, in_, k) { TryIs(env, in_, p, k); }
    if found.At? { TryIs(env, in_, p, found.cutoff); }
  }

  /** The reduction answers exactly what the input calls for. */
  lemma ReducesAsExpected(env: Env, in_: Input)
    ensures Expected(env, in_, Reduce(env, in_))
  {
    if in_.budget > 0 {
      if Untouched(env, in_) {
        OmittedIs(|in_.manifest.messages|, {});
      } else {
        PrepareIs(env, in_);
        var prepared := Prepare(env, Views(in_.items), in_.budget);
        if prepared.Ready? { SearchedIs(env, in_, prepared.plan); }
      }
    }
  }

  /** Which inputs fail before any cut is tried. */
  lemma FailsExactly(env: Env, in_: Input)
    ensures Reduce(env, in_) == Failed(NoBudget) <==> in_.budget <= 0
    ensures Reduce(env, in_) == Failed(MandatoryTooLarge) <==> in_.budget > 0 && !Untouched(env, in_) && Hopeless(env, in_)
    ensures Reduce(env, in_) != Failed(MarkerTooLarge)
  {
    ReducesAsExpected(env, in_);
    if Hopeless(env, in_) {
      var ys :| SqueezedTo(env, in_.items, Required(in_.items), ys) && Size(env, ys) > in_.budget;
      SqueezedMeansSqueezable(env, in_.items, Required(in_.items), ys);
    }
    if Searched(env, in_, Reduce(env, in_)) { SearchedNot(env, in_, Reduce(env, in_)); }
  }

  lemma SearchedNot(env: Env, in_: Input, r: Outcome)
    requires Searched(env, in_, r)
    ensures r != Failed(NoBudget) && r != Failed(MandatoryTooLarge) && r != Failed(MarkerTooLarge)
  {
    var (first, n) := (if in_.binding.Some? && in_.minimumCutoff == 0 then 1 else in_.minimumCutoff, |TurnsIn(in_.items)|);
    if !forall k: nat :: first <= k <= n ==> Passed(env, in_, k) {
      var c: nat :| first <= c <= n && !Passed(env, in_, c) && Answers(env, in_, c, r) && forall k: nat :: first <= k < c ==> Passed(env, in_, k);
      AnswersNot(env, in_, c, r);
    }
  }

  lemma AnswersNot(env: Env, in_: Input, c: nat, r: Outcome)
    requires c <= |TurnsIn(in_.items)| && Answers(env, in_, c, r)
    ensures r != Failed(NoBudget) && r != Failed(MandatoryTooLarge) && r != Failed(MarkerTooLarge)
  {
    if !Overfull(env, in_) || Squeezable(env, Kept(in_.items, c)) {
      var ys :| Candidate(env, in_, c, ys) && Settles(env, in_, c, ys, r);
      SettlesNot(env, in_, c, ys, r);
    }
  }

  lemma SettlesNot(env: Env, in_: Input, c: nat, ys: seq<Item>, r: Outcome)
    requires c <= |TurnsIn(in_.items)| && Settles(env, in_, c, ys, r)
    ensures r != Failed(NoBudget) && r != Failed(MandatoryTooLarge) && r != Failed(MarkerTooLarge)
  {}

  /** What a complete answer holds: if what must stay fits as it is, the kept messages themselves; otherwise each of them in its
      compacted form; and one marker behind the system messages when something is left out. */
  lemma HoldsExactly(env: Env, in_: Input)
    requires Reduce(env, in_).Complete? && !Untouched(env, in_)
    ensures var r := Reduce(env, in_);
            && r.dropped <= |TurnsIn(in_.items)| && r.omitted == Missing(in_, r.dropped)
            && exists ys :: Candidate(env, in_, r.dropped, ys) && HoldsAs(env, in_, r, ys)
  {
    ReducesAsExpected(env, in_);
    var r := Reduce(env, in_);
    var (first, n) := (if in_.binding.Some? && in_.minimumCutoff == 0 then 1 else in_.minimumCutoff, |TurnsIn(in_.items)|);
    var c: nat :| first <= c <= n && !Passed(env, in_, c) && Answers(env, in_, c, r) && forall k: nat :: first <= k < c ==> Passed(env, in_, k);
    var ys :| Candidate(env, in_, c, ys) && Settles(env, in_, c, ys, r);
    SettledHolds(env, in_, c, ys, r);
  }

  ghost predicate HoldsAs(env: Env, in_: Input, r: Outcome, ys: seq<Item>)
    requires r.Complete?
  {
    if r.omitted == [] then r.items == ys
    else in_.binding.Some? && Marked(env, in_, r.dropped, ys, in_.binding.value.ref, in_.binding.value.request, r.items)
  }

  lemma SettledHolds(env: Env, in_: Input, c: nat, ys: seq<Item>, r: Outcome)
    requires c <= |TurnsIn(in_.items)| && Settles(env, in_, c, ys, r) && r.Complete?
    ensures r.dropped == c && r.omitted == Missing(in_, c) && HoldsAs(env, in_, r, ys)
  {}

  // ----- Nothing else is expected ---------------------------------------------------------------------------------

  lemma SameSorted(a: seq<nat>, b: seq<nat>)
    requires Sorted(a) && Sorted(b) && forall i :: i in a <==> i in b
    ensures a == b
  {
    AscendingUnique((i: nat) => i, a, b);
  }

  lemma DeliversOne(in_: Input, c: nat, zs: seq<Item>, r: Outcome, s: Outcome)
    requires c <= |TurnsIn(in_.items)| && Delivers(in_, c, zs, r) && Delivers(in_, c, zs, s)
    ensures r == s
  {
    if !Orphaned(in_.items, zs) { SameSorted(r.included, s.included); }
  }

  lemma SettlesOne(env: Env, in_: Input, c: nat, ys: seq<Item>, r: Outcome, s: Outcome)
    requires c <= |TurnsIn(in_.items)| && Settles(env, in_, c, ys, r) && Settles(env, in_, c, ys, s)
    ensures r == s
  {
    if Missing(in_, c) == [] {
      DeliversOne(in_, c, ys, r, s);
    } else if in_.binding.Some? && RequestFor(in_.manifest, Missing(in_, c)) == Ok(in_.binding.value.request) &&
              !(c == 0 && exists ref :: Prices(env, in_, in_.binding.value.request, ref)) {
      var (ref, q) := (in_.binding.value.ref, in_.binding.value.request);
      var zs :| Marked(env, in_, c, ys, ref, q, zs) && Delivers(in_, c, zs, r);
      DeliversOne(in_, c, zs, r, s);
    }
  }

  lemma AnswersOne(env: Env, in_: Input, c: nat, r: Outcome, s: Outcome)
    requires c <= |TurnsIn(in_.items)| && Answers(env, in_, c, r) && Answers(env, in_, c, s)
    ensures r == s
  {
    if !Overfull(env, in_) || Squeezable(env, Kept(in_.items, c)) {
      var ys :| Candidate(env, in_, c, ys) && Settles(env, in_, c, ys, r);
      var zs :| Candidate(env, in_, c, zs) && Settles(env, in_, c, zs, s);
      if Overfull(env, in_) { SqueezedUnique(env, in_.items, Kept(in_.items, c), ys, zs); }
      SettlesOne(env, in_, c, ys, r, s);
    }
  }

  lemma SearchedOne(env: Env, in_: Input, r: Outcome, s: Outcome)
    requires Searched(env, in_, r) && Searched(env, in_, s)
    ensures r == s
  {
    var (first, n) := (if in_.binding.Some? && in_.minimumCutoff == 0 then 1 else in_.minimumCutoff, |TurnsIn(in_.items)|);
    if !forall k: nat :: first <= k <= n ==> Passed(env, in_, k) {
      var c: nat :| first <= c <= n && !Passed(env, in_, c) && Answers(env, in_, c, r) && forall k: nat :: first <= k < c ==> Passed(env, in_, k);
      var d: nat :| first <= d <= n && !Passed(env, in_, d) && Answers(env, in_, d, s) && forall k: nat :: first <= k < d ==> Passed(env, in_, k);
      assert c == d;
      AnswersOne(env, in_, c, r, s);
    }
  }

  /** The expectations single out one answer. */
  lemma ExpectedOne(env: Env, in_: Input, r: Outcome)
    requires Expected(env, in_, r)
    ensures r == Reduce(env, in_)
  {
    var s := Reduce(env, in_);
    ReducesAsExpected(env, in_);
    OneExpected(env, in_, r, s);
  }

  lemma OneExpected(env: Env, in_: Input, r: Outcome, s: Outcome)
    requires Expected(env, in_, r) && Expected(env, in_, s)
    ensures r == s
  {
    if in_.budget > 0 {
      if Untouched(env, in_) {
        SameSorted(r.included, s.included);
      } else if Searched(env, in_, r) && Searched(env, in_, s) {
        SearchedOne(env, in_, r, s);
      }
    }
  }
}
