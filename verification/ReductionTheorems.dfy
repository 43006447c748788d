/** What every answer of the reduction means: no silent loss of history, tool pairs kept whole, and convergence
    of the two-pass checkpoint handshake. */
module ReductionTheorems {
  import opened Wrappers
  import opened ContextTypes
  import opened Checkpoints
  import opened Sorting
  import opened ContextReduce

  /** What `_assemble` guarantees: every source message once, unchanged and in order, under its own index. */
  ghost predicate Assembled(in_: Input) {
    && (forall x :: x in in_.items && x.tag.FromSource? ==>
          x.tag.index < |in_.manifest.messages| && x.message == in_.manifest.messages[x.tag.index])
    && (forall i :: 0 <= i < |in_.manifest.messages| ==> i in SourceSet(in_.items))
    && InOrder(in_.items)
    && (forall x :: x in in_.items ==> !x.tag.Marker?)
  }

  ghost predicate InOrder(items: seq<Item>) {
    forall a, b :: 0 <= a < b < |items| && items[a].tag.FromSource? && items[b].tag.FromSource? ==>
      items[a].tag.index < items[b].tag.index
  }

  // ----- Sources of the parts -----------------------------------------------------------------------

  lemma {:induction false} PickMembers(part: Part, items: seq<Item>)
    ensures forall x :: x in Pick(part, items) <==> x in items && PartOf(x) == part
  {
    if items != [] {
      PickMembers(part, items[..|items| - 1]);
      SplitLast(items);
    }
  }

  lemma {:induction false} PickInOrder(part: Part, items: seq<Item>)
    requires InOrder(items)
    ensures InOrder(Pick(part, items))
  {
    if items != [] {
      var (front, last) := (items[..|items| - 1], items[|items| - 1]);
      PickInOrder(part, front);
      PickMembers(part, front);
      var (f, all) := (Pick(part, front), Pick(part, items));
      forall a, b | 0 <= a < b < |all| && all[a].tag.FromSource? && all[b].tag.FromSource?
        ensures all[a].tag.index < all[b].tag.index
      {
        if b == |f| {
          assert f[a] in f;
          var k :| 0 <= k < |front| && front[k] == f[a];
          assert items[k] == f[a] && items[|items| - 1] == all[b];
        }
      }
    }
  }

  /** In an ordered list, what comes before a split has smaller indexes than what comes after. */
  lemma SplitSeparates(a: seq<Item>, b: seq<Item>)
    requires InOrder(a + b)
    ensures SourceSet(a) * SourceSet(b) == {}
    ensures forall i, j :: i in SourceSet(a) && j in SourceSet(b) ==> i < j
  {
    forall i, j | i in SourceSet(a) && j in SourceSet(b) ensures i < j {
      var x :| x in a && x.tag.FromSource? && x.tag.index == i;
      var y :| y in b && y.tag.FromSource? && y.tag.index == j;
      var k :| 0 <= k < |a| && a[k] == x;
      var l :| 0 <= l < |b| && b[l] == y;
      assert (a + b)[k] == x && (a + b)[|a| + l] == y;
    }
  }

  lemma SourceSetConcat(a: seq<Item>, b: seq<Item>)
    ensures SourceSet(a + b) == SourceSet(a) + SourceSet(b)
  {}

  lemma SourceSetByTags(a: seq<Item>, b: seq<Item>)
    requires |a| == |b| && forall k :: 0 <= k < |a| ==> a[k].tag == b[k].tag
    ensures SourceSet(a) == SourceSet(b)
  {
    SourceSetWithin(a, b);
    SourceSetWithin(b, a);
  }

  lemma SourceSetWithin(a: seq<Item>, b: seq<Item>)
    requires |a| == |b| && forall k :: 0 <= k < |a| ==> a[k].tag == b[k].tag
    ensures SourceSet(a) <= SourceSet(b)
  {
    forall i | i in SourceSet(a) ensures i in SourceSet(b) {
      var x :| x in a && x.tag.FromSource? && x.tag.index == i;
      var k :| 0 <= k < |a| && a[k] == x;
      assert b[k] in b && b[k].tag == x.tag;
    }
  }

  /** Which part of the sources a cutoff keeps, and which it drops. */
  ghost predicate CutsSources(in_: Input, p: Plan, c: nat)
    requires c <= |p.turns|
  {
    var (dropped, kept) := (SourceSet(Flatten(p.turns[..c])), SourceSet(Suffix(p, c)));
    && dropped * kept == {}
    && (forall i :: i in dropped + kept <==> 0 <= i < |in_.manifest.messages|)
    && kept == SourceSet(p.systems) + SourceSet(Flatten(p.turns[c..]))
    && (forall i, j :: i in dropped && j in SourceSet(Flatten(p.turns[c..])) ==> i < j)
  }

  lemma NoSourcesIn(items: seq<Item>)
    requires forall x :: x in items ==> !x.tag.FromSource?
    ensures SourceSet(items) == {}
  {}

  lemma SystemsApart(in_: Input, turn: seq<Item>)
    requires Assembled(in_) && forall x :: x in turn ==> x in in_.items && PartOf(x) == TurnPart
    ensures SourceSet(Pick(SystemPart, in_.items)) * SourceSet(turn) == {}
  {
    var systems := Pick(SystemPart, in_.items);
    PickMembers(SystemPart, in_.items);
    forall i | i in SourceSet(systems) ensures i !in SourceSet(turn) {
      var x :| x in systems && x.tag.FromSource? && x.tag.index == i;
      assert x in in_.items && x.message.role == System;
      assert forall y :: y in turn && y.tag.FromSource? && y.tag.index == i ==> y.message == x.message;
    }
  }

  lemma PartsCover(in_: Input)
    requires Assembled(in_)
    ensures var (systems, rest) := (SourceSet(Pick(SystemPart, in_.items)), SourceSet(Pick(TurnPart, in_.items)));
            (forall i :: i in systems + rest <==> 0 <= i < |in_.manifest.messages|) && systems * rest == {}
  {
    PickMembers(SystemPart, in_.items);
    PickMembers(TurnPart, in_.items);
    SystemsApart(in_, Pick(TurnPart, in_.items));
    forall i | 0 <= i < |in_.manifest.messages|
      ensures i in SourceSet(Pick(SystemPart, in_.items)) + SourceSet(Pick(TurnPart, in_.items))
    {
      assert i in SourceSet(in_.items);
      var x :| x in in_.items && x.tag.FromSource? && x.tag.index == i;
      assert x in Pick(SystemPart, in_.items) || x in Pick(TurnPart, in_.items);
    }
  }

  lemma CutoffCutsSources(in_: Input, p: Plan, c: nat)
    requires Assembled(in_) && c <= |p.turns|
    requires p.systems == Pick(SystemPart, in_.items) && p.injected == Pick(InjectedPart, in_.items)
    requires p.tail == Pick(TailPart, in_.items) && p.turns == Turns(Pick(TurnPart, in_.items))
    ensures CutsSources(in_, p, c)
  {
    TurnSources(in_, p.turns, c);
    PartsCover(in_);
    InjectedHaveNoSources(in_);
    CutsFromSets(in_, p, c, SourceSet(Pick(TurnPart, in_.items)));
  }

  lemma InjectedHaveNoSources(in_: Input)
    ensures SourceSet(Pick(InjectedPart, in_.items)) == {} && SourceSet(Pick(TailPart, in_.items)) == {}
  {
    PickMembers(InjectedPart, in_.items);
    PickMembers(TailPart, in_.items);
    NoSourcesIn(Pick(InjectedPart, in_.items));
    NoSourcesIn(Pick(TailPart, in_.items));
  }

  lemma CutsFromSets(in_: Input, p: Plan, c: nat, rest: set<nat>)
    requires c <= |p.turns| && SourceSet(p.injected) == {} && SourceSet(p.tail) == {}
    requires forall i :: i in SourceSet(p.systems) + rest <==> 0 <= i < |in_.manifest.messages|
    requires SourceSet(p.systems) * rest == {}
    requires var (d, k) := (SourceSet(Flatten(p.turns[..c])), SourceSet(Flatten(p.turns[c..])));
             rest == d + k && d * k == {} && forall i, j :: i in d && j in k ==> i < j
    ensures CutsSources(in_, p, c)
  {
    SuffixSources(p, c);
    var (s, d, k) := (SourceSet(p.systems), SourceSet(Flatten(p.turns[..c])), SourceSet(Flatten(p.turns[c..])));
    SetsCut(s, d, k);
  }

  lemma SetsCut(s: set<nat>, d: set<nat>, k: set<nat>)
    requires s * (d + k) == {} && d * k == {}
    ensures d * (s + k) == {} && d + (s + k) == s + (d + k)
  {
    forall i | i in d ensures i !in s + k { assert i in s ==> i in s * (d + k); assert i in k ==> i in d * k; }
  }

  lemma TurnSources(in_: Input, turns: seq<seq<Item>>, c: nat)
    requires Assembled(in_) && c <= |turns| && turns == Turns(Pick(TurnPart, in_.items))
    ensures var (d, k) := (SourceSet(Flatten(turns[..c])), SourceSet(Flatten(turns[c..])));
            SourceSet(Pick(TurnPart, in_.items)) == d + k && d * k == {} && forall i, j :: i in d && j in k ==> i < j
  {
    TurnsFlatten(Pick(TurnPart, in_.items));
    FlattenSplits(turns, c);
    PickInOrder(TurnPart, in_.items);
    SplitSeparates(Flatten(turns[..c]), Flatten(turns[c..]));
    SourceSetConcat(Flatten(turns[..c]), Flatten(turns[c..]));
  }

  lemma SuffixSources(p: Plan, c: nat)
    requires c <= |p.turns| && SourceSet(p.injected) == {} && SourceSet(p.tail) == {}
    ensures SourceSet(Suffix(p, c)) == SourceSet(p.systems) + SourceSet(Flatten(p.turns[c..]))
  {
    SourceSetConcat(p.systems, p.injected);
    SourceSetConcat(p.systems + p.injected, Flatten(p.turns[c..]));
    SourceSetConcat(p.systems + p.injected + Flatten(p.turns[c..]), p.tail);
  }

  lemma {:induction false} OmittedIs(n: nat, kept: set<nat>)
    ensures forall i :: i in Omitted(n, kept) <==> 0 <= i < n && i !in kept
    ensures Sorted(Omitted(n, kept))
    ensures forall i :: i in Retained(n, kept) <==> 0 <= i < n && i in kept
  {
    if n > 0 {
      OmittedIs(n - 1, kept);
      var front := Omitted(n - 1, kept);
      assert forall k :: 0 <= k < |front| ==> front[k] in front;
    }
  }

  // ----- The search -----------------------------------------------------------------------------------

  lemma {:induction false} ScanStops(env: Env, in_: Input, p: Plan, c: nat)
    ensures var found := Scan(env, in_, p, c);
            found.At? ==> c <= found.cutoff <= |p.turns| && found.attempt == Try(env, in_, p, found.cutoff) && found.attempt != Skip
    decreases |p.turns| + 1 - c
  {
    if c <= |p.turns| && Try(env, in_, p, c) == Skip { ScanStops(env, in_, p, c + 1); }
  }

  lemma {:induction false} ScanSkips(env: Env, in_: Input, p: Plan, c: nat, k: nat)
    requires c <= k <= |p.turns| && (Scan(env, in_, p, c).At? ==> k < Scan(env, in_, p, c).cutoff)
    ensures Try(env, in_, p, k) == Skip
    decreases k - c
  {
    if c < k && Try(env, in_, p, c) == Skip { ScanSkips(env, in_, p, c + 1, k); }
  }

  /** The scan tries every cutoff from `c` on and stops at the first that is not skipped. */
  lemma ScanFindsFirst(env: Env, in_: Input, p: Plan, c: nat)
    ensures match Scan(env, in_, p, c)
            case NotFound => forall k :: c <= k <= |p.turns| ==> Try(env, in_, p, k) == Skip
            case At(at, a) =>
              && c <= at <= |p.turns| && a == Try(env, in_, p, at) && a != Skip
              && forall k :: c <= k < at ==> Try(env, in_, p, k) == Skip
  {
    var found := Scan(env, in_, p, c);
    ScanStops(env, in_, p, c);
    forall k | c <= k <= |p.turns| && (found.At? ==> k < found.cutoff) ensures Try(env, in_, p, k) == Skip { ScanSkips(env, in_, p, c, k); }
  }

  /** The first selectable cutoff is what the scan returns. */
  lemma {:induction false} ScanReaches(env: Env, in_: Input, p: Plan, c: nat, at: nat)
    requires c <= at <= |p.turns| && Try(env, in_, p, at) != Skip
    requires forall k :: c <= k < at ==> Try(env, in_, p, k) == Skip
    ensures Scan(env, in_, p, c) == At(at, Try(env, in_, p, at))
    decreases at - c
  {
    if c < at {
      ScanOn(env, in_, p, c);
      ScanReaches(env, in_, p, c + 1, at);
    }
  }

  lemma ScanOn(env: Env, in_: Input, p: Plan, c: nat)
    requires c <= |p.turns| && Try(env, in_, p, c) == Skip
    ensures Scan(env, in_, p, c) == Scan(env, in_, p, c + 1)
  {}

  lemma TransformKeeps(env: Env, p: Plan, items: seq<Item>)
    requires Lawful(env) && Transform(env, p, items).Some?
    ensures var r := Transform(env, p, items).value;
            && (forall k :: 0 <= k < |items| ==> r[k].tag == items[k].tag && SameIds(items[k].message, r[k].message))
            && SourceSet(r) == SourceSet(items)
  {
    if p.compacting { CompactKeepsTags(env, p, items); }
    SourceSetByTags(Transform(env, p, items).value, items);
  }

  lemma MarkerHasNoSource(env: Env, p: Plan, items: seq<Item>, ref: Ref, q: Request, c: nat)
    requires |p.systems| <= |items|
    ensures SourceSet(WithMarker(env, p, items, ref, q, c)) == SourceSet(items)
  {
    var (front, mark, back) := (items[..|p.systems|], [Item(Marker(q), env.marker(ref, q, c))], items[|p.systems|..]);
    assert front + back == items;
    SourceSetConcat(front, back);
    SourceSetConcat(front, mark);
    SourceSetConcat(front + mark, back);
    NoSourcesIn(mark);
  }

  /** What a selected cutoff stands for. */
  ghost predicate Selected(env: Env, in_: Input, p: Plan, c: nat, request: Option<Request>, bound: bool, items: seq<Item>)
    requires c <= |p.turns|
  {
    && !DropsPinned(p, c) && !SplitsPair(p, c)
    && Transform(env, p, Suffix(p, c)).Some?
    && Size(env, items) <= in_.budget
    && SourceSet(items) == SourceSet(Suffix(p, c))
    && (var omitted := Omitted(|in_.manifest.messages|, SourceSet(Suffix(p, c)));
        && (bound ==> request.Some?)
        && (request.Some? ==> omitted != [] && RequestFor(in_.manifest, omitted) == Ok(request.value))
        && (request.None? ==> omitted == [] || !Bound(in_.manifest, omitted))
        && (omitted != [] && in_.binding.Some? ==> bound))
    && (bound ==> IsBound(in_, request.value) && c > 0 &&
                  items == WithMarker(env, p, Transform(env, p, Suffix(p, c)).value, in_.binding.value.ref, request.value, c))
    && (!bound ==> items == Transform(env, p, Suffix(p, c)).value)
  }

  lemma TrySelects(env: Env, in_: Input, p: Plan, c: nat)
    requires Lawful(env) && c <= |p.turns| && Try(env, in_, p, c).Select?
    ensures var a := Try(env, in_, p, c); Selected(env, in_, p, c, a.request, a.bound, a.items)
  {
    var candidate := Transform(env, p, Suffix(p, c)).value;
    TransformKeeps(env, p, Suffix(p, c));
    var omitted := Omitted(|in_.manifest.messages|, SourceSet(candidate));
    if omitted != [] && Bound(in_.manifest, omitted) {
      RequestSelects(env, in_, p, c, candidate, RequestFor(in_.manifest, omitted).value);
    }
  }

  lemma RequestSelects(env: Env, in_: Input, p: Plan, c: nat, candidate: seq<Item>, q: Request)
    requires |p.systems| <= |candidate| && TryRequest(env, in_, p, c, candidate, q).Select? && Size(env, candidate) <= in_.budget
    ensures var a := TryRequest(env, in_, p, c, candidate, q);
            && a.request == Some(q) && SourceSet(a.items) == SourceSet(candidate) && Size(env, a.items) <= in_.budget
            && (in_.binding.Some? ==> a.bound)
            && (a.bound ==> IsBound(in_, q) && c > 0 && a.items == WithMarker(env, p, candidate, in_.binding.value.ref, q, c))
            && (!a.bound ==> a.items == candidate)
  {
    if IsBound(in_, q) { MarkerHasNoSource(env, p, candidate, in_.binding.value.ref, q, c); }
  }

  // ----- No silent history loss ------------------------------------------------------------------------

  ghost function ThePlan(env: Env, in_: Input): Plan
    requires Prepare(env, Views(in_.items), in_.budget).Ready?
  { Prepare(env, Views(in_.items), in_.budget).plan }

  /** The prepared plan has the views of the input; only `compacting` is decided by the budget. */
  lemma PlanViews(env: Env, in_: Input)
    requires Prepare(env, Views(in_.items), in_.budget).Ready?
    ensures var p := ThePlan(env, in_); p == Views(in_.items).(compacting := p.compacting)
  {}

  lemma PinnedCovers(items: seq<Item>)
    ensures MustKeep(Views(items).turns, OpenPairs(items)) <= Views(items).pinned
  {
    var p := Views(items);
    forall k | k in MustKeep(p.turns, p.open) ensures k in p.pinned {
      assert InEveryClosure(p.turns, p.closed, MustKeep(p.turns, p.open), k);
    }
  }

  /** Turns in front of an admissible cutoff hold nothing that must stay. */
  ghost predicate Droppable(turns: seq<seq<Item>>, open: set<Id>, c: nat) {
    && c <= |turns| && (turns != [] ==> c < |turns|)
    && forall k :: 0 <= k < c ==> !HasPinned(turns[k]) && !MentionsAny(turns[k], open)
  }

  lemma AdmissibleDropsOnlyDroppable(items: seq<Item>, c: nat)
    requires c <= |Views(items).turns| && !DropsPinned(Views(items), c)
    ensures Droppable(Turns(Pick(TurnPart, items)), OpenPairs(items), c)
  {
    var turns := Turns(Pick(TurnPart, items));
    PinnedCovers(items);
    assert forall k :: k in MustKeep(turns, OpenPairs(items)) ==> k >= c;
    assert turns != [] ==> |turns| - 1 in MustKeep(turns, OpenPairs(items));
    forall k | 0 <= k < c ensures !HasPinned(turns[k]) && !MentionsAny(turns[k], OpenPairs(items)) {
      assert k !in MustKeep(turns, OpenPairs(items));
    }
  }

  /** What a complete answer means for the history. */
  ghost predicate NothingLost(env: Env, in_: Input, r: Outcome)
    requires r.Complete?
  {
    var turns := Turns(Pick(TurnPart, in_.items));
    // within budget
    && Size(env, r.items) <= in_.budget
    // a suffix of turns, with the last one, stays; with it every pinned turn and every unfinished tool pair
    && Droppable(turns, OpenPairs(in_.items), r.dropped)
    && SourceSet(r.items) == SourceSet(Pick(SystemPart, in_.items)) + SourceSet(Flatten(turns[r.dropped..]))
    // the rest is reported, and covered by exactly the bound checkpoint
    && (forall i :: i in r.omitted <==> i in SourceSet(Flatten(turns[..r.dropped])))
    && (r.omitted == [] || (in_.binding.Some? && RequestFor(in_.manifest, r.omitted) == Ok(in_.binding.value.request)))
    && (forall i :: i in r.included <==> 0 <= i < |in_.manifest.messages| && i !in r.omitted)
    // what is not reported as transformed is the source message itself
    && (forall x :: x in r.items && x.tag.FromSource? && x.tag.index !in r.transformed ==>
          x.tag.index < |in_.manifest.messages| && x.message == in_.manifest.messages[x.tag.index])
  }

  lemma FinishLosesNothing(env: Env, in_: Input, p: Plan, c: nat, request: Option<Request>, bound: bool, items: seq<Item>)
    requires Assembled(in_) && p == Views(in_.items).(compacting := p.compacting) && c <= |p.turns|
    requires Selected(env, in_, p, c, request, bound, items)
    requires Finish(env, in_, p, c, request, bound, items).Complete?
    ensures NothingLost(env, in_, Finish(env, in_, p, c, request, bound, items))
  {
    var r := Finish(env, in_, p, c, request, bound, items);
    var n := |in_.manifest.messages|;
    assert Droppable(p.turns, OpenPairs(in_.items), c) by {
      assert !DropsPinned(Views(in_.items), c) by { assert Views(in_.items).pinned == p.pinned; }
      AdmissibleDropsOnlyDroppable(in_.items, c);
    }
    assert SourceSet(items) == SourceSet(p.systems) + SourceSet(Flatten(p.turns[c..]))
      && (forall i :: i in r.omitted <==> i in SourceSet(Flatten(p.turns[..c])))
      && (forall i :: i in r.included <==> 0 <= i < n && i !in r.omitted) by {
      CutoffCutsSources(in_, p, c);
      OmittedIs(n, SourceSet(items));
      ComplementOf(n, SourceSet(Flatten(p.turns[..c])), SourceSet(items));
    }
    assert r.omitted == [] || (bound && RequestFor(in_.manifest, r.omitted) == Ok(in_.binding.value.request));
    UntransformedIsSource(env, in_, p, c, items, r.transformed);
  }

  lemma ComplementOf(n: nat, dropped: set<nat>, kept: set<nat>)
    requires dropped * kept == {} && forall i :: i in dropped + kept <==> 0 <= i < n
    ensures forall i :: i in dropped <==> 0 <= i < n && i !in kept
  {
    forall i ensures i in dropped <==> 0 <= i < n && i !in kept {
      assert i in dropped ==> i in dropped + kept;
      assert i in dropped && i in kept ==> i in dropped * kept;
      assert 0 <= i < n ==> i in dropped + kept;
    }
  }

  lemma UntransformedIsSource(env: Env, in_: Input, p: Plan, c: nat, items: seq<Item>, transformed: set<nat>)
    requires Assembled(in_) && c <= |p.turns| && p == Views(in_.items).(compacting := p.compacting)
    requires SourceSet(items) == SourceSet(Suffix(p, c)) && Changed(in_, items) <= transformed
    ensures forall x :: x in items && x.tag.FromSource? && x.tag.index !in transformed ==>
              x.tag.index < |in_.manifest.messages| && x.message == in_.manifest.messages[x.tag.index]
  {
    CutoffCutsSources(in_, p, c);
    forall x | x in items && x.tag.FromSource? && x.tag.index !in transformed
      ensures x.tag.index < |in_.manifest.messages| && x.message == in_.manifest.messages[x.tag.index]
    {
      assert x.tag.index in SourceSet(items);
      assert x.tag.index in SourceSet(Flatten(p.turns[..c])) + SourceSet(Suffix(p, c));
    }
  }

  lemma UnchangedLosesNothing(env: Env, in_: Input)
    requires Assembled(in_) && in_.budget > 0 && FitsUnchanged(env, in_)
    ensures NothingLost(env, in_, Reduce(env, in_))
  {
    var n := |in_.manifest.messages|;
    var turns := Turns(Pick(TurnPart, in_.items));
    OmittedIs(n, {});
    PartsCover(in_);
    TurnsFlatten(Pick(TurnPart, in_.items));
    assert turns[0..] == turns && turns[..0] == [];
    assert SourceSet([]) == {};
    forall i ensures i in SourceSet(in_.items) <==> 0 <= i < n {}
  }

  function Unmarked(items: seq<Item>): seq<Item> {
    if items == [] then [] else Unmarked(items[..|items| - 1]) + (if items[|items| - 1].tag.Marker? then [] else [items[|items| - 1]])
  }

  /** The same messages in the same places: same origins, roles and tool ids, one for one. */
  ghost predicate Aligned(before: seq<Item>, after: seq<Item>) {
    |after| == |before| && forall k :: 0 <= k < |before| ==> after[k].tag == before[k].tag && SameIds(before[k].message, after[k].message)
  }

  /** The answer is the input itself, or, but for one marker when something is omitted, all system messages, all injected
      messages, the kept turns and the whole native tail, each once and in order. */
  ghost predicate KeptInOrder(env: Env, in_: Input, r: Outcome)
    requires r.Complete?
  {
    && (FitsUnchanged(env, in_) ==> r.items == in_.items)
    && (!FitsUnchanged(env, in_) ==>
          r.dropped <= |Views(in_.items).turns| && Aligned(Suffix(Views(in_.items), r.dropped), Unmarked(r.items)))
    && |MarkersIn(r.items)| == (if r.omitted == [] then 0 else 1)
  }

  lemma {:induction false} UnmarkedConcat(a: seq<Item>, b: seq<Item>)
    ensures Unmarked(a + b) == Unmarked(a) + Unmarked(b)
  {
    if b == [] {
      assert a + b == a;
    } else {
      UnmarkedConcat(a, b[..|b| - 1]);
      assert (a + b)[..|a + b| - 1] == a + b[..|b| - 1];
    }
  }

  lemma {:induction false} AllUnmarked(items: seq<Item>)
    requires forall x :: x in items ==> !x.tag.Marker?
    ensures Unmarked(items) == items
  {
    if items != [] {
      AllUnmarked(items[..|items| - 1]);
      SplitLast(items);
    }
  }

  lemma UnmarkedWithMarker(env: Env, p: Plan, items: seq<Item>, ref: Ref, q: Request, c: nat)
    requires |p.systems| <= |items| && forall x :: x in items ==> !x.tag.Marker?
    ensures Unmarked(WithMarker(env, p, items, ref, q, c)) == items
  {
    var (front, back) := (items[..|p.systems|], items[|p.systems|..]);
    UnmarkedAround(front, Item(Marker(q), env.marker(ref, q, c)), back);
    SplitAt(items, |p.systems|);
    UnmarkedConcat(front, back);
    AllUnmarked(items);
  }

  lemma UnmarkedAround(front: seq<Item>, mark: Item, back: seq<Item>)
    requires mark.tag.Marker?
    ensures Unmarked(front + [mark] + back) == Unmarked(front) + Unmarked(back)
  {
    UnmarkedConcat(front + [mark], back);
    assert Unmarked(front + [mark]) == Unmarked(front) by { assert (front + [mark])[..|front|] == front; }
  }

  lemma SelectedKeepsOrder(env: Env, in_: Input, p: Plan, c: nat, request: Option<Request>, bound: bool, items: seq<Item>)
    requires Lawful(env) && Assembled(in_) && p == Views(in_.items).(compacting := p.compacting) && c <= |p.turns|
    requires Selected(env, in_, p, c, request, bound, items)
    ensures Aligned(Suffix(p, c), Unmarked(items)) && |MarkersIn(items)| == (if bound then 1 else 0)
  {
    var candidate := Transform(env, p, Suffix(p, c)).value;
    TransformKeeps(env, p, Suffix(p, c));
    SuffixHasNoMarker(env, in_, p, c);
    AllUnmarked(candidate);
    NoMarkers(candidate);
    if bound {
      UnmarkedWithMarker(env, p, candidate, in_.binding.value.ref, request.value, c);
      OneMarker(env, p, candidate, in_.binding.value.ref, request.value, c);
    }
  }

  lemma FinishKeepsOrder(env: Env, in_: Input, p: Plan, c: nat, request: Option<Request>, bound: bool, items: seq<Item>)
    requires Lawful(env) && Assembled(in_) && p == Views(in_.items).(compacting := p.compacting) && c <= |p.turns|
    requires !FitsUnchanged(env, in_) && Selected(env, in_, p, c, request, bound, items)
    requires Finish(env, in_, p, c, request, bound, items).Complete?
    ensures KeptInOrder(env, in_, Finish(env, in_, p, c, request, bound, items))
  {
    SelectedKeepsOrder(env, in_, p, c, request, bound, items);
    assert Suffix(Views(in_.items), c) == Suffix(p, c);
  }

  /** No silent history loss: a complete answer is a suffix of turns within budget, and whatever it leaves out is
      exactly what the bound checkpoint covers; what stays, stays whole and in order. */
  lemma NoSilentHistoryLoss(env: Env, in_: Input)
    requires Lawful(env) && Assembled(in_) && Reduce(env, in_).Complete?
    ensures NothingLost(env, in_, Reduce(env, in_))
    ensures KeptInOrder(env, in_, Reduce(env, in_))
  {
    if FitsUnchanged(env, in_) {
      UnchangedLosesNothing(env, in_);
      NoMarkers(in_.items);
    } else {
      var p := ThePlan(env, in_);
      PlanViews(env, in_);
      ScanFindsFirst(env, in_, p, FirstCutoff(in_));
      var found := Scan(env, in_, p, FirstCutoff(in_));
      TrySelects(env, in_, p, found.cutoff);
      FinishLosesNothing(env, in_, p, found.cutoff, found.attempt.request, found.attempt.bound, found.attempt.items);
      FinishKeepsOrder(env, in_, p, found.cutoff, found.attempt.request, found.attempt.bound, found.attempt.items);
    }
  }

  // ----- The earliest admissible cut --------------------------------------------------------------------

  /** Why a cutoff cannot be used: it would drop a pinned turn, split a closed tool pair, leave too much, lack the
      matching checkpoint, or leave no room for the checkpoint's marker. */
  ghost predicate Inadmissible(env: Env, in_: Input, p: Plan, c: nat)
    requires c <= |p.turns|
  {
    || DropsPinned(p, c) || SplitsPair(p, c)
    || (Transform(env, p, Suffix(p, c)).Some? &&
        var candidate := Transform(env, p, Suffix(p, c)).value;
        var omitted := Omitted(|in_.manifest.messages|, SourceSet(candidate));
        || Size(env, candidate) > in_.budget
        || (omitted != [] && in_.binding.Some? && RequestFor(in_.manifest, omitted) != Ok(in_.binding.value.request))
        || (omitted != [] && RequestFor(in_.manifest, omitted).Ok? &&
            MarkerTooBig(env, in_, p, c, candidate, RequestFor(in_.manifest, omitted).value)))
  }

  ghost predicate MarkerTooBig(env: Env, in_: Input, p: Plan, c: nat, candidate: seq<Item>, q: Request)
    requires |p.systems| <= |candidate|
  {
    && PricedRef(env, in_, q).Some? && PricedRef(env, in_, q).value.Some?
    && Size(env, WithMarker(env, p, candidate, PricedRef(env, in_, q).value.value, q, c)) > in_.budget
  }

  lemma RequestSkips(env: Env, in_: Input, p: Plan, c: nat, candidate: seq<Item>, q: Request)
    requires |p.systems| <= |candidate| && !TryRequest(env, in_, p, c, candidate, q).Raise?
    ensures TryRequest(env, in_, p, c, candidate, q) == Skip <==>
              (in_.binding.Some? && in_.binding.value.request != q) || MarkerTooBig(env, in_, p, c, candidate, q)
  {}

  lemma CandidateSkips(env: Env, in_: Input, p: Plan, c: nat, candidate: seq<Item>)
    requires |p.systems| <= |candidate| && !TryCandidate(env, in_, p, c, candidate).Raise?
    ensures var omitted := Omitted(|in_.manifest.messages|, SourceSet(candidate));
            TryCandidate(env, in_, p, c, candidate) == Skip <==>
              || Size(env, candidate) > in_.budget
              || (omitted != [] && in_.binding.Some? && RequestFor(in_.manifest, omitted) != Ok(in_.binding.value.request))
              || (omitted != [] && RequestFor(in_.manifest, omitted).Ok? &&
                  MarkerTooBig(env, in_, p, c, candidate, RequestFor(in_.manifest, omitted).value))
  {
    var omitted := Omitted(|in_.manifest.messages|, SourceSet(candidate));
    if Size(env, candidate) <= in_.budget && omitted != [] && Bound(in_.manifest, omitted) {
      RequestSkips(env, in_, p, c, candidate, RequestFor(in_.manifest, omitted).value);
    }
  }

  lemma SkipMeansInadmissible(env: Env, in_: Input, p: Plan, c: nat)
    requires c <= |p.turns| && !Try(env, in_, p, c).Raise?
    ensures Try(env, in_, p, c) == Skip <==> Inadmissible(env, in_, p, c)
  {
    if !DropsPinned(p, c) && !SplitsPair(p, c) {
      CandidateSkips(env, in_, p, c, Transform(env, p, Suffix(p, c)).value);
    }
  }

  /** Any answer but a failure comes from the scan's first selectable cutoff. */
  lemma AnswerComesFromScan(env: Env, in_: Input)
    requires !FitsUnchanged(env, in_) && (Reduce(env, in_).Complete? || Reduce(env, in_).CheckpointRequired?)
    ensures in_.budget > 0 && Prepare(env, Views(in_.items), in_.budget).Ready?
    ensures var found := Scan(env, in_, ThePlan(env, in_), FirstCutoff(in_));
            && found.At? && found.attempt.Select? && Reduce(env, in_).dropped == found.cutoff
            && Reduce(env, in_) ==
                 Finish(env, in_, ThePlan(env, in_), found.cutoff, found.attempt.request, found.attempt.bound, found.attempt.items)
  {
    ConcludeAnswers(env, in_, ThePlan(env, in_), Scan(env, in_, ThePlan(env, in_), FirstCutoff(in_)));
  }

  lemma ConcludeAnswers(env: Env, in_: Input, p: Plan, found: Found)
    requires var r := Conclude(env, in_, p, found); r.Complete? || r.CheckpointRequired?
    ensures found.At? && found.attempt.Select? && Conclude(env, in_, p, found).dropped == found.cutoff
    ensures Conclude(env, in_, p, found) ==
              Finish(env, in_, p, found.cutoff, found.attempt.request, found.attempt.bound, found.attempt.items)
  {}

  /** The cut is the first admissible one from the starting cutoff on. */
  lemma CutIsEarliest(env: Env, in_: Input)
    requires !FitsUnchanged(env, in_) && (Reduce(env, in_).Complete? || Reduce(env, in_).CheckpointRequired?)
    ensures Prepare(env, Views(in_.items), in_.budget).Ready?
    ensures FirstAdmissible(env, in_, ThePlan(env, in_), FirstCutoff(in_), Reduce(env, in_).dropped)
  {
    AnswerComesFromScan(env, in_);
    ScanFirstAdmissible(env, in_, ThePlan(env, in_), FirstCutoff(in_));
  }

  ghost predicate FirstAdmissible(env: Env, in_: Input, p: Plan, from: nat, at: nat) {
    && from <= at <= |p.turns| && !Inadmissible(env, in_, p, at)
    && forall c :: from <= c < at ==> Inadmissible(env, in_, p, c)
  }

  lemma ScanFirstAdmissible(env: Env, in_: Input, p: Plan, from: nat)
    requires Scan(env, in_, p, from).At? && Scan(env, in_, p, from).attempt.Select?
    ensures FirstAdmissible(env, in_, p, from, Scan(env, in_, p, from).cutoff)
  {
    ScanFindsFirst(env, in_, p, from);
    var at := Scan(env, in_, p, from).cutoff;
    SkipMeansInadmissible(env, in_, p, at);
    forall c | from <= c < at ensures Inadmissible(env, in_, p, c) { SkipMeansInadmissible(env, in_, p, c); }
  }

  // ----- Tool pairs stay whole ---------------------------------------------------------------------------

  lemma IdsConcat(a: seq<Item>, b: seq<Item>)
    ensures CallsIn(a + b) == CallsIn(a) + CallsIn(b) && ResultsIn(a + b) == ResultsIn(a) + ResultsIn(b)
  {}

  lemma IdsByPosition(a: seq<Item>, b: seq<Item>)
    requires |a| == |b| && forall k :: 0 <= k < |a| ==> SameIds(a[k].message, b[k].message)
    ensures CallsIn(a) == CallsIn(b) && ResultsIn(a) == ResultsIn(b)
  {
    IdsWithin(a, b);
    assert forall k :: 0 <= k < |a| ==> SameIds(b[k].message, a[k].message) by {
      forall k | 0 <= k < |a| ensures SameIds(b[k].message, a[k].message) { assert SameIds(a[k].message, b[k].message); }
    }
    IdsWithin(b, a);
  }

  lemma IdsWithin(a: seq<Item>, b: seq<Item>)
    requires |a| == |b| && forall k :: 0 <= k < |a| ==> SameIds(a[k].message, b[k].message)
    ensures CallsIn(a) <= CallsIn(b) && ResultsIn(a) <= ResultsIn(b)
  {
    forall c | c in CallsIn(a) ensures c in CallsIn(b) {
      var x :| x in a && c in x.message.calls;
      var k :| 0 <= k < |a| && a[k] == x;
      assert SameIds(a[k].message, b[k].message) && b[k] in b;
    }
    forall c | c in ResultsIn(a) ensures c in ResultsIn(b) {
      var x :| x in a && c in x.message.results;
      var k :| 0 <= k < |a| && a[k] == x;
      assert SameIds(a[k].message, b[k].message) && b[k] in b;
    }
  }

  lemma {:induction false} FlattenMembers(turns: seq<seq<Item>>, x: Item)
    ensures x in Flatten(turns) <==> exists k :: 0 <= k < |turns| && x in turns[k]
  {
    if turns != [] {
      var front := turns[..|turns| - 1];
      FlattenMembers(front, x);
      if x in Flatten(front) {
        var k :| 0 <= k < |front| && x in front[k];
        assert turns[k] == front[k];
      }
      if k :| 0 <= k < |turns| && x in turns[k] {
        assert k < |front| ==> front[k] == turns[k];
      }
    }
  }

  /** A tool id called or answered somewhere in the turns is mentioned in one of them. */
  lemma MentionedIn(turns: seq<seq<Item>>, id: Id)
    ensures id in CallsIn(Flatten(turns)) || id in ResultsIn(Flatten(turns)) ==> exists k :: 0 <= k < |turns| && Mentions(turns[k], id)
  {
    if id in CallsIn(Flatten(turns)) || id in ResultsIn(Flatten(turns)) {
      var x :| x in Flatten(turns) && (id in x.message.calls || id in x.message.results);
      FlattenMembers(turns, x);
      var k :| 0 <= k < |turns| && x in turns[k];
      var i :| 0 <= i < |turns[k]| && turns[k][i] == x;
      assert Mentions(turns[k], id);
    }
  }

  /** An unsplit pair is wholly in front of the cut or wholly behind it. */
  lemma PairOnOneSide(turns: seq<seq<Item>>, closed: set<Id>, c: nat, id: Id)
    requires c <= |turns| && id in closed
    requires !((exists k :: k in TurnsOf(turns, id) && k < c) && (exists k :: k in TurnsOf(turns, id) && k >= c))
    ensures var (front, back) := (Flatten(turns[..c]), Flatten(turns[c..]));
            || (id !in CallsIn(front) && id !in ResultsIn(front))
            || (id !in CallsIn(back) && id !in ResultsIn(back))
  {
    MentionedIn(turns[..c], id);
    MentionedIn(turns[c..], id);
    if k :| 0 <= k < |turns[..c]| && Mentions(turns[..c][k], id) { assert k in TurnsOf(turns, id); }
    if k :| 0 <= k < |turns[c..]| && Mentions(turns[c..][k], id) { assert turns[c..][k] == turns[c + k] && c + k in TurnsOf(turns, id); }
  }

  /** What stands in front of the turns: system and injected messages. */
  function Head(items: seq<Item>): seq<Item> { Pick(SystemPart, items) + Pick(InjectedPart, items) }

  /** The native tail pairs its calls with its results, as `_current_native_tool_batch` requires. */
  ghost predicate TailClosed(items: seq<Item>) { CallsIn(Pick(TailPart, items)) == ResultsIn(Pick(TailPart, items)) }

  /** Of no closed pair does the head hold one side only. */
  ghost predicate HeadBalanced(items: seq<Item>) {
    CallsIn(Head(items)) * ClosedPairs(items) == ResultsIn(Head(items)) * ClosedPairs(items)
  }

  function CallsOf(ms: seq<Message>): set<Id> { set m, c | m in ms && c in m.calls :: c }
  function ResultsOf(ms: seq<Message>): set<Id> { set m, c | m in ms && c in m.results :: c }

  function AsTail(ms: seq<Message>): (r: seq<Item>)
    ensures |r| == |ms| && forall i :: 0 <= i < |ms| ==> r[i] == Item(NativeTail, ms[i])
  { seq(|ms|, i requires 0 <= i < |ms| => Item(NativeTail, ms[i])) }

  /** The last check of `_current_native_tool_batch`: the batch is used only when its messages call exactly the
      batch's ids and answer exactly them. */
  function NativeBatch(ids: set<Id>, ms: seq<Message>): Option<seq<Item>> {
    if CallsOf(ms) != ids || ResultsOf(ms) != ids then None else Some(AsTail(ms))
  }

  /** So a tail made of such a batch is self-closed, whatever its messages are. */
  lemma NativeBatchIsClosed(ids: set<Id>, ms: seq<Message>, items: seq<Item>)
    requires NativeBatch(ids, ms) == Some(Pick(TailPart, items))
    ensures TailClosed(items)
  {
    TailIds(ms);
  }

  lemma TailIds(ms: seq<Message>)
    ensures CallsIn(AsTail(ms)) == CallsOf(ms) && ResultsIn(AsTail(ms)) == ResultsOf(ms)
  {
    var tail := AsTail(ms);
    forall m | m in ms ensures Item(NativeTail, m) in tail {
      var i :| 0 <= i < |ms| && ms[i] == m;
      assert tail[i] == Item(NativeTail, m);
    }
    forall x | x in tail ensures x.message in ms {
      var i :| 0 <= i < |tail| && tail[i] == x;
      assert x.message == ms[i];
    }
  }

  lemma SuffixIds(p: Plan, c: nat)
    requires c <= |p.turns|
    ensures CallsIn(Suffix(p, c)) == CallsIn(p.systems + p.injected) + CallsIn(Flatten(p.turns[c..])) + CallsIn(p.tail)
    ensures ResultsIn(Suffix(p, c)) == ResultsIn(p.systems + p.injected) + ResultsIn(Flatten(p.turns[c..])) + ResultsIn(p.tail)
  {
    IdsConcat(p.systems + p.injected, Flatten(p.turns[c..]));
    IdsConcat(p.systems + p.injected + Flatten(p.turns[c..]), p.tail);
  }

  predicate Touches(items: seq<Item>, id: Id) { id in CallsIn(items) || id in ResultsIn(items) }

  /** A cut orphans a closed pair that lies in the dropped turns, when a system or injected message holds one side of it. */
  ghost predicate HeadOrphan(p: Plan, c: nat)
    requires c <= |p.turns|
  {
    exists id :: id in p.closed && !Touches(Flatten(p.turns[c..]), id) && !Touches(p.tail, id) &&
      (id in CallsIn(p.systems + p.injected) <==> id !in ResultsIn(p.systems + p.injected))
  }

  /** Exactly which cuts leave an orphan, for a self-closed tail. */
  lemma SuffixOrphans(items: seq<Item>, p: Plan, c: nat)
    requires TailClosed(items) && p == Views(items).(compacting := p.compacting) && c <= |p.turns| && !SplitsPair(p, c)
    ensures HasOrphan(p.closed, Suffix(p, c)) <==> HeadOrphan(p, c)
  {
    SuffixIds(p, c);
    forall id | id in p.closed
      ensures (id in CallsIn(Suffix(p, c)) <==> id !in ResultsIn(Suffix(p, c))) <==>
                !Touches(Flatten(p.turns[c..]), id) && !Touches(p.tail, id) &&
                (id in CallsIn(p.systems + p.injected) <==> id !in ResultsIn(p.systems + p.injected))
    {
      PairInKeptTurns(items, p, c, id);
    }
  }

  /** A closed pair mentioned in the kept turns has both sides there or in the tail. */
  lemma PairInKeptTurns(items: seq<Item>, p: Plan, c: nat, id: Id)
    requires TailClosed(items) && p == Views(items).(compacting := p.compacting) && c <= |p.turns| && !SplitsPair(p, c) && id in p.closed
    ensures var kept := Flatten(p.turns[c..]);
            Touches(kept, id) || Touches(p.tail, id) ==>
              (id in CallsIn(kept) || id in CallsIn(p.tail)) && (id in ResultsIn(kept) || id in ResultsIn(p.tail))
  {
    var body := Pick(TurnPart, items);
    TurnsFlatten(body);
    FlattenSplits(p.turns, c);
    IdsConcat(Flatten(p.turns[..c]), Flatten(p.turns[c..]));
    IdsConcat(body, p.tail);
    PairOnOneSide(p.turns, p.closed, c, id);
  }

  /** With a balanced head no admissible cut leaves an orphan. */
  lemma SuffixHasNoOrphan(items: seq<Item>, p: Plan, c: nat)
    requires TailClosed(items) && HeadBalanced(items)
    requires p == Views(items).(compacting := p.compacting) && c <= |p.turns| && !SplitsPair(p, c)
    ensures !HasOrphan(p.closed, Suffix(p, c))
  {
    SuffixOrphans(items, p, c);
    forall id | id in p.closed ensures id in CallsIn(p.systems + p.injected) <==> id in ResultsIn(p.systems + p.injected) {
      assert id in CallsIn(Head(items)) * ClosedPairs(items) <==> id in ResultsIn(Head(items)) * ClosedPairs(items);
    }
  }

  lemma MarkerIds(env: Env, p: Plan, items: seq<Item>, ref: Ref, q: Request, c: nat)
    requires Lawful(env) && |p.systems| <= |items|
    ensures CallsIn(WithMarker(env, p, items, ref, q, c)) == CallsIn(items)
    ensures ResultsIn(WithMarker(env, p, items, ref, q, c)) == ResultsIn(items)
  {
    var (front, mark, back) := (items[..|p.systems|], [Item(Marker(q), env.marker(ref, q, c))], items[|p.systems|..]);
    assert front + back == items;
    assert mark[0].message == env.marker(ref, q, c);
    IdsConcat(front, back);
    IdsConcat(front, mark);
    IdsConcat(front + mark, back);
    assert CallsIn(mark) == {} && ResultsIn(mark) == {};
  }

  /** Compaction and the marker change nothing about tool ids. */
  lemma SelectedOrphans(env: Env, in_: Input, p: Plan, c: nat, request: Option<Request>, bound: bool, items: seq<Item>)
    requires Lawful(env) && c <= |p.turns| && Selected(env, in_, p, c, request, bound, items)
    ensures HasOrphan(p.closed, items) <==> HasOrphan(p.closed, Suffix(p, c))
  {
    var candidate := Transform(env, p, Suffix(p, c)).value;
    TransformKeeps(env, p, Suffix(p, c));
    IdsByPosition(Suffix(p, c), candidate);
    if bound { MarkerIds(env, p, candidate, in_.binding.value.ref, request.value, c); }
    assert CallsIn(items) == CallsIn(Suffix(p, c)) && ResultsIn(items) == ResultsIn(Suffix(p, c));
  }

  /** The cutoff the reduction would answer with, if only the orphan guard lets it. */
  ghost predicate Answers(env: Env, in_: Input, p: Plan, c: nat) {
    && in_.budget > 0 && !FitsUnchanged(env, in_)
    && Prepare(env, Views(in_.items), in_.budget) == Ready(p)
    && var found := Scan(env, in_, p, FirstCutoff(in_));
       && found.At? && found.cutoff == c <= |p.turns| && found.attempt.Select?
       && (found.attempt.bound || Omitted(|in_.manifest.messages|, SourceSet(found.attempt.items)) == [])
  }

  /** The final size check never fires; with a self-closed tail the orphan guard fires exactly at a cut whose head holds one
      side of a dropped pair. */
  lemma OrphanGuardFires(env: Env, in_: Input)
    requires Lawful(env) && TailClosed(in_.items)
    ensures Reduce(env, in_) != Failed(MarkerTooLarge)
    ensures Reduce(env, in_) == Failed(OrphanToolPair) <==>
              exists p, c :: Answers(env, in_, p, c) && HeadOrphan(p, c)
  {
    if in_.budget > 0 && !FitsUnchanged(env, in_) && Prepare(env, Views(in_.items), in_.budget).Ready? {
      PlanDecides(env, in_, ThePlan(env, in_));
    } else {
      PrepareFailures(env, in_);
    }
  }

  lemma PlanDecides(env: Env, in_: Input, p: Plan)
    requires Lawful(env) && TailClosed(in_.items)
    requires in_.budget > 0 && !FitsUnchanged(env, in_) && Prepare(env, Views(in_.items), in_.budget) == Ready(p)
    ensures Reduce(env, in_) != Failed(MarkerTooLarge)
    ensures Reduce(env, in_) == Failed(OrphanToolPair) <==> exists c :: Answers(env, in_, p, c) && HeadOrphan(p, c)
  {
    PlanViews(env, in_);
    ScanStops(env, in_, p, FirstCutoff(in_));
    RaisesOther(env, in_, p, FirstCutoff(in_));
    var found := Scan(env, in_, p, FirstCutoff(in_));
    if found.At? && found.attempt.Select? {
      GuardsDecide(env, in_, p, found.cutoff);
      assert Reduce(env, in_) == Finish(env, in_, p, found.cutoff, found.attempt.request, found.attempt.bound, found.attempt.items);
    }
  }

  lemma PrepareFailures(env: Env, in_: Input)
    ensures var r := Prepare(env, Views(in_.items), in_.budget); r.Unfit? ==> r.failure in {PinnedMalformed, MandatoryTooLarge}
  {}

  lemma GuardsDecide(env: Env, in_: Input, p: Plan, c: nat)
    requires Lawful(env) && TailClosed(in_.items) && p == Views(in_.items).(compacting := p.compacting) && c <= |p.turns|
    requires Try(env, in_, p, c).Select?
    ensures var a := Try(env, in_, p, c); var r := Finish(env, in_, p, c, a.request, a.bound, a.items);
            && r != Failed(MarkerTooLarge)
            && (r == Failed(OrphanToolPair) <==>
                  (a.bound || Omitted(|in_.manifest.messages|, SourceSet(a.items)) == []) && HeadOrphan(p, c))
  {
    var a := Try(env, in_, p, c);
    TrySelects(env, in_, p, c);
    SelectedOrphans(env, in_, p, c, a.request, a.bound, a.items);
    SuffixOrphans(in_.items, p, c);
    FinishDecides(env, in_, p, c, a.request, a.bound, a.items);
  }

  lemma FinishDecides(env: Env, in_: Input, p: Plan, c: nat, request: Option<Request>, bound: bool, items: seq<Item>)
    requires Size(env, items) <= in_.budget && (bound ==> request.Some?)
    ensures var r := Finish(env, in_, p, c, request, bound, items);
            && r != Failed(MarkerTooLarge)
            && (r == Failed(OrphanToolPair) <==>
                  (bound || Omitted(|in_.manifest.messages|, SourceSet(items)) == []) && HasOrphan(p.closed, items))
  {}

  /** So with a self-closed tail and a balanced head neither final guard can fire. */
  lemma GuardsUnreachable(env: Env, in_: Input)
    requires Lawful(env) && TailClosed(in_.items) && HeadBalanced(in_.items)
    ensures Reduce(env, in_) != Failed(OrphanToolPair) && Reduce(env, in_) != Failed(MarkerTooLarge)
  {
    OrphanGuardFires(env, in_);
    forall p, c | Answers(env, in_, p, c) ensures !HeadOrphan(p, c) {
      PlanViews(env, in_);
      ScanStops(env, in_, p, FirstCutoff(in_));
      SelectedIsUnsplit(env, in_, p, c);
      SuffixHasNoOrphan(in_.items, p, c);
      SuffixOrphans(in_.items, p, c);
    }
  }

  lemma SelectedIsUnsplit(env: Env, in_: Input, p: Plan, c: nat)
    requires c <= |p.turns| && Try(env, in_, p, c).Select?
    ensures !SplitsPair(p, c)
  {}

  lemma RaisesOther(env: Env, in_: Input, p: Plan, c: nat)
    ensures Scan(env, in_, p, c).At? && Scan(env, in_, p, c).attempt.Raise? ==>
              Scan(env, in_, p, c).attempt.failure in {PinnedMalformed, NotCheckpointable, InvalidRef, NothingOmitted}
  {
    ScanStops(env, in_, p, c);
  }

  // ----- Markers ------------------------------------------------------------------------------------------

  function MarkersIn(items: seq<Item>): seq<Item> {
    if items == [] then [] else MarkersIn(items[..|items| - 1]) + (if items[|items| - 1].tag.Marker? then [items[|items| - 1]] else [])
  }

  lemma {:induction false} MarkersConcat(a: seq<Item>, b: seq<Item>)
    ensures MarkersIn(a + b) == MarkersIn(a) + MarkersIn(b)
  {
    if b == [] {
      assert a + b == a;
    } else {
      MarkersConcat(a, b[..|b| - 1]);
      assert (a + b)[..|a + b| - 1] == a + b[..|b| - 1];
    }
  }

  lemma {:induction false} NoMarkers(items: seq<Item>)
    requires forall x :: x in items ==> !x.tag.Marker?
    ensures MarkersIn(items) == []
  {
    if items != [] { NoMarkers(items[..|items| - 1]); }
  }

  /** The bound answer carries exactly one marker, the one of its checkpoint. */
  lemma OneMarker(env: Env, p: Plan, items: seq<Item>, ref: Ref, q: Request, c: nat)
    requires |p.systems| <= |items| && forall x :: x in items ==> !x.tag.Marker?
    ensures MarkersIn(WithMarker(env, p, items, ref, q, c)) == [Item(Marker(q), env.marker(ref, q, c))]
  {
    var (front, mark, back) := (items[..|p.systems|], [Item(Marker(q), env.marker(ref, q, c))], items[|p.systems|..]);
    MarkersConcat(front + mark, back);
    MarkersConcat(front, mark);
    NoMarkers(front);
    NoMarkers(back);
    assert mark[..0] == [];
  }

  lemma SuffixHasNoMarker(env: Env, in_: Input, p: Plan, c: nat)
    requires Lawful(env) && Assembled(in_) && p == Views(in_.items).(compacting := p.compacting) && c <= |p.turns|
    requires Transform(env, p, Suffix(p, c)).Some?
    ensures forall x :: x in Transform(env, p, Suffix(p, c)).value ==> !x.tag.Marker?
  {
    var (suffix, candidate) := (Suffix(p, c), Transform(env, p, Suffix(p, c)).value);
    TransformKeeps(env, p, suffix);
    forall x | x in suffix ensures !x.tag.Marker? { SuffixWithin(in_, p, c, x); }
    forall x | x in candidate ensures !x.tag.Marker? {
      var k :| 0 <= k < |candidate| && candidate[k] == x;
      assert suffix[k] in suffix;
    }
  }

  lemma SuffixWithin(in_: Input, p: Plan, c: nat, x: Item)
    requires p == Views(in_.items).(compacting := p.compacting) && c <= |p.turns| && x in Suffix(p, c)
    ensures x in in_.items
  {
    PickMembers(SystemPart, in_.items);
    PickMembers(InjectedPart, in_.items);
    PickMembers(TailPart, in_.items);
    PickMembers(TurnPart, in_.items);
    TurnsFlatten(Pick(TurnPart, in_.items));
    FlattenSplits(p.turns, c);
  }
}
