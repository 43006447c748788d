/** The two-pass checkpoint handshake: a reduction that asks for a checkpoint, and the same reduction bound to it. */
module Handshake {
  import opened Wrappers
  import opened ContextTypes
  import opened Checkpoints
  import opened Sorting
  import opened ContextReduce
  import opened ReductionTheorems

  // ----- Later cuts omit more -------------------------------------------------------------------------------

  /** Every turn holds at least one source message. */
  lemma TurnHasSource(in_: Input, turns: seq<seq<Item>>, k: nat) returns (i: nat)
    requires Assembled(in_) && turns == Turns(Pick(TurnPart, in_.items)) && k < |turns|
    ensures i in SourceSet(turns[k])
  {
    TurnsFlatten(Pick(TurnPart, in_.items));
    PickMembers(TurnPart, in_.items);
    var x := turns[k][0];
    FlattenMembers(turns, x);
    assert x in Pick(TurnPart, in_.items);
    i := x.tag.index;
  }

  lemma SourceInFlatten(turns: seq<seq<Item>>, k: nat, i: nat)
    requires k < |turns| && i in SourceSet(turns[k])
    ensures i in SourceSet(Flatten(turns))
  {
    var x :| x in turns[k] && x.tag.FromSource? && x.tag.index == i;
    FlattenMembers(turns, x);
  }

  function OmittedAt(in_: Input, p: Plan, c: nat): seq<nat>
    requires c <= |p.turns|
  { Omitted(|in_.manifest.messages|, SourceSet(Suffix(p, c))) }

  lemma OmittedAtIs(in_: Input, p: Plan, c: nat)
    requires Assembled(in_) && p == Views(in_.items).(compacting := p.compacting) && c <= |p.turns|
    ensures forall i :: i in OmittedAt(in_, p, c) <==> i in SourceSet(Flatten(p.turns[..c]))
  {
    CutoffCutsSources(in_, p, c);
    OmittedIs(|in_.manifest.messages|, SourceSet(Suffix(p, c)));
    ComplementOf(|in_.manifest.messages|, SourceSet(Flatten(p.turns[..c])), SourceSet(Suffix(p, c)));
  }

  lemma {:induction false} FewerOmitted(n: nat, kept: set<nat>, rest: set<nat>)
    requires forall i :: 0 <= i < n && i in rest ==> i in kept
    ensures |Omitted(n, kept)| <= |Omitted(n, rest)|
    ensures (exists i :: 0 <= i < n && i in kept && i !in rest) ==> |Omitted(n, kept)| < |Omitted(n, rest)|
  {
    if n > 0 { FewerOmitted(n - 1, kept, rest); }
  }

  /** A later cutoff keeps less. */
  lemma KeptShrinks(in_: Input, p: Plan, k: nat, c: nat)
    requires Assembled(in_) && p == Views(in_.items).(compacting := p.compacting) && k <= c <= |p.turns|
    ensures SourceSet(Suffix(p, c)) <= SourceSet(Suffix(p, k))
  {
    CutoffCutsSources(in_, p, k);
    CutoffCutsSources(in_, p, c);
    FlattenSplits(p.turns[k..], c - k);
    assert p.turns[k..][c - k..] == p.turns[c..];
    SourceSetConcat(Flatten(p.turns[k..][..c - k]), Flatten(p.turns[c..]));
  }

  /** A later cutoff omits strictly more messages. */
  lemma OmissionsGrow(in_: Input, p: Plan, k: nat, c: nat)
    requires Assembled(in_) && p == Views(in_.items).(compacting := p.compacting) && k < c <= |p.turns|
    ensures |OmittedAt(in_, p, k)| < |OmittedAt(in_, p, c)|
  {
    var n := |in_.manifest.messages|;
    var i := TurnHasSource(in_, p.turns, k);
    KeptShrinks(in_, p, k, c);
    OmittedAtIs(in_, p, k);
    OmittedAtIs(in_, p, c);
    TurnSources(in_, p.turns, k);
    assert p.turns[k..][0] == p.turns[k] && p.turns[..c][k] == p.turns[k];
    SourceInFlatten(p.turns[k..], 0, i);
    SourceInFlatten(p.turns[..c], k, i);
    OmittedIs(n, SourceSet(Suffix(p, k)));
    OmittedIs(n, SourceSet(Suffix(p, c)));
    assert i in OmittedAt(in_, p, c) && i !in OmittedAt(in_, p, k);
    FewerOmitted(n, SourceSet(Suffix(p, k)), SourceSet(Suffix(p, c)));
  }

  lemma NothingOmittedAtZero(in_: Input, p: Plan)
    requires Assembled(in_) && p == Views(in_.items).(compacting := p.compacting)
    ensures OmittedAt(in_, p, 0) == []
  {
    OmittedAtIs(in_, p, 0);
    assert p.turns[..0] == [] && SourceSet([]) == {};
    NonEmptyHasElement(OmittedAt(in_, p, 0));
  }

  /** Equal requests cover equally many messages, whatever their cursors are. */
  lemma RequestsCount(m: Manifest, a: seq<nat>, b: seq<nat>)
    requires RequestFor(m, a).Ok? && RequestFor(m, a) == RequestFor(m, b)
    ensures |a| == |b|
  {
    assert |RequestFor(m, a).value.sources| == |a| && |RequestFor(m, b).value.sources| == |b|;
  }

  // ----- The bound pass -------------------------------------------------------------------------------------

  /** The second pass: the same messages, bound to the prepared checkpoint. */
  function Bind(in_: Input, ref: Ref, q: Request): Input { in_.(binding := Some(Binding(ref, q))) }

  /** At another cutoff the bound request does not match. */
  lemma OtherRequest(in_: Input, p: Plan, q: Request, k: nat, c: nat)
    requires Assembled(in_) && p == Views(in_.items).(compacting := p.compacting) && k <= |p.turns| && c <= |p.turns| && k != c
    requires RequestFor(in_.manifest, OmittedAt(in_, p, c)) == Ok(q)
    ensures RequestFor(in_.manifest, OmittedAt(in_, p, k)) != Ok(q)
  {
    if k < c { OmissionsGrow(in_, p, k, c); } else { OmissionsGrow(in_, p, c, k); }
    if RequestFor(in_.manifest, OmittedAt(in_, p, k)) == Ok(q) {
      RequestsCount(in_.manifest, OmittedAt(in_, p, k), OmittedAt(in_, p, c));
    }
  }

  lemma BoundSkipsEarlier(env: Env, in_: Input, p: Plan, ref: Ref, q: Request, k: nat, c: nat)
    requires Lawful(env) && Assembled(in_) && p == Views(in_.items).(compacting := p.compacting)
    requires in_.binding.None? && 1 <= k < c <= |p.turns|
    requires RequestFor(in_.manifest, OmittedAt(in_, p, c)) == Ok(q)
    requires Try(env, in_, p, k) == Skip
    ensures Try(env, Bind(in_, ref, q), p, k) == Skip
  {
    if !DropsPinned(p, k) && !SplitsPair(p, k) {
      var candidate := Transform(env, p, Suffix(p, k)).value;
      TransformKeeps(env, p, Suffix(p, k));
      var omitted := OmittedAt(in_, p, k);
      OmissionsGrow(in_, p, 0, k);
      OtherRequest(in_, p, q, k, c);
      if Size(env, candidate) <= in_.budget && Bound(in_.manifest, omitted) {
        RequestSkipsWhenBound(env, in_, p, k, candidate, ref, q, RequestFor(in_.manifest, omitted).value);
      }
    }
  }

  lemma RequestSkipsWhenBound(env: Env, in_: Input, p: Plan, k: nat, candidate: seq<Item>, ref: Ref, q: Request, r: Request)
    requires |p.systems| <= |candidate| && in_.binding.None? && r != q
    requires TryRequest(env, in_, p, k, candidate, r) == Skip
    ensures TryRequest(env, Bind(in_, ref, q), p, k, candidate, r) == Skip
  {
    assert PricedRef(env, Bind(in_, ref, q), r) == PricedRef(env, in_, r);
  }

  /** What the bound pass makes of the requested cutoff: the marker fits, or the cutoff is skipped. */
  lemma BoundTries(env: Env, in_: Input, p: Plan, ref: Ref, q: Request, c: nat)
    requires Lawful(env) && in_.binding.None? && 1 <= c <= |p.turns|
    requires Try(env, in_, p, c).Select? && RequestFor(in_.manifest, OmittedAt(in_, p, c)) == Ok(q) && OmittedAt(in_, p, c) != []
    ensures Transform(env, p, Suffix(p, c)).Some?
    ensures var marked := WithMarker(env, p, Transform(env, p, Suffix(p, c)).value, ref, q, c);
            Try(env, Bind(in_, ref, q), p, c) == if Size(env, marked) <= in_.budget then Select(Some(q), true, marked) else Skip
  {
    var candidate := Transform(env, p, Suffix(p, c)).value;
    TransformKeeps(env, p, Suffix(p, c));
    var bound := Bind(in_, ref, q);
    assert PricedRef(env, bound, q) == Some(Some(ref)) && IsBound(bound, q);
    assert TryCandidate(env, bound, p, c, candidate) == TryRequest(env, bound, p, c, candidate, q);
  }

  /** No later cutoff can be selected: its request is another one. */
  lemma BoundNeverSelectsLater(env: Env, in_: Input, p: Plan, ref: Ref, q: Request, k: nat, c: nat)
    requires Lawful(env) && Assembled(in_) && p == Views(in_.items).(compacting := p.compacting)
    requires in_.binding.None? && 1 <= c < k <= |p.turns|
    requires RequestFor(in_.manifest, OmittedAt(in_, p, c)) == Ok(q)
    ensures !Try(env, Bind(in_, ref, q), p, k).Select?
  {
    var bound := Bind(in_, ref, q);
    if Try(env, bound, p, k).Select? {
      TrySelects(env, bound, p, k);
      OmissionsGrow(in_, p, 0, k);
      OtherRequest(in_, p, q, k, c);
    }
  }

  /** The first pass asks for a checkpoint of the cutoff `c`. */
  ghost predicate Requests(env: Env, in_: Input, p: Plan, q: Request, c: nat) {
    && in_.binding.None? && in_.minimumCutoff <= c <= |p.turns| && Try(env, in_, p, c).Select?
    && (forall k :: in_.minimumCutoff <= k < c ==> Try(env, in_, p, k) == Skip)
    && RequestFor(in_.manifest, OmittedAt(in_, p, c)) == Ok(q) && OmittedAt(in_, p, c) != []
  }

  lemma RequestedCutDrops(env: Env, in_: Input, p: Plan, q: Request, c: nat)
    requires Assembled(in_) && p == Views(in_.items).(compacting := p.compacting) && Requests(env, in_, p, q, c)
    ensures c >= 1
  {
    if c == 0 { NothingOmittedAtZero(in_, p); }
  }

  /** When the marker fits, the second pass stops at the same cutoff with the checkpoint bound. */
  lemma BoundScanFits(env: Env, in_: Input, p: Plan, ref: Ref, q: Request, c: nat)
    requires Lawful(env) && Assembled(in_) && p == Views(in_.items).(compacting := p.compacting) && Requests(env, in_, p, q, c)
    requires Transform(env, p, Suffix(p, c)).Some?
    requires Size(env, WithMarker(env, p, Transform(env, p, Suffix(p, c)).value, ref, q, c)) <= in_.budget
    ensures Scan(env, Bind(in_, ref, q), p, FirstCutoff(Bind(in_, ref, q))) ==
              At(c, Select(Some(q), true, WithMarker(env, p, Transform(env, p, Suffix(p, c)).value, ref, q, c)))
  {
    RequestedCutDrops(env, in_, p, q, c);
    BoundSkipsBefore(env, in_, p, ref, q, c);
    BoundTries(env, in_, p, ref, q, c);
    ScanReaches(env, Bind(in_, ref, q), p, FirstCutoff(Bind(in_, ref, q)), c);
  }

  /** When it does not, the second pass selects nothing. */
  lemma BoundScanFails(env: Env, in_: Input, p: Plan, ref: Ref, q: Request, c: nat)
    requires Lawful(env) && Assembled(in_) && p == Views(in_.items).(compacting := p.compacting) && Requests(env, in_, p, q, c)
    requires Transform(env, p, Suffix(p, c)).Some?
    requires Size(env, WithMarker(env, p, Transform(env, p, Suffix(p, c)).value, ref, q, c)) > in_.budget
    ensures var found := Scan(env, Bind(in_, ref, q), p, FirstCutoff(Bind(in_, ref, q))); found.At? ==> !found.attempt.Select?
  {
    RequestedCutDrops(env, in_, p, q, c);
    BoundSkipsBefore(env, in_, p, ref, q, c);
    BoundTries(env, in_, p, ref, q, c);
    BoundFindsNothing(env, in_, p, ref, q, c);
  }

  lemma BoundSkipsBefore(env: Env, in_: Input, p: Plan, ref: Ref, q: Request, c: nat)
    requires Lawful(env) && Assembled(in_) && p == Views(in_.items).(compacting := p.compacting) && in_.binding.None?
    requires 1 <= c <= |p.turns| && RequestFor(in_.manifest, OmittedAt(in_, p, c)) == Ok(q)
    requires forall k :: in_.minimumCutoff <= k < c ==> Try(env, in_, p, k) == Skip
    ensures forall k :: FirstCutoff(Bind(in_, ref, q)) <= k < c ==> Try(env, Bind(in_, ref, q), p, k) == Skip
  {
    forall k | FirstCutoff(Bind(in_, ref, q)) <= k < c ensures Try(env, Bind(in_, ref, q), p, k) == Skip {
      BoundSkipsEarlier(env, in_, p, ref, q, k, c);
    }
  }

  lemma BoundFindsNothing(env: Env, in_: Input, p: Plan, ref: Ref, q: Request, c: nat)
    requires Lawful(env) && Assembled(in_) && p == Views(in_.items).(compacting := p.compacting) && in_.binding.None?
    requires 1 <= c <= |p.turns| && RequestFor(in_.manifest, OmittedAt(in_, p, c)) == Ok(q)
    requires forall k :: FirstCutoff(Bind(in_, ref, q)) <= k < c ==> Try(env, Bind(in_, ref, q), p, k) == Skip
    requires Try(env, Bind(in_, ref, q), p, c) == Skip
    ensures var found := Scan(env, Bind(in_, ref, q), p, FirstCutoff(Bind(in_, ref, q))); found.At? ==> !found.attempt.Select?
  {
    var (bound, first) := (Bind(in_, ref, q), FirstCutoff(Bind(in_, ref, q)));
    var found := Scan(env, bound, p, first);
    LaterThan(env, bound, p, first, c);
    if found.At? {
      ScanStops(env, bound, p, first);
      BoundNeverSelectsLater(env, in_, p, ref, q, found.cutoff, c);
    }
  }

  /** A scan that skips everything up to `c` stops later. */
  lemma LaterThan(env: Env, in_: Input, p: Plan, first: nat, c: nat)
    requires c <= |p.turns| && (forall k :: first <= k < c ==> Try(env, in_, p, k) == Skip) && Try(env, in_, p, c) == Skip
    ensures Scan(env, in_, p, first).At? ==> Scan(env, in_, p, first).cutoff > c
  {
    ScanStops(env, in_, p, first);
  }

  /** What the first pass's answer says about its scan. */
  lemma FirstPass(env: Env, in_: Input) returns (p: Plan)
    requires Lawful(env) && Reduce(env, in_).CheckpointRequired? && in_.binding.None?
    ensures Prepare(env, Views(in_.items), in_.budget) == Ready(p) && in_.budget > 0
    ensures p == Views(in_.items).(compacting := p.compacting)
    ensures var r := Reduce(env, in_);
            Requests(env, in_, p, r.request, r.dropped) && r.omitted == OmittedAt(in_, p, r.dropped)
            && Transform(env, p, Suffix(p, r.dropped)).Some?
  {
    AnswerComesFromScan(env, in_);
    p := ThePlan(env, in_);
    PlanViews(env, in_);
    ScanFindsFirst(env, in_, p, in_.minimumCutoff);
    TrySelects(env, in_, p, Reduce(env, in_).dropped);
  }

  /** The requested cut with the marker of `ref` in place. */
  ghost function Marked(env: Env, in_: Input, ref: Ref): seq<Item>
    requires Reduce(env, in_).CheckpointRequired? && Prepare(env, Views(in_.items), in_.budget).Ready?
    requires var (p, c) := (ThePlan(env, in_), Reduce(env, in_).dropped); c <= |p.turns| && Transform(env, p, Suffix(p, c)).Some?
  {
    var (p, r) := (ThePlan(env, in_), Reduce(env, in_));
    WithMarker(env, p, Transform(env, p, Suffix(p, r.dropped)).value, ref, r.request, r.dropped)
  }

  /** The first pass's answer is a cut with a plan behind it. */
  ghost predicate Planned(env: Env, in_: Input) {
    && Reduce(env, in_).CheckpointRequired? && Prepare(env, Views(in_.items), in_.budget).Ready?
    && Reduce(env, in_).dropped <= |ThePlan(env, in_).turns|
    && Transform(env, ThePlan(env, in_), Suffix(ThePlan(env, in_), Reduce(env, in_).dropped)).Some?
  }

  /** The two-pass handshake, for any reference the checkpoint may be stored under: bound to the request of the first pass, the
      second pass over the same messages completes exactly when the requested cut with that reference's marker fits and
      orphans no tool pair; then it completes at the same cutoff, omits exactly the requested messages, and answers with
      that cut and its one marker. */
  lemma HandshakeExactly(env: Env, in_: Input, ref: Ref)
    requires Lawful(env) && Assembled(in_) && in_.binding.None? && Reduce(env, in_).CheckpointRequired?
    ensures Planned(env, in_)
    ensures var (p, first) := (ThePlan(env, in_), Reduce(env, in_));
            var second := Reduce(env, Bind(in_, ref, first.request));
            && (second.Complete? <==>
                  Size(env, Marked(env, in_, ref)) <= in_.budget && !HasOrphan(p.closed, Suffix(p, first.dropped)))
            && (second.Complete? ==>
                  && second.dropped == first.dropped && second.omitted == first.omitted && second.items == Marked(env, in_, ref)
                  && RequestFor(in_.manifest, second.omitted) == Ok(first.request)
                  && MarkersIn(second.items) == [Item(Marker(first.request), env.marker(ref, first.request, first.dropped))])
  {
    var p := FirstPass(env, in_);
    var (c, q) := (Reduce(env, in_).dropped, Reduce(env, in_).request);
    if Size(env, Marked(env, in_, ref)) <= in_.budget {
      BoundScanFits(env, in_, p, ref, q, c);
      SecondPass(env, in_, p, ref, q, c);
    } else {
      BoundScanFails(env, in_, p, ref, q, c);
      SecondPassFails(env, in_, p, ref, q);
    }
  }

  lemma SecondPassFails(env: Env, in_: Input, p: Plan, ref: Ref, q: Request)
    requires Prepare(env, Views(in_.items), in_.budget) == Ready(p)
    requires var found := Scan(env, Bind(in_, ref, q), p, FirstCutoff(Bind(in_, ref, q))); found.At? ==> !found.attempt.Select?
    ensures !Reduce(env, Bind(in_, ref, q)).Complete?
  {
    assert !FitsUnchanged(env, Bind(in_, ref, q));
  }

  lemma SecondPass(env: Env, in_: Input, p: Plan, ref: Ref, q: Request, c: nat)
    requires Lawful(env) && Assembled(in_) && in_.budget > 0 && c <= |p.turns|
    requires Prepare(env, Views(in_.items), in_.budget) == Ready(p)
    requires p == Views(in_.items).(compacting := p.compacting)
    requires Transform(env, p, Suffix(p, c)).Some?
    requires Scan(env, Bind(in_, ref, q), p, FirstCutoff(Bind(in_, ref, q))) ==
               At(c, Select(Some(q), true, WithMarker(env, p, Transform(env, p, Suffix(p, c)).value, ref, q, c)))
    ensures var second := Reduce(env, Bind(in_, ref, q));
            && (second.Complete? <==> !HasOrphan(p.closed, Suffix(p, c)))
            && (second.Complete? ==>
                  && second.dropped == c && second.omitted == OmittedAt(in_, p, c)
                  && second.items == WithMarker(env, p, Transform(env, p, Suffix(p, c)).value, ref, q, c)
                  && MarkersIn(second.items) == [Item(Marker(q), env.marker(ref, q, c))])
  {
    var candidate := Transform(env, p, Suffix(p, c)).value;
    var items := WithMarker(env, p, candidate, ref, q, c);
    SecondPassEnds(env, in_, p, ref, q, c, items);
    SecondPassKeeps(env, in_, p, ref, q, c, items);
    SuffixHasNoMarker(env, in_, p, c);
    OneMarker(env, p, candidate, ref, q, c);
    BoundFinish(env, Bind(in_, ref, q), p, c, q, items);
  }

  lemma SecondPassEnds(env: Env, in_: Input, p: Plan, ref: Ref, q: Request, c: nat, items: seq<Item>)
    requires in_.budget > 0 && Prepare(env, Views(in_.items), in_.budget) == Ready(p)
    requires Scan(env, Bind(in_, ref, q), p, FirstCutoff(Bind(in_, ref, q))) == At(c, Select(Some(q), true, items))
    ensures Reduce(env, Bind(in_, ref, q)) == Finish(env, Bind(in_, ref, q), p, c, Some(q), true, items)
  {
    assert !FitsUnchanged(env, Bind(in_, ref, q));
  }

  lemma SecondPassKeeps(env: Env, in_: Input, p: Plan, ref: Ref, q: Request, c: nat, items: seq<Item>)
    requires Lawful(env) && c <= |p.turns|
    requires Scan(env, Bind(in_, ref, q), p, FirstCutoff(Bind(in_, ref, q))) == At(c, Select(Some(q), true, items))
    ensures Size(env, items) <= in_.budget && SourceSet(items) == SourceSet(Suffix(p, c))
    ensures HasOrphan(p.closed, items) <==> HasOrphan(p.closed, Suffix(p, c))
  {
    var bound := Bind(in_, ref, q);
    ScanStops(env, bound, p, FirstCutoff(bound));
    TrySelects(env, bound, p, c);
    SelectedOrphans(env, bound, p, c, Some(q), true, items);
  }

  lemma BoundFinish(env: Env, in_: Input, p: Plan, c: nat, q: Request, items: seq<Item>)
    requires Size(env, items) <= in_.budget
    ensures var r := Finish(env, in_, p, c, Some(q), true, items);
            && (r.Complete? <==> !HasOrphan(p.closed, items))
            && (r.Complete? ==> r.items == items && r.dropped == c && r.omitted == Omitted(|in_.manifest.messages|, SourceSet(items)))
  {}

  /** The handshake converges: with a self-closed tail and a balanced head, and priced with the reference that is bound, the
      second pass always completes. */
  lemma HandshakeConverges(env: Env, in_: Input, ref: Ref)
    requires Lawful(env) && Assembled(in_) && TailClosed(in_.items) && HeadBalanced(in_.items)
    requires in_.binding.None? && Reduce(env, in_).CheckpointRequired?
    requires PricedRef(env, in_, Reduce(env, in_).request) == Some(Some(ref))
    ensures var (first, second) := (Reduce(env, in_), Reduce(env, Bind(in_, ref, Reduce(env, in_).request)));
            && second.Complete? && second.dropped == first.dropped && second.omitted == first.omitted
            && RequestFor(in_.manifest, second.omitted) == Ok(first.request)
            && MarkersIn(second.items) == [Item(Marker(first.request), env.marker(ref, first.request, first.dropped))]
  {
    HandshakeExactly(env, in_, ref);
    var p := FirstPass(env, in_);
    SelectedIsUnsplit(env, in_, p, Reduce(env, in_).dropped);
    SuffixHasNoOrphan(in_.items, p, Reduce(env, in_).dropped);
    PricedMarkerFits(env, in_, p, ref, Reduce(env, in_).request, Reduce(env, in_).dropped);
  }

  /** The first pass has already priced that marker. */
  lemma PricedMarkerFits(env: Env, in_: Input, p: Plan, ref: Ref, q: Request, c: nat)
    requires Lawful(env) && in_.binding.None? && c <= |p.turns| && Try(env, in_, p, c).Select?
    requires RequestFor(in_.manifest, OmittedAt(in_, p, c)) == Ok(q) && OmittedAt(in_, p, c) != []
    requires PricedRef(env, in_, q) == Some(Some(ref))
    ensures Transform(env, p, Suffix(p, c)).Some?
    ensures Size(env, WithMarker(env, p, Transform(env, p, Suffix(p, c)).value, ref, q, c)) <= in_.budget
  {
    var candidate := Transform(env, p, Suffix(p, c)).value;
    TransformKeeps(env, p, Suffix(p, c));
    assert TryCandidate(env, in_, p, c, candidate) == TryRequest(env, in_, p, c, candidate, q);
  }
}
