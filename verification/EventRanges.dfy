/** What a build reports about the journal: `_event_ranges_for_cursors` folds cursors into runs of consecutive
    sequence numbers, and `_build_envelope` splits a complete build into an included and a transformed part. */
module EventRanges {
  import opened Wrappers
  import opened ContextTypes
  import opened Checkpoints
  import opened ContextReduce
  import opened Sorting
  import ReductionTheorems

  // ----- Runs -------------------------------------------------------------------------------------

  ghost predicate InRange(r: Range, n: nat) { r.start.at <= n <= r.end.at }
  ghost predicate Covers(ranges: seq<Range>, n: nat) { exists k :: 0 <= k < |ranges| && InRange(ranges[k], n) }
  ghost predicate Names(cursors: seq<Cursor>, n: nat) { exists k :: 0 <= k < |cursors| && cursors[k].at == n }

  /** One event per sequence number. */
  ghost predicate OnePerNumber(cursors: seq<Cursor>) {
    forall i, j :: 0 <= i < |cursors| && 0 <= j < |cursors| && cursors[i].at == cursors[j].at ==> cursors[i] == cursors[j]
  }

  /** Runs in journal order, none touching the next, so none can be longer. */
  ghost predicate MaximalRuns(ranges: seq<Range>) {
    && (forall k :: 0 <= k < |ranges| ==> ranges[k].start.at <= ranges[k].end.at)
    && (forall k, l :: 0 <= k < l < |ranges| ==> ranges[k].end.at + 1 < ranges[l].start.at)
  }

  ghost predicate Consecutive(group: seq<Cursor>) {
    group != [] && forall k :: 0 <= k < |group| ==> group[k].at == group[0].at + k
  }

  ghost predicate Drawn(groups: seq<seq<Cursor>>, ordered: seq<Cursor>) {
    forall g, k :: 0 <= g < |groups| && 0 <= k < |groups[g]| ==> groups[g][k] in ordered
  }

  ghost predicate Placed(groups: seq<seq<Cursor>>, c: Cursor) {
    exists g :: 0 <= g < |groups| && c in groups[g]
  }

  ghost predicate Gaps(groups: seq<seq<Cursor>>) {
    && (forall g :: 0 <= g < |groups| ==> Consecutive(groups[g]))
    && (forall g, h :: 0 <= g < h < |groups| ==> groups[g][|groups[g]| - 1].at + 1 < groups[h][0].at)
  }

  function RangeOf(group: seq<Cursor>): Range
    requires group != []
  { Range(group[0], group[|group| - 1]) }

  predicate NonEmptyGroups(groups: seq<seq<Cursor>>) { forall g :: 0 <= g < |groups| ==> groups[g] != [] }

  /** The cursor added last. */
  function Latest(groups: seq<seq<Cursor>>): Cursor
    requires groups != [] && NonEmptyGroups(groups)
  { groups[|groups| - 1][|groups[|groups| - 1]| - 1] }

  /** The groups made from the first `i` cursors. */
  ghost predicate Grouped(ordered: seq<Cursor>, i: nat, groups: seq<seq<Cursor>>)
    requires i <= |ordered|
  {
    && NonEmptyGroups(groups) && (i == 0 <==> groups == []) && (i > 0 ==> Latest(groups) == ordered[i - 1])
    && (forall g :: 0 <= g < |groups| ==> Consecutive(groups[g]))
    && Drawn(groups, ordered)
    && (forall k :: 0 <= k < i ==> Placed(groups, ordered[k]))
  }

  /** `_event_ranges_for_cursors`. Endpoints are given cursors and the runs cover exactly their numbers, whatever
      the cursors are; with one event per number they are the maximal runs. */
  method EventRangesForCursors(cursors: seq<Cursor>) returns (ranges: seq<Range>)
    ensures forall n :: Covers(ranges, n) <==> Names(cursors, n)
    ensures forall k :: 0 <= k < |ranges| ==> ranges[k].start in cursors && ranges[k].end in cursors
    ensures OnePerNumber(cursors) ==> MaximalRuns(ranges)
  {
    var ordered := SortUnique(BeforeFn(), cursors);
    OrderedNumbers(cursors);
    var groups := GroupCursors(ordered);
    RunsCover(cursors, ordered, groups);
    ranges := RangesOfGroups(groups);
    if OnePerNumber(cursors) { GapsAreMaximal(groups); }
  }

  ghost predicate Ascending(ordered: seq<Cursor>) { forall i :: 0 < i < |ordered| ==> ordered[i - 1].at < ordered[i].at }

  method GroupCursors(ordered: seq<Cursor>) returns (groups: seq<seq<Cursor>>)
    ensures Grouped(ordered, |ordered|, groups)
    ensures Ascending(ordered) ==> Gaps(groups)
  {
    groups := [];
    for i := 0 to |ordered|
      invariant Grouped(ordered, i, groups)
      invariant Ascending(ordered) ==> Gaps(groups)
    {
      var c := ordered[i];
      if groups == [] || c.at != Latest(groups).at + 1 {
        if Ascending(ordered) { NewGroup(groups, c); }
        OpenGroup(ordered, i, groups);
        groups := groups + [[c]];
      } else {
        GrowLast(groups, c);
        GrowGroup(ordered, i, groups);
        groups := groups[..|groups| - 1] + [groups[|groups| - 1] + [c]];
      }
    }
  }

  lemma GapsAreMaximal(groups: seq<seq<Cursor>>)
    requires NonEmptyGroups(groups) && Gaps(groups)
    ensures MaximalRuns(RangesOfGroups(groups))
  {
    forall k | 0 <= k < |groups| ensures RangeOf(groups[k]).start.at <= RangeOf(groups[k]).end.at { assert Consecutive(groups[k]); }
  }

  function RangesOfGroups(groups: seq<seq<Cursor>>): (ranges: seq<Range>)
    requires NonEmptyGroups(groups)
    ensures |ranges| == |groups| && forall g :: 0 <= g < |groups| ==> ranges[g] == RangeOf(groups[g])
  { seq(|groups|, g requires 0 <= g < |groups| => RangeOf(groups[g])) }

  lemma OpenGroup(ordered: seq<Cursor>, i: nat, groups: seq<seq<Cursor>>)
    requires i < |ordered| && Grouped(ordered, i, groups)
    ensures Grouped(ordered, i + 1, groups + [[ordered[i]]])
  {
    assert Consecutive([ordered[i]]);
    PlacedGrows(groups, groups + [[ordered[i]]], ordered[i]);
  }

  lemma GrowGroup(ordered: seq<Cursor>, i: nat, groups: seq<seq<Cursor>>)
    requires i < |ordered| && Grouped(ordered, i, groups) && groups != [] && ordered[i].at == Latest(groups).at + 1
    ensures Grouped(ordered, i + 1, groups[..|groups| - 1] + [groups[|groups| - 1] + [ordered[i]]])
  {
    GrowLast(groups, ordered[i]);
    PlacedGrows(groups, groups[..|groups| - 1] + [groups[|groups| - 1] + [ordered[i]]], ordered[i]);
  }

  lemma OrderedNumbers(cursors: seq<Cursor>)
    ensures forall c :: c in SortUnique(BeforeFn(), cursors) <==> c in cursors
    ensures OnePerNumber(cursors) ==> Ascending(SortUnique(BeforeFn(), cursors))
  {
    var ordered := SortUnique(BeforeFn(), cursors);
    BeforeIsStrictTotal();
    SortUniqueOk(BeforeFn(), cursors);
    if OnePerNumber(cursors) {
      forall i | 0 < i < |ordered| ensures ordered[i - 1].at < ordered[i].at {
        assert BeforeFn()(ordered[i - 1], ordered[i]);
        assert ordered[i] in cursors && ordered[i - 1] in cursors;
      }
    }
  }

  lemma NewGroup(groups: seq<seq<Cursor>>, c: Cursor)
    requires NonEmptyGroups(groups) && Gaps(groups) && (groups != [] ==> Latest(groups).at + 1 < c.at)
    ensures Gaps(groups + [[c]])
  {
    var m := |groups| - 1;
    var all: seq<seq<Cursor>> := groups + [[c]];
    assert Consecutive([c]);
    forall g, h | 0 <= g < h < |all| ensures all[g][|all[g]| - 1].at + 1 < all[h][0].at {
      if h == m + 1 && g < m { assert groups[g][|groups[g]| - 1].at + 1 < groups[m][0].at; }
    }
  }

  /** Appending the next number to the last run keeps all runs consecutive and apart. */
  lemma GrowLast(groups: seq<seq<Cursor>>, c: Cursor)
    requires groups != [] && NonEmptyGroups(groups) && (forall g :: 0 <= g < |groups| ==> Consecutive(groups[g]))
    requires c.at == Latest(groups).at + 1
    ensures var all := groups[..|groups| - 1] + [groups[|groups| - 1] + [c]];
            && (forall g :: 0 <= g < |all| ==> Consecutive(all[g]))
            && (Gaps(groups) ==> Gaps(all))
  {
    var last := groups[|groups| - 1];
    assert Consecutive(last + [c]);
  }

  lemma PlacedGrows(before: seq<seq<Cursor>>, groups: seq<seq<Cursor>>, c: Cursor)
    requires groups == before + [[c]] || (before != [] && groups == before[..|before| - 1] + [before[|before| - 1] + [c]])
    ensures Placed(groups, c) && forall d :: Placed(before, d) ==> Placed(groups, d)
  {
    var m := |groups| - 1;
    assert c in groups[m];
    forall d | Placed(before, d) ensures Placed(groups, d) {
      var g :| 0 <= g < |before| && d in before[g];
      assert d in groups[g];
    }
  }

  lemma RunsCover(cursors: seq<Cursor>, ordered: seq<Cursor>, groups: seq<seq<Cursor>>)
    requires (forall c :: c in ordered <==> c in cursors) && Grouped(ordered, |ordered|, groups)
    ensures forall n :: Covers(RangesOfGroups(groups), n) <==> Names(cursors, n)
    ensures forall k :: 0 <= k < |groups| ==> RangeOf(groups[k]).start in cursors && RangeOf(groups[k]).end in cursors
  {
    forall n: nat ensures Covers(RangesOfGroups(groups), n) <==> Names(cursors, n) {
      if Covers(RangesOfGroups(groups), n) { CoveredIsNamed(cursors, ordered, groups, n); }
      if Names(cursors, n) { NamedIsCovered(cursors, ordered, groups, n); }
    }
    EndsAreGiven(cursors, ordered, groups);
  }

  lemma EndsAreGiven(cursors: seq<Cursor>, ordered: seq<Cursor>, groups: seq<seq<Cursor>>)
    requires (forall c :: c in ordered <==> c in cursors) && NonEmptyGroups(groups) && Drawn(groups, ordered)
    ensures forall k :: 0 <= k < |groups| ==> RangeOf(groups[k]).start in cursors && RangeOf(groups[k]).end in cursors
  {
    forall k | 0 <= k < |groups| ensures RangeOf(groups[k]).start in cursors && RangeOf(groups[k]).end in cursors {
      assert groups[k][0] in ordered && groups[k][|groups[k]| - 1] in ordered;
    }
  }

  lemma CoveredIsNamed(cursors: seq<Cursor>, ordered: seq<Cursor>, groups: seq<seq<Cursor>>, n: nat)
    requires (forall c :: c in ordered <==> c in cursors) && Drawn(groups, ordered)
    requires NonEmptyGroups(groups) && forall g :: 0 <= g < |groups| ==> Consecutive(groups[g])
    requires Covers(RangesOfGroups(groups), n)
    ensures Names(cursors, n)
  {
    var ranges := RangesOfGroups(groups);
    var g :| 0 <= g < |ranges| && InRange(ranges[g], n);
    var k := HitIn(groups[g], n);
    NumberNamed(cursors, ordered, groups[g][k]);
  }

  lemma HitIn(group: seq<Cursor>, n: nat) returns (k: nat)
    requires Consecutive(group) && group[0].at <= n <= group[|group| - 1].at
    ensures k < |group| && group[k].at == n
  {
    k := n - group[0].at;
  }

  lemma NumberNamed(cursors: seq<Cursor>, ordered: seq<Cursor>, c: Cursor)
    requires (forall d :: d in ordered <==> d in cursors) && c in ordered
    ensures Names(cursors, c.at)
  {
    assert c in cursors;
  }

  lemma NamedIsCovered(cursors: seq<Cursor>, ordered: seq<Cursor>, groups: seq<seq<Cursor>>, n: nat)
    requires (forall c :: c in ordered <==> c in cursors) && Grouped(ordered, |ordered|, groups)
    requires Names(cursors, n)
    ensures Covers(RangesOfGroups(groups), n)
  {
    var i :| 0 <= i < |cursors| && cursors[i].at == n;
    assert cursors[i] in ordered;
    var j :| 0 <= j < |ordered| && ordered[j] == cursors[i];
    assert Placed(groups, ordered[j]);
    var g :| 0 <= g < |groups| && cursors[i] in groups[g];
    assert Consecutive(groups[g]);
    assert InRange(RangesOfGroups(groups)[g], n);
  }

  // ----- Consumed semantic events -------------------------------------------------------------------

  /** The cursor fields of one event: no sequence number, unusable fields, or a cursor. */
  datatype Stamp = Unstamped | Malformed | Stamped(cursor: Cursor)

  ghost predicate Usable(stamps: seq<Stamp>, consumed: set<nat>) {
    && (forall i :: 0 <= i < |stamps| && i in consumed ==> !stamps[i].Malformed?)
    && (forall i, j :: 0 <= i < j < |stamps| && i in consumed && j in consumed && stamps[i].Stamped? && stamps[j].Stamped? ==>
          stamps[i].cursor.id != stamps[j].cursor.id && stamps[i].cursor.at != stamps[j].cursor.at)
  }

  predicate Consumed(stamps: seq<Stamp>, consumed: set<nat>, i: nat) {
    i < |stamps| && i in consumed && stamps[i].Stamped?
  }

  /** `_semantic_event_cursor_map`. */
  method SemanticCursors(stamps: seq<Stamp>, consumed: set<nat>) returns (r: Result<map<nat, Cursor>>)
    ensures r.Ok? <==> Usable(stamps, consumed)
    ensures r.Ok? ==> forall i: nat :: (i in r.value <==> Consumed(stamps, consumed, i)) && (i in r.value ==> r.value[i] == stamps[i].cursor)
  {
    var cursors: map<nat, Cursor> := map[];
    for i := 0 to |stamps|
      invariant forall k :: 0 <= k < i && k in consumed ==> !stamps[k].Malformed?
      invariant forall k: nat :: (k in cursors <==> k < i && Consumed(stamps, consumed, k)) && (k in cursors ==> cursors[k] == stamps[k].cursor)
    {
      if i in consumed {
        if stamps[i].Malformed? { return Rejected; }
        if stamps[i].Stamped? { cursors := cursors[i := stamps[i].cursor]; }
      }
    }
    if exists i, j :: i in cursors && j in cursors && i < j && cursors[i].id == cursors[j].id { return Rejected; }
    if exists i, j :: i in cursors && j in cursors && i < j && cursors[i].at == cursors[j].at { return Rejected; }
    forall i, j | 0 <= i < j < |stamps| && i in consumed && j in consumed && stamps[i].Stamped? && stamps[j].Stamped?
      ensures stamps[i].cursor.id != stamps[j].cursor.id && stamps[i].cursor.at != stamps[j].cursor.at
    {
      assert i in cursors && j in cursors;
    }
    r := Ok(cursors);
  }

  // ----- The envelope -------------------------------------------------------------------------------

  /** Two cursors name the same event, or neither the same id nor the same number. */
  predicate Agree(c: Cursor, d: Cursor) { c == d || (c.id != d.id && c.at != d.at) }

  ghost predicate Consistent(s: set<Cursor>) { forall c, d :: c in s && d in s ==> Agree(c, d) }

  /** The conflict scan over all cursors, with one dictionary per key. */
  method ConflictFree(all: seq<Cursor>) returns (ok: bool)
    ensures ok <==> Consistent(set c | c in all)
  {
    var byId: map<Id, Cursor>, byNumber: map<nat, Cursor> := map[], map[];
    for i := 0 to |all|
      invariant forall k, l :: 0 <= k < i && 0 <= l < i ==> Agree(all[k], all[l])
      invariant forall k :: 0 <= k < i ==> all[k].id in byId && byId[all[k].id] == all[k]
      invariant forall k :: 0 <= k < i ==> all[k].at in byNumber && byNumber[all[k].at] == all[k]
      invariant forall x :: x in byId ==> byId[x] in all && byId[x].id == x
      invariant forall x :: x in byNumber ==> byNumber[x] in all && byNumber[x].at == x
    {
      var c := all[i];
      if c.id in byId && byId[c.id] != c {
        assert !Agree(byId[c.id], c);
        return false;
      }
      if c.at in byNumber && byNumber[c.at] != c {
        assert !Agree(byNumber[c.at], c);
        return false;
      }
      byId, byNumber := byId[c.id := c], byNumber[c.at := c];
    }
    forall c, d | c in all && d in all ensures Agree(c, d) {
      var k, l :| 0 <= k < |all| && 0 <= l < |all| && all[k] == c && all[l] == d;
    }
    ok := true;
  }

  /** What every complete reduction reports: each source message is included or transformed. */
  ghost predicate Accounted(outcome: Outcome, n: nat) {
    outcome.Complete? ==> forall i: nat :: i < n ==> i in outcome.included || i in outcome.transformed
  }

  lemma ReductionAccounts(env: Env, in_: Input)
    ensures Accounted(Reduce(env, in_), |in_.manifest.messages|)
  {
    var n := |in_.manifest.messages|;
    if Reduce(env, in_).Complete? {
      if FitsUnchanged(env, in_) {
        ReductionTheorems.OmittedIs(n, {});
      } else {
        ReductionTheorems.AnswerComesFromScan(env, in_);
        var p := ReductionTheorems.ThePlan(env, in_);
        var found := Scan(env, in_, p, FirstCutoff(in_));
        FinishAccounts(env, in_, p, found.cutoff, found.attempt.request, found.attempt.bound, found.attempt.items);
      }
    }
  }

  lemma FinishAccounts(env: Env, in_: Input, p: Plan, c: nat, request: Option<Request>, bound: bool, items: seq<Item>)
    ensures Accounted(Finish(env, in_, p, c, request, bound, items), |in_.manifest.messages|)
  {
    ReductionTheorems.OmittedIs(|in_.manifest.messages|, SourceSet(items));
  }

  datatype Envelope = Envelope(source: Option<Range>, included: seq<Range>, transformed: seq<Range>)

  function TransformedCursors(cursors: map<nat, Cursor>, semantic: map<nat, Cursor>, transformed: set<nat>): set<Cursor> {
    (set i | i in transformed && i in cursors :: cursors[i]) + semantic.Values
  }

  function IncludedCursors(cursors: map<nat, Cursor>, semantic: map<nat, Cursor>, included: seq<nat>, transformed: set<nat>): set<Cursor> {
    (set i | i in included && i in cursors :: cursors[i]) - TransformedCursors(cursors, semantic, transformed)
  }

  /** A transformed source message, or a consumed event, has sequence number `n`. */
  ghost predicate Moved(cursors: map<nat, Cursor>, semantic: map<nat, Cursor>, transformed: set<nat>, n: nat) {
    (exists i :: i in transformed && i in cursors && cursors[i].at == n) || (exists i :: i in semantic && semantic[i].at == n)
  }

  lemma MovedIs(cursors: map<nat, Cursor>, semantic: map<nat, Cursor>, transformed: set<nat>, n: nat)
    ensures Holds(TransformedCursors(cursors, semantic, transformed), n) <==> Moved(cursors, semantic, transformed, n)
  {
    var s := TransformedCursors(cursors, semantic, transformed);
    if i :| i in transformed && i in cursors && cursors[i].at == n { assert cursors[i] in s; }
    if i :| i in semantic && semantic[i].at == n { assert semantic[i] in s; }
  }

  /** An included message keeps its number unless something transformed has it too. */
  lemma KeptIs(cursors: map<nat, Cursor>, semantic: map<nat, Cursor>, included: seq<nat>, transformed: set<nat>, n: nat)
    requires Consistent(cursors.Values + semantic.Values)
    ensures Holds(IncludedCursors(cursors, semantic, included, transformed), n) <==>
              (exists i :: i in included && i in cursors && cursors[i].at == n) && !Moved(cursors, semantic, transformed, n)
  {
    var (kept, moved) := (IncludedCursors(cursors, semantic, included, transformed), TransformedCursors(cursors, semantic, transformed));
    MovedIs(cursors, semantic, transformed, n);
    if Holds(kept, n) {
      var c :| c in kept && c.at == n;
      assert forall d :: d in moved ==> Agree(c, d);
    }
    if i :| i in included && i in cursors && cursors[i].at == n && !Moved(cursors, semantic, transformed, n) { assert cursors[i] in kept; }
  }

  ghost predicate Journalled(cursors: map<nat, Cursor>, semantic: map<nat, Cursor>, n: nat) {
    exists c :: c in cursors.Values + semantic.Values && c.at == n
  }

  /** The two range lists partition the numbers of the build's cursors. */
  ghost predicate Partitions(e: Envelope, cursors: map<nat, Cursor>, semantic: map<nat, Cursor>) {
    && MaximalRuns(e.included) && MaximalRuns(e.transformed)
    && (forall n :: Covers(e.included, n) || Covers(e.transformed, n) <==> Journalled(cursors, semantic, n))
    && (forall n :: !(Covers(e.included, n) && Covers(e.transformed, n)))
  }

  /** The overall range runs from the first to the last of the build's cursors. */
  ghost predicate Spans(source: Option<Range>, all: set<Cursor>) {
    && (source.None? <==> all == {})
    && (source.Some? ==> source.value.start in all && source.value.end in all)
    && (source.Some? ==> forall c :: c in all ==> source.value.start.at <= c.at <= source.value.end.at)
  }

  ghost predicate Holds(s: set<Cursor>, n: nat) { exists c :: c in s && c.at == n }

  method RangesOf(s: set<Cursor>) returns (ranges: seq<Range>)
    requires Consistent(s)
    ensures MaximalRuns(ranges) && forall n :: Covers(ranges, n) <==> Holds(s, n)
  {
    var l := ListOf(s);
    assert OnePerNumber(l) by {
      forall i, j | 0 <= i < |l| && 0 <= j < |l| && l[i].at == l[j].at ensures l[i] == l[j] {
        assert l[i] in s && l[j] in s && Agree(l[i], l[j]);
      }
    }
    ranges := EventRangesForCursors(l);
    forall n ensures Covers(ranges, n) <==> Holds(s, n) {
      if Names(l, n) { var k :| 0 <= k < |l| && l[k].at == n; assert l[k] in s; }
      if Holds(s, n) { var c :| c in s && c.at == n; assert c in l; }
    }
  }

  /** Included and transformed cursors are disjoint and together are all of the build's cursors. */
  lemma Splits(cursors: map<nat, Cursor>, semantic: map<nat, Cursor>, outcome: Outcome, n: nat)
    requires outcome.Complete? && Accounted(outcome, n) && forall i :: i in cursors ==> i < n
    ensures var (kept, moved) := (IncludedCursors(cursors, semantic, outcome.included, outcome.transformed),
                                  TransformedCursors(cursors, semantic, outcome.transformed));
            kept * moved == {} && kept + moved == cursors.Values + semantic.Values
  {
    var (kept, moved) := (IncludedCursors(cursors, semantic, outcome.included, outcome.transformed),
                          TransformedCursors(cursors, semantic, outcome.transformed));
    forall c | c in cursors.Values ensures c in kept + moved {
      var i :| i in cursors && cursors[i] == c;
      assert i in outcome.included || i in outcome.transformed;
    }
  }

  lemma PartitionsFollows(e: Envelope, cursors: map<nat, Cursor>, semantic: map<nat, Cursor>, kept: set<Cursor>, moved: set<Cursor>)
    requires kept * moved == {} && kept + moved == cursors.Values + semantic.Values && Consistent(kept + moved)
    requires MaximalRuns(e.included) && forall n :: Covers(e.included, n) <==> Holds(kept, n)
    requires MaximalRuns(e.transformed) && forall n :: Covers(e.transformed, n) <==> Holds(moved, n)
    ensures Partitions(e, cursors, semantic)
  {
    forall n ensures Covers(e.included, n) || Covers(e.transformed, n) <==> Journalled(cursors, semantic, n) {
      if Journalled(cursors, semantic, n) {
        var c :| c in cursors.Values + semantic.Values && c.at == n;
        assert c in kept || c in moved;
      }
      if Holds(kept, n) { var c :| c in kept && c.at == n; assert c in cursors.Values + semantic.Values; }
      if Holds(moved, n) { var c :| c in moved && c.at == n; assert c in cursors.Values + semantic.Values; }
    }
    forall n ensures !(Covers(e.included, n) && Covers(e.transformed, n)) {
      if Holds(kept, n) {
        var c :| c in kept && c.at == n;
        assert c !in kept * moved;
        assert forall d :: d in moved ==> Agree(c, d);
      }
    }
  }

  /** The range part of `_build_envelope`, for a request with a build id. */
  method BuildEnvelope(cursors: map<nat, Cursor>, stamps: seq<Stamp>, consumed: set<nat>, outcome: Outcome, n: nat)
    returns (r: Result<Envelope>, semantic: map<nat, Cursor>)
    requires !outcome.Failed? && Accounted(outcome, n) && forall i :: i in cursors ==> i < n
    ensures r.Ok? <==> Usable(stamps, consumed) && Consistent(cursors.Values + semantic.Values)
    ensures Usable(stamps, consumed) ==>
              forall i: nat :: (i in semantic <==> Consumed(stamps, consumed, i)) && (i in semantic ==> semantic[i] == stamps[i].cursor)
    ensures r.Ok? ==> Spans(r.value.source, cursors.Values + semantic.Values)
    ensures r.Ok? && outcome.Complete? ==> Partitions(r.value, cursors, semantic)
    ensures r.Ok? && outcome.Complete? ==> forall k: nat :: Covers(r.value.transformed, k) <==> Moved(cursors, semantic, outcome.transformed, k)
    ensures r.Ok? && outcome.Complete? ==> forall k: nat :: Covers(r.value.included, k) <==>
              (exists i :: i in outcome.included && i in cursors && cursors[i].at == k) && !Moved(cursors, semantic, outcome.transformed, k)
    ensures r.Ok? && !outcome.Complete? ==> r.value.included == [] && r.value.transformed == []
  {
    semantic := map[];
    var stamped := SemanticCursors(stamps, consumed);
    if stamped.Rejected? { return Rejected, map[]; }
    semantic := stamped.value;
    var all := ListOf(cursors.Values + semantic.Values);
    assert (set c | c in all) == cursors.Values + semantic.Values;
    var ok := ConflictFree(all);
    if !ok { return Rejected, semantic; }
    var source := None;
    if all != [] {
      var span := CoverageRange(all, []);
      assert all + Receipts([]) == all;
      source := Some(span);
      assert all[0] in all;
    }
    var included: seq<Range>, transformed: seq<Range> := [], [];
    if outcome.Complete? {
      var (moved, kept) := (TransformedCursors(cursors, semantic, outcome.transformed),
                            IncludedCursors(cursors, semantic, outcome.included, outcome.transformed));
      Splits(cursors, semantic, outcome, n);
      transformed := RangesOf(moved);
      included := RangesOf(kept);
      PartitionsFollows(Envelope(source, included, transformed), cursors, semantic, kept, moved);
      forall k: nat ensures Holds(moved, k) <==> Moved(cursors, semantic, outcome.transformed, k) {
        MovedIs(cursors, semantic, outcome.transformed, k);
      }
      forall k: nat ensures Holds(kept, k) <==>
          (exists i :: i in outcome.included && i in cursors && cursors[i].at == k) && !Moved(cursors, semantic, outcome.transformed, k)
      {
        KeptIs(cursors, semantic, outcome.included, outcome.transformed, k);
      }
    }
    r := Ok(Envelope(source, included, transformed));
  }
}
