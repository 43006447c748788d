/** The compact projection (`run_bundle_v2.py`) of the facts the full reducer works on: it sorts receipts without
    removing repetitions, and totals what it sorted. */
module CompactTotals {
  import opened Wrappers
  import opened Usage
  import opened Sorting
  import opened RunTopology
  import opened RunBundle
  import opened RunReducer

  /** `sorted(receipts, key=provider_call_id)`: stable, and keeping repetitions. */
  function InsertByCall(rs: seq<Receipt>, r: Receipt): seq<Receipt> {
    if rs == [] || rs[|rs| - 1].call <= r.call then rs + [r]
    else InsertByCall(rs[..|rs| - 1], r) + [rs[|rs| - 1]]
  }

  function SortedByCall(rs: seq<Receipt>): seq<Receipt> {
    if rs == [] then [] else InsertByCall(SortedByCall(rs[..|rs| - 1]), rs[|rs| - 1])
  }

  lemma {:induction false} InsertByCallOk(rs: seq<Receipt>, r: Receipt)
    requires Ascending(CallOf, rs) && forall x :: x in rs ==> x.call != r.call
    ensures Ascending(CallOf, InsertByCall(rs, r))
    ensures forall x :: x in InsertByCall(rs, r) <==> x in rs || x == r
  {
    if rs == [] || rs[|rs| - 1].call <= r.call {
      LastIsLargest(rs);
      AppendLarger(rs, r);
    } else {
      var (front, last) := (rs[..|rs| - 1], rs[|rs| - 1]);
      SplitLast(rs);
      LastIsLargest(rs);
      AscendingFront(CallOf, rs);
      InsertByCallOk(front, r);
      AppendLarger(InsertByCall(front, r), last);
    }
  }

  ghost predicate DistinctCalls(rs: seq<Receipt>) {
    forall i, j :: 0 <= i < j < |rs| ==> rs[i].call != rs[j].call
  }

  lemma {:induction false} SortedByCallOk(rs: seq<Receipt>)
    requires DistinctCalls(rs)
    ensures Ascending(CallOf, SortedByCall(rs))
    ensures forall x :: x in SortedByCall(rs) <==> x in rs
  {
    if rs != [] {
      var (front, r) := (rs[..|rs| - 1], rs[|rs| - 1]);
      SortedByCallOk(front);
      SplitLast(rs);
      InsertByCallOk(SortedByCall(front), r);
    }
  }

  lemma {:induction false} SortedByCallSize(rs: seq<Receipt>)
    ensures |SortedByCall(rs)| == |rs|
  {
    if rs != [] {
      SortedByCallSize(rs[..|rs| - 1]);
      InsertByCallSize(SortedByCall(rs[..|rs| - 1]), rs[|rs| - 1]);
    }
  }

  lemma {:induction false} InsertByCallSize(rs: seq<Receipt>, r: Receipt)
    ensures |InsertByCall(rs, r)| == |rs| + 1
  {
    if rs != [] && rs[|rs| - 1].call > r.call { InsertByCallSize(rs[..|rs| - 1], r); }
  }

  /** A sequence of receipts is as long as its arrangement only when no call id repeats. */
  lemma {:induction false} SameLengthIsDistinct(items: seq<Receipt>, arranged: seq<Receipt>)
    requires ArrangedAs(CallOf, items, arranged)
    ensures |items| >= |arranged| && (|items| == |arranged| ==> DistinctCalls(items))
    decreases |arranged|
  {
    if arranged == [] {
      NonEmptyHasElement(items);
    } else {
      var n := |arranged| - 1;
      var (front, last) := (arranged[..n], arranged[n]);
      AscendingFront(CallOf, arranged);
      assert last in arranged;
      var rest := Without(items, last);
      WithoutOk(items, last);
      SameLengthIsDistinct(rest, front);
      if |items| == |arranged| { AddBack(items, rest, last, arranged); }
    }
  }

  /** The items other than `x`. */
  function Without(items: seq<Receipt>, x: Receipt): seq<Receipt> {
    if items == [] then [] else Without(items[..|items| - 1], x) + (if items[|items| - 1] == x then [] else [items[|items| - 1]])
  }

  lemma {:induction false} WithoutOk(items: seq<Receipt>, x: Receipt)
    ensures forall y :: y in Without(items, x) <==> y in items && y != x
    ensures x in items ==> |Without(items, x)| < |items|
    ensures |Without(items, x)| <= |items|
    ensures x !in items ==> Without(items, x) == items
  {
    if items != [] {
      WithoutOk(items[..|items| - 1], x);
      SplitLast(items);
    }
  }

  lemma {:induction false} WithoutSplits(items: seq<Receipt>, x: Receipt)
    requires x in items && |Without(items, x)| == |items| - 1
    ensures exists i :: 0 <= i < |items| && items[i] == x && Without(items, x) == items[..i] + items[i + 1..]
  {
    var n := |items| - 1;
    var front := items[..n];
    WithoutOk(front, x);
    SplitLast(items);
    if items[n] == x {
      assert items[..n] + items[n + 1..] == front;
    } else {
      WithoutSplits(front, x);
      var i :| 0 <= i < |front| && front[i] == x && Without(front, x) == front[..i] + front[i + 1..];
      DropBeforeLast(items, i);
    }
  }

  lemma DropBeforeLast(items: seq<Receipt>, i: nat)
    requires i < |items| - 1
    ensures var (n, front) := (|items| - 1, items[..|items| - 1]);
            items[..i] + items[i + 1..] == front[..i] + front[i + 1..] + [items[n]]
  {
    var (n, front) := (|items| - 1, items[..|items| - 1]);
    assert front[..i] == items[..i] && front[i + 1..] == items[i + 1..n];
    assert items[i + 1..] == items[i + 1..n] + [items[n]];
  }

  lemma AddBack(items: seq<Receipt>, rest: seq<Receipt>, x: Receipt, arranged: seq<Receipt>)
    requires rest == Without(items, x) && |rest| == |items| - 1 && x in items && DistinctCalls(rest)
    requires arranged != [] && arranged[|arranged| - 1] == x && ArrangedAs(CallOf, items, arranged)
    ensures DistinctCalls(items)
  {
    WithoutSplits(items, x);
    WithoutOk(items, x);
    LastIsLargest(arranged);
    AscendingFront(CallOf, arranged);
    assert forall y :: y in rest ==> y.call < x.call;
    var i :| 0 <= i < |items| && items[i] == x && rest == items[..i] + items[i + 1..];
    PutBack(items, rest, i);
  }

  lemma PutBack(items: seq<Receipt>, rest: seq<Receipt>, i: nat)
    requires i < |items| && rest == items[..i] + items[i + 1..] && DistinctCalls(rest)
    requires forall y :: y in rest ==> y.call != items[i].call
    ensures DistinctCalls(items)
  {
    forall a, b | 0 <= a < b < |items| ensures items[a].call != items[b].call {
      var (a', b') := (if a < i then a else a - 1, if b < i then b else b - 1);
      assert a != i ==> rest[a'] == items[a] && rest[a'] in rest;
      assert b != i ==> rest[b'] == items[b] && rest[b'] in rest;
    }
  }

  /** The compact totals are the bundle's. */
  predicate CompactAgrees(facts: Facts, b: Bundle) {
    TotalsOf(SortedByCall(facts.receipts)) == Ok(Totals(b.allUsage, b.coverage, b.cost))
  }

  /** For reducible facts the compact projection totals what the full reducer totals exactly when no call id repeats;
      then the direct and the descendant part agree as well. */
  lemma CompactMatchesReducer(w: Wire, id: Identity, status: nat, facts: Facts)
    requires Reduce(w, id, status, facts).Ok?
    ensures var b := Reduce(w, id, status, facts).value; CompactAgrees(facts, b) <==> DistinctCalls(facts.receipts)
    ensures var b := Reduce(w, id, status, facts).value; var rs := SortedByCall(facts.receipts);
            DistinctCalls(facts.receipts) ==>
              && SumUsage(Usages(Direct(id.run, rs))) == Ok(b.directUsage)
              && SumUsage(Usages(Descendant(id.run, rs))) == Ok(b.descendantUsage)
              && |rs| == |b.receipts|
  {
    var b := Reduce(w, id, status, facts).value;
    ReduceHolds(w, id, status, facts);
    ArrangeOk(CallOf, facts.receipts);
    if DistinctCalls(facts.receipts) {
      SortedByCallOk(facts.receipts);
      AscendingUnique(CallOf, SortedByCall(facts.receipts), Arrange(CallOf, facts.receipts).value);
    }
    if CompactAgrees(facts, b) {
      SortedByCallSize(facts.receipts);
      assert b.coverage.receipts == |b.receipts|;
      SameLengthIsDistinct(facts.receipts, b.receipts);
    }
  }

  /** Repeating a receipt leaves the reduction as it was, and the compact totals no longer agree with it. */
  lemma CompactCountsRepetition(w: Wire, id: Identity, status: nat, facts: Facts, r: Receipt)
    requires Reduce(w, id, status, facts).Ok? && r in facts.receipts
    ensures var again := facts.(receipts := facts.receipts + [r]);
            Reduce(w, id, status, again) == Reduce(w, id, status, facts) && !CompactAgrees(again, Reduce(w, id, status, facts).value)
  {
    var again := facts.(receipts := facts.receipts + [r]);
    ReduceIsSetFunction(w, id, status, again, facts);
    CompactMatchesReducer(w, id, status, again);
    var i :| 0 <= i < |facts.receipts| && facts.receipts[i] == r;
    assert again.receipts[i] == r && again.receipts[|facts.receipts|] == r;
  }

  const LONE_RUN := Identity(0, 0, 0, 0, None, RootRun)
  const LONE_CALL := Receipt(0, 0, 0, 0, None, 0, 0, 0, None, Completed, NOTHING_OBSERVED.(total := Known(2)), Priced(0, 1), None)

  /** Such facts exist: a root run with one priced call is reducible whenever its bundle can be encoded. */
  lemma LoneCallReduces(w: Wire)
    requires w.size(LONE_RUN, 0, [LONE_CALL], [], [AttemptEvent(LONE_CALL)]) <= MAX_CANONICAL_BYTES
    ensures Reduce(w, LONE_RUN, 0, Facts([LONE_CALL], [], [])).Ok?
  {
    var facts := Facts([LONE_CALL], [], []);
    assert UsagesHeld(facts.receipts) by { assert Held(LONE_CALL.usage); }
    LoneReducible(w);
    ReducibleIsAccepted(w, LONE_RUN, 0, facts, [LONE_CALL], [], [AttemptEvent(LONE_CALL)]);
  }

  lemma LoneReducible(w: Wire)
    requires w.size(LONE_RUN, 0, [LONE_CALL], [], [AttemptEvent(LONE_CALL)]) <= MAX_CANONICAL_BYTES
    ensures ReducibleAs(w, LONE_RUN, 0, Facts([LONE_CALL], [], []), [LONE_CALL], [], [AttemptEvent(LONE_CALL)])
  {
    LoneSums(LONE_CALL);
    LoneFits();
    LoneArranged(w);
  }

  lemma LoneArranged(w: Wire)
    ensures ArrangedAs(CallOf, [LONE_CALL], [LONE_CALL]) && ArrangedAs<Child>(RunOf, [], [])
    ensures ArrangedAs(EventId(w.ids), [] + AttemptEvents([LONE_CALL]), [AttemptEvent(LONE_CALL)])
  {
    assert [] + AttemptEvents([LONE_CALL]) == [AttemptEvent(LONE_CALL)];
  }

  lemma LoneFits()
    ensures FactsFit(LONE_RUN, [LONE_CALL], [], [AttemptEvent(LONE_CALL)]) && IsTree(ParentsOf([]), LONE_RUN.run)
  {
    var (rs, es) := ([LONE_CALL], [AttemptEvent(LONE_CALL)]);
    assert Attempts(LONE_RUN, []) == map[0 := (0, None)];
    assert Calls(rs)[0] == 0;
    assert LastAttempt(es, LONE_CALL.call) == Some(es[0]);
  }

  lemma FilterOne(p: Receipt -> bool, r: Receipt)
    ensures Filter(p, [r]) == if p(r) then [r] else []
  {
    var rs := [r];
    assert rs[..0] == [];
  }

  lemma LoneSums(r: Receipt)
    requires AllSafe(r.usage) && Amount(r) <= MAX_SAFE_INTEGER
    ensures SumsSafe(r.owner, [r])
  {
    var rs := [r];
    FilterOne((x: Receipt) => x.owner == r.owner, r);
    FilterOne((x: Receipt) => x.owner != r.owner, r);
    assert rs[..0] == [];
    assert ByKey(KeyOf(r), rs) == rs;
    assert Usages(rs) == [r.usage];
    RawOfOne(r.usage);
    assert SumBy(Amount, rs) == Amount(r);
  }
}
