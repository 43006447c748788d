/** Nullable token counters of one provider send (`ProviderCallUsage`): the constructor's cross-field rules
    and the aggregation `sum`. */
module Usage {
  import opened Wrappers

  const MAX_SAFE_INTEGER: nat := 9_007_199_254_740_991

  datatype Count = Unknown | Known(n: nat)

  datatype Source = ProviderObserved | ProviderObservedPartial | LegacyPartial | Unavailable

  datatype Field =
    | Uncached | CacheRead | CacheWrite | CacheWrite5m | CacheWrite1h | InputTotal
    | Visible | Reasoning | OutputTotal | Total

  datatype Usage = Usage(
    uncached: Count, cacheRead: Count, cacheWrite: Count, cacheWrite5m: Count, cacheWrite1h: Count, inputTotal: Count,
    visible: Count, reasoning: Count, outputTotal: Count, total: Count, source: Source)
  {
    function Get(f: Field): Count {
      match f
      case Uncached => uncached
      case CacheRead => cacheRead
      case CacheWrite => cacheWrite
      case CacheWrite5m => cacheWrite5m
      case CacheWrite1h => cacheWrite1h
      case InputTotal => inputTotal
      case Visible => visible
      case Reasoning => reasoning
      case OutputTotal => outputTotal
      case Total => total
    }
  }

  const NOTHING_OBSERVED :=
    Usage(Unknown, Unknown, Unknown, Unknown, Unknown, Unknown, Unknown, Unknown, Unknown, Unknown, Unavailable)

  // ----- The constructor -------------------------------------------------------------------------

  predicate Safe(c: Count) { c.Known? ==> c.n <= MAX_SAFE_INTEGER }

  predicate AllSafe(u: Usage) {
    && Safe(u.uncached) && Safe(u.cacheRead) && Safe(u.cacheWrite) && Safe(u.cacheWrite5m) && Safe(u.cacheWrite1h)
    && Safe(u.inputTotal) && Safe(u.visible) && Safe(u.reasoning) && Safe(u.outputTotal) && Safe(u.total)
  }

  function OrZero(c: Count): nat { if c.Known? then c.n else 0 }

  /** `known parts <= total`, with equality once every part is known. */
  predicate PartsFit(total: Count, known: nat, allKnown: bool) {
    total.Known? ==> known <= total.n && (allKnown ==> known == total.n)
  }

  function FillCacheWrite(u: Usage): Usage {
    if u.cacheWrite5m.Known? && u.cacheWrite1h.Known? && u.cacheWrite.Unknown?
    then u.(cacheWrite := Known(u.cacheWrite5m.n + u.cacheWrite1h.n)) else u
  }

  predicate Consistent(u: Usage) {
    && (u.cacheWrite5m.Known? && u.cacheWrite1h.Known? ==>
          u.cacheWrite == Known(u.cacheWrite5m.n + u.cacheWrite1h.n))
    && PartsFit(u.inputTotal, OrZero(u.uncached) + OrZero(u.cacheRead) + OrZero(u.cacheWrite),
                u.uncached.Known? && u.cacheRead.Known? && u.cacheWrite.Known?)
    && PartsFit(u.outputTotal, OrZero(u.visible) + OrZero(u.reasoning), u.visible.Known? && u.reasoning.Known?)
    && (u.total.Known? && u.inputTotal.Known? && u.outputTotal.Known? ==> u.inputTotal.n + u.outputTotal.n == u.total.n)
  }

  function Construct(u: Usage): Result<Usage> {
    if !AllSafe(u) then Rejected
    else if !Consistent(FillCacheWrite(u)) then Rejected
    else Ok(FillCacheWrite(u))
  }

  /** What every usage a caller can hold satisfies. The limit is not part of it: the constructor fills the cache-write
      total after its limit check. */
  predicate Held(u: Usage) { Consistent(u) && FillCacheWrite(u) == u }

  predicate AllHeld(items: seq<Usage>) { forall i :: 0 <= i < |items| ==> Held(items[i]) }

  /** The two lifetimes are known, their total is not, and it passes the limit. */
  predicate FilledTotalOverflows(u: Usage) {
    u.cacheWrite.Unknown? && u.cacheWrite5m.Known? && u.cacheWrite1h.Known? && u.cacheWrite5m.n + u.cacheWrite1h.n > MAX_SAFE_INTEGER
  }

  /** Construction gives a held usage, and one beyond the limit exactly when the total it filled in is; then the input
      total is unknown, and constructing the result again is refused. */
  lemma ConstructHolds(u: Usage)
    requires Construct(u).Ok?
    ensures Held(Construct(u).value)
    ensures !AllSafe(Construct(u).value) <==> FilledTotalOverflows(u)
    ensures FilledTotalOverflows(u) ==> u.inputTotal.Unknown? && Construct(Construct(u).value).Rejected?
    ensures !FilledTotalOverflows(u) ==> Construct(Construct(u).value) == Construct(u)
  {}

  predicate Fills(n: nat, c: Count) { c.Known? ==> c.n == n }

  /** The unknown ones among the parts can be chosen so that the parts add up to the total. */
  ghost predicate InputAddsUp(u: Usage) {
    exists uncached: nat, read: nat, write: nat ::
      && Fills(uncached, u.uncached) && Fills(read, u.cacheRead) && Fills(write, u.cacheWrite)
      && (u.cacheWrite5m.Known? && u.cacheWrite1h.Known? ==> write == u.cacheWrite5m.n + u.cacheWrite1h.n)
      && Fills(uncached + read + write, u.inputTotal)
  }

  ghost predicate OutputAddsUp(u: Usage) {
    exists visible: nat, reasoning: nat :: Fills(visible, u.visible) && Fills(reasoning, u.reasoning) && Fills(visible + reasoning, u.outputTotal)
  }

  /** The constructor accepts exactly the counters within the limit that some complete counting agrees with, group by group,
      and fills in the cache-write total when only its two lifetimes are known. */
  lemma ConstructAccepts(u: Usage)
    ensures Construct(u).Ok? <==>
              && (forall f :: u.Get(f).Known? ==> u.Get(f).n <= MAX_SAFE_INTEGER)
              && InputAddsUp(u) && OutputAddsUp(u)
              && (u.inputTotal.Known? && u.outputTotal.Known? && u.total.Known? ==> u.inputTotal.n + u.outputTotal.n == u.total.n)
    ensures Construct(u).Ok? ==> forall f :: f != CacheWrite ==> Construct(u).value.Get(f) == u.Get(f)
    ensures Construct(u).Ok? ==> Construct(u).value.source == u.source
    ensures Construct(u).Ok? && u.cacheWrite.Unknown? && u.cacheWrite5m.Known? && u.cacheWrite1h.Known? ==>
              Construct(u).value.cacheWrite == Known(u.cacheWrite5m.n + u.cacheWrite1h.n)
    ensures Construct(u).Ok? && !(u.cacheWrite.Unknown? && u.cacheWrite5m.Known? && u.cacheWrite1h.Known?) ==>
              Construct(u).value.cacheWrite == u.cacheWrite
  {
    LimitIs(u);
    InputIs(u);
    OutputIs(u);
  }

  lemma LimitIs(u: Usage)
    ensures AllSafe(u) <==> forall f :: u.Get(f).Known? ==> u.Get(f).n <= MAX_SAFE_INTEGER
  {
    assert Safe(u.Get(Uncached)) <==> Safe(u.uncached);
    if forall f :: u.Get(f).Known? ==> u.Get(f).n <= MAX_SAFE_INTEGER {
      assert forall f :: Safe(u.Get(f));
      assert Safe(u.Get(Uncached)) && Safe(u.Get(CacheRead)) && Safe(u.Get(CacheWrite)) && Safe(u.Get(CacheWrite5m)) && Safe(u.Get(CacheWrite1h));
      assert Safe(u.Get(InputTotal)) && Safe(u.Get(Visible)) && Safe(u.Get(Reasoning)) && Safe(u.Get(OutputTotal)) && Safe(u.Get(Total));
    }
  }

  lemma InputIs(u: Usage)
    ensures var v := FillCacheWrite(u);
            InputAddsUp(u) <==>
              && (v.cacheWrite5m.Known? && v.cacheWrite1h.Known? ==> v.cacheWrite == Known(v.cacheWrite5m.n + v.cacheWrite1h.n))
              && PartsFit(v.inputTotal, OrZero(v.uncached) + OrZero(v.cacheRead) + OrZero(v.cacheWrite),
                          v.uncached.Known? && v.cacheRead.Known? && v.cacheWrite.Known?)
  {
    var v := FillCacheWrite(u);
    var (a, b, w) := (OrZero(v.uncached), OrZero(v.cacheRead), OrZero(v.cacheWrite));
    if v.inputTotal.Known? && v.inputTotal.n >= a + b + w {
      var rest := v.inputTotal.n - (a + b + w);
      if v.uncached.Unknown? { InputFilled(u, a + rest, b, w); }
      else if v.cacheRead.Unknown? { InputFilled(u, a, b + rest, w); }
      else if v.cacheWrite.Unknown? { InputFilled(u, a, b, w + rest); }
      else { InputFilled(u, a, b, w); }
    } else {
      InputFilled(u, a, b, w);
    }
  }

  lemma InputFilled(u: Usage, uncached: nat, read: nat, write: nat)
    ensures (&& Fills(uncached, u.uncached) && Fills(read, u.cacheRead) && Fills(write, u.cacheWrite)
             && (u.cacheWrite5m.Known? && u.cacheWrite1h.Known? ==> write == u.cacheWrite5m.n + u.cacheWrite1h.n)
             && Fills(uncached + read + write, u.inputTotal)) ==> InputAddsUp(u)
  {}

  lemma OutputIs(u: Usage)
    ensures OutputAddsUp(u) <==> PartsFit(u.outputTotal, OrZero(u.visible) + OrZero(u.reasoning), u.visible.Known? && u.reasoning.Known?)
  {
    var (a, b) := (OrZero(u.visible), OrZero(u.reasoning));
    var rest := if u.outputTotal.Known? then u.outputTotal.n - (a + b) else 0;
    if rest >= 0 {
      if u.visible.Unknown? { assert Fills(a + rest, u.visible) && Fills(b, u.reasoning) && Fills(a + rest + b, u.outputTotal); }
      else if u.reasoning.Unknown? { assert Fills(a, u.visible) && Fills(b + rest, u.reasoning) && Fills(a + (b + rest), u.outputTotal); }
      else { assert Fills(a, u.visible) && Fills(b, u.reasoning); }
    }
  }

  /** Some accepted usage passes the limit: the constructor's own limit does not bind its results. */
  lemma ConstructorExceedsLimit()
    ensures exists u :: Construct(u).Ok? && !AllSafe(Construct(u).value)
  {
    var u := NOTHING_OBSERVED.(cacheWrite5m := Known(MAX_SAFE_INTEGER), cacheWrite1h := Known(1));
    assert Construct(u).Ok? && FilledTotalOverflows(u);
    ConstructHolds(u);
  }

  // ----- Aggregation -----------------------------------------------------------------------------

  predicate SomeUnknown(items: seq<Usage>, f: Field) {
    exists i :: 0 <= i < |items| && items[i].Get(f).Unknown?
  }

  function Added(items: seq<Usage>, f: Field): nat {
    if items == [] then 0 else Added(items[..|items| - 1], f) + OrZero(items[|items| - 1].Get(f))
  }

  function Column(items: seq<Usage>, f: Field): Count {
    if SomeUnknown(items, f) then Unknown else Known(Added(items, f))
  }

  predicate Complete(u: Usage) { forall f :: u.Get(f).Known? }

  predicate Every(items: seq<Usage>, s: Source) { forall i :: 0 <= i < |items| ==> items[i].source == s }
  predicate Any(items: seq<Usage>, s: Source) { exists i :: 0 <= i < |items| && items[i].source == s }

  function Label(items: seq<Usage>, complete: bool): Source {
    if Any(items, LegacyPartial) then LegacyPartial
    else if Any(items, Unavailable) then (if Every(items, Unavailable) then Unavailable else ProviderObservedPartial)
    else if Every(items, ProviderObserved) && complete then ProviderObserved
    else ProviderObservedPartial
  }

  function Raw(items: seq<Usage>): Usage {
    var u := Usage(
      Column(items, Uncached), Column(items, CacheRead), Column(items, CacheWrite), Column(items, CacheWrite5m),
      Column(items, CacheWrite1h), Column(items, InputTotal), Column(items, Visible), Column(items, Reasoning),
      Column(items, OutputTotal), Column(items, Total), Unavailable);
    u.(source := Label(items, Complete(u)))
  }

  /** `ProviderCallUsage.sum`. */
  function SumUsage(items: seq<Usage>): Result<Usage> {
    if items == [] then Ok(NOTHING_OBSERVED) else Construct(Raw(items))
  }

  lemma RawGet(items: seq<Usage>, f: Field)
    ensures Raw(items).Get(f) == Column(items, f)
    ensures Raw(items).source == Label(items, Complete(Raw(items)))
  {
    var u := Usage(
      Column(items, Uncached), Column(items, CacheRead), Column(items, CacheWrite), Column(items, CacheWrite5m),
      Column(items, CacheWrite1h), Column(items, InputTotal), Column(items, Visible), Column(items, Reasoning),
      Column(items, OutputTotal), Column(items, Total), Unavailable);
    var v := Raw(items);
    forall g ensures v.Get(g) == u.Get(g) {}
  }

  lemma SameUsage(u: Usage, v: Usage)
    requires u.source == v.source && forall f :: u.Get(f) == v.Get(f)
    ensures u == v
  {
    assert u.Get(Uncached) == v.Get(Uncached) && u.Get(CacheRead) == v.Get(CacheRead) && u.Get(CacheWrite) == v.Get(CacheWrite);
    assert u.Get(CacheWrite5m) == v.Get(CacheWrite5m) && u.Get(CacheWrite1h) == v.Get(CacheWrite1h);
    assert u.Get(InputTotal) == v.Get(InputTotal) && u.Get(Visible) == v.Get(Visible) && u.Get(Reasoning) == v.Get(Reasoning);
    assert u.Get(OutputTotal) == v.Get(OutputTotal) && u.Get(Total) == v.Get(Total);
  }

  // ----- Closure: a sum of valid usages is valid unless it leaves the safe range -----------------

  /** Weighted comparison of columns: what holds in each row holds of the added columns. */
  lemma {:induction false} RowsAdd(items: seq<Usage>)
    requires AllHeld(items)
    ensures !SomeUnknown(items, CacheWrite5m) && !SomeUnknown(items, CacheWrite1h) ==>
              !SomeUnknown(items, CacheWrite) && Added(items, CacheWrite) == Added(items, CacheWrite5m) + Added(items, CacheWrite1h)
    ensures !SomeUnknown(items, InputTotal) ==>
              Added(items, Uncached) + Added(items, CacheRead) + Added(items, CacheWrite) <= Added(items, InputTotal)
    ensures !SomeUnknown(items, InputTotal) && !SomeUnknown(items, Uncached) && !SomeUnknown(items, CacheRead) && !SomeUnknown(items, CacheWrite) ==>
              Added(items, Uncached) + Added(items, CacheRead) + Added(items, CacheWrite) == Added(items, InputTotal)
    ensures !SomeUnknown(items, OutputTotal) ==>
              Added(items, Visible) + Added(items, Reasoning) <= Added(items, OutputTotal)
    ensures !SomeUnknown(items, OutputTotal) && !SomeUnknown(items, Visible) && !SomeUnknown(items, Reasoning) ==>
              Added(items, Visible) + Added(items, Reasoning) == Added(items, OutputTotal)
    ensures !SomeUnknown(items, Total) && !SomeUnknown(items, InputTotal) && !SomeUnknown(items, OutputTotal) ==>
              Added(items, InputTotal) + Added(items, OutputTotal) == Added(items, Total)
  {
    if items != [] {
      var k := |items| - 1;
      RowsAdd(items[..k]);
      forall f ensures SomeUnknown(items, f) <==> SomeUnknown(items[..k], f) || items[k].Get(f).Unknown? {
        UnknownSplits(items, f);
      }
      assert Held(items[k]);
    }
  }

  lemma UnknownSplits(items: seq<Usage>, f: Field)
    requires items != []
    ensures SomeUnknown(items, f) <==> SomeUnknown(items[..|items| - 1], f) || items[|items| - 1].Get(f).Unknown?
  {
    var k := |items| - 1;
    if SomeUnknown(items[..k], f) {
      var i :| 0 <= i < k && items[..k][i].Get(f).Unknown?;
      assert items[i].Get(f).Unknown?;
    }
    if SomeUnknown(items, f) {
      var i :| 0 <= i < |items| && items[i].Get(f).Unknown?;
      assert i < k ==> items[..k][i].Get(f).Unknown?;
    }
  }

  /** The only way to reject a sum of held usages is the safe-integer limit, and nothing is adjusted. */
  lemma SumIsClosed(items: seq<Usage>)
    requires items != [] && AllHeld(items)
    ensures SumUsage(items) == if AllSafe(Raw(items)) then Ok(Raw(items)) else Rejected
    ensures SumUsage(items).Ok? ==> Held(SumUsage(items).value) && AllSafe(SumUsage(items).value)
  {
    RowsAdd(items);
    assert Consistent(Raw(items)) && FillCacheWrite(Raw(items)) == Raw(items);
  }

  // ----- Composition: sums of sums ---------------------------------------------------------------

  lemma {:induction false} AddedConcat(a: seq<Usage>, b: seq<Usage>, f: Field)
    ensures Added(a + b, f) == Added(a, f) + Added(b, f)
  {
    if b == [] {
      assert a + b == a;
    } else {
      AddedConcat(a, b[..|b| - 1], f);
      assert (a + b)[..|a + b| - 1] == a + b[..|b| - 1];
    }
  }

  lemma UnknownConcat(a: seq<Usage>, b: seq<Usage>, f: Field)
    ensures SomeUnknown(a + b, f) <==> SomeUnknown(a, f) || SomeUnknown(b, f)
  {
    var c := a + b;
    if SomeUnknown(a, f) { var i :| 0 <= i < |a| && a[i].Get(f).Unknown?; assert c[i] == a[i]; }
    if SomeUnknown(b, f) { var i :| 0 <= i < |b| && b[i].Get(f).Unknown?; assert c[|a| + i] == b[i]; }
    if SomeUnknown(c, f) {
      var i :| 0 <= i < |c| && c[i].Get(f).Unknown?;
      assert if i < |a| then a[i].Get(f).Unknown? else b[i - |a|].Get(f).Unknown?;
    }
  }

  lemma AnyConcat(a: seq<Usage>, b: seq<Usage>, s: Source)
    ensures Any(a + b, s) <==> Any(a, s) || Any(b, s)
    ensures Every(a + b, s) <==> Every(a, s) && Every(b, s)
  {
    var c := a + b;
    if Any(a, s) { var i :| 0 <= i < |a| && a[i].source == s; assert c[i] == a[i]; }
    if Any(b, s) { var i :| 0 <= i < |b| && b[i].source == s; assert c[|a| + i] == b[i]; }
    if Every(c, s) {
      forall i | 0 <= i < |a| ensures a[i].source == s { assert c[i] == a[i]; }
      forall i | 0 <= i < |b| ensures b[i].source == s { assert c[|a| + i] == b[i]; }
    }
  }

  lemma ColumnOfOne(u: Usage, f: Field)
    ensures Column([u], f) == u.Get(f)
  {
    var one := [u];
    assert one[0] == u && one[..0] == [];
    assert Added(one, f) == OrZero(u.Get(f));
  }

  lemma ColumnOfTwo(u: Usage, v: Usage, f: Field)
    ensures Column([u, v], f) ==
              if u.Get(f).Unknown? || v.Get(f).Unknown? then Unknown else Known(u.Get(f).n + v.Get(f).n)
  {
    var pair := [u, v];
    assert pair[0] == u && pair[1] == v && pair[..1] == [u];
    ColumnOfOne(u, f);
    assert Added(pair, f) == Added([u], f) + OrZero(v.Get(f));
    assert Added([u], f) == OrZero(u.Get(f)) by { assert [u][..0] == []; }
  }

  lemma ColumnConcat(a: seq<Usage>, b: seq<Usage>, f: Field)
    ensures Column(a + b, f) == Column([Raw(a), Raw(b)], f)
  {
    AddedConcat(a, b, f);
    UnknownConcat(a, b, f);
    RawGet(a, f);
    RawGet(b, f);
    ColumnOfTwo(Raw(a), Raw(b), f);
  }

  lemma CompleteConcat(a: seq<Usage>, b: seq<Usage>)
    ensures Complete(Raw(a + b)) <==> Complete(Raw(a)) && Complete(Raw(b))
    ensures Complete(Raw(a + b)) <==> Complete(Raw([Raw(a), Raw(b)]))
  {
    forall f
      ensures Raw(a + b).Get(f).Known? <==> Raw(a).Get(f).Known? && Raw(b).Get(f).Known?
      ensures Raw(a + b).Get(f) == Raw([Raw(a), Raw(b)]).Get(f)
    {
      RawGet(a + b, f); RawGet(a, f); RawGet(b, f); RawGet([Raw(a), Raw(b)], f);
      ColumnConcat(a, b, f);
      UnknownConcat(a, b, f);
    }
  }

  lemma EveryAny(items: seq<Usage>, s: Source, t: Source)
    requires items != [] && Every(items, s)
    ensures Any(items, t) <==> s == t
  {
    assert items[0].source == s;
  }

  /** The label of a concatenation is the label of the two labels. */
  lemma LabelConcat(a: seq<Usage>, b: seq<Usage>, complete: bool)
    requires a != [] && b != [] && (complete <==> Complete(Raw(a)) && Complete(Raw(b)))
    ensures Label(a + b, complete) == Label([Raw(a), Raw(b)], complete)
  {
    var pair := [Raw(a), Raw(b)];
    RawGet(a, Total);
    RawGet(b, Total);
    AnyConcat(a, b, LegacyPartial);
    AnyConcat(a, b, Unavailable);
    AnyConcat(a, b, ProviderObserved);
    if Every(a, Unavailable) { EveryAny(a, Unavailable, LegacyPartial); EveryAny(a, Unavailable, Unavailable); }
    if Every(b, Unavailable) { EveryAny(b, Unavailable, LegacyPartial); EveryAny(b, Unavailable, Unavailable); }
    if Every(a, ProviderObserved) { EveryAny(a, ProviderObserved, LegacyPartial); EveryAny(a, ProviderObserved, Unavailable); }
    if Every(b, ProviderObserved) { EveryAny(b, ProviderObserved, LegacyPartial); EveryAny(b, ProviderObserved, Unavailable); }
    PairLabels(Raw(a), Raw(b), LegacyPartial);
    PairLabels(Raw(a), Raw(b), Unavailable);
    PairLabels(Raw(a), Raw(b), ProviderObserved);
  }

  lemma PairLabels(u: Usage, v: Usage, s: Source)
    ensures Any([u, v], s) <==> u.source == s || v.source == s
    ensures Every([u, v], s) <==> u.source == s && v.source == s
  {
    var pair := [u, v];
    assert pair[0] == u && pair[1] == v;
  }

  lemma RawConcat(a: seq<Usage>, b: seq<Usage>)
    requires a != [] && b != []
    ensures Raw(a + b) == Raw([Raw(a), Raw(b)])
  {
    forall f ensures Raw(a + b).Get(f) == Raw([Raw(a), Raw(b)]).Get(f) {
      RawGet(a + b, f); RawGet([Raw(a), Raw(b)], f);
      ColumnConcat(a, b, f);
    }
    CompleteConcat(a, b);
    RawGet(a + b, Total); RawGet([Raw(a), Raw(b)], Total);
    LabelConcat(a, b, Complete(Raw(a + b)));
    SameUsage(Raw(a + b), Raw([Raw(a), Raw(b)]));
  }

  /** Summing a sum alone gives it back: a sum labelled as observed is complete. */
  lemma RawOnce(a: seq<Usage>)
    requires a != []
    ensures Raw([Raw(a)]) == Raw(a)
  {
    var one := [Raw(a)];
    assert one[0] == Raw(a);
    forall f ensures Raw(one).Get(f) == Raw(a).Get(f) {
      RawGet(one, f);
      ColumnOfOne(Raw(a), f);
    }
    RawGet(a, Total); RawGet(one, Total);
    assert Complete(Raw(one)) <==> Complete(Raw(a));
    assert Any(one, LegacyPartial) <==> Raw(a).source == LegacyPartial;
    assert Any(one, Unavailable) <==> Raw(a).source == Unavailable;
    SameUsage(Raw(one), Raw(a));
  }

  function Flatten(parts: seq<seq<Usage>>): seq<Usage> {
    if parts == [] then [] else Flatten(parts[..|parts| - 1]) + parts[|parts| - 1]
  }

  function RawEach(parts: seq<seq<Usage>>): seq<Usage> {
    seq(|parts|, i requires 0 <= i < |parts| => Raw(parts[i]))
  }

  lemma {:induction false} RawOfParts(parts: seq<seq<Usage>>)
    requires parts != [] && forall i :: 0 <= i < |parts| ==> parts[i] != []
    ensures Flatten(parts) != [] && Raw(Flatten(parts)) == Raw(RawEach(parts))
  {
    if |parts| == 1 {
      OnePart(parts);
      RawOnce(parts[0]);
    } else {
      var front := parts[..|parts| - 1];
      RawOfParts(front);
      RawEachSplits(parts);
      RawStep(Flatten(front), RawEach(front), parts[|parts| - 1]);
    }
  }

  lemma OnePart(parts: seq<seq<Usage>>)
    requires |parts| == 1
    ensures Flatten(parts) == parts[0] && RawEach(parts) == [Raw(parts[0])]
  {
    assert parts[..0] == [] && [] + parts[0] == parts[0];
  }

  lemma RawEachSplits(parts: seq<seq<Usage>>)
    requires parts != []
    ensures RawEach(parts) == RawEach(parts[..|parts| - 1]) + [Raw(parts[|parts| - 1])]
  {}

  lemma RawStep(all: seq<Usage>, sums: seq<Usage>, last: seq<Usage>)
    requires all != [] && sums != [] && last != [] && Raw(all) == Raw(sums)
    ensures Raw(all + last) == Raw(sums + [Raw(last)])
  {
    RawConcat(all, last);
    RawConcat(sums, [Raw(last)]);
    RawOnce(last);
  }

  lemma {:induction false} FlattenHeld(parts: seq<seq<Usage>>)
    requires forall i :: 0 <= i < |parts| ==> AllHeld(parts[i])
    ensures AllHeld(Flatten(parts))
  {
    if parts != [] {
      FlattenHeld(parts[..|parts| - 1]);
      assert AllHeld(parts[|parts| - 1]);
    }
  }

  /** The parts' own sums. */
  predicate SumsOf(parts: seq<seq<Usage>>, sums: seq<Usage>) {
    |sums| == |parts| && forall i :: 0 <= i < |parts| ==> AllHeld(parts[i]) && SumUsage(parts[i]) == Ok(sums[i])
  }

  predicate AllUnknown(u: Usage) { forall f :: u.Get(f).Unknown? }

  predicate NoneEmpty(parts: seq<seq<Usage>>) { forall i :: 0 <= i < |parts| ==> parts[i] != [] }

  /** Every counter is unknown somewhere. */
  predicate NothingKnowable(items: seq<Usage>) { items == [] || forall f :: SomeUnknown(items, f) }

  lemma NothingKnowableIs(items: seq<Usage>)
    ensures NothingKnowable(items) <==> SumUsage(items).Ok? && AllUnknown(SumUsage(items).value)
  {
    if items != [] {
      forall f ensures Raw(items).Get(f).Unknown? <==> SomeUnknown(items, f) { RawGet(items, f); }
      if NothingKnowable(items) { NothingKnown(Raw(items)); }
      if SumUsage(items).Ok? && AllUnknown(SumUsage(items).value) {
        forall f ensures SomeUnknown(items, f) { UnknownRemains(Raw(items), f); }
      }
    }
  }

  /** Construction makes nothing unknown. */
  lemma UnknownRemains(u: Usage, f: Field)
    requires Construct(u).Ok? && AllUnknown(Construct(u).value)
    ensures u.Get(f).Unknown?
  {
    assert Construct(u).value.Get(f).Unknown?;
  }

  /** For parts whose own sums are accepted, the sum of the sums is the sum of everything, label included, exactly when
      no part is empty or no counter is known throughout the whole. */
  lemma SumOfSums(parts: seq<seq<Usage>>, sums: seq<Usage>)
    requires SumsOf(parts, sums)
    ensures SumUsage(sums) == SumUsage(Flatten(parts)) <==> NoneEmpty(parts) || NothingKnowable(Flatten(parts))
  {
    NothingKnowableIs(Flatten(parts));
    if parts == [] {
    } else if NoneEmpty(parts) {
      SumOfNonEmpty(parts, sums);
    } else {
      SumWithEmpty(parts, sums);
      if SumUsage(Flatten(parts)).Ok? && AllUnknown(SumUsage(Flatten(parts)).value) { UnknownWhole(parts, sums); }
    }
  }

  lemma SumOfNonEmpty(parts: seq<seq<Usage>>, sums: seq<Usage>)
    requires parts != [] && SumsOf(parts, sums) && NoneEmpty(parts)
    ensures SumUsage(sums) == SumUsage(Flatten(parts))
  {
    forall i | 0 <= i < |parts| ensures sums[i] == Raw(parts[i]) && Held(sums[i]) {
      SumIsClosed(parts[i]);
    }
    assert sums == RawEach(parts);
    RawOfParts(parts);
    FlattenHeld(parts);
    SumIsClosed(Flatten(parts));
    SumIsClosed(sums);
  }

  /** An empty part erases every counter of the sum of sums, whatever the other parts observed. */
  lemma EmptyPartErases(sums: seq<Usage>, i: nat)
    requires i < |sums| && Ok(sums[i]) == SumUsage([])
    ensures SumUsage(sums) == Ok(NOTHING_OBSERVED.(source := Label(sums, false)))
  {
    forall f ensures Raw(sums).Get(f).Unknown? {
      assert sums[i].Get(f).Unknown?;
      RawGet(sums, f);
    }
    RawGet(sums, Total);
    assert !Complete(Raw(sums)) by { assert Raw(sums).Get(Total).Unknown?; }
    NothingKnown(Raw(sums));
  }

  lemma NothingKnown(u: Usage)
    requires AllUnknown(u)
    ensures u == NOTHING_OBSERVED.(source := u.source) && Construct(u) == Ok(u)
  {
    var v := NOTHING_OBSERVED.(source := u.source);
    forall f ensures u.Get(f) == v.Get(f) { assert u.Get(f).Unknown?; }
    SameUsage(u, v);
  }

  lemma SumWithEmpty(parts: seq<seq<Usage>>, sums: seq<Usage>)
    requires SumsOf(parts, sums) && !NoneEmpty(parts)
    ensures SumUsage(sums) == Ok(NOTHING_OBSERVED.(source := Label(sums, false)))
    ensures Any(sums, Unavailable) && AllUnknown(SumUsage(sums).value)
  {
    var i :| 0 <= i < |parts| && parts[i] == [];
    EmptyPartErases(sums, i);
    assert sums[i].source == Unavailable;
    ErasedIsUnknown(Label(sums, false));
  }

  lemma ErasedIsUnknown(s: Source)
    ensures AllUnknown(NOTHING_OBSERVED.(source := s))
  {}

  // What labels say about parts.

  lemma {:induction false} LabelsOfFlatten(parts: seq<seq<Usage>>, s: Source)
    ensures Any(Flatten(parts), s) <==> exists i :: 0 <= i < |parts| && Any(parts[i], s)
    ensures Every(Flatten(parts), s) <==> forall i :: 0 <= i < |parts| ==> Every(parts[i], s)
  {
    if parts != [] {
      var k := |parts| - 1;
      var front := parts[..k];
      LabelsOfFlatten(front, s);
      AnyConcat(Flatten(front), parts[k], s);
      if i :| 0 <= i < |front| && Any(front[i], s) { assert Any(parts[i], s); }
      if i :| 0 <= i < |parts| && Any(parts[i], s) { assert i == k || Any(front[i], s); }
      if forall i :: 0 <= i < |parts| ==> Every(parts[i], s) {
        forall i | 0 <= i < |front| ensures Every(front[i], s) { assert Every(parts[i], s); }
        assert Every(parts[k], s);
      }
      if Every(Flatten(parts), s) {
        forall i | 0 <= i < |parts| ensures Every(parts[i], s) { assert i == k || Every(front[i], s); }
      }
    }
  }

  lemma LabelOfPart(part: seq<Usage>, sum: Usage)
    requires AllHeld(part) && SumUsage(part) == Ok(sum)
    ensures sum.source == LegacyPartial <==> Any(part, LegacyPartial)
    ensures sum.source == Unavailable <==> Every(part, Unavailable)
  {
    if part != [] {
      SumIsClosed(part);
      RawGet(part, Total);
      if Every(part, Unavailable) { EveryAny(part, Unavailable, LegacyPartial); EveryAny(part, Unavailable, Unavailable); }
    }
  }

  lemma LabelsOfSums(parts: seq<seq<Usage>>, sums: seq<Usage>)
    requires SumsOf(parts, sums)
    ensures Any(sums, LegacyPartial) <==> Any(Flatten(parts), LegacyPartial)
    ensures Every(sums, Unavailable) <==> Every(Flatten(parts), Unavailable)
  {
    LabelsOfFlatten(parts, LegacyPartial);
    LabelsOfFlatten(parts, Unavailable);
    forall i | 0 <= i < |parts|
      ensures sums[i].source == LegacyPartial <==> Any(parts[i], LegacyPartial)
      ensures sums[i].source == Unavailable <==> Every(parts[i], Unavailable)
    {
      LabelOfPart(parts[i], sums[i]);
    }
  }

  /** When nothing is known about the whole, an empty part changes nothing, not even the label. */
  lemma UnknownWhole(parts: seq<seq<Usage>>, sums: seq<Usage>)
    requires SumsOf(parts, sums) && !NoneEmpty(parts)
    requires SumUsage(Flatten(parts)).Ok? && AllUnknown(SumUsage(Flatten(parts)).value)
    ensures SumUsage(sums) == SumUsage(Flatten(parts))
  {
    var all := Flatten(parts);
    SumWithEmpty(parts, sums);
    LabelsOfSums(parts, sums);
    if all != [] {
      FlattenHeld(parts);
      SumIsClosed(all);
      RawGet(all, Total);
      NothingKnown(Raw(all));
      if Every(all, Unavailable) { EveryAny(all, Unavailable, Unavailable); }
    }
  }

  /** An empty part beside an accepted sum is neutral exactly when that sum knows nothing. */
  lemma EmptyPartNeutral(part: seq<Usage>, sum: Usage)
    requires AllHeld(part) && SumUsage(part) == Ok(sum)
    ensures SumUsage([NOTHING_OBSERVED, sum]) == Ok(sum) <==> AllUnknown(sum)
  {
    var (parts, sums) := ([[], part], [NOTHING_OBSERVED, sum]);
    EmptyFirst(part);
    assert SumsOf(parts, sums) by { assert parts[0] == [] && parts[1] == part; }
    assert !NoneEmpty(parts) by { assert parts[0] == []; }
    SumOfSums(parts, sums);
    NothingKnowableIs(part);
  }

  lemma EmptyFirst(part: seq<Usage>)
    ensures Flatten([[], part]) == part
  {
    var parts: seq<seq<Usage>> := [[], part];
    var front := parts[..1];
    assert front[0] == [] && front[..0] == [] && Flatten(front) == [];
  }

  /** So additivity over an empty part is false: the total of one observed call disappears. */
  lemma EmptyPartIsNotNeutral()
    ensures exists u :: Held(u) && SumUsage([u]).Ok? && SumUsage([NOTHING_OBSERVED, SumUsage([u]).value]) != SumUsage([u])
  {
    var u := NOTHING_OBSERVED.(total := Known(2));
    assert Held(u) && AllSafe(u);
    SumOfOne(u);
    assert SumUsage([u]).value.Get(Total).Known?;
    EmptyPartNeutral([u], SumUsage([u]).value);
  }

  /** One held usage can be summed exactly when it is within the limit. */
  lemma SumOfOne(u: Usage)
    requires Held(u)
    ensures SumUsage([u]).Ok? <==> AllSafe(u)
    ensures SumUsage([u]).Ok? ==> SumUsage([u]).value == u.(source := SumUsage([u]).value.source)
  {
    RawOfOne(u);
    SumIsClosed([u]);
  }

  lemma RawOfOne(u: Usage)
    ensures Raw([u]) == u.(source := Raw([u]).source)
  {
    var v := u.(source := Raw([u]).source);
    forall f ensures Raw([u]).Get(f) == v.Get(f) { ColumnOfOne(u, f); RawGet([u], f); }
    SameUsage(Raw([u]), v);
  }

  /** Nor is the limit itself additive: a part can overflow although the whole, in which that counter is
      unknown, is accepted. */
  lemma PartLimitIsStricter()
    ensures exists u :: Held(u) && SumUsage([u, u]).Rejected? && SumUsage([u, u, NOTHING_OBSERVED]).Ok?
  {
    var u := NOTHING_OBSERVED.(total := Known(MAX_SAFE_INTEGER));
    assert Held(u);
    PairOverflows(u);
    UnknownSumAccepted(u);
  }

  lemma PairOverflows(u: Usage)
    requires Held(u) && u.total == Known(MAX_SAFE_INTEGER)
    ensures SumUsage([u, u]).Rejected?
  {
    ColumnOfTwo(u, u, Total);
    RawGet([u, u], Total);
    SumIsClosed([u, u]);
  }

  lemma UnknownSumAccepted(u: Usage)
    ensures SumUsage([u, u, NOTHING_OBSERVED]).Ok?
  {
    var all := [u, u, NOTHING_OBSERVED];
    EmptyPartErases(all, 2);
  }

  lemma SafeByField(u: Usage)
    ensures AllSafe(u) <==> forall f :: Safe(u.Get(f))
  {
    if forall f :: Safe(u.Get(f)) {
      assert Safe(u.Get(Uncached)) && Safe(u.Get(CacheRead)) && Safe(u.Get(CacheWrite)) && Safe(u.Get(CacheWrite5m));
      assert Safe(u.Get(CacheWrite1h)) && Safe(u.Get(InputTotal)) && Safe(u.Get(Visible)) && Safe(u.Get(Reasoning));
      assert Safe(u.Get(OutputTotal)) && Safe(u.Get(Total));
    }
  }

  lemma {:induction false} PartBelowWhole(parts: seq<seq<Usage>>, i: nat, f: Field)
    requires i < |parts| && Column(Flatten(parts), f).Known?
    ensures Column(parts[i], f).Known? && Column(parts[i], f).n <= Column(Flatten(parts), f).n
  {
    var k := |parts| - 1;
    AddedConcat(Flatten(parts[..k]), parts[k], f);
    UnknownConcat(Flatten(parts[..k]), parts[k], f);
    if i < k { PartBelowWhole(parts[..k], i, f); }
  }

  /** Under an accepted whole, a part is rejected exactly when it passes the limit in some counter, and every such
      counter is one the whole does not know. */
  lemma PartOverflows(parts: seq<seq<Usage>>, i: nat)
    requires i < |parts| && parts[i] != [] && (forall k :: 0 <= k < |parts| ==> AllHeld(parts[k])) && SumUsage(Flatten(parts)).Ok?
    ensures SumUsage(parts[i]).Rejected? <==> exists f :: !Safe(Column(parts[i], f))
    ensures forall f :: !Safe(Column(parts[i], f)) ==> Column(Flatten(parts), f).Unknown?
  {
    SumIsClosed(parts[i]);
    SafeByField(Raw(parts[i]));
    forall f ensures Raw(parts[i]).Get(f) == Column(parts[i], f) { RawGet(parts[i], f); }
    FlattenHeld(parts);
    FlattenNonEmpty(parts, i);
    SumIsClosed(Flatten(parts));
    SafeByField(Raw(Flatten(parts)));
    forall f | !Safe(Column(parts[i], f)) ensures Column(Flatten(parts), f).Unknown? {
      RawGet(Flatten(parts), f);
      assert Safe(Raw(Flatten(parts)).Get(f));
      if Column(Flatten(parts), f).Known? { PartBelowWhole(parts, i, f); }
    }
  }

  lemma {:induction false} FlattenNonEmpty(parts: seq<seq<Usage>>, i: nat)
    requires i < |parts| && parts[i] != []
    ensures Flatten(parts) != []
  {
    if i < |parts| - 1 { FlattenNonEmpty(parts[..|parts| - 1], i); }
  }

  // ----- Permutation invariance ------------------------------------------------------------------

  lemma TakeOut(b: seq<Usage>, i: nat)
    requires i < |b|
    ensures multiset(b[..i] + b[i + 1..]) == multiset(b) - multiset{b[i]}
  {
    assert b == b[..i] + [b[i]] + b[i + 1..];
  }

  lemma AddedTakeOut(b: seq<Usage>, i: nat, f: Field)
    requires i < |b|
    ensures Added(b, f) == Added(b[..i] + b[i + 1..], f) + OrZero(b[i].Get(f))
  {
    var (l, x, r) := (b[..i], [b[i]], b[i + 1..]);
    assert b == l + x + r;
    AddedConcat(l, r, f);
    AddedConcat(l + x, r, f);
    AddedConcat(l, x, f);
    assert x[..0] == [];
  }

  lemma {:induction false} AddedPermutes(a: seq<Usage>, b: seq<Usage>, f: Field)
    requires multiset(a) == multiset(b)
    ensures Added(a, f) == Added(b, f)
  {
    if a == [] {
      assert |b| == |multiset(b)| == 0;
    } else {
      var k := |a| - 1;
      assert a[k] in multiset(b);
      var i :| 0 <= i < |b| && b[i] == a[k];
      assert multiset(a[..k]) == multiset(b[..i] + b[i + 1..]) by {
        TakeOut(a, k);
        TakeOut(b, i);
        assert a[..k] + a[k + 1..] == a[..k];
      }
      AddedTakeOut(b, i, f);
      AddedPermutes(a[..k], b[..i] + b[i + 1..], f);
    }
  }

  lemma SameElements(a: seq<Usage>, b: seq<Usage>)
    requires multiset(a) == multiset(b)
    ensures forall x :: x in a <==> x in b
  {
    forall x ensures x in a <==> x in b {
      assert x in a <==> x in multiset(a);
      assert x in b <==> x in multiset(b);
    }
  }

  /** The order of the summands does not matter. */
  lemma SumPermutes(a: seq<Usage>, b: seq<Usage>)
    requires multiset(a) == multiset(b)
    ensures SumUsage(a) == SumUsage(b)
  {
    SameElements(a, b);
    assert |a| == |multiset(a)| && |b| == |multiset(b)|;
    forall f ensures Column(a, f) == Column(b, f) {
      AddedPermutes(a, b, f);
      UnknownByMembership(a, b, f);
      UnknownByMembership(b, a, f);
    }
    forall s ensures Any(a, s) == Any(b, s) && Every(a, s) == Every(b, s) {
      LabelsByMembership(a, b, s);
      LabelsByMembership(b, a, s);
    }
    forall f ensures Raw(a).Get(f) == Raw(b).Get(f) { RawGet(a, f); RawGet(b, f); }
    RawGet(a, Total); RawGet(b, Total);
    SameUsage(Raw(a), Raw(b));
  }

  lemma UnknownByMembership(a: seq<Usage>, b: seq<Usage>, f: Field)
    requires forall x :: x in a ==> x in b
    ensures SomeUnknown(a, f) ==> SomeUnknown(b, f)
  {
    if SomeUnknown(a, f) {
      var i :| 0 <= i < |a| && a[i].Get(f).Unknown?;
      assert a[i] in b;
      var j :| 0 <= j < |b| && b[j] == a[i];
      assert b[j].Get(f).Unknown?;
    }
  }

  lemma LabelsByMembership(a: seq<Usage>, b: seq<Usage>, s: Source)
    requires forall x :: x in a <==> x in b
    ensures Any(a, s) ==> Any(b, s)
    ensures Every(a, s) ==> Every(b, s)
  {
    if Any(a, s) {
      var i :| 0 <= i < |a| && a[i].source == s;
      assert a[i] in b;
      var j :| 0 <= j < |b| && b[j] == a[i];
      assert b[j].source == s;
    }
    if Every(a, s) {
      forall j | 0 <= j < |b| ensures b[j].source == s { assert b[j] in a; }
    }
  }
}
