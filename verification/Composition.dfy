/** Rescaling of measured context tokens onto the billed total (`_scale_categories_to_target`) and the
    reconciliation that uses it. Shares are exact rationals: `tokens * pool / attributed` is kept as a
    quotient and a remainder over the common denominator `attributed`. */
module Composition {
  import opened Wrappers
  import opened Sorting

  datatype Subtype = Subtype(id: nat, tokens: nat, sources: nat)
  datatype Category = Category(id: nat, tokens: nat, sources: nat, subtypes: seq<Subtype>)

  function Sum(s: seq<nat>): nat {
    if s == [] then 0 else Sum(s[..|s| - 1]) + s[|s| - 1]
  }

  function Tokens(subtypes: seq<Subtype>): seq<nat> {
    seq(|subtypes|, i requires 0 <= i < |subtypes| => subtypes[i].tokens)
  }

  /** The measured tokens of all leaves, in taxonomy order. */
  function LeafTokens(categories: seq<Category>): seq<nat> {
    if categories == [] then []
    else LeafTokens(categories[..|categories| - 1]) + Tokens(categories[|categories| - 1].subtypes)
  }

  // ----- Largest-remainder apportionment over leaves --------------------------------------------

  function Floor(m: seq<nat>, pool: nat, total: nat, i: nat): nat
    requires i < |m| && total > 0
  { m[i] * pool / total }

  function Remainder(m: seq<nat>, pool: nat, total: nat, i: nat): nat
    requires i < |m| && total > 0
  { m[i] * pool % total }

  /** The sort key `(-fraction, index)`; fractions share the denominator, so remainders compare them. */
  function Ahead(rems: seq<nat>): (nat, nat) -> bool {
    (i: nat, j: nat) =>
      var (a, b) := (if i < |rems| then rems[i] else 0, if j < |rems| then rems[j] else 0);
      a > b || (a == b && i < j)
  }

  lemma AheadIsStrictTotal(rems: seq<nat>)
    ensures StrictTotal(Ahead(rems))
  {}

  function Indices(n: nat): (r: seq<nat>)
    ensures |r| == n && forall i :: 0 <= i < n ==> r[i] == i
  {
    seq(n, i => i)
  }

  lemma {:induction false} SumConcat(a: seq<nat>, b: seq<nat>)
    ensures Sum(a + b) == Sum(a) + Sum(b)
  {
    if b == [] {
      assert a + b == a;
    } else {
      SumConcat(a, b[..|b| - 1]);
      assert (a + b)[..|a + b| - 1] == a + b[..|b| - 1];
    }
  }

  lemma {:induction false} SumUpdate(s: seq<nat>, i: nat, v: nat)
    requires i < |s|
    ensures Sum(s[i := v]) + s[i] == Sum(s) + v
  {
    var t := s[i := v];
    if i == |s| - 1 {
      assert t[..|s| - 1] == s[..|s| - 1];
    } else {
      SumUpdate(s[..|s| - 1], i, v);
      assert t[..|s| - 1] == s[..|s| - 1][i := v];
    }
  }

  /** Quotients and remainders of `m[i] * pool` by `total` add up to `Sum(m) * pool`. */
  ghost predicate Divided(m: seq<nat>, pool: nat, total: nat, floors: seq<nat>, rems: seq<nat>) {
    total > 0 && |floors| == |rems| == |m| &&
    forall i :: 0 <= i < |m| ==> floors[i] == Floor(m, pool, total, i) && rems[i] == Remainder(m, pool, total, i)
  }

  lemma {:induction false} DivisionConserves(m: seq<nat>, pool: nat, total: nat, floors: seq<nat>, rems: seq<nat>)
    requires Divided(m, pool, total, floors, rems)
    ensures Sum(floors) * total + Sum(rems) == Sum(m) * pool
  {
    if m != [] {
      var k := |m| - 1;
      var (m', f', r') := (m[..k], floors[..k], rems[..k]);
      forall i | 0 <= i < k ensures f'[i] == Floor(m', pool, total, i) && r'[i] == Remainder(m', pool, total, i) {
        assert m'[i] == m[i];
      }
      DivisionConserves(m', pool, total, f', r');
      ConserveStep(Sum(f'), floors[k], Sum(r'), rems[k], Sum(m'), m[k], pool, total);
    }
  }

  lemma ConserveStep(f: nat, q: nat, r: nat, s: nat, m: nat, x: nat, pool: nat, total: nat)
    requires total > 0 && f * total + r == m * pool && q == x * pool / total && s == x * pool % total
    ensures (f + q) * total + (r + s) == (m + x) * pool
  {
    assert x * pool == q * total + s;
    assert (f + q) * total == f * total + q * total;
    assert (m + x) * pool == m * pool + x * pool;
  }

  /** Only `positive` many remainders are non-zero, and each is below the denominator. */
  lemma {:induction false} RemaindersBounded(rems: seq<nat>, total: nat, positive: nat)
    requires total > 0 && forall i :: 0 <= i < |rems| ==> rems[i] < total
    requires positive == Positive(rems)
    ensures Sum(rems) <= positive * (total - 1) && positive <= |rems|
  {
    if rems != [] {
      var s := rems[..|rems| - 1];
      RemaindersBounded(s, total, Positive(s));
      assert Positive(s) * (total - 1) + (total - 1) == (Positive(s) + 1) * (total - 1);
    }
  }

  function Positive(rems: seq<nat>): nat {
    if rems == [] then 0 else Positive(rems[..|rems| - 1]) + (if rems[|rems| - 1] > 0 then 1 else 0)
  }

  function PositiveIndices(rems: seq<nat>): set<nat> {
    set i: nat | i < |rems| && rems[i] > 0
  }

  lemma {:induction false} PositiveCounts(rems: seq<nat>)
    ensures |PositiveIndices(rems)| == Positive(rems)
  {
    if rems != [] {
      var k := |rems| - 1;
      PositiveCounts(rems[..k]);
      assert PositiveIndices(rems) == PositiveIndices(rems[..k]) + (if rems[k] > 0 then {k} else {});
    }
  }

  lemma {:induction false} PrefixSize(order: seq<nat>, k: nat)
    requires k <= |order|
    ensures |Winners(order, k)| <= k
  {
    if k > 0 {
      PrefixSize(order, k - 1);
      assert Winners(order, k) == Winners(order, k - 1) + {order[k - 1]};
    }
  }

  function Winners(order: seq<nat>, k: nat): set<nat>
    requires k <= |order|
  {
    set i | 0 <= i < k :: order[i]
  }

  ghost predicate Ranking(rems: seq<nat>, order: seq<nat>) {
    Increasing(Ahead(rems), order) && forall i: nat :: i in order <==> i < |rems|
  }

  /** Everything with a non-zero remainder ranks before anything without one. */
  lemma ZeroRanksLast(rems: seq<nat>, order: seq<nat>, k: nat)
    requires Ranking(rems, order) && k < |order| && order[k] < |rems| && rems[order[k]] == 0
    ensures Positive(rems) <= k
  {
    forall i | i in PositiveIndices(rems) ensures i in Winners(order, k) {
      assert i in order;
      var p :| 0 <= p < |order| && order[p] == i;
      assert Ahead(rems)(order[k], order[p]) || p <= k;
    }
    SubsetSize(PositiveIndices(rems), Winners(order, k));
    PrefixSize(order, k);
    PositiveCounts(rems);
  }

  /** A leaf that wins an extra token had a non-zero remainder: there are never more extra tokens than
      non-zero remainders, and those rank first. */
  lemma WinnersHaveRemainders(rems: seq<nat>, total: nat, order: seq<nat>, extra: nat, k: nat)
    requires total > 0 && (forall i :: 0 <= i < |rems| ==> rems[i] < total)
    requires Ranking(rems, order) && extra * total == Sum(rems)
    requires k < extra && k < |order|
    ensures order[k] < |rems| && rems[order[k]] > 0
  {
    assert order[k] in order;
    if rems[order[k]] == 0 { ZeroRanksLast(rems, order, k); }
    RemaindersBounded(rems, total, Positive(rems));
    FewerThanBound(extra, Positive(rems), total, Sum(rems));
  }

  lemma FewerThanBound(extra: nat, positive: nat, total: nat, sum: nat)
    requires total > 0 && extra * total == sum && sum <= positive * (total - 1)
    ensures extra <= positive
  {
    assert positive * (total - 1) == positive * total - positive;
    assert (positive + 1) * total == positive * total + total;
    MulLess(extra, positive + 1, total);
  }

  lemma MulLess(a: int, b: int, c: int)
    requires c > 0 && a * c < b * c
    ensures a < b
  {
    assert (b - a) * c > 0;
  }

  lemma MulMonotone(a: nat, b: nat, c: nat)
    requires a <= b
    ensures a * c <= b * c
  {}

  lemma SubsetSize(a: set<nat>, b: set<nat>)
    requires a <= b
    ensures |a| <= |b|
  {
    assert b == a + (b - a);
  }

  /** The extra tokens are fewer than the leaves. */
  lemma ExtraBounded(rems: seq<nat>, total: nat, extra: int)
    requires total > 0 && rems != [] && (forall i :: 0 <= i < |rems| ==> rems[i] < total)
    requires extra * total == Sum(rems)
    ensures 0 <= extra < |rems|
  {
    RemaindersBounded(rems, total, Positive(rems));
    MulMonotone(Positive(rems), |rems|, total - 1);
    MulLess(extra, |rems|, total);
    MulLess(-1, extra, total);
  }

  /** What the apportionment promises about one allocation vector. */
  ghost predicate Apportioned(m: seq<nat>, total: nat, target: nat, allocations: seq<nat>)
    requires total > 0 && |m| <= target
  {
    var pool := target - |m|;
    && |allocations| == |m| && Sum(allocations) == target
    // at least one token, and strictly within one token of the exact share of the pool
    && (forall i :: 0 <= i < |m| ==>
          allocations[i] >= 1 && (allocations[i] - 1) * total < m[i] * pool + total
          && m[i] * pool < (allocations[i] - 1) * total + total)
    // more measured tokens never get fewer, and ties go to the earlier leaf
    && (forall i, j :: 0 <= i < |m| && 0 <= j < |m| && (m[i] > m[j] || (m[i] == m[j] && i < j)) ==>
          allocations[i] >= allocations[j])
  }

  lemma ShareWithinOne(m: nat, pool: nat, total: nat, won: bool)
    requires total > 0 && (won ==> m * pool % total > 0)
    ensures var a := m * pool / total + (if won then 1 else 0);
            a * total < m * pool + total && m * pool < a * total + total
  {
    var (q, r) := (m * pool / total, m * pool % total);
    assert m * pool == q * total + r;
    assert (q + 1) * total == q * total + total;
  }

  lemma MoreMeansMoreShare(x: nat, y: nat, pool: nat, total: nat)
    requires total > 0 && x > y
    ensures x * pool / total >= y * pool / total
    ensures pool > 0 && x * pool / total == y * pool / total ==> x * pool % total > y * pool % total
  {
    MulStrict(x, y, pool);
    DivMonotone(x * pool, y * pool, total);
  }

  lemma MulStrict(x: nat, y: nat, c: nat)
    requires x > y
    ensures x * c >= y * c && (c > 0 ==> x * c > y * c)
  {
    assert x * c == y * c + (x - y) * c;
    assert (x - y) * c >= c by { assert (x - y) * c == c + (x - y - 1) * c; }
  }

  lemma DivMonotone(a: nat, b: nat, total: nat)
    requires total > 0 && a >= b
    ensures a / total >= b / total
    ensures a / total == b / total && a > b ==> a % total > b % total
  {
    var (q, q') := (a / total, b / total);
    assert a == q * total + a % total && b == q' * total + b % total;
    assert (q + 1) * total == q * total + total;
    MulLess(q', q + 1, total);
  }

  lemma EarlierRankWins(rems: seq<nat>, order: seq<nat>, extra: nat, i: nat, j: nat)
    requires Ranking(rems, order) && extra <= |order| && i < |rems| && j < |rems| && Ahead(rems)(i, j)
    requires j in Winners(order, extra)
    ensures i in Winners(order, extra)
  {
    assert i in order;
    var p :| 0 <= p < |order| && order[p] == i;
    var k :| 0 <= k < extra && order[k] == j;
    assert Ahead(rems)(order[k], order[p]) || p <= k;
  }

  lemma MoreNeverLess(m: seq<nat>, pool: nat, total: nat, floors: seq<nat>, rems: seq<nat>, order: seq<nat>, extra: nat, i: nat, j: nat)
    requires Divided(m, pool, total, floors, rems) && Ranking(rems, order) && extra <= |order|
    requires i < |m| && j < |m| && (m[i] > m[j] || (m[i] == m[j] && i < j)) && (pool == 0 ==> extra == 0)
    ensures floors[i] + (if i in Winners(order, extra) then 1 else 0) >= floors[j] + (if j in Winners(order, extra) then 1 else 0)
  {
    if m[i] > m[j] { MoreMeansMoreShare(m[i], m[j], pool, total); }
    if floors[i] == floors[j] && j in Winners(order, extra) {
      EarlierRankWins(rems, order, extra, i, j);
    }
  }

  /** The guaranteed part of every share, plus the baseline token, and what is left of each division. */
  method FloorShares(m: seq<nat>, pool: nat, total: nat) returns (allocations: seq<nat>, fractions: seq<nat>, ghost floors: seq<nat>)
    requires total > 0
    ensures Divided(m, pool, total, floors, fractions)
    ensures |allocations| == |m| && Sum(allocations) == |m| + Sum(floors)
    ensures forall k :: 0 <= k < |m| ==> allocations[k] == 1 + floors[k]
  {
    allocations, fractions, floors := [], [], [];
    for i := 0 to |m|
      invariant |allocations| == |fractions| == |floors| == i
      invariant forall k :: 0 <= k < i ==> allocations[k] == 1 + floors[k]
      invariant forall k :: 0 <= k < i ==> floors[k] == Floor(m, pool, total, k) && fractions[k] == Remainder(m, pool, total, k)
    {
      var share := Floor(m, pool, total, i);
      allocations := allocations + [1 + share];
      fractions := fractions + [Remainder(m, pool, total, i)];
      floors := floors + [share];
    }
    SumShifted(allocations, floors);
  }

  lemma {:induction false} SumShifted(a: seq<nat>, b: seq<nat>)
    requires |a| == |b| && forall k :: 0 <= k < |a| ==> a[k] == 1 + b[k]
    ensures Sum(a) == |a| + Sum(b)
  {
    if a != [] { SumShifted(a[..|a| - 1], b[..|b| - 1]); }
  }

  lemma LeftoverIsRemainders(m: seq<nat>, pool: nat, total: nat, floors: seq<nat>, rems: seq<nat>)
    requires Divided(m, pool, total, floors, rems) && Sum(m) == total && m != []
    ensures 0 <= pool - Sum(floors) < |m| && (pool - Sum(floors)) * total == Sum(rems)
    ensures pool == 0 ==> pool - Sum(floors) == 0
  {
    DivisionConserves(m, pool, total, floors, rems);
    assert (pool - Sum(floors)) * total == pool * total - Sum(floors) * total;
    ExtraBounded(rems, total, pool - Sum(floors));
  }

  method Apportion(m: seq<nat>, total: nat, target: nat) returns (allocations: seq<nat>)
    requires total > 0 && Sum(m) == total && 0 < |m| <= target
    ensures Apportioned(m, total, target, allocations)
  {
    var pool := target - |m|;
    var base, fractions;
    ghost var floors;
    base, fractions, floors := FloorShares(m, pool, total);
    LeftoverIsRemainders(m, pool, total, floors, fractions);
    var remaining := target - Sum(base);
    var order := Rank(fractions);
    allocations := HandOut(base, order, remaining);
    ApportionCorrect(m, pool, total, floors, fractions, order, remaining, allocations);
  }

  function Rank(fractions: seq<nat>): (order: seq<nat>)
    ensures Ranking(fractions, order) && |order| >= |fractions|
    ensures forall i, j :: 0 <= i < j < |order| ==> order[i] != order[j]
  {
    var order := SortUnique(Ahead(fractions), Indices(|fractions|));
    AheadIsStrictTotal(fractions);
    SortUniqueOk(Ahead(fractions), Indices(|fractions|));
    RankingOfIndices(fractions, order);
    RankingLength(fractions, order);
    order
  }

  lemma RankingOfIndices(rems: seq<nat>, order: seq<nat>)
    requires Increasing(Ahead(rems), order) && forall y :: y in order <==> y in Indices(|rems|)
    ensures Ranking(rems, order)
  {
    forall i: nat ensures i in order <==> i < |rems| {
      if i < |rems| { assert Indices(|rems|)[i] == i; }
    }
  }

  lemma RankingLength(rems: seq<nat>, order: seq<nat>)
    requires Ranking(rems, order)
    ensures |order| >= |rems|
  {
    var all := Indices(|rems|);
    forall i | i in Winners(all, |rems|) ensures i in Winners(order, |order|) {
      assert i in order;
    }
    SubsetSize(Winners(all, |rems|), Winners(order, |order|));
    PrefixSize(order, |order|);
    DistinctPrefixSize(all, |rems|);
  }

  lemma {:induction false} DistinctPrefixSize(order: seq<nat>, k: nat)
    requires k <= |order| && forall i, j :: 0 <= i < j < |order| ==> order[i] != order[j]
    ensures |Winners(order, k)| == k
  {
    if k > 0 {
      DistinctPrefixSize(order, k - 1);
      assert Winners(order, k) == Winners(order, k - 1) + {order[k - 1]};
    }
  }

  /** One more token for each of the first `remaining` leaves of the ranking. */
  method HandOut(base: seq<nat>, order: seq<nat>, remaining: nat) returns (allocations: seq<nat>)
    requires remaining <= |order| && (forall x :: x in order ==> x < |base|)
    requires forall i, j :: 0 <= i < j < |order| ==> order[i] != order[j]
    ensures |allocations| == |base| && Sum(allocations) == Sum(base) + remaining
    ensures forall i :: 0 <= i < |base| ==> allocations[i] == base[i] + (if i in Winners(order, remaining) then 1 else 0)
  {
    allocations := base;
    for k := 0 to remaining
      invariant |allocations| == |base| && Sum(allocations) == Sum(base) + k
      invariant forall i :: 0 <= i < |base| ==> allocations[i] == base[i] + (if i in Winners(order, k) then 1 else 0)
    {
      var i := order[k];
      assert i in order;
      SumUpdate(allocations, i, allocations[i] + 1);
      allocations := allocations[i := allocations[i] + 1];
      assert Winners(order, k + 1) == Winners(order, k) + {order[k]};
    }
  }

  lemma ApportionCorrect(m: seq<nat>, pool: nat, total: nat, floors: seq<nat>, rems: seq<nat>, order: seq<nat>, extra: nat, allocations: seq<nat>)
    requires Divided(m, pool, total, floors, rems) && Ranking(rems, order) && extra <= |order|
    requires extra * total == Sum(rems) && |allocations| == |m| && Sum(allocations) == |m| + pool
    requires forall i :: 0 <= i < |m| ==> allocations[i] == 1 + floors[i] + (if i in Winners(order, extra) then 1 else 0)
    requires pool == 0 ==> extra == 0
    ensures Apportioned(m, total, |m| + pool, allocations)
  {
    forall i | 0 <= i < |m|
      ensures allocations[i] >= 1 && (allocations[i] - 1) * total < m[i] * pool + total
              && m[i] * pool < (allocations[i] - 1) * total + total
    {
      var won := i in Winners(order, extra);
      if won {
        var k :| 0 <= k < extra && order[k] == i;
        WinnersHaveRemainders(rems, total, order, extra, k);
      }
      ShareWithinOne(m[i], pool, total, won);
    }
    forall i, j | 0 <= i < |m| && 0 <= j < |m| && (m[i] > m[j] || (m[i] == m[j] && i < j)) ensures allocations[i] >= allocations[j] {
      MoreNeverLess(m, pool, total, floors, rems, order, extra, i, j);
    }
  }

  // ----- The category tree -----------------------------------------------------------------------

  /** Same categories and subtypes in the same order with the same sources; only tokens may differ, and a
      category holds the sum of its subtypes. */
  ghost predicate SameTree(before: seq<Category>, after: seq<Category>) {
    |after| == |before| && forall c :: 0 <= c < |before| ==> SameCategory(before[c], after[c])
  }

  ghost predicate SameCategory(before: Category, after: Category) {
    && after.id == before.id && after.sources == before.sources
    && |after.subtypes| == |before.subtypes|
    && after.tokens == Sum(Tokens(after.subtypes))
    && forall i :: 0 <= i < |before.subtypes| ==>
         after.subtypes[i].id == before.subtypes[i].id && after.subtypes[i].sources == before.subtypes[i].sources
  }

  lemma {:induction false} LeafTokensMonotone(categories: seq<Category>, c: nat)
    requires c <= |categories|
    ensures |LeafTokens(categories[..c])| <= |LeafTokens(categories)|
    decreases |categories|
  {
    if c < |categories| {
      LeafTokensMonotone(categories[..|categories| - 1], c);
      assert categories[..|categories| - 1][..c] == categories[..c];
    } else {
      assert categories[..c] == categories;
    }
  }

  /** One category of the scaled tree: consecutive allocations starting at `cursor`. */
  method ScaleCategory(category: Category, allocations: seq<nat>, cursor: nat) returns (scaled: Category)
    requires cursor + |category.subtypes| <= |allocations|
    ensures SameCategory(category, scaled)
    ensures Tokens(scaled.subtypes) == allocations[cursor..cursor + |category.subtypes|]
  {
    var subtypes: seq<Subtype> := [];
    var tokens := 0;
    for i := 0 to |category.subtypes|
      invariant |subtypes| == i && tokens == Sum(Tokens(subtypes))
      invariant Tokens(subtypes) == allocations[cursor..cursor + i]
      invariant forall k :: 0 <= k < i ==>
        subtypes[k].id == category.subtypes[k].id && subtypes[k].sources == category.subtypes[k].sources
    {
      var subtype := category.subtypes[i];
      var allocation := allocations[cursor + i];
      var extended := subtypes + [Subtype(subtype.id, allocation, subtype.sources)];
      assert Tokens(extended) == Tokens(subtypes) + [allocation];
      assert Tokens(extended)[..i] == Tokens(subtypes);
      tokens := tokens + allocation;
      subtypes := extended;
    }
    scaled := Category(category.id, tokens, category.sources, subtypes);
  }

  lemma LeafTokensNext(categories: seq<Category>, c: nat)
    requires c < |categories|
    ensures LeafTokens(categories[..c + 1]) == LeafTokens(categories[..c]) + Tokens(categories[c].subtypes)
  {
    assert categories[..c + 1][..c] == categories[..c];
  }

  lemma ScaledNext(categories: seq<Category>, c: nat, scaled: seq<Category>, one: Category, allocations: seq<nat>, cursor: nat)
    requires c < |categories| && |scaled| == c && SameTree(categories[..c], scaled) && SameCategory(categories[c], one)
    requires cursor + |one.subtypes| <= |allocations| && LeafTokens(scaled) == allocations[..cursor]
    requires Tokens(one.subtypes) == allocations[cursor..cursor + |one.subtypes|]
    ensures SameTree(categories[..c + 1], scaled + [one])
    ensures LeafTokens(scaled + [one]) == allocations[..cursor + |one.subtypes|]
  {
    assert (scaled + [one])[..c] == scaled;
    forall k | 0 <= k < c + 1 ensures SameCategory(categories[..c + 1][k], (scaled + [one])[k]) {
      assert k < c ==> SameCategory(categories[..c][k], scaled[k]);
    }
  }

  /** Refuses exactly when there are no leaves or fewer tokens than leaves; otherwise the tree keeps its
      shape and its leaves hold an apportionment of the target. */
  method ScaleCategories(categories: seq<Category>, attributed: nat, target: nat) returns (r: Option<seq<Category>>)
    requires attributed == Sum(LeafTokens(categories))
    requires LeafTokens(categories) != [] ==> attributed > 0
    ensures r.None? <==> LeafTokens(categories) == [] || target < |LeafTokens(categories)|
    ensures r.Some? ==>
              SameTree(categories, r.value)
              && Apportioned(LeafTokens(categories), attributed, target, LeafTokens(r.value))
  {
    var leaves := LeafTokens(categories);
    if |leaves| == 0 || target < |leaves| { return None; }
    var allocations := Apportion(leaves, attributed, target);
    var scaled := Distribute(categories, allocations);
    r := Some(scaled);
  }

  /** Walking the tree with a cursor over the allocations. */
  method Distribute(categories: seq<Category>, allocations: seq<nat>) returns (scaled: seq<Category>)
    requires |allocations| == |LeafTokens(categories)|
    ensures SameTree(categories, scaled) && LeafTokens(scaled) == allocations
  {
    scaled := [];
    var cursor := 0;
    for c := 0 to |categories|
      invariant |scaled| == c && cursor == |LeafTokens(categories[..c])| <= |allocations|
      invariant SameTree(categories[..c], scaled)
      invariant LeafTokens(scaled) == allocations[..cursor]
    {
      var category := categories[c];
      LeafTokensMonotone(categories, c + 1);
      LeafTokensNext(categories, c);
      var one := ScaleCategory(category, allocations, cursor);
      ScaledNext(categories, c, scaled, one, allocations, cursor);
      scaled := scaled + [one];
      cursor := cursor + |category.subtypes|;
    }
    assert categories[..|categories|] == categories;
    assert allocations[..cursor] == allocations;
  }

  datatype Quality = Partial | Estimated | Reconciled
  datatype Composition = Composition(quality: Quality, categories: seq<Category>, attributed: nat, residual: Option<nat>)

  /** The reconciliation at the end of `_derive_context_composition_extension`: whenever it claims to be
      reconciled, what is attributed to leaves plus the residual is the billed total. */
  method Reconcile(categories: seq<Category>, attributed: nat, coverageComplete: bool, billed: Option<nat>)
    returns (r: Composition)
    requires attributed == Sum(LeafTokens(categories))
    ensures r.attributed == Sum(LeafTokens(r.categories))
    ensures r.quality == Reconciled <==>
              coverageComplete && billed.Some? &&
              (attributed <= billed.value || 0 < |LeafTokens(categories)| <= billed.value)
    ensures r.quality == Partial <==> !coverageComplete
    ensures r.quality == Reconciled ==> r.residual.Some? && r.attributed + r.residual.value == billed.value
    ensures r.quality != Reconciled ==> r == Composition(r.quality, categories, attributed, None)
    ensures r.categories == categories ||
              (SameTree(categories, r.categories) && billed.Some? && |LeafTokens(categories)| <= billed.value < attributed &&
               Apportioned(LeafTokens(categories), attributed, billed.value, LeafTokens(r.categories)))
  {
    if !coverageComplete {
      r := Composition(Partial, categories, attributed, None);
    } else if billed.None? {
      r := Composition(Estimated, categories, attributed, None);
    } else if attributed <= billed.value {
      r := Composition(Reconciled, categories, attributed, Some(billed.value - attributed));
    } else {
      var scaled := ScaleCategories(categories, attributed, billed.value);
      match scaled
      case None => r := Composition(Estimated, categories, attributed, None);
      case Some(tree) => r := Composition(Reconciled, tree, billed.value, Some(0));
    }
  }
}
