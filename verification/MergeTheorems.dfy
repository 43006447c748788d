/** The merged history: nothing is lost or repeated, projecting again changes nothing, and every part of it can be
    checkpointed. */
module MergeTheorems {
  import opened Wrappers
  import opened ContextTypes
  import opened Checkpoints
  import opened Sorting
  import opened Journal
  import opened JournalProjection
  import opened JournalTheorems
  import opened JournalMerge

  // ----- Filters ------------------------------------------------------------------------------------------

  lemma {:induction false} FiltersConcat(a: seq<Source>, b: seq<Source>)
    ensures Systems(a + b) == Systems(a) + Systems(b) && Plain(a + b) == Plain(a) + Plain(b)
  {
    if b == [] {
      assert a + b == a;
    } else {
      var front := b[..|b| - 1];
      FiltersConcat(a, front);
      assert (a + b)[..|a + b| - 1] == a + front && (a + b)[|a + b| - 1] == b[|b| - 1];
    }
  }

  lemma {:induction false} FiltersPure(s: seq<Source>)
    ensures (forall x :: x in s ==> x.message.role == System) ==> Systems(s) == s && Plain(s) == []
    ensures (forall x :: x in s ==> IsPlain(x)) ==> Systems(s) == [] && Plain(s) == s
    ensures (forall x :: x in s ==> x.message.role != System && x.cursor.Some?) ==> Systems(s) == [] && Plain(s) == []
  {
    if s != [] {
      FiltersPure(s[..|s| - 1]);
      SplitLast(s);
      assert s[|s| - 1] in s && forall x :: x in s[..|s| - 1] ==> x in s;
    }
  }

  lemma TranscriptFilters(canon: Canon, cs: seq<Candidate>)
    requires CanonicalCandidates(canon, cs)
    ensures Systems(AsSources(cs)) == [] && Plain(AsSources(cs)) == []
  {
    FiltersPure(AsSources(cs));
  }

  /** Laying out a layout changes nothing. */
  lemma LayoutFixed(canon: Canon, s: seq<Source>, cs: seq<Candidate>)
    requires CanonicalCandidates(canon, cs)
    ensures Layout(Layout(s, cs), cs) == Layout(s, cs)
  {
    assert Systems(Systems(s)) == Systems(s) && Plain(Systems(s)) == [] by { SystemsMembers(s); FiltersPure(Systems(s)); }
    assert Systems(Plain(s)) == [] && Plain(Plain(s)) == Plain(s) by { PlainMembers(s); FiltersPure(Plain(s)); }
    TranscriptFilters(canon, cs);
    FilterParts(Systems(s), AsSources(cs), Plain(s));
  }

  lemma FilterParts(a: seq<Source>, b: seq<Source>, c: seq<Source>)
    requires Systems(a) == a && Plain(a) == [] && Systems(b) == [] && Plain(b) == [] && Systems(c) == [] && Plain(c) == c
    ensures Systems(a + b + c) == a && Plain(a + b + c) == c
  {
    FiltersConcat(a, b);
    FiltersConcat(a + b, c);
  }

  /** Where a bound element of a layout comes from. */
  lemma LayoutBound(s: seq<Source>, cs: seq<Candidate>, i: nat)
    requires forall k :: 0 <= k < |s| && s[k].cursor.Some? ==> s[k].message.role != System
    requires i < |Layout(s, cs)| && Layout(s, cs)[i].cursor.Some?
    ensures |Systems(s)| <= i < |Systems(s)| + |cs| && Layout(s, cs)[i] == AsSource(cs[i - |Systems(s)|])
  {
    SystemsMembers(s);
    PlainMembers(s);
    var x := Layout(s, cs)[i];
    assert x !in Systems(s) && x !in Plain(s);
    Located(Systems(s), AsSources(cs), Plain(s), i);
  }

  lemma Located(a: seq<Source>, b: seq<Source>, c: seq<Source>, i: nat)
    requires i < |a + b + c| && (a + b + c)[i] !in a && (a + b + c)[i] !in c
    ensures |a| <= i < |a| + |b| && (a + b + c)[i] == b[i - |a|]
  {}

  lemma BoundSpeak(canon: Canon, s: seq<Source>, cs: seq<Candidate>)
    requires CanonLaw(canon) && CanonicalCandidates(canon, cs) && Mergeable(canon, s, cs)
    ensures forall k :: 0 <= k < |s| && s[k].cursor.Some? ==> s[k].message.role != System
  {
    forall k | 0 <= k < |s| && s[k].cursor.Some? ensures s[k].message.role != System { RecognisedSpeaks(canon, s[k], cs); }
  }

  /** Merging a merged history again is accepted, whatever the resource limits, and returns it unchanged. */
  lemma MergeIdempotent(canon: Canon, fits: seq<Source> -> bool, s: seq<Source>, legacy: bool, cs: seq<Candidate>)
    requires CanonLaw(canon) && CanonicalCandidates(canon, cs) && Mergeable(canon, s, cs)
    ensures Accepted(canon, fits, Merged(s, cs), legacy && cs == [], true, cs)
    ensures Mergeable(canon, Merged(s, cs), cs) && Merged(Merged(s, cs), cs) == Merged(s, cs)
  {
    if cs != [] { LayoutIdempotent(canon, s, cs); }
  }

  lemma LayoutIdempotent(canon: Canon, s: seq<Source>, cs: seq<Candidate>)
    requires CanonLaw(canon) && CanonicalCandidates(canon, cs) && Mergeable(canon, s, cs)
    ensures Mergeable(canon, Layout(s, cs), cs) && Layout(Layout(s, cs), cs) == Layout(s, cs)
  {
    LayoutFixed(canon, s, cs);
    BoundSpeak(canon, s, cs);
    var all := Layout(s, cs);
    LayoutAscends(s, cs);
    forall i | 0 <= i < |all| ensures Recognised(canon, all[i], cs) {
      if all[i].cursor.Some? {
        LayoutBound(s, cs, i);
        var k := i - |Systems(s)|;
        assert CanonicalMessage(canon, cs[k].message) && Matches(canon, all[i], cs[k]);
      }
    }
  }

  // ----- Nothing lost ---------------------------------------------------------------------------------------

  lemma {:induction false} UnboundKept(s: seq<Source>, x: Source)
    requires x.cursor.None?
    ensures multiset(Systems(s))[x] + multiset(Plain(s))[x] == multiset(s)[x]
  {
    if s != [] {
      UnboundKept(s[..|s| - 1], x);
      SplitLast(s);
      assert multiset(s) == multiset(s[..|s| - 1]) + multiset{s[|s| - 1]};
    }
  }

  lemma {:induction false} OnceEach(s: seq<Source>, x: Source)
    requires forall i, k :: 0 <= i < k < |s| ==> s[i] != s[k]
    ensures multiset(s)[x] == if x in s then 1 else 0
  {
    if s != [] {
      OnceEach(s[..|s| - 1], x);
      SplitLast(s);
      assert multiset(s) == multiset(s[..|s| - 1]) + multiset{s[|s| - 1]};
    }
  }

  lemma LayoutCount(s: seq<Source>, cs: seq<Candidate>, x: Source)
    ensures multiset(Layout(s, cs))[x] == multiset(Systems(s))[x] + multiset(AsSources(cs))[x] + multiset(Plain(s))[x]
  {}

  /** A source as the merged history shows it. */
  function Canonical(canon: Canon, x: Source): Source {
    if x.cursor.Some? && canon(x.message, x.message.role).Some?
    then Source(canon(x.message, x.message.role).value, x.cursor) else x
  }

  /** Every unbound message appears as often as before; every bound message appears once, in canonical form, at its
      cursor; everything else comes from the transcript, which appears whole. */
  lemma MergeLossless(canon: Canon, s: seq<Source>, cs: seq<Candidate>)
    requires CanonLaw(canon) && CanonicalCandidates(canon, cs) && Mergeable(canon, s, cs)
    ensures forall x: Source | x.cursor.None? :: multiset(Merged(s, cs))[x] == multiset(s)[x]
    ensures forall i | 0 <= i < |s| && s[i].cursor.Some? :: multiset(Merged(s, cs))[Canonical(canon, s[i])] == 1
    ensures forall k | 0 <= k < |cs| :: multiset(Merged(s, cs))[AsSource(cs[k])] == 1
    ensures |Merged(s, cs)| == |Systems(s)| + |cs| + |Plain(s)|
  {
    if cs == [] {
      NothingBound(canon, s);
    } else {
      LayoutLossless(canon, s, cs);
    }
  }

  /** Without a transcript no message of an accepted request is bound. */
  lemma NothingBound(canon: Canon, s: seq<Source>)
    requires Mergeable(canon, s, [])
    ensures (forall i :: 0 <= i < |s| ==> s[i].cursor.None?) && |s| == |Systems(s)| + |Plain(s)|
  {
    forall i | 0 <= i < |s| ensures s[i].cursor.None? { assert Recognised(canon, s[i], []); }
    UnboundSplit(s);
  }

  lemma {:induction false} UnboundSplit(s: seq<Source>)
    requires forall i :: 0 <= i < |s| ==> s[i].cursor.None?
    ensures |s| == |Systems(s)| + |Plain(s)|
  {
    if s != [] { UnboundSplit(s[..|s| - 1]); }
  }

  lemma LayoutLossless(canon: Canon, s: seq<Source>, cs: seq<Candidate>)
    requires CanonLaw(canon) && CanonicalCandidates(canon, cs) && Mergeable(canon, s, cs)
    ensures forall x: Source | x.cursor.None? :: multiset(Layout(s, cs))[x] == multiset(s)[x]
    ensures forall i | 0 <= i < |s| && s[i].cursor.Some? :: multiset(Layout(s, cs))[Canonical(canon, s[i])] == 1
    ensures forall k | 0 <= k < |cs| :: multiset(Layout(s, cs))[AsSource(cs[k])] == 1
  {
    var all := Layout(s, cs);
    forall x: Source | x.cursor.None? ensures multiset(all)[x] == multiset(s)[x] { UnboundCount(s, cs, x); }
    forall k | 0 <= k < |cs| ensures multiset(all)[AsSource(cs[k])] == 1 { CandidateOnce(canon, s, cs, k); }
    forall i | 0 <= i < |s| && s[i].cursor.Some? ensures multiset(all)[Canonical(canon, s[i])] == 1 {
      var k := CandidateFor(canon, s[i], cs);
    }
  }

  lemma UnboundCount(s: seq<Source>, cs: seq<Candidate>, x: Source)
    requires x.cursor.None?
    ensures multiset(Layout(s, cs))[x] == multiset(s)[x]
  {
    LayoutCount(s, cs, x);
    UnboundKept(s, x);
    assert x !in AsSources(cs);
  }

  lemma CandidateFor(canon: Canon, x: Source, cs: seq<Candidate>) returns (k: nat)
    requires CanonLaw(canon) && Recognised(canon, x, cs) && x.cursor.Some?
    ensures k < |cs| && Canonical(canon, x) == AsSource(cs[k])
  {
    k :| 0 <= k < |cs| && Matches(canon, x, cs[k]);
  }

  lemma CandidateOnce(canon: Canon, s: seq<Source>, cs: seq<Candidate>, k: nat)
    requires CanonLaw(canon) && CanonicalCandidates(canon, cs) && Mergeable(canon, s, cs) && k < |cs|
    ensures multiset(Layout(s, cs))[AsSource(cs[k])] == 1
  {
    var x := AsSource(cs[k]);
    BoundSpeak(canon, s, cs);
    SystemsMembers(s);
    PlainMembers(s);
    LayoutCount(s, cs, x);
    assert x !in Systems(s) && x !in Plain(s);
    assert AsSources(cs)[k] == x;
    OnceEach(AsSources(cs), x);
  }

  // ----- Projecting again -----------------------------------------------------------------------------------

  function BoundCursors(s: seq<Source>): set<Cursor> { set x | x in s && x.cursor.Some? :: x.cursor.value }

  /** The merged history is bound to exactly the transcript. */
  lemma LayoutBinds(s: seq<Source>, p: Projection, c: Cursor)
    requires forall k :: 0 <= k < |s| && s[k].cursor.Some? ==> s[k].message.role != System
    ensures c in BoundCursors(Layout(s, p.candidates)) <==> Mentions(p, c)
  {
    var all := Layout(s, p.candidates);
    if c in BoundCursors(all) {
      var x :| x in all && x.cursor == Some(c);
      var i :| 0 <= i < |all| && all[i] == x;
      LayoutBound(s, p.candidates, i);
    }
    if Mentions(p, c) {
      var k :| 0 <= k < |p.candidates| && p.candidates[k].cursor == c;
      assert all[|Systems(s)| + k] == AsSource(p.candidates[k]);
    }
  }

  /** Binding the whole transcript changes no event's class: an unbound handoff record stays unbound. */
  lemma SameTape(j: Journal, p: Projection, bound: set<Cursor>)
    requires Unique(j.entries) && Acceptable(TapeOf(j)) && IsProjection(TapeOf(j), p)
    requires (forall c :: c in bound <==> Mentions(p, c)) && (forall c :: c in j.bound ==> Mentions(p, c))
    ensures TapeOf(j.(bound := bound)) == TapeOf(j)
  {
    ShownAreSelected(j, p);
    forall i: nat | i < |j.entries| ensures Classify(j.(bound := bound), j.entries[i]) == Classify(j, j.entries[i]) {
      SameClass(j, p, bound, i);
    }
  }

  lemma SameClass(j: Journal, p: Projection, bound: set<Cursor>, i: nat)
    requires i < |j.entries| && ShownAre(j, p)
    requires (forall c :: c in bound <==> Mentions(p, c)) && (forall c :: c in j.bound ==> Mentions(p, c))
    ensures Classify(j.(bound := bound), j.entries[i]) == Classify(j, j.entries[i])
  {
    var x := j.entries[i];
    if Classify(j, x).Ignored? && x.event.kind.UserMessage? {
      assert TapeOf(j)[i].what.Ignored?;
      assert !Selected(TapeOf(j), i) && !Shown(j, p, i);
    }
  }

  /** The journal as the merged request sees it. */
  function Rebound(j: Journal, s: seq<Source>, p: Projection): Journal {
    j.(bound := BoundCursors(Merged(s, p.candidates)))
  }

  /** Projecting a projected request: the journal is accepted again and yields the same transcript, and merging it changes
      nothing. */
  lemma ProjectionIdempotent(j: Journal, fits: seq<Source> -> bool, s: seq<Source>, legacy: bool, p: Projection, q: Projection)
    requires Unique(j.entries) && j.bound == BoundCursors(s) && Acceptable(TapeOf(j)) && IsProjection(TapeOf(j), p)
    requires CanonLaw(j.canon) && CanonicalCandidates(j.canon, p.candidates) && Mergeable(j.canon, s, p.candidates)
    requires IsProjection(TapeOf(Rebound(j, s, p)), q)
    ensures Acceptable(TapeOf(Rebound(j, s, p))) && q == p
    ensures Accepted(j.canon, fits, Merged(s, p.candidates), legacy && p.candidates == [], true, q.candidates)
    ensures Merged(Merged(s, p.candidates), q.candidates) == Merged(s, p.candidates)
  {
    ReboundTape(j, s, p);
    ProjectionUnique(TapeOf(j), p, q);
    MergeIdempotent(j.canon, fits, s, legacy, p.candidates);
  }

  lemma ReboundTape(j: Journal, s: seq<Source>, p: Projection)
    requires Unique(j.entries) && j.bound == BoundCursors(s) && Acceptable(TapeOf(j)) && IsProjection(TapeOf(j), p)
    requires CanonLaw(j.canon) && CanonicalCandidates(j.canon, p.candidates) && Mergeable(j.canon, s, p.candidates)
    ensures TapeOf(Rebound(j, s, p)) == TapeOf(j)
  {
    if p.candidates != [] {
      BoundSpeak(j.canon, s, p.candidates);
      forall c ensures c in BoundCursors(Layout(s, p.candidates)) <==> Mentions(p, c) { LayoutBinds(s, p, c); }
      forall c | c in j.bound ensures Mentions(p, c) { BoundIsMentioned(j.canon, s, p, c); }
      SameTape(j, p, BoundCursors(Layout(s, p.candidates)));
    }
  }

  lemma BoundIsMentioned(canon: Canon, s: seq<Source>, p: Projection, c: Cursor)
    requires Mergeable(canon, s, p.candidates) && c in BoundCursors(s)
    ensures Mentions(p, c)
  {
    var x :| x in s && x.cursor == Some(c);
    var i :| 0 <= i < |s| && s[i] == x;
    assert Recognised(canon, s[i], p.candidates);
  }

  // ----- Checkpointing the merged history ---------------------------------------------------------------------

  /** The identifiers of the journal pass the identifier check. */
  ghost predicate IdsOk(idOk: Id -> bool, j: Journal) {
    forall i :: 0 <= i < |j.entries| ==>
      var e := j.entries[i].event; (e.attempt.Some? ==> idOk(e.attempt.value)) && (e.node.Value? ==> idOk(e.node.value))
  }

  /** A receipt is a journal event of its own: not in the transcript, and later than what it commits. */
  lemma ReceiptApart(j: Journal, p: Projection, d: Dependency, c: Cursor)
    requires Unique(j.entries) && IsProjection(TapeOf(j), p) && d in p.dependencies && Mentions(p, c)
    ensures Distinct(d.receipt, c)
  {
    TapeFacts(j);
    var k :| 0 <= k < |p.candidates| && p.candidates[k].cursor == c;
    BackedNotListed(TapeOf(j), p.dependencies, d, p.candidates, k);
  }

  lemma BackedNotListed(tape: Tape, ds: seq<Dependency>, d: Dependency, candidates: seq<Candidate>, k: nat)
    requires NumbersApart(tape) && HasDependencies(tape, ds) && d in ds && HasCandidates(tape, candidates) && k < |candidates|
    ensures Distinct(d.receipt, candidates[k].cursor)
  {
    var i, t := BackOf(tape, ds, d);
    var m := EntryOf(tape, candidates, k);
    MessageIsNoReceipt(tape, m, t);
  }

  lemma MessageIsNoReceipt(tape: Tape, m: nat, t: nat)
    requires NumbersApart(tape) && HasMessage(tape, m) && Closes(tape, t)
    ensures Distinct(tape[t].entry.cursor, tape[m].entry.cursor)
  {
    assert m != t;
  }

  /** Two receipts belong to different attempts. */
  lemma ReceiptsApart(j: Journal, p: Projection, k: nat, l: nat)
    requires Unique(j.entries) && IsProjection(TapeOf(j), p) && k < l < |p.dependencies|
    ensures Apart(p.dependencies[k], p.dependencies[l])
  {
    TapeFacts(j);
    BackedApart(TapeOf(j), p.dependencies, k, l);
  }

  lemma BackedApart(tape: Tape, ds: seq<Dependency>, k: nat, l: nat)
    requires NumbersApart(tape) && HasDependencies(tape, ds) && k < l < |ds|
    ensures Apart(ds[k], ds[l])
  {
    var i, t := BackOf(tape, ds, ds[k]);
    var m, u := BackOf(tape, ds, ds[l]);
    CommitsApart(tape, i, t, m, u);
  }

  lemma CommitsApart(tape: Tape, i: nat, t: nat, m: nat, u: nat)
    requires NumbersApart(tape) && Commits(tape, i, t) && Commits(tape, m, u) && At(tape, i) < At(tape, m)
    ensures Distinct(tape[t].entry.cursor, tape[u].entry.cursor)
  {
    assert AttemptAt(tape, i) != AttemptAt(tape, m);
  }

  /** Every dependency the projection writes passes the dependency record's own constructor. */
  lemma DependencyPasses(idOk: Id -> bool, j: Journal, p: Projection, d: Dependency)
    requires IdsOk(idOk, j) && Unique(j.entries) && IsProjection(TapeOf(j), p) && d in p.dependencies
    ensures DependencyOk(idOk, d)
  {
    TapeFacts(j);
    var i, t := BackOf(TapeOf(j), p.dependencies, d);
    CommitPasses(idOk, j, i, t);
  }

  lemma CommitPasses(idOk: Id -> bool, j: Journal, i: nat, t: nat)
    requires IdsOk(idOk, j) && NumbersApart(TapeOf(j)) && Commits(TapeOf(j), i, t) && Receipted(TapeOf(j), i, t)
    ensures DependencyOk(idOk, DependencyAt(TapeOf(j), i, t))
  {
    var d := DependencyAt(TapeOf(j), i, t);
    var e := j.entries[i].event;
    assert d.successful by { KindsOf(j, t); }
    assert WorkflowIdentity(e) == Ok(d.workflow) by { KindsOf(j, i); }
    assert 0 < d.source.at < d.receipt.at;
    assert idOk(d.attempt);
  }

  /** The merged history as the compiler's manifest. */
  ghost predicate Describes(m: Manifest, s: seq<Source>, p: Projection) {
    && |m.messages| == |s| && (forall i :: 0 <= i < |s| ==> m.messages[i] == s[i].message)
    && (forall i: nat :: i in m.cursors <==> i < |s| && s[i].cursor.Some?)
    && (forall i :: i in m.cursors ==> s[i].cursor == Some(m.cursors[i]))
    && m.dependencies == p.dependencies
  }

  /** Every projected history can be checkpointed: any non-empty choice of its cursor-bearing messages gives a request
      that all validators accept. */
  lemma ProjectedHistoryCheckpoints(j: Journal, s: seq<Source>, p: Projection, m: Manifest, indexes: seq<nat>)
    requires Unique(j.entries) && IsProjection(TapeOf(j), p)
    requires CanonLaw(j.canon) && CanonicalCandidates(j.canon, p.candidates) && Mergeable(j.canon, s, p.candidates)
    requires Describes(m, Merged(s, p.candidates), p)
    requires Sorted(indexes) && indexes != [] && forall k :: 0 <= k < |indexes| ==> indexes[k] in m.cursors
    ensures RequestFor(m, indexes).Ok?
    ensures var q := RequestFor(m, indexes).value;
            && q.sources == Cursors(m, indexes) && q.messages == Messages(m, indexes)
            && (forall d :: d in q.dependencies <==> d in p.dependencies && d.source in q.sources)
  {
    MergedManifestOk(j, s, p, m);
    EveryHistoryCheckpoints(m, indexes);
  }

  lemma MergedManifestOk(j: Journal, s: seq<Source>, p: Projection, m: Manifest)
    requires Unique(j.entries) && IsProjection(TapeOf(j), p)
    requires CanonLaw(j.canon) && CanonicalCandidates(j.canon, p.candidates) && Mergeable(j.canon, s, p.candidates)
    requires Describes(m, Merged(s, p.candidates), p)
    ensures ManifestOk(m)
  {
    if p.candidates == [] {
      NothingBound(j.canon, s);
    } else {
      BoundSpeak(j.canon, s, p.candidates);
    }
    forall i | i in m.cursors ensures m.cursors[i].at > 0 && Mentions(p, m.cursors[i]) { LayoutBound(s, p.candidates, i); }
    forall i, k | i in m.cursors && k in m.cursors && i < k
      ensures m.cursors[i].at < m.cursors[k].at && m.cursors[i].id != m.cursors[k].id
    {
      LayoutBound(s, p.candidates, i);
      LayoutBound(s, p.candidates, k);
    }
    forall k, i | 0 <= k < |m.dependencies| && i in m.cursors
      ensures m.dependencies[k].receipt.id != m.cursors[i].id && m.dependencies[k].receipt.at != m.cursors[i].at
    {
      ReceiptApart(j, p, p.dependencies[k], m.cursors[i]);
    }
    forall k, l | 0 <= k < l < |m.dependencies| ensures Apart(m.dependencies[k], m.dependencies[l]) { ReceiptsApart(j, p, k, l); }
  }

  /** The transcript of a journal is canonical when canonicalisation is, and questions and answers are plain text. */
  lemma TranscriptCanonical(j: Journal, p: Projection)
    requires Unique(j.entries) && IsProjection(TapeOf(j), p) && CanonLaw(j.canon)
    requires forall i | 0 <= i < |j.entries| :: PlainText(j.canon, j.entries[i].event.kind)
    ensures CanonicalCandidates(j.canon, p.candidates)
  {
    TranscriptOrdered(j, p);
    TapeFacts(j);
    forall k | 0 <= k < |p.candidates| ensures CanonicalMessage(j.canon, p.candidates[k].message) && p.candidates[k].cursor.at > 0 {
      var i := EntryOf(TapeOf(j), p.candidates, k);
      CanonicalAt(j, i);
    }
  }

  predicate PlainText(canon: Canon, kind: Kind) {
    match kind
    case Request(Some(q)) => canon(q, Assistant) == Some(q)
    case Resolution(Some(a)) => canon(a, User) == Some(a)
    case _ => true
  }

  lemma CanonicalAt(j: Journal, i: nat)
    requires i < |j.entries| && CanonLaw(j.canon) && HasMessage(TapeOf(j), i) && PlainText(j.canon, j.entries[i].event.kind)
    ensures CanonicalMessage(j.canon, CandidateAt(TapeOf(j), i).message)
  {
    var c := Classify(j, j.entries[i]);
    assert TapeOf(j)[i].what == c;
    KindsOf(j, i);
  }
}
