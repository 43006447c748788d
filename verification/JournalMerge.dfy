/** `project_canonical_journal_messages`: merging a journal's transcript with the messages of a request. */
module JournalMerge {
  import opened Wrappers
  import opened ContextTypes
  import opened JournalProjection

  type Canon = (Message, Role) -> Option<Message>

  /** A message of the request and the journal position it is bound to. */
  datatype Source = Source(message: Message, cursor: Option<Cursor>)

  ghost predicate OneSourcePerCursor(s: seq<Source>) {
    forall i, k :: 0 <= i < k < |s| && s[i].cursor.Some? ==> s[i].cursor != s[k].cursor
  }

  // ----- Laws of the parameters -----------------------------------------------------------------------

  /** Canonicalisation keeps the expected role and does nothing to its own results. */
  ghost predicate CanonLaw(canon: Canon) {
    forall m, r {:trigger canon(m, r)} :: canon(m, r).Some? ==>
      m.role == r && canon(m, r).value.role == r && canon(canon(m, r).value, r) == canon(m, r)
  }

  predicate CanonicalMessage(canon: Canon, m: Message) { m.role != System && canon(m, m.role) == Some(m) }

  ghost predicate CanonicalCandidates(canon: Canon, cs: seq<Candidate>) {
    && (forall k :: 0 <= k < |cs| ==> CanonicalMessage(canon, cs[k].message) && cs[k].cursor.at > 0)
    && (forall k, l :: 0 <= k < l < |cs| ==> cs[k].cursor.at < cs[l].cursor.at && cs[k].cursor.id != cs[l].cursor.id)
  }

  // ----- The layout ------------------------------------------------------------------------------------

  function Systems(s: seq<Source>): seq<Source> {
    if s == [] then [] else Systems(s[..|s| - 1]) + (if s[|s| - 1].message.role == System then [s[|s| - 1]] else [])
  }

  predicate IsPlain(x: Source) { x.message.role != System && x.cursor.None? }

  /** Messages that are neither system messages nor bound to the journal. */
  function Plain(s: seq<Source>): seq<Source> {
    if s == [] then [] else Plain(s[..|s| - 1]) + (if IsPlain(s[|s| - 1]) then [s[|s| - 1]] else [])
  }

  function AsSource(c: Candidate): Source { Source(c.message, Some(c.cursor)) }

  function AsSources(cs: seq<Candidate>): (r: seq<Source>)
    ensures |r| == |cs| && forall k :: 0 <= k < |cs| ==> r[k] == AsSource(cs[k])
  { seq(|cs|, k requires 0 <= k < |cs| => AsSource(cs[k])) }

  /** System messages, then the transcript, then what the journal does not know. */
  function Layout(s: seq<Source>, cs: seq<Candidate>): seq<Source> { Systems(s) + AsSources(cs) + Plain(s) }

  /** The merged history: without a transcript the request stays as it is. */
  function Merged(s: seq<Source>, cs: seq<Candidate>): seq<Source> { if cs == [] then s else Layout(s, cs) }

  // ----- Acceptance --------------------------------------------------------------------------------------

  predicate Matches(canon: Canon, x: Source, c: Candidate) {
    x.cursor == Some(c.cursor) && canon(x.message, c.message.role) == Some(c.message)
  }

  /** A bound source is one of the candidates. */
  predicate Recognised(canon: Canon, x: Source, cs: seq<Candidate>) {
    x.cursor.Some? ==> exists k :: 0 <= k < |cs| && Matches(canon, x, cs[k])
  }

  ghost predicate Mergeable(canon: Canon, s: seq<Source>, cs: seq<Candidate>) {
    OneSourcePerCursor(s) && forall i :: 0 <= i < |s| ==> Recognised(canon, s[i], cs)
  }

  /** Whether a changed request has to be built: always from the older parallel arrays, otherwise when something moved. */
  predicate Rebuilt(s: seq<Source>, legacy: bool, cs: seq<Candidate>) { cs != [] && (legacy || Layout(s, cs) != s) }

  /** What a merge needs: nothing without events; otherwise recognised sources, and room for the request it builds. */
  ghost predicate Accepted(canon: Canon, fits: seq<Source> -> bool, s: seq<Source>, legacy: bool, hasEvents: bool, cs: seq<Candidate>) {
    hasEvents ==> Mergeable(canon, s, cs) && (Rebuilt(s, legacy, cs) ==> fits(Layout(s, cs)))
  }

  /** The last source bound to each cursor. */
  ghost predicate IndexesCursors(s: seq<Source>, n: nat, byCursor: map<Cursor, nat>)
    requires n <= |s|
  {
    && (forall i :: 0 <= i < n && s[i].cursor.Some? ==> s[i].cursor.value in byCursor)
    && (forall c :: c in byCursor ==> byCursor[c] < n && s[byCursor[c]].cursor == Some(c))
  }

  /** Sources used up once the first `n` candidates are placed. */
  ghost predicate Used(s: seq<Source>, cs: seq<Candidate>, n: nat, byCursor: map<Cursor, nat>, consumed: set<nat>)
    requires n <= |cs|
  {
    forall i: nat :: i in consumed <==>
      i < |s| && (s[i].message.role == System || exists k :: 0 <= k < n && cs[k].cursor in byCursor && byCursor[cs[k].cursor] == i)
  }

  function Rest(s: seq<Source>, consumed: set<nat>, n: nat): seq<Source>
    requires n <= |s|
  {
    if n == 0 then [] else Rest(s, consumed, n - 1) + (if n - 1 in consumed then [] else [s[n - 1]])
  }

  ghost predicate AscendingNumbers(s: seq<Source>) {
    forall a, b :: 0 <= a < b < |s| && s[a].cursor.Some? && s[b].cursor.Some? ==> s[a].cursor.value.at < s[b].cursor.value.at
  }

  /** The final order check. */
  method CheckOrder(s: seq<Source>) returns (ok: bool)
    requires forall i :: 0 <= i < |s| && s[i].cursor.Some? ==> s[i].cursor.value.at > 0
    ensures ok <==> AscendingNumbers(s)
  {
    var last := 0;
    for i := 0 to |s|
      invariant AscendingNumbers(s[..i])
      invariant forall a :: 0 <= a < i && s[a].cursor.Some? ==> s[a].cursor.value.at <= last
      invariant last == 0 || exists a :: 0 <= a < i && s[a].cursor.Some? && s[a].cursor.value.at == last
    {
      if s[i].cursor.Some? {
        if s[i].cursor.value.at <= last { return false; }
        last := s[i].cursor.value.at;
      }
    }
    ok := true;
  }

  /** Bound sources are checked one by one against the candidate at their cursor. */
  method CheckSources(canon: Canon, s: seq<Source>, cs: seq<Candidate>) returns (ok: bool)
    requires CanonicalCandidates(canon, cs)
    ensures ok <==> forall i :: 0 <= i < |s| ==> Recognised(canon, s[i], cs)
  {
    for i := 0 to |s|
      invariant forall k :: 0 <= k < i ==> Recognised(canon, s[k], cs)
    {
      if s[i].cursor.Some? {
        if k :| 0 <= k < |cs| && cs[k].cursor == s[i].cursor.value {
          if canon(s[i].message, cs[k].message.role) != Some(cs[k].message) { return false; }
        } else {
          return false;
        }
      }
    }
    ok := true;
  }

  method IndexByCursor(s: seq<Source>) returns (byCursor: map<Cursor, nat>)
    ensures IndexesCursors(s, |s|, byCursor)
  {
    byCursor := map[];
    for i := 0 to |s|
      invariant IndexesCursors(s, i, byCursor)
    {
      if s[i].cursor.Some? { byCursor := byCursor[s[i].cursor.value := i]; }
    }
  }

  /** Bound sources are not system messages. */
  lemma RecognisedSpeaks(canon: Canon, x: Source, cs: seq<Candidate>)
    requires CanonLaw(canon) && CanonicalCandidates(canon, cs) && Recognised(canon, x, cs) && x.cursor.Some?
    ensures x.message.role != System
  {
    var k :| 0 <= k < |cs| && Matches(canon, x, cs[k]);
    assert CanonicalMessage(canon, cs[k].message);
  }

  /** The first loop: system messages come first. */
  method PlaceSystems(s: seq<Source>) returns (effective: seq<Source>, consumed: set<nat>)
    ensures effective == Systems(s)
    ensures forall i: nat :: i in consumed <==> i < |s| && s[i].message.role == System
  {
    effective, consumed := [], {};
    for i := 0 to |s|
      invariant effective == Systems(s[..i])
      invariant forall k: nat :: k in consumed <==> k < i && s[k].message.role == System
    {
      assert s[..i + 1][..i] == s[..i];
      if s[i].message.role == System { effective, consumed := effective + [s[i]], consumed + {i}; }
    }
    assert s[..|s|] == s;
  }

  /** The second loop: candidates in journal order; a candidate a source is bound to uses that source up. */
  method PlaceCandidates(s: seq<Source>, cs: seq<Candidate>, byCursor: map<Cursor, nat>, systems: seq<Source>, used: set<nat>)
    returns (effective: seq<Source>, consumed: set<nat>)
    requires IndexesCursors(s, |s|, byCursor) && Used(s, cs, 0, byCursor, used)
    requires forall i :: 0 <= i < |s| && s[i].cursor.Some? ==> s[i].message.role != System
    requires forall k, l :: 0 <= k < l < |cs| ==> cs[k].cursor.at < cs[l].cursor.at
    ensures effective == systems + AsSources(cs) && Used(s, cs, |cs|, byCursor, consumed)
  {
    effective, consumed := systems, used;
    assert systems + AsSources(cs)[..0] == systems;
    for k := 0 to |cs|
      invariant effective == systems + AsSources(cs)[..k] && Used(s, cs, k, byCursor, consumed)
    {
      var (cursor, message) := (cs[k].cursor, cs[k].message);
      assert AsSources(cs)[..k + 1] == AsSources(cs)[..k] + [AsSource(cs[k])];
      if cursor in byCursor {
        var i := byCursor[cursor];
        NotYetUsed(s, cs, k, byCursor, consumed);
        UseOne(s, cs, k, byCursor, consumed);
        if i !in consumed { effective, consumed := effective + [Source(message, s[i].cursor)], consumed + {i}; }
      } else {
        effective := effective + [Source(message, Some(cursor))];
      }
    }
    assert AsSources(cs)[..|cs|] == AsSources(cs);
  }

  lemma NotYetUsed(s: seq<Source>, cs: seq<Candidate>, k: nat, byCursor: map<Cursor, nat>, consumed: set<nat>)
    requires k < |cs| && IndexesCursors(s, |s|, byCursor) && Used(s, cs, k, byCursor, consumed) && cs[k].cursor in byCursor
    requires forall i :: 0 <= i < |s| && s[i].cursor.Some? ==> s[i].message.role != System
    requires forall k, l :: 0 <= k < l < |cs| ==> cs[k].cursor.at < cs[l].cursor.at
    ensures byCursor[cs[k].cursor] !in consumed
  {}

  lemma UseOne(s: seq<Source>, cs: seq<Candidate>, k: nat, byCursor: map<Cursor, nat>, consumed: set<nat>)
    requires k < |cs| && IndexesCursors(s, |s|, byCursor) && Used(s, cs, k, byCursor, consumed) && cs[k].cursor in byCursor
    ensures Used(s, cs, k + 1, byCursor, consumed + {byCursor[cs[k].cursor]})
  {}

  /** The third loop: every source not used up yet. */
  method PlaceRest(s: seq<Source>, before: seq<Source>, consumed: set<nat>) returns (effective: seq<Source>)
    ensures effective == before + Rest(s, consumed, |s|)
  {
    effective := before;
    for i := 0 to |s|
      invariant effective == before + Rest(s, consumed, i)
    {
      if i !in consumed { effective := effective + [s[i]]; }
    }
  }

  lemma {:induction false} RestIsPlain(s: seq<Source>, consumed: set<nat>, n: nat)
    requires n <= |s| && forall i :: 0 <= i < |s| ==> (i !in consumed <==> IsPlain(s[i]))
    ensures Rest(s, consumed, n) == Plain(s[..n])
  {
    if n > 0 {
      RestIsPlain(s, consumed, n - 1);
      assert s[..n][..n - 1] == s[..n - 1];
    }
  }

  lemma {:induction false} RestMembers(s: seq<Source>, consumed: set<nat>, n: nat)
    requires n <= |s|
    ensures forall x :: x in Rest(s, consumed, n) ==> x in s[..n]
    ensures forall i :: 0 <= i < n && i !in consumed ==> s[i] in Rest(s, consumed, n)
  {
    if n > 0 {
      RestMembers(s, consumed, n - 1);
      assert s[..n] == s[..n - 1] + [s[n - 1]];
    }
  }

  lemma {:induction false} SystemsMembers(s: seq<Source>)
    ensures forall x :: x in Systems(s) <==> x in s && x.message.role == System
  {
    if s != [] {
      SystemsMembers(s[..|s| - 1]);
      assert s == s[..|s| - 1] + [s[|s| - 1]];
    }
  }

  lemma {:induction false} PlainMembers(s: seq<Source>)
    ensures forall x :: x in Plain(s) <==> x in s && IsPlain(x)
  {
    if s != [] {
      PlainMembers(s[..|s| - 1]);
      assert s == s[..|s| - 1] + [s[|s| - 1]];
    }
  }

  /** With one source per cursor, exactly the plain sources are left over. */
  lemma LeftOverIsPlain(canon: Canon, s: seq<Source>, cs: seq<Candidate>, byCursor: map<Cursor, nat>, consumed: set<nat>)
    requires IndexesCursors(s, |s|, byCursor) && Used(s, cs, |cs|, byCursor, consumed)
    requires Mergeable(canon, s, cs)
    ensures forall i :: 0 <= i < |s| ==> (i !in consumed <==> IsPlain(s[i]))
  {
    forall i | 0 <= i < |s| ensures i !in consumed <==> IsPlain(s[i]) {
      if s[i].cursor.Some? {
        assert Recognised(canon, s[i], cs);
        var k :| 0 <= k < |cs| && Matches(canon, s[i], cs[k]);
        var m := byCursor[cs[k].cursor];
        assert m == i;
      }
    }
  }

  /** Two sources with one cursor leave one of them over, at a number the transcript already has. */
  lemma RepetitionIsOutOfOrder(canon: Canon, s: seq<Source>, cs: seq<Candidate>, byCursor: map<Cursor, nat>, consumed: set<nat>)
    requires IndexesCursors(s, |s|, byCursor) && Used(s, cs, |cs|, byCursor, consumed)
    requires forall i :: 0 <= i < |s| ==> Recognised(canon, s[i], cs)
    requires forall i :: 0 <= i < |s| && s[i].cursor.Some? ==> s[i].message.role != System
    requires !OneSourcePerCursor(s)
    ensures !AscendingNumbers(Systems(s) + AsSources(cs) + Rest(s, consumed, |s|))
  {
    var left := LeftOver(s, cs, byCursor, consumed);
    assert Recognised(canon, s[left], cs);
    var k :| 0 <= k < |cs| && Matches(canon, s[left], cs[k]);
    var rest := Rest(s, consumed, |s|);
    assert s[left] in rest by { RestMembers(s, consumed, |s|); }
    var r :| 0 <= r < |rest| && rest[r] == s[left];
    OutOfOrder(Systems(s), AsSources(cs), rest, k, r);
  }

  lemma LeftOver(s: seq<Source>, cs: seq<Candidate>, byCursor: map<Cursor, nat>, consumed: set<nat>) returns (left: nat)
    requires IndexesCursors(s, |s|, byCursor) && Used(s, cs, |cs|, byCursor, consumed) && !OneSourcePerCursor(s)
    requires forall i :: 0 <= i < |s| && s[i].cursor.Some? ==> s[i].message.role != System
    ensures left < |s| && left !in consumed && s[left].cursor.Some?
  {
    var i, m :| 0 <= i < m < |s| && s[i].cursor.Some? && s[i].cursor == s[m].cursor;
    left := if byCursor[s[i].cursor.value] == i then m else i;
  }

  lemma OutOfOrder(a: seq<Source>, b: seq<Source>, c: seq<Source>, k: nat, r: nat)
    requires k < |b| && r < |c| && b[k].cursor.Some? && b[k].cursor == c[r].cursor
    ensures !AscendingNumbers(a + b + c)
  {
    var all := a + b + c;
    assert all[|a| + k] == b[k] && all[|a| + |b| + r] == c[r];
  }

  /** Only the transcript part of a layout is bound, and it ascends. */
  lemma LayoutAscends(s: seq<Source>, cs: seq<Candidate>)
    requires forall i :: 0 <= i < |s| && s[i].cursor.Some? ==> s[i].message.role != System
    requires forall k, l :: 0 <= k < l < |cs| ==> cs[k].cursor.at < cs[l].cursor.at
    ensures AscendingNumbers(Layout(s, cs))
  {
    SystemsMembers(s);
    PlainMembers(s);
    Sandwich(Systems(s), AsSources(cs), Plain(s));
  }

  lemma Sandwich(a: seq<Source>, b: seq<Source>, c: seq<Source>)
    requires (forall x :: x in a + c ==> x.cursor.None?) && AscendingNumbers(b)
    ensures AscendingNumbers(a + b + c)
  {
    assert forall i :: 0 <= i < |a| ==> a[i] in a + c;
    assert forall i :: 0 <= i < |c| ==> c[i] in a + c;
  }

  /** `project_canonical_journal_messages`. Without semantic events nothing changes; otherwise the request is accepted
      exactly when every bound message is the canonical form of its journal message, no two share a cursor, and a request
      that has to be built anew keeps within the resource limits, which `fits` stands for. `legacy`: the request
      came with the older parallel cursor arrays. */
  method Merge(canon: Canon, fits: seq<Source> -> bool, s: seq<Source>, legacy: bool, hasEvents: bool, cs: seq<Candidate>)
    returns (r: Result<seq<Source>>)
    requires CanonLaw(canon) && CanonicalCandidates(canon, cs) && (!hasEvents ==> cs == [])
    requires forall i :: 0 <= i < |s| && s[i].cursor.Some? ==> s[i].cursor.value.at > 0
    ensures r.Ok? <==> Accepted(canon, fits, s, legacy, hasEvents, cs)
    ensures r.Ok? ==> r.value == Merged(s, cs)
  {
    if hasEvents {
      var ok := CheckSources(canon, s, cs);
      if !ok { return Rejected; }
    }
    if cs == [] { return Ok(s); }
    forall i | 0 <= i < |s| && s[i].cursor.Some? ensures s[i].message.role != System { RecognisedSpeaks(canon, s[i], cs); }
    var byCursor := IndexByCursor(s);
    var systems, used := PlaceSystems(s);
    var placed, consumed := PlaceCandidates(s, cs, byCursor, systems, used);
    var effective := PlaceRest(s, placed, consumed);
    var ascending := Settle(canon, s, cs, byCursor, consumed, effective);
    if !ascending { return Rejected; }
    if (legacy || effective != s) && !fits(effective) { return Rejected; }
    r := Ok(effective);
  }

  method Settle(canon: Canon, s: seq<Source>, cs: seq<Candidate>, byCursor: map<Cursor, nat>, consumed: set<nat>, effective: seq<Source>)
    returns (ok: bool)
    requires CanonicalCandidates(canon, cs) && (forall i :: 0 <= i < |s| ==> Recognised(canon, s[i], cs))
    requires forall i :: 0 <= i < |s| && s[i].cursor.Some? ==> s[i].message.role != System && s[i].cursor.value.at > 0
    requires IndexesCursors(s, |s|, byCursor) && Used(s, cs, |cs|, byCursor, consumed)
    requires effective == Systems(s) + AsSources(cs) + Rest(s, consumed, |s|)
    ensures ok <==> OneSourcePerCursor(s)
    ensures ok ==> effective == Layout(s, cs)
  {
    assert forall i :: 0 <= i < |effective| && effective[i].cursor.Some? ==> effective[i].cursor.value.at > 0 by {
      SystemsMembers(s);
      RestMembers(s, consumed, |s|);
      PositiveNumbers(s, Systems(s), AsSources(cs), Rest(s, consumed, |s|));
    }
    ok := CheckOrder(effective);
    if OneSourcePerCursor(s) {
      LeftOverIsPlain(canon, s, cs, byCursor, consumed);
      RestIsPlain(s, consumed, |s|);
      assert s[..|s|] == s;
      LayoutAscends(s, cs);
    } else {
      RepetitionIsOutOfOrder(canon, s, cs, byCursor, consumed);
    }
  }

  lemma PositiveNumbers(s: seq<Source>, a: seq<Source>, b: seq<Source>, c: seq<Source>)
    requires forall i :: 0 <= i < |s| && s[i].cursor.Some? ==> s[i].cursor.value.at > 0
    requires (forall x :: x in a ==> x in s) && (forall x :: x in c ==> x in s)
    requires forall i :: 0 <= i < |b| && b[i].cursor.Some? ==> b[i].cursor.value.at > 0
    ensures forall i :: 0 <= i < |a + b + c| && (a + b + c)[i].cursor.Some? ==> (a + b + c)[i].cursor.value.at > 0
  {
    var all := a + b + c;
    forall i | 0 <= i < |all| && all[i].cursor.Some? ensures all[i].cursor.value.at > 0 {
      assert i < |a| ==> all[i] in a;
      assert i >= |a| + |b| ==> all[i] in c;
    }
  }
}
