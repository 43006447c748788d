/** What an accepted journal's transcript guarantees, in terms of the events themselves. */
module JournalTheorems {
  import opened Wrappers
  import opened ContextTypes
  import opened Checkpoints
  import opened Sorting
  import opened Journal
  import opened JournalProjection

  // ----- The projection is a function of the journal ------------------------------------------------------

  function CandidateKey(): Candidate -> nat { (c: Candidate) => c.cursor.at }
  function SourceKey(): Dependency -> nat { (d: Dependency) => d.source.at }

  /** An accepted journal has one projection. */
  lemma ProjectionUnique(tape: Tape, p: Projection, q: Projection)
    requires IsProjection(tape, p) && IsProjection(tape, q)
    ensures p == q
  {
    assert p.candidates == q.candidates by { CandidatesUnique(tape, p.candidates, q.candidates); }
    assert p.dependencies == q.dependencies by { DependenciesUnique(tape, p.dependencies, q.dependencies); }
    assert p.digests == q.digests by { DigestsUnique(tape, p.digests, q.digests); }
    assert p.receipts == q.receipts by { ReceiptsUnique(tape, p.receipts, q.receipts); }
  }

  lemma CandidatesUnique(tape: Tape, a: seq<Candidate>, b: seq<Candidate>)
    requires HasCandidates(tape, a) && HasCandidates(tape, b)
    ensures a == b
  {
    assert Ascending(CandidateKey(), a) && Ascending(CandidateKey(), b);
    AscendingUnique(CandidateKey(), a, b);
  }

  lemma DependenciesUnique(tape: Tape, a: seq<Dependency>, b: seq<Dependency>)
    requires HasDependencies(tape, a) && HasDependencies(tape, b)
    ensures a == b
  {
    forall d | d in a ensures d in b { DependencyShared(tape, a, b, d); }
    forall d | d in b ensures d in a { DependencyShared(tape, b, a, d); }
    assert Ascending(SourceKey(), a) && Ascending(SourceKey(), b);
    AscendingUnique(SourceKey(), a, b);
  }

  lemma DependencyShared(tape: Tape, a: seq<Dependency>, b: seq<Dependency>, d: Dependency)
    requires HasDependencies(tape, a) && HasDependencies(tape, b) && d in a
    ensures d in b
  {
    var i: nat, t: nat :| Backs(tape, d, i, t);
    assert DependencyAt(tape, i, t) in b;
  }

  lemma DigestsUnique(tape: Tape, a: map<Cursor, nat>, b: map<Cursor, nat>)
    requires HasDigests(tape, a) && HasDigests(tape, b)
    ensures a == b
  {
    assert a.Keys == b.Keys;
    forall c | c in a ensures a[c] == b[c] {
      var i: nat :| Selected(tape, i) && i < |tape| && tape[i].entry.cursor == c;
    }
  }

  lemma ReceiptsUnique(tape: Tape, a: set<nat>, b: set<nat>)
    requires HasReceipts(tape, a) && HasReceipts(tape, b)
    ensures a == b
  {}

  // ----- Eligibility --------------------------------------------------------------------------------------

  ghost predicate Mentions(p: Projection, c: Cursor) { exists k :: 0 <= k < |p.candidates| && p.candidates[k].cursor == c }

  ghost predicate AssistantText(e: Event) { e.kind.AssistantMessage? || e.kind.FinalMessage? }

  /** A root run that failed, was cancelled, was aborted, or completed without success. */
  ghost predicate EndedBadly(e: Event) { Root(e) && (e.kind.RunFailed? || e.kind == RunCompleted(false)) }

  /** A root run that completed successfully at its last step. */
  ghost predicate EndedWell(e: Event) {
    Root(e) && e.kind == RunCompleted(true) && WorkflowIdentity(e).Ok? && LastStep(WorkflowIdentity(e).value)
  }

  ghost predicate CommittedBy(final: Entry, receipt: Entry) {
    && EndedWell(receipt.event) && receipt.event.attempt == final.event.attempt
    && WorkflowIdentity(receipt.event) == WorkflowIdentity(final.event)
    && final.cursor.at < receipt.cursor.at
  }

  ghost predicate OrderedTranscript(p: Projection) {
    forall k, l :: 0 <= k < l < |p.candidates| ==>
      p.candidates[k].cursor.at < p.candidates[l].cursor.at && p.candidates[k].cursor.id != p.candidates[l].cursor.id
  }

  ghost predicate FromEvents(j: Journal, p: Projection) {
    forall c :: Mentions(p, c) ==> exists i :: 0 <= i < |j.entries| && j.entries[i].cursor == c
  }

  /** The event at `i` is in the transcript. */
  ghost predicate Shown(j: Journal, p: Projection, i: nat) { i < |j.entries| && Mentions(p, j.entries[i].cursor) }

  function EventAt(j: Journal, i: nat): Event
    requires i < |j.entries|
  { j.entries[i].event }

  ghost predicate ShownFinal(j: Journal, p: Projection, i: nat) { Shown(j, p, i) && EventAt(j, i).kind.FinalMessage? }

  ghost predicate NoFailedText(j: Journal, p: Projection) {
    forall i: nat, e: nat | Shown(j, p, i) && e < |j.entries| ::
      AssistantText(EventAt(j, i)) && EndedBadly(EventAt(j, e)) ==> EventAt(j, e).attempt != EventAt(j, i).attempt
  }

  ghost predicate NoFinalBesideCanonical(j: Journal, p: Projection) {
    forall i: nat, k: nat | Shown(j, p, i) && ShownFinal(j, p, k) ::
      EventAt(j, i).kind.AssistantMessage? ==> EventAt(j, i).attempt != EventAt(j, k).attempt
  }

  ghost predicate FinalsCommitted(j: Journal, p: Projection) {
    forall i: nat | ShownFinal(j, p, i) :: exists t :: 0 <= t < |j.entries| && CommittedBy(j.entries[i], j.entries[t])
  }

  ghost predicate UserWithin(j: Journal, p: Projection, low: nat, high: nat) {
    exists u: nat :: Shown(j, p, u) && EventAt(j, u).kind.UserMessage? && low < j.entries[u].cursor.at < high
  }

  ghost predicate OneFinalPerTurn(j: Journal, p: Projection) {
    forall i: nat, k: nat | ShownFinal(j, p, i) && ShownFinal(j, p, k) && j.entries[i].cursor.at < j.entries[k].cursor.at ::
      UserWithin(j, p, j.entries[i].cursor.at, j.entries[k].cursor.at)
  }

  /** A record that links a graph step to its input, and that no source message is bound to. */
  ghost predicate UnboundHandoff(j: Journal, x: Entry)
    requires x.event.kind.UserMessage?
  {
    x.cursor !in j.bound && var m := j.canon(x.event.kind.message, User); m.Some? && j.plumbing(m.value)
  }

  /** A user message is left out only when it belongs to a child run, or is an unbound handoff record. */
  ghost predicate UsersKept(j: Journal, p: Projection) {
    forall i: nat | i < |j.entries| && EventAt(j, i).kind.UserMessage? && Root(EventAt(j, i)) ::
      Shown(j, p, i) || UnboundHandoff(j, j.entries[i])
  }

  ghost predicate ShownAre(j: Journal, p: Projection) {
    forall i: nat | i < |j.entries| :: Shown(j, p, i) <==> Selected(TapeOf(j), i)
  }

  /** The transcript shows exactly the selected events. */
  lemma ShownAreSelected(j: Journal, p: Projection)
    requires Unique(j.entries) && IsProjection(TapeOf(j), p)
    ensures ShownAre(j, p)
  {
    TapeFacts(j);
    forall i: nat | i < |j.entries| ensures Shown(j, p, i) <==> Selected(TapeOf(j), i) {
      ListedIsSelected(TapeOf(j), p.candidates, i);
    }
  }

  lemma ListedIsSelected(tape: Tape, candidates: seq<Candidate>, i: nat)
    requires NumbersApart(tape) && HasCandidates(tape, candidates) && i < |tape|
    ensures (exists k :: 0 <= k < |candidates| && candidates[k].cursor == tape[i].entry.cursor) <==> Selected(tape, i)
  {
    if k :| 0 <= k < |candidates| && candidates[k].cursor == tape[i].entry.cursor {
      CandidateIsSelected(tape, candidates, candidates[k], i);
    }
    if Selected(tape, i) { SelectedIsCandidate(tape, candidates, i); }
  }

  lemma CandidateIsSelected(tape: Tape, candidates: seq<Candidate>, c: Candidate, i: nat)
    requires NumbersApart(tape) && HasCandidates(tape, candidates) && c in candidates && i < |tape| && tape[i].entry.cursor == c.cursor
    ensures Selected(tape, i)
  {
    var s: nat :| Selected(tape, s) && HasMessage(tape, s) && c == CandidateAt(tape, s);
    assert !Distinct(tape[s].entry.cursor, tape[i].entry.cursor);
  }

  lemma SelectedIsCandidate(tape: Tape, candidates: seq<Candidate>, i: nat)
    requires HasCandidates(tape, candidates) && i < |tape| && Selected(tape, i)
    ensures exists k :: 0 <= k < |candidates| && candidates[k].cursor == tape[i].entry.cursor
  {
    var c := CandidateAt(tape, i);
    assert c in candidates;
  }

  /** The classes that speak for an assistant belong to root events of that kind. */
  lemma KindsOf(j: Journal, i: nat)
    requires i < |j.entries|
    ensures var (e, c) := (j.entries[i].event, TapeOf(j)[i].what);
            && (c.Says? ==> Root(e) && (c.role == User <==> e.kind.UserMessage?) && (c.role != User <==> e.kind.AssistantMessage?))
            && (c.Concludes? ==> Root(e) && e.kind.FinalMessage? && WorkflowIdentity(e) == Ok(c.workflow) && LastStep(c.workflow))
            && (c.Asks? ==> e.kind.Request?) && (c.Replies? ==> e.kind.Resolution?)
            && (c.Ends? ==> Root(e) && WorkflowIdentity(e) == Ok(c.workflow) && (c.last <==> LastStep(c.workflow)) &&
                            (c.success <==> e.kind == RunCompleted(true)) && (!c.success <==> EndedBadly(e)))
            && (EndedBadly(e) ==> c.Ends? || c.Invalid?)
  {}

  lemma AssistantTextAlive(j: Journal, i: nat, e: nat)
    requires i < |j.entries| && e < |j.entries| && Acceptable(TapeOf(j)) && Selected(TapeOf(j), i)
    requires AssistantText(j.entries[i].event) && EndedBadly(j.entries[e].event)
    ensures j.entries[e].event.attempt != j.entries[i].event.attempt
  {
    var tape := TapeOf(j);
    KindsOf(j, i);
    KindsOf(j, e);
    assert Fails(tape, e);
    assert AttemptAt(tape, e) in FailedAttempts(tape, |tape|);
    assert !Failed(tape, AttemptAt(tape, i));
  }

  lemma CanonicalWins(j: Journal, i: nat, k: nat)
    requires i < |j.entries| && k < |j.entries| && Selected(TapeOf(j), i) && Selected(TapeOf(j), k)
    requires j.entries[i].event.kind.AssistantMessage? && j.entries[k].event.kind.FinalMessage?
    ensures j.entries[i].event.attempt != j.entries[k].event.attempt
  {
    var tape := TapeOf(j);
    KindsOf(j, i);
    KindsOf(j, k);
    assert Stays(tape, i) && AssistantSpeaks(tape, i);
    assert AttemptAt(tape, i) in CanonicalAttempts(tape, |tape|);
    assert Eligible(tape, k);
  }

  lemma FinalHasReceipt(j: Journal, i: nat)
    requires i < |j.entries| && Acceptable(TapeOf(j)) && Selected(TapeOf(j), i) && j.entries[i].event.kind.FinalMessage?
    ensures exists t :: 0 <= t < |j.entries| && CommittedBy(j.entries[i], j.entries[t])
  {
    var tape := TapeOf(j);
    KindsOf(j, i);
    assert Survives(tape, i);
    var t: nat :| Commits(tape, i, t);
    assert Matched(tape, i, t);
    KindsOf(j, t);
    assert CommittedBy(j.entries[i], j.entries[t]);
  }

  lemma FinalsSeparated(j: Journal, i: nat, k: nat) returns (u: nat)
    requires Unique(j.entries) && i < |j.entries| && k < |j.entries|
    requires Selected(TapeOf(j), i) && Selected(TapeOf(j), k) && EventAt(j, i).kind.FinalMessage? && EventAt(j, k).kind.FinalMessage?
    requires j.entries[i].cursor.at < j.entries[k].cursor.at
    ensures u < |j.entries| && Selected(TapeOf(j), u) && EventAt(j, u).kind.UserMessage?
    ensures j.entries[i].cursor.at < j.entries[u].cursor.at < j.entries[k].cursor.at
  {
    var tape := TapeOf(j);
    KindsOf(j, i);
    KindsOf(j, k);
    u := SeparatingUser(tape, i, k);
    KindsOf(j, u);
    assert Distinct(j.entries[u].cursor, j.entries[k].cursor) by { TapeFacts(j); }
  }

  lemma SeparatingUser(tape: Tape, i: nat, k: nat) returns (u: nat)
    requires Survives(tape, i) && Survives(tape, k) && At(tape, i) < At(tape, k)
    ensures UserSpeaks(tape, u) && u != k && At(tape, i) < At(tape, u) <= At(tape, k)
  {
    assert Qualified(tape, k) && UserBetween(tape, i, k);
    u :| UserSpeaks(tape, u) && At(tape, i) < At(tape, u) <= At(tape, k);
  }

  lemma UserIsKept(j: Journal, i: nat)
    requires i < |j.entries| && Acceptable(TapeOf(j)) && !Selected(TapeOf(j), i)
    requires j.entries[i].event.kind.UserMessage? && Root(j.entries[i].event)
    ensures UnboundHandoff(j, j.entries[i])
  {
    var tape := TapeOf(j);
    assert !tape[i].what.Invalid?;
    assert !Stays(tape, i);
  }

  lemma EntryOf(tape: Tape, candidates: seq<Candidate>, k: nat) returns (m: nat)
    requires HasCandidates(tape, candidates) && k < |candidates|
    ensures HasMessage(tape, m) && candidates[k] == CandidateAt(tape, m)
  {
    assert candidates[k] in candidates;
    m :| Selected(tape, m) && HasMessage(tape, m) && candidates[k] == CandidateAt(tape, m);
  }

  lemma BackOf(tape: Tape, ds: seq<Dependency>, d: Dependency) returns (i: nat, t: nat)
    requires HasDependencies(tape, ds) && d in ds
    ensures Backs(tape, d, i, t)
  {
    i, t :| Backs(tape, d, i, t);
  }

  lemma TranscriptOrdered(j: Journal, p: Projection)
    requires Unique(j.entries) && IsProjection(TapeOf(j), p)
    ensures OrderedTranscript(p) && FromEvents(j, p)
  {
    var tape := TapeOf(j);
    TapeFacts(j);
    forall k, l | 0 <= k < l < |p.candidates| ensures p.candidates[k].cursor.id != p.candidates[l].cursor.id {
      var i := EntryOf(tape, p.candidates, k);
      var m := EntryOf(tape, p.candidates, l);
      assert Distinct(tape[i].entry.cursor, tape[m].entry.cursor);
    }
    forall c | Mentions(p, c) ensures exists i :: 0 <= i < |j.entries| && j.entries[i].cursor == c {
      var k :| 0 <= k < |p.candidates| && p.candidates[k].cursor == c;
      var i := EntryOf(tape, p.candidates, k);
      assert j.entries[i].cursor == c;
    }
  }

  /** Journal eligibility, over every accepted event sequence. */
  lemma TranscriptEligible(j: Journal, p: Projection)
    requires Unique(j.entries) && Acceptable(TapeOf(j)) && IsProjection(TapeOf(j), p)
    ensures OrderedTranscript(p) && FromEvents(j, p)
    ensures NoFailedText(j, p)
    ensures NoFinalBesideCanonical(j, p)
    ensures FinalsCommitted(j, p)
    ensures OneFinalPerTurn(j, p)
    ensures UsersKept(j, p)
  {
    TranscriptOrdered(j, p);
    ShownAreSelected(j, p);
    AssistantEligible(j, p);
    FinalsEligible(j, p);
    forall i: nat | i < |j.entries| && EventAt(j, i).kind.UserMessage? && Root(EventAt(j, i))
      ensures Shown(j, p, i) || UnboundHandoff(j, j.entries[i])
    {
      if !Shown(j, p, i) { UserIsKept(j, i); }
    }
  }

  lemma AssistantEligible(j: Journal, p: Projection)
    requires Acceptable(TapeOf(j)) && ShownAre(j, p)
    ensures NoFailedText(j, p) && NoFinalBesideCanonical(j, p)
  {
    forall i: nat, e: nat | Shown(j, p, i) && e < |j.entries| && AssistantText(EventAt(j, i)) && EndedBadly(EventAt(j, e))
      ensures EventAt(j, e).attempt != EventAt(j, i).attempt
    {
      AssistantTextAlive(j, i, e);
    }
    forall i: nat, k: nat | Shown(j, p, i) && ShownFinal(j, p, k) && EventAt(j, i).kind.AssistantMessage?
      ensures EventAt(j, i).attempt != EventAt(j, k).attempt
    {
      CanonicalWins(j, i, k);
    }
  }

  lemma FinalsEligible(j: Journal, p: Projection)
    requires Unique(j.entries) && Acceptable(TapeOf(j)) && ShownAre(j, p)
    ensures FinalsCommitted(j, p) && OneFinalPerTurn(j, p)
  {
    forall i: nat | ShownFinal(j, p, i) ensures exists t :: 0 <= t < |j.entries| && CommittedBy(j.entries[i], j.entries[t]) {
      FinalHasReceipt(j, i);
    }
    forall i: nat, k: nat | ShownFinal(j, p, i) && ShownFinal(j, p, k) && j.entries[i].cursor.at < j.entries[k].cursor.at
      ensures UserWithin(j, p, j.entries[i].cursor.at, j.entries[k].cursor.at)
    {
      var u := FinalsSeparated(j, i, k);
      assert Shown(j, p, u);
    }
  }
}
