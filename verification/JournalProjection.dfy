/** `_canonical_journal_message_projection`: from validated events to an ordered transcript, with one receipt for
    every final message it keeps. */
module JournalProjection {
  import opened Wrappers
  import opened ContextTypes
  import opened Checkpoints
  import opened Sorting
  import opened Journal

  /** An event together with what it is. */
  datatype Mark = Mark(entry: Entry, what: Class)
  type Tape = seq<Mark>

  function TapeOf(j: Journal): (tape: Tape)
    ensures |tape| == |j.entries| && forall i :: 0 <= i < |tape| ==> tape[i] == Mark(j.entries[i], Classify(j, j.entries[i]))
  { seq(|j.entries|, i requires 0 <= i < |j.entries| => Mark(j.entries[i], Classify(j, j.entries[i]))) }

  function At(tape: Tape, i: nat): nat
    requires i < |tape|
  { tape[i].entry.cursor.at }

  function AttemptAt(tape: Tape, i: nat): Option<Id>
    requires i < |tape|
  { tape[i].entry.event.attempt }

  // ----- What the events say together ------------------------------------------------------------------

  predicate Speaks(tape: Tape, i: nat) { i < |tape| && tape[i].what.Says? }
  predicate UserSpeaks(tape: Tape, i: nat) { Speaks(tape, i) && tape[i].what.role == User }
  predicate AssistantSpeaks(tape: Tape, i: nat) { Speaks(tape, i) && tape[i].what.role != User }
  predicate Fails(tape: Tape, i: nat) { i < |tape| && tape[i].what.Ends? && !tape[i].what.success }
  predicate Closes(tape: Tape, i: nat) { i < |tape| && tape[i].what.Ends? && tape[i].what.last }
  predicate Concluding(tape: Tape, i: nat) { i < |tape| && tape[i].what.Concludes? }

  function AsksAbout(tape: Tape, i: nat): set<Id> {
    if i < |tape| && tape[i].what.Asks? && tape[i].entry.event.interaction.Some?
    then {tape[i].entry.event.interaction.value} else {}
  }

  /** Interactions asked about before `n`. */
  function Asked(tape: Tape, n: nat): set<Id> { set q: nat, x | q < n && x in AsksAbout(tape, q) :: x }

  /** Part of the dialogue: a question, or an answer to a question asked before. */
  predicate Talks(tape: Tape, i: nat) {
    && i < |tape|
    && (|| tape[i].what.Asks?
        || (tape[i].what.Replies? && tape[i].entry.event.interaction.Some? &&
            tape[i].entry.event.interaction.value in Asked(tape, i)))
  }

  function FailedAttempts(tape: Tape, n: nat): set<Option<Id>>
    requires n <= |tape|
  { set i: nat | i < n && Fails(tape, i) :: AttemptAt(tape, i) }

  predicate Failed(tape: Tape, a: Option<Id>) { a in FailedAttempts(tape, |tape|) }

  /** Messages that stay: every user message, and assistant messages of attempts that never failed. */
  predicate Stays(tape: Tape, i: nat) {
    Speaks(tape, i) && (UserSpeaks(tape, i) || !Failed(tape, AttemptAt(tape, i)))
  }

  function CanonicalAttempts(tape: Tape, n: nat): set<Option<Id>>
    requires n <= |tape|
  { set i: nat | i < n && Stays(tape, i) && AssistantSpeaks(tape, i) :: AttemptAt(tape, i) }

  /** A final message that may stand for its attempt. */
  predicate Eligible(tape: Tape, i: nat) {
    Concluding(tape, i) && AttemptAt(tape, i) !in CanonicalAttempts(tape, |tape|) && !Failed(tape, AttemptAt(tape, i))
  }

  ghost predicate LatestFinal(tape: Tape, i: nat) {
    Eligible(tape, i) &&
    forall k: nat :: Eligible(tape, k) && AttemptAt(tape, k) == AttemptAt(tape, i) ==> At(tape, k) <= At(tape, i)
  }

  /** The terminal event `t` commits the final message `i`. */
  ghost predicate Commits(tape: Tape, i: nat, t: nat) {
    && LatestFinal(tape, i) && Closes(tape, t) && AttemptAt(tape, t) == AttemptAt(tape, i)
    && At(tape, i) < At(tape, t) && tape[t].what.success
  }

  ghost predicate Qualified(tape: Tape, i: nat) { exists t: nat :: Commits(tape, i, t) }

  ghost predicate UserBetween(tape: Tape, i: nat, k: nat)
    requires i < |tape| && k < |tape|
  { exists u: nat :: UserSpeaks(tape, u) && At(tape, i) < At(tape, u) <= At(tape, k) }

  /** The last qualified final before the next user message. */
  ghost predicate Survives(tape: Tape, i: nat) {
    Qualified(tape, i) &&
    forall k: nat :: Qualified(tape, k) && At(tape, i) < At(tape, k) ==> UserBetween(tape, i, k)
  }

  ghost predicate Selected(tape: Tape, i: nat) { Stays(tape, i) || Talks(tape, i) || Survives(tape, i) }

  /** A journal is refused for an invalid event, two terminals of one attempt, an assistant message after its
      attempt's terminal, or a terminal that commits a final of another workflow step. */
  ghost predicate Acceptable(tape: Tape) {
    && (forall i :: 0 <= i < |tape| ==> !tape[i].what.Invalid?)
    && Orderly(tape)
    && (forall i: nat, t: nat :: Matched(tape, i, t))
  }

  ghost predicate Matched(tape: Tape, i: nat, t: nat) {
    Commits(tape, i, t) ==> tape[t].what.workflow == tape[i].what.workflow
  }

  ghost predicate Orderly(tape: Tape) {
    && (forall s: nat, t: nat :: Closes(tape, s) && Closes(tape, t) && AttemptAt(tape, s) == AttemptAt(tape, t) ==> s == t)
    && (forall i: nat, t: nat :: AssistantSpeaks(tape, i) && Closes(tape, t) && AttemptAt(tape, i) == AttemptAt(tape, t) ==>
          At(tape, i) <= At(tape, t))
  }

  // ----- The passes -----------------------------------------------------------------------------------

  datatype Piles = Piles(said: set<nat>, talk: set<nat>, failed: set<Option<Id>>, terminals: set<nat>, finals: set<nat>)

  function PilesOf(tape: Tape, n: nat): Piles
    requires n <= |tape|
  {
    Piles((set i: nat | i < n && Speaks(tape, i)), (set i: nat | i < n && Talks(tape, i)), FailedAttempts(tape, n),
          (set i: nat | i < n && Closes(tape, i)), (set i: nat | i < n && Concluding(tape, i)))
  }

  /** The first loop: every event goes to its pile. */
  method ReadEvents(tape: Tape) returns (r: Result<Piles>)
    ensures r.Ok? <==> forall i :: 0 <= i < |tape| ==> !tape[i].what.Invalid?
    ensures r.Ok? ==> r.value == PilesOf(tape, |tape|)
  {
    var p := Piles({}, {}, {}, {}, {});
    var asked: set<Id> := {};
    for i := 0 to |tape|
      invariant forall k :: 0 <= k < i ==> !tape[k].what.Invalid?
      invariant p == PilesOf(tape, i) && asked == Asked(tape, i)
    {
      var (event, what) := (tape[i].entry.event, tape[i].what);
      match what {
        case Invalid => return Rejected;
        case Ignored =>
        case Says(_, _) => p := p.(said := p.said + {i});
        case Asks(_) =>
          p := p.(talk := p.talk + {i});
        case Replies(_) =>
          if event.interaction.Some? && event.interaction.value in asked { p := p.(talk := p.talk + {i}); }
        case Ends(success, last, _) =>
          if !success { p := p.(failed := p.failed + {event.attempt}); }
          if last { p := p.(terminals := p.terminals + {i}); }
        case Concludes(_, _) => p := p.(finals := p.finals + {i});
      }
      asked := asked + AsksAbout(tape, i);
      PilesNext(tape, i);
    }
    r := Ok(p);
  }

  lemma PilesNext(tape: Tape, n: nat)
    requires n < |tape|
    ensures var (p, q) := (PilesOf(tape, n), PilesOf(tape, n + 1));
            && q.said == p.said + (if Speaks(tape, n) then {n} else {})
            && q.talk == p.talk + (if Talks(tape, n) then {n} else {})
            && q.failed == p.failed + (if Fails(tape, n) then {AttemptAt(tape, n)} else {})
            && q.terminals == p.terminals + (if Closes(tape, n) then {n} else {})
            && q.finals == p.finals + (if Concluding(tape, n) then {n} else {})
    ensures Asked(tape, n + 1) == Asked(tape, n) + AsksAbout(tape, n)
  {}

  ghost function StayingUpTo(tape: Tape, n: nat): set<nat> { set i: nat | i < n && i < |tape| && Stays(tape, i) }

  /** The second pass: lifecycle checks, and the messages of attempts that did not fail. */
  method KeepMessages(tape: Tape, p: Piles) returns (r: Result<(set<nat>, set<Option<Id>>)>)
    requires p == PilesOf(tape, |tape|)
    ensures r.Ok? <==> Orderly(tape)
    ensures r.Ok? ==> r.value.0 == StayingUpTo(tape, |tape|) && r.value.1 == CanonicalAttempts(tape, |tape|)
  {
    if s, t :| s in p.terminals && t in p.terminals && s != t && AttemptAt(tape, s) == AttemptAt(tape, t) {
      assert Closes(tape, s) && Closes(tape, t);
      return Rejected;
    }
    var kept: set<nat>, canonical: set<Option<Id>> := {}, {};
    for i := 0 to |tape|
      invariant kept == StayingUpTo(tape, i) && canonical == CanonicalAttempts(tape, i)
      invariant forall k: nat, t: nat :: k < i && AssistantSpeaks(tape, k) && Closes(tape, t) && AttemptAt(tape, k) == AttemptAt(tape, t) ==>
                  At(tape, k) <= At(tape, t)
    {
      if i in p.said {
        if AssistantSpeaks(tape, i) {
          if t :| t in p.terminals && AttemptAt(tape, t) == AttemptAt(tape, i) && At(tape, t) < At(tape, i) {
            assert Closes(tape, t);
            return Rejected;
          }
        }
        if UserSpeaks(tape, i) || AttemptAt(tape, i) !in p.failed {
          kept := kept + {i};
          if AssistantSpeaks(tape, i) { canonical := canonical + {AttemptAt(tape, i)}; }
        }
      }
    }
    r := Ok((kept, canonical));
  }

  ghost predicate LatestUpTo(tape: Tape, n: nat, latest: map<Option<Id>, nat>) {
    && (forall a :: a in latest ==> latest[a] < n && Eligible(tape, latest[a]) && AttemptAt(tape, latest[a]) == a)
    && (forall k: nat :: k < n && Eligible(tape, k) ==>
          AttemptAt(tape, k) in latest && At(tape, k) <= At(tape, latest[AttemptAt(tape, k)]))
  }

  /** The newest final message of every attempt that has no canonical assistant message and did not fail. */
  method LatestFinals(tape: Tape, p: Piles, canonical: set<Option<Id>>) returns (latest: map<Option<Id>, nat>)
    requires p == PilesOf(tape, |tape|) && canonical == CanonicalAttempts(tape, |tape|)
    ensures LatestUpTo(tape, |tape|, latest)
  {
    latest := map[];
    for i := 0 to |tape|
      invariant LatestUpTo(tape, i, latest)
    {
      if i in p.finals {
        var a := AttemptAt(tape, i);
        if a !in canonical && a !in p.failed {
          assert Eligible(tape, i);
          if a !in latest || At(tape, latest[a]) < At(tape, i) { latest := latest[a := i]; }
        }
      }
    }
  }

  lemma LatestAre(tape: Tape, latest: map<Option<Id>, nat>)
    requires NumbersApart(tape) && LatestUpTo(tape, |tape|, latest)
    ensures forall i: nat :: LatestFinal(tape, i) <==> i in latest.Values
  {
    forall i: nat | LatestFinal(tape, i) ensures i in latest.Values {
      var k := latest[AttemptAt(tape, i)];
      assert Eligible(tape, k) && At(tape, k) == At(tape, i);
    }
  }

  /** Validated events have distinct sequence numbers and ids. */
  ghost predicate NumbersApart(tape: Tape) {
    && (forall i :: 0 <= i < |tape| ==> tape[i].entry.cursor.at > 0)
    && (forall i, k :: 0 <= i < |tape| && 0 <= k < |tape| && i != k ==> Distinct(tape[i].entry.cursor, tape[k].entry.cursor))
  }

  ghost predicate CommitsUpTo(tape: Tape, n: nat, commits: map<nat, nat>) {
    && (forall i :: i in commits ==> i < n && Commits(tape, i, commits[i]))
    && (forall i: nat, t: nat :: i < n && Commits(tape, i, t) ==> i in commits)
  }

  /** The final messages that a later successful terminal event commits. With one terminal per attempt, the earliest
      later terminal is the only one. */
  method Qualify(tape: Tape, p: Piles, latest: map<Option<Id>, nat>) returns (r: Result<map<nat, nat>>)
    requires NumbersApart(tape) && Orderly(tape) && p == PilesOf(tape, |tape|) && LatestUpTo(tape, |tape|, latest)
    ensures r.Ok? <==> forall i: nat, t: nat :: Matched(tape, i, t)
    ensures r.Ok? ==> CommitsUpTo(tape, |tape|, r.value)
  {
    LatestAre(tape, latest);
    var commits: map<nat, nat> := map[];
    for i := 0 to |tape|
      invariant QualifiedUpTo(tape, i, commits)
    {
      var receipt := None;
      if i in latest.Values { receipt := ReceiptOf(tape, p.terminals, i); }
      if receipt.Some? && tape[receipt.value].what.workflow != tape[i].what.workflow {
        assert !Matched(tape, i, receipt.value);
        return Rejected;
      }
      QualifyNext(tape, i, commits, receipt);
      if receipt.Some? { commits := commits[i := receipt.value]; }
    }
    r := Ok(commits);
  }

  ghost predicate QualifiedUpTo(tape: Tape, n: nat, commits: map<nat, nat>) {
    CommitsUpTo(tape, n, commits) && forall k: nat, t: nat :: k < n ==> Matched(tape, k, t)
  }

  lemma QualifyNext(tape: Tape, i: nat, commits: map<nat, nat>, receipt: Option<nat>)
    requires QualifiedUpTo(tape, i, commits) && forall t: nat :: Commits(tape, i, t) ==> receipt == Some(t)
    requires receipt.Some? ==> Commits(tape, i, receipt.value) && Matched(tape, i, receipt.value)
    ensures QualifiedUpTo(tape, i + 1, if receipt.Some? then commits[i := receipt.value] else commits)
  {}

  method ReceiptOf(tape: Tape, terminals: set<nat>, i: nat) returns (receipt: Option<nat>)
    requires Orderly(tape) && LatestFinal(tape, i) && forall t: nat :: t in terminals <==> Closes(tape, t)
    ensures receipt.Some? ==> Commits(tape, i, receipt.value)
    ensures forall t: nat :: Commits(tape, i, t) ==> receipt == Some(t)
  {
    receipt := None;
    if t :| t in terminals && AttemptAt(tape, t) == AttemptAt(tape, i) && At(tape, t) > At(tape, i) {
      if tape[t].what.success { receipt := Some(t); }
    }
  }

  // ----- One final per segment --------------------------------------------------------------------------

  function UsersUpTo(tape: Tape, at: nat): set<nat> { set u: nat | u < |tape| && UserSpeaks(tape, u) && At(tape, u) <= at }

  /** `bisect_right` over the sorted user sequence numbers: how many are not after `at`. */
  function Segment(tape: Tape, at: nat): nat { |UsersUpTo(tape, at)| }

  lemma CardinalityGrows(a: set<nat>, b: set<nat>)
    requires a <= b
    ensures |a| <= |b| && (|a| == |b| <==> a == b)
  {
    assert b == a + (b - a);
    if a != b { assert b - a != {}; }
  }

  /** Two positions lie in the same segment exactly when no user message separates them. */
  lemma SegmentsBySeparation(tape: Tape, i: nat, k: nat)
    requires i < |tape| && k < |tape| && At(tape, i) <= At(tape, k)
    ensures Segment(tape, At(tape, i)) == Segment(tape, At(tape, k)) <==> !UserBetween(tape, i, k)
  {
    var (a, b) := (UsersUpTo(tape, At(tape, i)), UsersUpTo(tape, At(tape, k)));
    CardinalityGrows(a, b);
    if UserBetween(tape, i, k) {
      var u: nat :| UserSpeaks(tape, u) && At(tape, i) < At(tape, u) <= At(tape, k);
      assert u in b && u !in a;
    }
  }

  /** Per segment, the newest of the qualified finals below `n`. */
  ghost predicate NewestUpTo(tape: Tape, n: nat, commits: map<nat, nat>, newest: map<nat, nat>)
    requires forall i :: i in commits ==> i < |tape|
  {
    && (forall s :: s in newest ==> newest[s] < n && newest[s] in commits && Segment(tape, At(tape, newest[s])) == s)
    && (forall k: nat :: k < n && k in commits ==> Led(tape, newest, k))
  }

  ghost predicate Led(tape: Tape, newest: map<nat, nat>, k: nat) {
    k < |tape| && var s := Segment(tape, At(tape, k)); s in newest && newest[s] < |tape| && At(tape, k) <= At(tape, newest[s])
  }

  method NewestPerSegment(tape: Tape, commits: map<nat, nat>) returns (newest: map<nat, nat>)
    requires forall i :: i in commits ==> i < |tape|
    ensures NewestUpTo(tape, |tape|, commits, newest)
  {
    newest := map[];
    for i := 0 to |tape|
      invariant NewestUpTo(tape, i, commits, newest)
    {
      if i in commits {
        var s := Segment(tape, At(tape, i));
        ghost var before := newest;
        if s !in newest || At(tape, newest[s]) < At(tape, i) { newest := newest[s := i]; }
        forall k: nat | k <= i && k in commits ensures Led(tape, newest, k) {
          assert k == i || Led(tape, before, k);
        }
      }
    }
  }

  lemma SurvivorsAre(tape: Tape, commits: map<nat, nat>, newest: map<nat, nat>)
    requires NumbersApart(tape) && CommitsUpTo(tape, |tape|, commits) && NewestUpTo(tape, |tape|, commits, newest)
    ensures forall i: nat :: Survives(tape, i) <==> i in newest.Values
  {
    forall i: nat ensures Qualified(tape, i) <==> i in commits {}
    forall i: nat | Survives(tape, i) ensures i in newest.Values { SurvivorLeads(tape, commits, newest, i); }
    forall i: nat | i in newest.Values ensures Survives(tape, i) { LeaderSurvives(tape, commits, newest, i); }
  }

  lemma SurvivorLeads(tape: Tape, commits: map<nat, nat>, newest: map<nat, nat>, i: nat)
    requires NumbersApart(tape) && CommitsUpTo(tape, |tape|, commits) && NewestUpTo(tape, |tape|, commits, newest)
    requires Survives(tape, i) && i in commits
    ensures i in newest.Values
  {
    assert Led(tape, newest, i);
    var k := newest[Segment(tape, At(tape, i))];
    assert Commits(tape, k, commits[k]);
    SegmentsBySeparation(tape, i, k);
    assert At(tape, k) == At(tape, i);
  }

  lemma LeaderSurvives(tape: Tape, commits: map<nat, nat>, newest: map<nat, nat>, i: nat)
    requires CommitsUpTo(tape, |tape|, commits) && NewestUpTo(tape, |tape|, commits, newest)
    requires (forall k: nat :: Qualified(tape, k) <==> k in commits) && i in newest.Values
    ensures Survives(tape, i)
  {
    var s :| s in newest && newest[s] == i;
    forall k: nat | Qualified(tape, k) && At(tape, i) < At(tape, k) ensures UserBetween(tape, i, k) {
      assert Led(tape, newest, k);
      SegmentsBySeparation(tape, i, k);
    }
  }

  // ----- The projection ---------------------------------------------------------------------------------

  datatype Candidate = Candidate(cursor: Cursor, message: Message)

  datatype Projection = Projection(
    candidates: seq<Candidate>, receipts: set<nat>, digests: map<Cursor, nat>, dependencies: seq<Dependency>)

  function MessageOf(c: Class): Message
    requires c.Says? || c.Asks? || c.Replies? || c.Concludes?
  { c.message }

  predicate HasMessage(tape: Tape, i: nat) {
    i < |tape| && var c := tape[i].what; c.Says? || c.Asks? || c.Replies? || c.Concludes?
  }

  function CandidateAt(tape: Tape, i: nat): Candidate
    requires HasMessage(tape, i)
  { Candidate(tape[i].entry.cursor, MessageOf(tape[i].what)) }

  predicate Receipted(tape: Tape, i: nat, t: nat) {
    Concluding(tape, i) && AttemptAt(tape, i).Some? && Closes(tape, t)
  }

  function DependencyAt(tape: Tape, i: nat, t: nat): Dependency
    requires Receipted(tape, i, t)
  {
    Dependency(tape[i].entry.cursor, tape[t].entry.cursor, tape[t].entry.event.kind == RunCompleted(true), AttemptAt(tape, i).value,
               tape[i].what.workflow, tape[t].entry.event.digest)
  }

  /** Attempts of root events are known. */
  ghost predicate Rooted(tape: Tape) {
    forall i :: 0 <= i < |tape| && (tape[i].what.Says? || tape[i].what.Ends? || tape[i].what.Concludes?) ==> tape[i].entry.event.attempt.Some?
  }

  ghost predicate HasCandidates(tape: Tape, candidates: seq<Candidate>) {
    && (forall k, l :: 0 <= k < l < |candidates| ==> candidates[k].cursor.at < candidates[l].cursor.at)
    && (forall i: nat :: Selected(tape, i) ==> HasMessage(tape, i) && CandidateAt(tape, i) in candidates)
    && (forall c :: c in candidates ==> exists i: nat :: Selected(tape, i) && HasMessage(tape, i) && c == CandidateAt(tape, i))
  }

  ghost predicate Backs(tape: Tape, d: Dependency, i: nat, t: nat) {
    Survives(tape, i) && Commits(tape, i, t) && Receipted(tape, i, t) && d == DependencyAt(tape, i, t)
  }

  ghost predicate HasDependencies(tape: Tape, ds: seq<Dependency>) {
    && (forall k, l :: 0 <= k < l < |ds| ==> ds[k].source.at < ds[l].source.at)
    && (forall i: nat, t: nat :: Survives(tape, i) && Commits(tape, i, t) ==> Receipted(tape, i, t) && DependencyAt(tape, i, t) in ds)
    && (forall d :: d in ds ==> exists i: nat, t: nat :: Backs(tape, d, i, t))
  }

  ghost predicate HasDigests(tape: Tape, digests: map<Cursor, nat>) {
    && (forall i: nat :: Selected(tape, i) ==> i < |tape| && tape[i].entry.cursor in digests && digests[tape[i].entry.cursor] == tape[i].entry.event.digest)
    && (forall c :: c in digests ==> exists i: nat :: Selected(tape, i) && i < |tape| && tape[i].entry.cursor == c)
  }

  ghost predicate HasReceipts(tape: Tape, receipts: set<nat>) {
    && (forall i: nat, t: nat :: Survives(tape, i) && Commits(tape, i, t) ==> t < |tape| && tape[t].entry.index in receipts)
    && (forall x :: x in receipts ==> exists i: nat, t: nat :: Survives(tape, i) && Commits(tape, i, t) && t < |tape| && tape[t].entry.index == x)
  }

  /** `p` is the projection of an accepted journal. */
  ghost predicate IsProjection(tape: Tape, p: Projection) {
    && HasCandidates(tape, p.candidates) && HasDependencies(tape, p.dependencies)
    && HasDigests(tape, p.digests) && HasReceipts(tape, p.receipts)
  }

  ghost predicate SelectedSet(tape: Tape, s: set<nat>) { forall i: nat :: i in s <==> Selected(tape, i) }

  lemma SelectedHaveMessages(tape: Tape, i: nat)
    requires Selected(tape, i)
    ensures HasMessage(tape, i)
  {}

  // ----- Putting it in order ------------------------------------------------------------------------------

  ghost predicate InJournalOrder(tape: Tape, order: seq<nat>) {
    && (forall k :: 0 <= k < |order| ==> order[k] < |tape|)
    && (forall k, l :: 0 <= k < l < |order| ==> At(tape, order[k]) < At(tape, order[l]))
  }

  ghost predicate ByCursor(tape: Tape, chosen: set<nat>, byCursor: map<Cursor, nat>) {
    && (forall i :: i in chosen ==> i < |tape| && tape[i].entry.cursor in byCursor && byCursor[tape[i].entry.cursor] == i)
    && (forall c :: c in byCursor ==> byCursor[c] in chosen && byCursor[c] < |tape| && tape[byCursor[c]].entry.cursor == c)
  }

  function Lookup(byCursor: map<Cursor, nat>, order: seq<Cursor>): (r: seq<nat>)
    requires forall c :: c in order ==> c in byCursor
    ensures |r| == |order| && forall k :: 0 <= k < |order| ==> r[k] == byCursor[order[k]]
  { seq(|order|, k requires 0 <= k < |order| => byCursor[order[k]]) }

  /** Collecting by cursor and sorting by sequence number. */
  method SortedIndexes(tape: Tape, chosen: set<nat>) returns (order: seq<nat>)
    requires NumbersApart(tape) && forall i :: i in chosen ==> i < |tape|
    ensures InJournalOrder(tape, order) && forall i :: i in order <==> i in chosen
  {
    var todo := chosen;
    var byCursor: map<Cursor, nat> := map[];
    while todo != {}
      invariant todo <= chosen && ByCursor(tape, chosen - todo, byCursor)
      decreases todo
    {
      var i :| i in todo;
      assert tape[i].entry.cursor !in byCursor;
      byCursor := byCursor[tape[i].entry.cursor := i];
      todo := todo - {i};
    }
    assert chosen - {} == chosen;
    var keys := ListOf(byCursor.Keys);
    BeforeIsStrictTotal();
    SortUniqueOk(BeforeFn(), keys);
    LookupOk(tape, chosen, byCursor, SortUnique(BeforeFn(), keys));
    order := Lookup(byCursor, SortUnique(BeforeFn(), keys));
  }

  lemma LookupOk(tape: Tape, chosen: set<nat>, byCursor: map<Cursor, nat>, sorted: seq<Cursor>)
    requires NumbersApart(tape) && ByCursor(tape, chosen, byCursor)
    requires Increasing(BeforeFn(), sorted) && forall c :: c in sorted <==> c in byCursor
    ensures InJournalOrder(tape, Lookup(byCursor, sorted)) && forall i :: i in Lookup(byCursor, sorted) <==> i in chosen
  {
    var order := Lookup(byCursor, sorted);
    forall k | 0 <= k < |order| ensures order[k] in chosen && order[k] < |tape| && tape[order[k]].entry.cursor == sorted[k] {
      assert sorted[k] in byCursor;
    }
    forall k, l | 0 <= k < l < |order| ensures At(tape, order[k]) < At(tape, order[l]) {
      assert BeforeFn()(sorted[k], sorted[l]);
      assert Distinct(sorted[k], sorted[l]);
    }
    forall i | i in chosen ensures i in order {
      assert tape[i].entry.cursor in sorted;
      var k :| 0 <= k < |sorted| && sorted[k] == tape[i].entry.cursor;
      assert order[k] == i;
    }
  }

  function CandidatesAt(tape: Tape, order: seq<nat>): (r: seq<Candidate>)
    requires forall k :: 0 <= k < |order| ==> HasMessage(tape, order[k])
    ensures |r| == |order| && forall k :: 0 <= k < |order| ==> r[k] == CandidateAt(tape, order[k])
  { seq(|order|, k requires 0 <= k < |order| => CandidateAt(tape, order[k])) }

  function DependenciesAt(tape: Tape, order: seq<nat>, commits: map<nat, nat>): (r: seq<Dependency>)
    requires forall k :: 0 <= k < |order| ==> order[k] in commits && Receipted(tape, order[k], commits[order[k]])
    ensures |r| == |order| && forall k :: 0 <= k < |order| ==> r[k] == DependencyAt(tape, order[k], commits[order[k]])
  { seq(|order|, k requires 0 <= k < |order| => DependencyAt(tape, order[k], commits[order[k]])) }

  /** The transcript and its digests, in journal order. */
  method Transcript(tape: Tape, chosen: set<nat>) returns (candidates: seq<Candidate>, digests: map<Cursor, nat>)
    requires NumbersApart(tape) && SelectedSet(tape, chosen)
    ensures HasCandidates(tape, candidates) && HasDigests(tape, digests)
  {
    forall i | i in chosen ensures HasMessage(tape, i) { SelectedHaveMessages(tape, i); }
    var order := SortedIndexes(tape, chosen);
    candidates := CandidatesAt(tape, order);
    digests := map[];
    for k := 0 to |order|
      invariant forall l :: 0 <= l < k ==> tape[order[l]].entry.cursor in digests && digests[tape[order[l]].entry.cursor] == tape[order[l]].entry.event.digest
      invariant forall c :: c in digests ==> exists l :: 0 <= l < k && tape[order[l]].entry.cursor == c
    {
      digests := digests[tape[order[k]].entry.cursor := tape[order[k]].entry.event.digest];
    }
    TranscriptOk(tape, chosen, order);
    DigestsOk(tape, chosen, order, digests);
  }

  lemma TranscriptOk(tape: Tape, chosen: set<nat>, order: seq<nat>)
    requires SelectedSet(tape, chosen) && InJournalOrder(tape, order) && forall i :: i in order <==> i in chosen
    requires forall k :: 0 <= k < |order| ==> HasMessage(tape, order[k])
    ensures HasCandidates(tape, CandidatesAt(tape, order))
  {
    var candidates := CandidatesAt(tape, order);
    forall i: nat | Selected(tape, i) ensures HasMessage(tape, i) && CandidateAt(tape, i) in candidates {
      assert i in order;
      var k :| 0 <= k < |order| && order[k] == i;
      assert candidates[k] == CandidateAt(tape, i);
    }
    forall c | c in candidates ensures exists i: nat :: Selected(tape, i) && HasMessage(tape, i) && c == CandidateAt(tape, i) {
      var k :| 0 <= k < |candidates| && candidates[k] == c;
      assert order[k] in chosen;
    }
  }

  lemma DigestsOk(tape: Tape, chosen: set<nat>, order: seq<nat>, digests: map<Cursor, nat>)
    requires SelectedSet(tape, chosen) && InJournalOrder(tape, order) && forall i :: i in order <==> i in chosen
    requires forall l :: 0 <= l < |order| ==> tape[order[l]].entry.cursor in digests && digests[tape[order[l]].entry.cursor] == tape[order[l]].entry.event.digest
    requires forall c :: c in digests ==> exists l :: 0 <= l < |order| && tape[order[l]].entry.cursor == c
    ensures HasDigests(tape, digests)
  {
    forall i: nat | Selected(tape, i)
      ensures i < |tape| && tape[i].entry.cursor in digests && digests[tape[i].entry.cursor] == tape[i].entry.event.digest
    {
      assert i in order;
    }
    forall c | c in digests ensures exists i: nat :: Selected(tape, i) && i < |tape| && tape[i].entry.cursor == c {
      var l :| 0 <= l < |order| && tape[order[l]].entry.cursor == c;
      assert order[l] in chosen;
    }
  }

  ghost predicate SurvivorSet(tape: Tape, s: set<nat>) { forall i: nat :: i in s <==> Survives(tape, i) }

  /** One receipt per surviving final message. */
  method ReceiptsFor(tape: Tape, survivors: set<nat>, commits: map<nat, nat>) returns (ds: seq<Dependency>, receipts: set<nat>)
    requires NumbersApart(tape) && Rooted(tape) && Orderly(tape) && SurvivorSet(tape, survivors) && CommitsUpTo(tape, |tape|, commits)
    ensures HasDependencies(tape, ds) && HasReceipts(tape, receipts)
  {
    forall i | i in survivors ensures i in commits && Commits(tape, i, commits[i]) && Receipted(tape, i, commits[i]) {
      SurvivorCommits(tape, commits, i);
    }
    var order := SortedIndexes(tape, survivors);
    ds := DependenciesAt(tape, order, commits);
    receipts := set i | i in survivors :: tape[commits[i]].entry.index;
    CommitUnique(tape);
    DependenciesAtOk(tape, survivors, commits, order);
  }

  lemma SurvivorCommits(tape: Tape, commits: map<nat, nat>, i: nat)
    requires Rooted(tape) && CommitsUpTo(tape, |tape|, commits) && Survives(tape, i)
    ensures i in commits && Commits(tape, i, commits[i]) && Receipted(tape, i, commits[i])
  {
    var t: nat :| Commits(tape, i, t);
  }

  lemma CommitUnique(tape: Tape)
    requires Orderly(tape)
    ensures forall i: nat, t: nat, u: nat :: Commits(tape, i, t) && Commits(tape, i, u) ==> t == u
  {}

  lemma DependencyListed(tape: Tape, order: seq<nat>, commits: map<nat, nat>, i: nat)
    requires forall k :: 0 <= k < |order| ==> order[k] in commits && Receipted(tape, order[k], commits[order[k]])
    requires i in order
    ensures i in commits && Receipted(tape, i, commits[i]) && DependencyAt(tape, i, commits[i]) in DependenciesAt(tape, order, commits)
  {
    var k :| 0 <= k < |order| && order[k] == i;
    assert DependenciesAt(tape, order, commits)[k] == DependencyAt(tape, i, commits[i]);
  }

  lemma DependenciesAtOk(tape: Tape, survivors: set<nat>, commits: map<nat, nat>, order: seq<nat>)
    requires SurvivorSet(tape, survivors) && InJournalOrder(tape, order) && forall i :: i in order <==> i in survivors
    requires forall i :: i in survivors ==> i in commits && Commits(tape, i, commits[i]) && Receipted(tape, i, commits[i])
    requires forall i: nat, t: nat, u: nat :: Commits(tape, i, t) && Commits(tape, i, u) ==> t == u
    ensures (forall k :: 0 <= k < |order| ==> order[k] in commits && Receipted(tape, order[k], commits[order[k]]))
    ensures HasDependencies(tape, DependenciesAt(tape, order, commits))
  {
    forall k | 0 <= k < |order| ensures order[k] in commits && Receipted(tape, order[k], commits[order[k]]) {
      assert order[k] in survivors;
    }
    var ds := DependenciesAt(tape, order, commits);
    forall i: nat, t: nat | Survives(tape, i) && Commits(tape, i, t) ensures Receipted(tape, i, t) && DependencyAt(tape, i, t) in ds {
      assert i in order && t == commits[i];
      DependencyListed(tape, order, commits, i);
    }
    forall d | d in ds ensures exists i: nat, t: nat :: Backs(tape, d, i, t) {
      var k :| 0 <= k < |ds| && ds[k] == d;
      assert order[k] in survivors;
      assert Backs(tape, d, order[k], commits[order[k]]);
    }
  }

  // ----- The whole projection -----------------------------------------------------------------------------

  lemma TapeFacts(j: Journal)
    requires Unique(j.entries)
    ensures NumbersApart(TapeOf(j)) && Rooted(TapeOf(j))
  {
    var tape := TapeOf(j);
    forall i, k | 0 <= i < |tape| && 0 <= k < |tape| && i != k ensures Distinct(tape[i].entry.cursor, tape[k].entry.cursor) {
      var (low, high) := if i < k then (i, k) else (k, i);
      assert Distinct(j.entries[low].cursor, j.entries[high].cursor);
    }
  }

  /** The passes in order. The later cursor and payload comparisons of the original cannot fail, because candidates
      are distinct validated events. */
  method ProjectJournal(j: Journal) returns (r: Result<Projection>)
    requires Unique(j.entries)
    ensures r.Ok? <==> Acceptable(TapeOf(j))
    ensures r.Ok? ==> IsProjection(TapeOf(j), r.value)
  {
    var tape := TapeOf(j);
    TapeFacts(j);
    var choice := ChooseEvents(tape);
    if choice.Rejected? { return Rejected; }
    var candidates, digests := Transcript(tape, choice.value.chosen);
    var ds, receipts := ReceiptsFor(tape, choice.value.survivors, choice.value.commits);
    r := Ok(Projection(candidates, receipts, digests, ds));
  }

  datatype Choice = Choice(chosen: set<nat>, survivors: set<nat>, commits: map<nat, nat>)

  ghost predicate IsChoice(tape: Tape, c: Choice) {
    SelectedSet(tape, c.chosen) && SurvivorSet(tape, c.survivors) && CommitsUpTo(tape, |tape|, c.commits)
  }

  /** All passes that decide which events the transcript takes. */
  method ChooseEvents(tape: Tape) returns (r: Result<Choice>)
    requires NumbersApart(tape)
    ensures r.Ok? <==> Acceptable(tape)
    ensures r.Ok? ==> IsChoice(tape, r.value)
  {
    var piles := ReadEvents(tape);
    if piles.Rejected? { return Rejected; }
    var p := piles.value;
    var messages := KeepMessages(tape, p);
    if messages.Rejected? { return Rejected; }
    var (kept, canonical) := messages.value;
    var finals := CommittedFinals(tape, p, canonical);
    if finals.Rejected? { return Rejected; }
    var (survivors, commits) := finals.value;
    ChosenAre(tape, kept + p.talk + survivors, p, survivors);
    r := Ok(Choice(kept + p.talk + survivors, survivors, commits));
  }

  /** The final messages of the transcript and the terminals that commit final messages. */
  method CommittedFinals(tape: Tape, p: Piles, canonical: set<Option<Id>>) returns (r: Result<(set<nat>, map<nat, nat>)>)
    requires NumbersApart(tape) && Orderly(tape) && p == PilesOf(tape, |tape|) && canonical == CanonicalAttempts(tape, |tape|)
    ensures r.Ok? <==> forall i: nat, t: nat :: Matched(tape, i, t)
    ensures r.Ok? ==> SurvivorSet(tape, r.value.0) && CommitsUpTo(tape, |tape|, r.value.1)
  {
    var latest := LatestFinals(tape, p, canonical);
    var commits := Qualify(tape, p, latest);
    if commits.Rejected? { return Rejected; }
    var newest := NewestPerSegment(tape, commits.value);
    SurvivorsAre(tape, commits.value, newest);
    r := Ok((newest.Values, commits.value));
  }

  lemma ChosenAre(tape: Tape, chosen: set<nat>, piles: Piles, survivors: set<nat>)
    requires piles == PilesOf(tape, |tape|) && chosen == StayingUpTo(tape, |tape|) + piles.talk + survivors
    requires SurvivorSet(tape, survivors)
    ensures SelectedSet(tape, chosen)
  {
    forall i: nat ensures i in chosen <==> Selected(tape, i) {}
  }
}
