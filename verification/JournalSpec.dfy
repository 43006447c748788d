/** Which journals are accepted and which events their transcript shows, in terms of the events' own fields. */
module JournalSpec {
  import opened Wrappers
  import opened ContextTypes
  import opened Checkpoints
  import opened Journal
  import opened JournalProjection
  import opened JournalTheorems

  // ----- One event ----------------------------------------------------------------------------------------------

  ghost predicate TopLevel(e: Event) { e.attempt != None && e.run == e.attempt && !e.parent }

  ghost predicate NoStep(e: Event) { e.step == Absent && e.steps == Absent }

  /** The workflow fields are usable: a step within its count, a node only with a step, an iteration that is not negative. */
  ghost predicate ScopeValid(e: Event) {
    && !e.node.Bad? && !e.iteration.Bad? && (e.iteration.Value? ==> e.iteration.value >= 0)
    && (NoStep(e) || (e.step.Value? && e.steps.Value? && 0 <= e.step.value < e.steps.value))
    && (NoStep(e) ==> e.node == Absent)
  }

  /** Not a step at all, or the last one. */
  ghost predicate LastOrNoStep(e: Event) { NoStep(e) || (e.step.Value? && e.steps.Value? && e.step.value == e.steps.value - 1) }

  ghost predicate SameScope(e: Event, f: Event) { e.node == f.node && e.step == f.step && e.steps == f.steps && e.iteration == f.iteration }

  lemma ScopeIs(e: Event)
    ensures WorkflowIdentity(e).Ok? <==> ScopeValid(e)
    ensures ScopeValid(e) ==>
              var w := WorkflowIdentity(e).value;
              && (LastStep(w) <==> LastOrNoStep(e))
              && w.node == (if e.node.Value? then Some(e.node.value) else None) && (w.step.Some? <==> !NoStep(e)) && (w.steps.Some? <==> !NoStep(e))
              && (!NoStep(e) ==> w.step.value as int == e.step.value && w.steps.value as int == e.steps.value)
              && (w.iteration.Some? <==> e.iteration.Value?) && (e.iteration.Value? ==> w.iteration.value as int == e.iteration.value)
  {}

  lemma SameScopeIs(e: Event, f: Event)
    requires ScopeValid(e) && ScopeValid(f)
    ensures WorkflowIdentity(e) == WorkflowIdentity(f) <==> SameScope(e, f)
  {
    ScopeIs(e);
    ScopeIs(f);
  }

  ghost predicate DeclaresStep(e: Event) { e.node != Absent || e.step != Absent || e.steps != Absent }

  ghost predicate Nameless(e: Event) { e.attempt == None || e.run == None }

  /** Events no transcript can be made with. */
  ghost predicate Malformed(j: Journal, x: Entry) {
    var e := x.event;
    match e.kind
    case UserMessage(m, attached) =>
      e.toolWire || Nameless(e) || (TopLevel(e) && (j.canon(m, User) == None || !attached || DeclaresStep(e)))
    case AssistantMessage(m) => e.toolWire || Nameless(e) || (TopLevel(e) && (j.canon(m, Assistant) == None || !ScopeValid(e)))
    case FinalMessage(Some(m)) =>
      e.toolWire || (TopLevel(e) && !e.failedState && (j.canon(m, Assistant) == None || !ScopeValid(e)))
    case FinalMessage(None) => e.toolWire
    case RunFailed => TopLevel(e) && !ScopeValid(e)
    case RunCompleted(_) => TopLevel(e) && !ScopeValid(e)
    case Request(_) => false
    case Resolution(_) => false
    case Unrelated => false
  }

  /** A user message of the top-level run that is not an unbound handoff record. */
  ghost predicate UserText(j: Journal, x: Entry) {
    x.event.kind.UserMessage? && TopLevel(x.event) && !UnboundHandoff(j, x)
  }

  /** Assistant text of a whole run or of its last step. */
  ghost predicate CanonicalText(x: Entry) {
    x.event.kind.AssistantMessage? && TopLevel(x.event) && LastOrNoStep(x.event) && !x.event.failedState
  }

  ghost predicate FinalText(x: Entry) {
    x.event.kind.FinalMessage? && x.event.kind.content != None && TopLevel(x.event) && LastOrNoStep(x.event) && !x.event.failedState
  }

  /** The end of a whole run or of its last step. */
  ghost predicate Terminal(x: Entry) {
    (x.event.kind == RunFailed || x.event.kind.RunCompleted?) && TopLevel(x.event) && LastOrNoStep(x.event)
  }

  /** A run or step that failed, was cancelled or completed without success. */
  ghost predicate BadEnd(x: Entry) {
    (x.event.kind == RunFailed || x.event.kind == RunCompleted(false)) && TopLevel(x.event)
  }

  /** What the first pass makes of an event is what its fields say. */
  lemma ClassIs(j: Journal, i: nat)
    requires i < |j.entries|
    ensures var (x, c) := (j.entries[i], TapeOf(j)[i].what);
            && (c.Invalid? <==> Malformed(j, x))
            && (!Malformed(j, x) ==>
                  && (c.Says? && c.role == User <==> UserText(j, x)) && (c.Says? && c.role != User <==> CanonicalText(x))
                  && (c.Concludes? <==> FinalText(x)) && (c.Ends? && c.last <==> Terminal(x)) && (c.Ends? && !c.success <==> BadEnd(x))
                  && (c.Ends? && c.last && c.success <==> Terminal(x) && x.event.kind == RunCompleted(true))
                  && (c.Asks? <==> x.event.kind.Request? && x.event.kind.question != None)
                  && (c.Replies? <==> x.event.kind.Resolution? && x.event.kind.answer != None))
  {
    ScopeIs(j.entries[i].event);
  }

  /** And so is the text. */
  lemma TextIs(j: Journal, i: nat)
    requires i < |j.entries| && !Malformed(j, j.entries[i]) && HasMessage(TapeOf(j), i)
    ensures var (k, m) := (j.entries[i].event.kind, CandidateAt(TapeOf(j), i).message);
            && (k.UserMessage? ==> j.canon(k.message, User) == Some(m)) && (k.AssistantMessage? ==> j.canon(k.message, Assistant) == Some(m))
            && (k.FinalMessage? ==> k.content != None && j.canon(k.content.value, Assistant) == Some(m))
            && (k.Request? ==> k.question == Some(m)) && (k.Resolution? ==> k.answer == Some(m))
  {
    ScopeIs(j.entries[i].event);
  }

  // ----- The events together --------------------------------------------------------------------------------------

  ghost predicate WellFormedEvents(j: Journal) { forall i :: 0 <= i < |j.entries| ==> !Malformed(j, j.entries[i]) }

  function Attempt(j: Journal, i: nat): Option<Id>
    requires i < |j.entries|
  { j.entries[i].event.attempt }

  function Number(j: Journal, i: nat): nat
    requires i < |j.entries|
  { j.entries[i].cursor.at }

  /** No run of the attempt ended badly. */
  ghost predicate Unharmed(j: Journal, a: Option<Id>) { forall e :: 0 <= e < |j.entries| && BadEnd(j.entries[e]) ==> Attempt(j, e) != a }

  ghost predicate HasCanonicalText(j: Journal, a: Option<Id>) { exists i :: 0 <= i < |j.entries| && CanonicalText(j.entries[i]) && Attempt(j, i) == a }

  /** A final message that may speak for its attempt: nothing failed, and there is no canonical text. */
  ghost predicate Speaks(j: Journal, i: nat) {
    i < |j.entries| && FinalText(j.entries[i]) && Unharmed(j, Attempt(j, i)) && !HasCanonicalText(j, Attempt(j, i))
  }

  ghost predicate NewestSpeaker(j: Journal, i: nat) {
    Speaks(j, i) && forall k: nat :: Speaks(j, k) && Attempt(j, k) == Attempt(j, i) ==> Number(j, k) <= Number(j, i)
  }

  /** A later successful end of the same attempt commits the newest final message. */
  ghost predicate CommittedAt(j: Journal, i: nat, t: nat) {
    && NewestSpeaker(j, i) && t < |j.entries| && Terminal(j.entries[t]) && j.entries[t].event.kind == RunCompleted(true)
    && Attempt(j, t) == Attempt(j, i) && Number(j, i) < Number(j, t)
  }

  ghost predicate IsCommitted(j: Journal, i: nat) { exists t: nat :: CommittedAt(j, i, t) }

  ghost predicate UserAfter(j: Journal, i: nat, k: nat)
    requires i < |j.entries| && k < |j.entries|
  { exists u: nat :: u < |j.entries| && UserText(j, j.entries[u]) && Number(j, i) < Number(j, u) <= Number(j, k) }

  /** The last committed final message before the next user message. */
  ghost predicate LastWord(j: Journal, i: nat) {
    IsCommitted(j, i) && forall k: nat :: IsCommitted(j, k) && Number(j, i) < Number(j, k) ==> UserAfter(j, i, k)
  }

  ghost predicate AsksFor(e: Event, x: Id) { e.kind.Request? && e.kind.question != None && e.interaction == Some(x) }

  /** A question, or an answer to a question asked before. */
  ghost predicate Dialogue(j: Journal, i: nat)
    requires i < |j.entries|
  {
    var e := j.entries[i].event;
    || (e.kind.Request? && e.kind.question != None)
    || (e.kind.Resolution? && e.kind.answer != None && e.interaction != None &&
        exists q :: 0 <= q < i && AsksFor(j.entries[q].event, e.interaction.value))
  }

  /** What a transcript shows. */
  ghost predicate Belongs(j: Journal, i: nat) {
    && i < |j.entries|
    && (|| UserText(j, j.entries[i])
        || (CanonicalText(j.entries[i]) && Unharmed(j, Attempt(j, i)))
        || Dialogue(j, i)
        || LastWord(j, i))
  }

  /** Which journals have a transcript: no malformed event, one end per attempt, no canonical text after it, and every committed
      final message in the scope of the end that commits it. */
  ghost predicate Projectable(j: Journal) {
    && WellFormedEvents(j)
    && (forall s: nat, t: nat :: s < |j.entries| && t < |j.entries| && Terminal(j.entries[s]) && Terminal(j.entries[t]) && Attempt(j, s) == Attempt(j, t) ==> s == t)
    && (forall i: nat, t: nat :: i < |j.entries| && t < |j.entries| && CanonicalText(j.entries[i]) && Terminal(j.entries[t]) && Attempt(j, i) == Attempt(j, t) ==>
          Number(j, i) <= Number(j, t))
    && (forall i: nat, t: nat :: CommittedAt(j, i, t) ==> SameScope(j.entries[i].event, j.entries[t].event))
  }

  // ----- The projection agrees --------------------------------------------------------------------------------------

  lemma EventsAgree(j: Journal)
    requires WellFormedEvents(j)
    ensures forall i: nat | i < |j.entries| ::
              && (UserSpeaks(TapeOf(j), i) <==> UserText(j, j.entries[i])) && (AssistantSpeaks(TapeOf(j), i) <==> CanonicalText(j.entries[i]))
              && (Concluding(TapeOf(j), i) <==> FinalText(j.entries[i])) && (Closes(TapeOf(j), i) <==> Terminal(j.entries[i]))
              && (Fails(TapeOf(j), i) <==> BadEnd(j.entries[i]))
  {
    forall i: nat | i < |j.entries|
      ensures (UserSpeaks(TapeOf(j), i) <==> UserText(j, j.entries[i])) && (AssistantSpeaks(TapeOf(j), i) <==> CanonicalText(j.entries[i]))
              && (Concluding(TapeOf(j), i) <==> FinalText(j.entries[i])) && (Closes(TapeOf(j), i) <==> Terminal(j.entries[i]))
              && (Fails(TapeOf(j), i) <==> BadEnd(j.entries[i]))
    {
      ClassIs(j, i);
    }
  }

  lemma FailuresAgree(j: Journal, a: Option<Id>)
    requires WellFormedEvents(j)
    ensures Failed(TapeOf(j), a) <==> !Unharmed(j, a)
  {
    var tape := TapeOf(j);
    EventsAgree(j);
    if Failed(tape, a) {
      var i: nat :| i < |tape| && Fails(tape, i) && AttemptAt(tape, i) == a;
      assert BadEnd(j.entries[i]);
    }
    if !Unharmed(j, a) {
      var e :| 0 <= e < |j.entries| && BadEnd(j.entries[e]) && Attempt(j, e) == a;
      assert Fails(tape, e) && AttemptAt(tape, e) == a;
    }
  }

  lemma CanonicalAgree(j: Journal, a: Option<Id>)
    requires WellFormedEvents(j)
    ensures a in CanonicalAttempts(TapeOf(j), |TapeOf(j)|) <==> HasCanonicalText(j, a) && Unharmed(j, a)
  {
    var tape := TapeOf(j);
    EventsAgree(j);
    FailuresAgree(j, a);
    if a in CanonicalAttempts(tape, |tape|) {
      var i: nat :| i < |tape| && Stays(tape, i) && AssistantSpeaks(tape, i) && AttemptAt(tape, i) == a;
      assert CanonicalText(j.entries[i]);
    }
    if HasCanonicalText(j, a) && Unharmed(j, a) {
      var i :| 0 <= i < |j.entries| && CanonicalText(j.entries[i]) && Attempt(j, i) == a;
      assert AssistantSpeaks(tape, i) && Stays(tape, i) && AttemptAt(tape, i) == a;
    }
  }

  lemma SpeakersAgree(j: Journal, i: nat)
    requires WellFormedEvents(j)
    ensures Eligible(TapeOf(j), i) <==> Speaks(j, i)
  {
    if i < |j.entries| {
      EventsAgree(j);
      FailuresAgree(j, Attempt(j, i));
      CanonicalAgree(j, Attempt(j, i));
    }
  }

  lemma NewestAgree(j: Journal, i: nat)
    requires WellFormedEvents(j)
    ensures LatestFinal(TapeOf(j), i) <==> NewestSpeaker(j, i)
  {
    forall k: nat ensures Eligible(TapeOf(j), k) <==> Speaks(j, k) { SpeakersAgree(j, k); }
    if i < |j.entries| {
      forall k: nat | k < |j.entries| ensures AttemptAt(TapeOf(j), k) == Attempt(j, k) && At(TapeOf(j), k) == Number(j, k) {}
    }
  }

  lemma CommitsAgree(j: Journal, i: nat, t: nat)
    requires WellFormedEvents(j)
    ensures Commits(TapeOf(j), i, t) <==> CommittedAt(j, i, t)
  {
    NewestAgree(j, i);
    EventsAgree(j);
    if i < |j.entries| && t < |j.entries| {
      ClassIs(j, t);
      assert AttemptAt(TapeOf(j), i) == Attempt(j, i) && AttemptAt(TapeOf(j), t) == Attempt(j, t);
    }
  }

  lemma QualifiedAgree(j: Journal, i: nat)
    requires WellFormedEvents(j)
    ensures Qualified(TapeOf(j), i) <==> IsCommitted(j, i)
  {
    forall t: nat ensures Commits(TapeOf(j), i, t) <==> CommittedAt(j, i, t) { CommitsAgree(j, i, t); }
  }

  lemma UsersAgree(j: Journal, i: nat, k: nat)
    requires WellFormedEvents(j) && i < |j.entries| && k < |j.entries|
    ensures UserBetween(TapeOf(j), i, k) <==> UserAfter(j, i, k)
  {
    var tape := TapeOf(j);
    EventsAgree(j);
    if UserBetween(tape, i, k) {
      var u: nat :| UserSpeaks(tape, u) && At(tape, i) < At(tape, u) <= At(tape, k);
      assert UserText(j, j.entries[u]);
    }
    if UserAfter(j, i, k) {
      var u: nat :| u < |j.entries| && UserText(j, j.entries[u]) && Number(j, i) < Number(j, u) <= Number(j, k);
      assert UserSpeaks(tape, u);
    }
  }

  lemma LastWordAgrees(j: Journal, i: nat)
    requires WellFormedEvents(j)
    ensures Survives(TapeOf(j), i) <==> LastWord(j, i)
  {
    var tape := TapeOf(j);
    forall k: nat ensures Qualified(tape, k) <==> IsCommitted(j, k) { QualifiedAgree(j, k); }
    if i < |j.entries| {
      forall k: nat | k < |j.entries| ensures UserBetween(tape, i, k) <==> UserAfter(j, i, k) { UsersAgree(j, i, k); }
      forall k: nat | k < |j.entries| ensures At(tape, k) == Number(j, k) {}
      forall k: nat | Qualified(tape, k) ensures k < |j.entries| {}
    }
  }

  lemma AskedAgrees(j: Journal, i: nat, x: Id)
    requires WellFormedEvents(j) && i <= |j.entries|
    ensures x in Asked(TapeOf(j), i) <==> exists q :: 0 <= q < i && AsksFor(j.entries[q].event, x)
  {
    var tape := TapeOf(j);
    if x in Asked(tape, i) {
      var q: nat :| q < i && x in AsksAbout(tape, q);
      ClassIs(j, q);
      assert AsksFor(j.entries[q].event, x);
    }
    if q :| 0 <= q < i && AsksFor(j.entries[q].event, x) {
      ClassIs(j, q);
      assert x in AsksAbout(tape, q);
    }
  }

  lemma DialogueAgrees(j: Journal, i: nat)
    requires WellFormedEvents(j) && i < |j.entries|
    ensures Talks(TapeOf(j), i) <==> Dialogue(j, i)
  {
    ClassIs(j, i);
    var e := j.entries[i].event;
    if e.interaction.Some? { AskedAgrees(j, i, e.interaction.value); }
  }

  lemma BelongsAgrees(j: Journal, i: nat)
    requires WellFormedEvents(j)
    ensures Selected(TapeOf(j), i) <==> Belongs(j, i)
  {
    LastWordAgrees(j, i);
    if i < |j.entries| {
      EventsAgree(j);
      DialogueAgrees(j, i);
      FailuresAgree(j, Attempt(j, i));
    }
  }

  lemma OrderlyAgrees(j: Journal)
    requires WellFormedEvents(j)
    ensures Orderly(TapeOf(j)) <==>
              && (forall s: nat, t: nat :: s < |j.entries| && t < |j.entries| && Terminal(j.entries[s]) && Terminal(j.entries[t]) && Attempt(j, s) == Attempt(j, t) ==> s == t)
              && (forall i: nat, t: nat :: i < |j.entries| && t < |j.entries| && CanonicalText(j.entries[i]) && Terminal(j.entries[t]) && Attempt(j, i) == Attempt(j, t) ==>
                    Number(j, i) <= Number(j, t))
  {
    EventsAgree(j);
    forall k: nat | k < |j.entries| ensures AttemptAt(TapeOf(j), k) == Attempt(j, k) && At(TapeOf(j), k) == Number(j, k) {}
  }

  lemma MatchedAgrees(j: Journal, i: nat, t: nat)
    requires WellFormedEvents(j)
    ensures Matched(TapeOf(j), i, t) <==> (CommittedAt(j, i, t) ==> SameScope(j.entries[i].event, j.entries[t].event))
  {
    CommitsAgree(j, i, t);
    if CommittedAt(j, i, t) {
      KindsOf(j, i);
      KindsOf(j, t);
      EventsAgree(j);
      ClassIs(j, t);
      ClassIs(j, i);
      ScopeIs(j.entries[i].event);
      ScopeIs(j.entries[t].event);
      SameScopeIs(j.entries[i].event, j.entries[t].event);
    }
  }

  /** A journal is accepted exactly when it is projectable. */
  lemma AcceptedExactly(j: Journal)
    ensures Acceptable(TapeOf(j)) <==> Projectable(j)
  {
    var tape := TapeOf(j);
    forall i: nat | i < |j.entries| ensures tape[i].what.Invalid? <==> Malformed(j, j.entries[i]) { ClassIs(j, i); }
    if WellFormedEvents(j) {
      OrderlyAgrees(j);
      forall i: nat, t: nat ensures Matched(tape, i, t) <==> (CommittedAt(j, i, t) ==> SameScope(j.entries[i].event, j.entries[t].event)) {
        MatchedAgrees(j, i, t);
      }
    }
  }

  /** Its transcript shows exactly the events that belong to it. */
  lemma ShownExactly(j: Journal, p: Projection, i: nat)
    requires Unique(j.entries) && Projectable(j) && IsProjection(TapeOf(j), p) && i < |j.entries|
    ensures Shown(j, p, i) <==> Belongs(j, i)
  {
    ShownAreSelected(j, p);
    BelongsAgrees(j, i);
  }

  /** Each with its own canonical text. */
  lemma ShownText(j: Journal, p: Projection, i: nat)
    requires Projectable(j) && IsProjection(TapeOf(j), p) && i < |j.entries| && Belongs(j, i)
    ensures exists k :: 0 <= k < |p.candidates| && p.candidates[k].cursor == j.entries[i].cursor && TextOf(j, i, p.candidates[k].message)
  {
    var tape := TapeOf(j);
    assert WellFormedEvents(j);
    assert Selected(tape, i) by { BelongsAgrees(j, i); }
    var k := CandidateOf(tape, p.candidates, i);
    OwnText(j, i);
  }

  lemma OwnText(j: Journal, i: nat)
    requires i < |j.entries| && !Malformed(j, j.entries[i]) && HasMessage(TapeOf(j), i)
    ensures CandidateAt(TapeOf(j), i).cursor == j.entries[i].cursor && TextOf(j, i, CandidateAt(TapeOf(j), i).message)
  {
    TextIs(j, i);
    KindsWithText(j, i);
  }

  lemma KindsWithText(j: Journal, i: nat)
    requires i < |j.entries| && HasMessage(TapeOf(j), i)
    ensures var k := j.entries[i].event.kind; k.UserMessage? || k.AssistantMessage? || k.FinalMessage? || k.Request? || k.Resolution?
  {}

  lemma CandidateOf(tape: Tape, candidates: seq<Candidate>, i: nat) returns (k: nat)
    requires HasCandidates(tape, candidates) && Selected(tape, i)
    ensures HasMessage(tape, i) && k < |candidates| && candidates[k] == CandidateAt(tape, i)
  {
    var c := CandidateAt(tape, i);
    assert c in candidates;
    k :| 0 <= k < |candidates| && candidates[k] == c;
  }

  /** The text an event contributes. */
  ghost predicate TextOf(j: Journal, i: nat, m: Message)
    requires i < |j.entries|
  {
    match j.entries[i].event.kind
    case UserMessage(text, _) => j.canon(text, User) == Some(m)
    case AssistantMessage(text) => j.canon(text, Assistant) == Some(m)
    case FinalMessage(Some(text)) => j.canon(text, Assistant) == Some(m)
    case Request(text) => text == Some(m)
    case Resolution(text) => text == Some(m)
    case _ => false
  }

  // ----- Receipts and digests ---------------------------------------------------------------------------------------

  /** The receipt of a final message: the end that commits it, in its scope and with its digest. */
  ghost predicate ReceiptFor(j: Journal, d: Dependency, i: nat, t: nat) {
    && LastWord(j, i) && CommittedAt(j, i, t)
    && d.source == j.entries[i].cursor && d.receipt == j.entries[t].cursor && d.successful && Some(d.attempt) == Attempt(j, i)
    && d.digest == j.entries[t].event.digest && Ok(d.workflow) == WorkflowIdentity(j.entries[i].event)
  }

  lemma ReceiptIs(j: Journal, d: Dependency, i: nat, t: nat)
    requires Projectable(j)
    ensures Backs(TapeOf(j), d, i, t) <==> ReceiptFor(j, d, i, t)
  {
    LastWordAgrees(j, i);
    CommitsAgree(j, i, t);
    if CommittedAt(j, i, t) {
      KindsOf(j, i);
      KindsOf(j, t);
      EventsAgree(j);
      ClassIs(j, i);
    }
  }

  /** The transcript has one receipt for every final message it shows, and no other. */
  lemma ReceiptsExactly(j: Journal, p: Projection)
    requires Projectable(j) && IsProjection(TapeOf(j), p)
    ensures forall d :: d in p.dependencies <==> exists i: nat, t: nat :: ReceiptFor(j, d, i, t)
  {
    forall d | d in p.dependencies ensures exists i: nat, t: nat :: ReceiptFor(j, d, i, t) {
      var i, t := BackOf(TapeOf(j), p.dependencies, d);
      ReceiptIs(j, d, i, t);
    }
    forall d, i: nat, t: nat | ReceiptFor(j, d, i, t) ensures d in p.dependencies {
      ReceiptIs(j, d, i, t);
      BackedIsListed(TapeOf(j), p.dependencies, d, i, t);
    }
  }

  lemma BackedIsListed(tape: Tape, ds: seq<Dependency>, d: Dependency, i: nat, t: nat)
    requires HasDependencies(tape, ds) && Backs(tape, d, i, t)
    ensures d in ds
  {}

  /** Digests are kept for exactly the shown events, and are theirs. */
  lemma DigestsExactly(j: Journal, p: Projection, i: nat)
    requires Unique(j.entries) && Projectable(j) && IsProjection(TapeOf(j), p) && i < |j.entries|
    ensures Belongs(j, i) ==> j.entries[i].cursor in p.digests && p.digests[j.entries[i].cursor] == j.entries[i].event.digest
    ensures j.entries[i].cursor in p.digests ==> Belongs(j, i)
  {
    BelongsAgrees(j, i);
    TapeFacts(j);
    DigestIs(TapeOf(j), p.digests, i);
  }

  lemma DigestIs(tape: Tape, digests: map<Cursor, nat>, i: nat)
    requires NumbersApart(tape) && HasDigests(tape, digests) && i < |tape|
    ensures Selected(tape, i) ==> tape[i].entry.cursor in digests && digests[tape[i].entry.cursor] == tape[i].entry.event.digest
    ensures tape[i].entry.cursor in digests ==> Selected(tape, i)
  {
    if tape[i].entry.cursor in digests {
      var k: nat :| Selected(tape, k) && k < |tape| && tape[k].entry.cursor == tape[i].entry.cursor;
      assert !Distinct(tape[k].entry.cursor, tape[i].entry.cursor);
    }
  }
}
