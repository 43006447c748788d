/** The journal's projection onto a chat transcript: which events speak, which runs failed, and which final
    messages a later successful terminal event commits (`compiler.py`). Chat canonicalisation and the recognition
    of handoff records are parameters. */
module Journal {
  import opened Wrappers
  import opened ContextTypes
  import opened Checkpoints

  /** A field of an event: missing, of the wrong type, or usable. */
  datatype Field<T> = Absent | Bad | Value(value: T)

  /** Questions and answers are rendered as plain text, so they are canonical as they are. */
  datatype Kind =
    | UserMessage(message: Message, attachmentsOk: bool)
    | AssistantMessage(message: Message)
    | FinalMessage(content: Option<Message>)
    | Request(question: Option<Message>)
    | Resolution(answer: Option<Message>)
    | RunFailed
    | RunCompleted(succeeded: bool)
    | Unrelated

  datatype Event = Event(
    kind: Kind, attempt: Option<Id>, run: Option<Id>, parent: bool, toolWire: bool, failedState: bool,
    interaction: Option<Id>, node: Field<Id>, step: Field<int>, steps: Field<int>, iteration: Field<int>, digest: nat)

  // ----- Validated events ---------------------------------------------------------------------------

  /** An event as handed over: its cursor where it has a usable one, and whether its wrappers agree. */
  datatype RawEvent = RawEvent(cursor: Option<Cursor>, wrapperOk: bool, event: Event)

  datatype Entry = Entry(index: nat, cursor: Cursor, event: Event)

  ghost predicate WellFormed(raw: RawEvent) { raw.wrapperOk && raw.cursor.Some? && raw.cursor.value.at > 0 }

  /** Two events that share an id or a sequence number are the same event. */
  predicate SameOrApart(a: RawEvent, b: RawEvent)
    requires a.cursor.Some? && b.cursor.Some?
  { a.cursor.value.id == b.cursor.value.id || a.cursor.value.at == b.cursor.value.at ==> a == b }

  ghost predicate Replayable(raws: seq<RawEvent>) {
    && (forall i :: 0 <= i < |raws| ==> WellFormed(raws[i]))
    && (forall i, j :: 0 <= i < j < |raws| ==> SameOrApart(raws[i], raws[j]))
  }

  predicate Distinct(c: Cursor, d: Cursor) { c.id != d.id && c.at != d.at }

  ghost predicate Unique(entries: seq<Entry>) {
    && (forall i :: 0 <= i < |entries| ==> entries[i].cursor.at > 0)
    && (forall i, j :: 0 <= i < j < |entries| ==> Distinct(entries[i].cursor, entries[j].cursor))
  }

  ghost predicate Stems(raws: seq<RawEvent>, x: Entry) {
    x.index < |raws| && raws[x.index].cursor == Some(x.cursor) && raws[x.index].event == x.event
  }

  ghost predicate Listed(raw: RawEvent, entries: seq<Entry>) {
    exists k :: 0 <= k < |entries| && Some(entries[k].cursor) == raw.cursor && entries[k].event == raw.event
  }

  /** The first occurrence of every event, in order. */
  ghost predicate Deduplicates(raws: seq<RawEvent>, n: nat, entries: seq<Entry>)
    requires n <= |raws|
  {
    && Unique(entries)
    && (forall k :: 0 <= k < |entries| ==> entries[k].index < n && Stems(raws, entries[k]))
    && (forall k, l :: 0 <= k < l < |entries| ==> entries[k].index < entries[l].index)
    && (forall i :: 0 <= i < n ==> Listed(raws[i], entries))
  }

  /** The two dictionaries of the validation loop hold exactly the events read so far. */
  ghost predicate Indexed(raws: seq<RawEvent>, n: nat, ids: map<Id, RawEvent>, numbers: map<nat, RawEvent>)
    requires n <= |raws|
  {
    && (forall i :: 0 <= i < n ==> WellFormed(raws[i]))
    && (forall i :: 0 <= i < n ==> raws[i].cursor.value.id in ids && ids[raws[i].cursor.value.id] == raws[i])
    && (forall i :: 0 <= i < n ==> raws[i].cursor.value.at in numbers && numbers[raws[i].cursor.value.at] == raws[i])
    && (forall x :: x in ids ==> exists i :: 0 <= i < n && raws[i] == ids[x] && raws[i].cursor == Some(Cursor(x, raws[i].cursor.value.at)))
    && (forall x :: x in numbers ==> exists i :: 0 <= i < n && raws[i] == numbers[x] && raws[i].cursor == Some(Cursor(raws[i].cursor.value.id, x)))
  }

  /** `_validated_projection_events`: exact repetitions are dropped; anything else that reuses an id or a sequence
      number is refused. */
  method ValidateEvents(raws: seq<RawEvent>) returns (r: Result<seq<Entry>>)
    ensures r.Ok? <==> Replayable(raws)
    ensures r.Ok? ==> Deduplicates(raws, |raws|, r.value)
  {
    var entries: seq<Entry> := [];
    var ids: map<Id, RawEvent>, numbers: map<nat, RawEvent> := map[], map[];
    for i := 0 to |raws|
      invariant Read(raws, i, ids, numbers, entries)
    {
      var raw := raws[i];
      if !raw.wrapperOk || raw.cursor.None? || raw.cursor.value.at == 0 { return Rejected; }
      var (id, number) := (raw.cursor.value.id, raw.cursor.value.at);
      if (id in ids && ids[id] != raw) || (number in numbers && numbers[number] != raw) {
        Conflict(raws, i, ids, numbers);
        return Rejected;
      }
      ReadOne(raws, i, ids, numbers, entries);
      if id !in ids && number !in numbers { entries := entries + [Entry(i, raw.cursor.value, raw.event)]; }
      ids, numbers := ids[id := raw], numbers[number := raw];
    }
    IndexedIsReplayable(raws, ids, numbers);
    r := Ok(entries);
  }

  ghost predicate Read(raws: seq<RawEvent>, n: nat, ids: map<Id, RawEvent>, numbers: map<nat, RawEvent>, entries: seq<Entry>)
    requires n <= |raws|
  {
    Indexed(raws, n, ids, numbers) && Deduplicates(raws, n, entries)
  }

  lemma ReadOne(raws: seq<RawEvent>, i: nat, ids: map<Id, RawEvent>, numbers: map<nat, RawEvent>, entries: seq<Entry>)
    requires i < |raws| && Read(raws, i, ids, numbers, entries) && WellFormed(raws[i])
    requires var c := raws[i].cursor.value;
             (c.id in ids ==> ids[c.id] == raws[i]) && (c.at in numbers ==> numbers[c.at] == raws[i])
    ensures var c := raws[i].cursor.value;
            Read(raws, i + 1, ids[c.id := raws[i]], numbers[c.at := raws[i]],
                 if c.id !in ids && c.at !in numbers then entries + [Entry(i, c, raws[i].event)] else entries)
  {
    IndexNext(raws, i, ids, numbers);
    if raws[i].cursor.value.id in ids || raws[i].cursor.value.at in numbers {
      KnownIsListed(raws, i, ids, numbers, entries);
    } else {
      NewEntry(raws, i, ids, numbers, entries);
    }
  }

  lemma Conflict(raws: seq<RawEvent>, i: nat, ids: map<Id, RawEvent>, numbers: map<nat, RawEvent>)
    requires i < |raws| && Indexed(raws, i, ids, numbers) && WellFormed(raws[i])
    requires var c := raws[i].cursor.value;
             (c.id in ids && ids[c.id] != raws[i]) || (c.at in numbers && numbers[c.at] != raws[i])
    ensures !Replayable(raws)
  {
    var c := raws[i].cursor.value;
    var k: nat;
    if c.id in ids && ids[c.id] != raws[i] {
      k :| 0 <= k < i && raws[k] == ids[c.id] && raws[k].cursor == Some(Cursor(c.id, raws[k].cursor.value.at));
    } else {
      k :| 0 <= k < i && raws[k] == numbers[c.at] && raws[k].cursor == Some(Cursor(raws[k].cursor.value.id, c.at));
    }
    assert !SameOrApart(raws[k], raws[i]);
  }

  lemma KnownIsListed(raws: seq<RawEvent>, i: nat, ids: map<Id, RawEvent>, numbers: map<nat, RawEvent>, entries: seq<Entry>)
    requires i < |raws| && Indexed(raws, i, ids, numbers) && Deduplicates(raws, i, entries) && WellFormed(raws[i])
    requires var c := raws[i].cursor.value;
             (c.id in ids && ids[c.id] == raws[i]) || (c.at in numbers && numbers[c.at] == raws[i])
    ensures Deduplicates(raws, i + 1, entries)
  {
    assert exists k :: 0 <= k < i && raws[k] == raws[i];
    var k :| 0 <= k < i && raws[k] == raws[i];
    assert Listed(raws[k], entries);
  }

  lemma NewEntry(raws: seq<RawEvent>, i: nat, ids: map<Id, RawEvent>, numbers: map<nat, RawEvent>, entries: seq<Entry>)
    requires i < |raws| && Indexed(raws, i, ids, numbers) && Deduplicates(raws, i, entries) && WellFormed(raws[i])
    requires raws[i].cursor.value.id !in ids && raws[i].cursor.value.at !in numbers
    ensures Deduplicates(raws, i + 1, entries + [Entry(i, raws[i].cursor.value, raws[i].event)])
  {
    var x := Entry(i, raws[i].cursor.value, raws[i].event);
    var all := entries + [x];
    forall k | 0 <= k < |entries| ensures Distinct(entries[k].cursor, x.cursor) {
      assert Stems(raws, entries[k]) && WellFormed(raws[entries[k].index]);
    }
    forall m | 0 <= m < i + 1 ensures Listed(raws[m], all) {
      if m < i {
        assert Listed(raws[m], entries);
        var k :| 0 <= k < |entries| && Some(entries[k].cursor) == raws[m].cursor && entries[k].event == raws[m].event;
        assert all[k] == entries[k];
      } else {
        assert all[|entries|] == x;
      }
    }
  }

  lemma IndexNext(raws: seq<RawEvent>, i: nat, ids: map<Id, RawEvent>, numbers: map<nat, RawEvent>)
    requires i < |raws| && Indexed(raws, i, ids, numbers) && WellFormed(raws[i])
    requires var c := raws[i].cursor.value;
             (c.id in ids ==> ids[c.id] == raws[i]) && (c.at in numbers ==> numbers[c.at] == raws[i])
    ensures var c := raws[i].cursor.value; Indexed(raws, i + 1, ids[c.id := raws[i]], numbers[c.at := raws[i]])
  {}

  lemma IndexedIsReplayable(raws: seq<RawEvent>, ids: map<Id, RawEvent>, numbers: map<nat, RawEvent>)
    requires Indexed(raws, |raws|, ids, numbers)
    ensures Replayable(raws)
  {}

  // ----- What one event is --------------------------------------------------------------------------

  /** `bound`: the cursors source messages are already bound to. */
  datatype Journal = Journal(
    entries: seq<Entry>, bound: set<Cursor>, canon: (Message, Role) -> Option<Message>, plumbing: Message -> bool)

  datatype Class =
    | Invalid | Ignored
    | Says(role: Role, message: Message)
    | Asks(message: Message)
    | Replies(message: Message)
    | Ends(success: bool, last: bool, workflow: Workflow)
    | Concludes(message: Message, workflow: Workflow)

  /** `_workflow_identity`. */
  function WorkflowIdentity(e: Event): Result<Workflow> {
    var stepsOk := e.step.Value? && e.steps.Value? && e.steps.value > 0 && 0 <= e.step.value < e.steps.value;
    var stepless := e.step.Absent? && e.steps.Absent?;
    if e.node.Bad? || (!stepless && !stepsOk) || e.iteration.Bad? || (e.iteration.Value? && e.iteration.value < 0) then Rejected
    else if stepless && e.node.Value? then Rejected
    else Ok(Workflow(
      if e.node.Value? then Some(e.node.value) else None,
      if stepless then None else Some(e.step.value),
      if stepless then None else Some(e.steps.value),
      if e.iteration.Value? then Some(e.iteration.value) else None))
  }

  predicate LastStep(w: Workflow) {
    w.step.Some? ==> w.steps.Some? && w.step.value as int == w.steps.value - 1
  }

  predicate Root(e: Event) { e.attempt.Some? && e.run == e.attempt && !e.parent }

  predicate DeclaresScope(e: Event) { !e.node.Absent? || !e.step.Absent? || !e.steps.Absent? }

  function ClassifyUser(j: Journal, x: Entry): Class
    requires x.event.kind.UserMessage?
  {
    match j.canon(x.event.kind.message, User)
    case None => Invalid
    case Some(m) =>
      if !x.event.kind.attachmentsOk || DeclaresScope(x.event) then Invalid
      else if x.cursor !in j.bound && j.plumbing(m) then Ignored
      else Says(User, m)
  }

  function ClassifyAssistant(j: Journal, x: Entry): Class
    requires x.event.kind.AssistantMessage?
  {
    match j.canon(x.event.kind.message, Assistant)
    case None => Invalid
    case Some(m) =>
      match WorkflowIdentity(x.event)
      case Rejected => Invalid
      case Ok(w) => if !LastStep(w) || x.event.failedState then Ignored else Says(Assistant, m)
  }

  function ClassifyFinal(j: Journal, x: Entry): Class
    requires x.event.kind.FinalMessage?
  {
    if x.event.kind.content.None? || x.event.failedState then Ignored
    else
      match j.canon(x.event.kind.content.value, Assistant)
      case None => Invalid
      case Some(m) =>
        match WorkflowIdentity(x.event)
        case Rejected => Invalid
        case Ok(w) => if LastStep(w) then Concludes(m, w) else Ignored
  }

  function ClassifyTerminal(x: Entry, success: bool): Class {
    match WorkflowIdentity(x.event)
    case Rejected => Invalid
    case Ok(w) => Ends(success, LastStep(w), w)
  }

  /** The body of the first loop, for one event on its own. */
  function Classify(j: Journal, x: Entry): Class {
    var e := x.event;
    match e.kind
    case UserMessage(_, _) =>
      if e.toolWire || e.attempt.None? || e.run.None? then Invalid
      else if !Root(e) then Ignored
      else ClassifyUser(j, x)
    case AssistantMessage(_) =>
      if e.toolWire || e.attempt.None? || e.run.None? then Invalid
      else if !Root(e) then Ignored
      else ClassifyAssistant(j, x)
    case Request(None) => Ignored
    case Request(Some(q)) => Asks(q)
    case Resolution(None) => Ignored
    case Resolution(Some(a)) => Replies(a)
    case RunFailed => if Root(e) then ClassifyTerminal(x, false) else Ignored
    case RunCompleted(s) => if Root(e) then ClassifyTerminal(x, s) else Ignored
    case FinalMessage(_) => if e.toolWire then Invalid else if !Root(e) then Ignored else ClassifyFinal(j, x)
    case Unrelated => Ignored
  }
}
