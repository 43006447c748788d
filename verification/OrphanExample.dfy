/** An input on which the orphan guard of `_reduce` fires although the native tail is self-closed. */
module OrphanExample {
  import opened Wrappers
  import opened ContextTypes
  import opened Checkpoints
  import opened ContextReduce
  import opened ReductionTheorems
  import opened Assembly

  /** A system message that repeats a tool call, the exchange itself, and the current question. */
  const RULES := Message(System, false, false, false, {1}, {}, 0)
  const ASKED := Message(Assistant, false, false, false, {1}, {}, 1)
  const FOUND := Message(Tool, false, false, false, {}, {1}, 2)
  const NOW := Message(User, true, false, false, {}, {}, 3)

  const HISTORY := Manifest([RULES, ASKED, FOUND, NOW], map[1 := Cursor(1, 1), 2 := Cursor(2, 2)], map[], [], (c: Cursor, m: Message) => 0)

  const ANY_SIZE := Env(
    (ms: seq<Message>) => 0, (m: Message) => Some(m), (m: Message) => m,
    (r: Ref, q: Request, n: nat) => Message(Assistant, false, false, false, {}, {}, 4), Ref(true, false, 0))

  lemma ExchangeCheckpoints()
    ensures RequestFor(HISTORY, [1, 2]).Ok?
  {
    assert Cursors(HISTORY, [1, 2]) == [Cursor(1, 1), Cursor(2, 2)];
    assert Relevant([], [Cursor(1, 1), Cursor(2, 2)]) == [];
  }

  /** The history above, bound to the checkpoint that covers the exchange. */
  ghost function Repeating(): Input {
    ExchangeCheckpoints();
    Input(Sources(HISTORY.messages), HISTORY, 1, Some(Binding(Ref(true, false, 7), RequestFor(HISTORY, [1, 2]).value)), 0, NoResolver)
  }

  // ----- The plan, from what matters about the four messages ----------------------------------------------------

  ghost predicate Ids(x: Item, calls: set<Id>, results: set<Id>) { x.message.calls == calls && x.message.results == results && !x.message.pinned }

  ghost predicate Shape(items: seq<Item>) {
    && |items| == 4 && PartOf(items[0]) == SystemPart
    && PartOf(items[1]) == TurnPart && PartOf(items[2]) == TurnPart && PartOf(items[3]) == TurnPart
    && (forall i :: 0 <= i < 4 ==> items[i].tag == FromSource(i))
    && !items[2].message.human && items[3].message.human
    && Ids(items[0], {1}, {}) && Ids(items[1], {1}, {}) && Ids(items[2], {}, {1}) && Ids(items[3], {}, {})
  }

  lemma Parts(items: seq<Item>)
    requires Shape(items)
    ensures Pick(SystemPart, items) == [items[0]] && Pick(InjectedPart, items) == [] && Pick(TailPart, items) == []
    ensures Pick(TurnPart, items) == [items[1], items[2], items[3]]
  {
    var (first, rest) := ([items[0]], [items[1], items[2], items[3]]);
    assert items == first + rest;
    PickAll(SystemPart, first);
    PickNone(SystemPart, rest);
    PickConcat(SystemPart, first, rest);
    PickNone(TurnPart, first);
    PickAll(TurnPart, rest);
    PickConcat(TurnPart, first, rest);
    PickNone(InjectedPart, items);
    PickNone(TailPart, items);
  }

  lemma TwoTurns(a: Item, b: Item, c: Item)
    requires !b.message.human && c.message.human
    ensures Turns([a, b, c]) == [[a, b], [c]]
  {
    var (one, two, three) := ([a], [a, b], [a, b, c]);
    assert one[..0] == [] && two[..1] == one && three[..2] == two;
    TurnsStep(one);
    TurnsStep(two);
    TurnsStep(three);
    assert Turns(one) == [[a]];
    assert [a] + [b] == two;
    assert Turns(two) == [[a]][..0] + [two] == [two];
    assert [two] + [[c]] == [two, [c]];
  }

  lemma Pairs(items: seq<Item>)
    requires Shape(items)
    ensures ClosedPairs(items) == {1} && OpenPairs(items) == {}
  {
    Parts(items);
    var body := Body(items);
    assert body == [items[1], items[2], items[3]];
    assert CallsIn(body) == {1} by { assert items[1] in body; }
    assert ResultsIn(body) == {1} by { assert items[2] in body; }
  }

  /** The exchange is one droppable turn, the question the kept one. */
  lemma ExchangeDroppable(a: Item, b: Item, c: Item)
    requires Ids(a, {1}, {}) && Ids(b, {}, {1}) && Ids(c, {}, {})
    ensures var turns := [[a, b], [c]];
            TurnsOf(turns, 1) == {0} && MustKeep(turns, {}) == {1} && ClosureOf(turns, {1}, {1}) == {1}
  {
    var turns := [[a, b], [c]];
    assert Mentions(turns[0], 1) by { assert 1 in turns[0][0].message.calls; }
    assert TurnsOf(turns, 1) == {0};
    assert MustKeep(turns, {}) == {1};
    assert PairClosed(turns, {1}, {1});
    assert !InEveryClosure(turns, {1}, {1}, 0);
    assert InEveryClosure(turns, {1}, {1}, 1);
  }

  lemma ThePlanIs(items: seq<Item>)
    requires Shape(items)
    ensures var p := Views(items);
            && p.systems == [items[0]] && p.injected == [] && p.tail == [] && p.turns == [[items[1], items[2]], [items[3]]]
            && p.closed == {1} && p.pinned == {1} && TurnsOf(p.turns, 1) == {0} && !p.compacting
  {
    Parts(items);
    TwoTurns(items[1], items[2], items[3]);
    Pairs(items);
    ExchangeDroppable(items[1], items[2], items[3]);
  }

  lemma SuffixIs(p: Plan, items: seq<Item>)
    requires |items| == 4 && p.systems == [items[0]] && p.injected == [] && p.tail == [] && p.turns == [[items[1], items[2]], [items[3]]]
    ensures Flatten(p.turns[1..]) == [items[3]] && Suffix(p, 1) == [items[0], items[3]]
  {
    var last := p.turns[1..];
    assert last == [[items[3]]] && last[..0] == [];
    assert Flatten(last) == [] + [items[3]];
  }

  /** The cut before the question is admissible, and leaves one side of the pair. */
  lemma CutIsAdmissible(p: Plan, items: seq<Item>)
    requires Shape(items) && p == Views(items)
    ensures |p.turns| == 2 && !DropsPinned(p, 1) && !SplitsPair(p, 1) && Suffix(p, 1) == [items[0], items[3]]
    ensures SourceSet(Suffix(p, 1)) == {0, 3} && HeadOrphan(p, 1) && Transform(ANY_SIZE, p, Suffix(p, 1)) == Some(Suffix(p, 1))
  {
    ThePlanIs(items);
    SuffixIs(p, items);
    NothingInTheWay(p);
    KeptSources(Suffix(p, 1), items);
    LeavesOneSide(p, items);
  }

  lemma NothingInTheWay(p: Plan)
    requires |p.turns| == 2 && p.closed == {1} && p.pinned == {1} && TurnsOf(p.turns, 1) == {0} && !p.compacting
    ensures !DropsPinned(p, 1) && !SplitsPair(p, 1) && Transform(ANY_SIZE, p, Suffix(p, 1)) == Some(Suffix(p, 1))
  {}

  lemma KeptSources(suffix: seq<Item>, items: seq<Item>)
    requires Shape(items) && suffix == [items[0], items[3]]
    ensures SourceSet(suffix) == {0, 3}
  {
    assert suffix[0] in suffix && suffix[1] in suffix;
  }

  lemma LeavesOneSide(p: Plan, items: seq<Item>)
    requires Shape(items) && p.systems == [items[0]] && p.injected == [] && p.tail == [] && p.closed == {1} && |p.turns| == 2
    requires Flatten(p.turns[1..]) == [items[3]]
    ensures HeadOrphan(p, 1)
  {
    var head := p.systems + p.injected;
    assert head == [items[0]];
    assert 1 in CallsIn(head) by { assert head[0] in head; }
    assert 1 !in ResultsIn(head) && !Touches([items[3]], 1) && !Touches([], 1);
  }

  lemma OmittedExchange()
    ensures Omitted(4, {0, 3}) == [1, 2]
  {
    var kept := {0, 3};
    assert Omitted(1, kept) == [];
    assert Omitted(2, kept) == [1];
    assert Omitted(3, kept) == [1, 2];
  }

  lemma BoundCutSelected(p: Plan, in_: Input)
    requires in_ == Repeating() && |p.turns| == 2 && !DropsPinned(p, 1) && !SplitsPair(p, 1)
    requires Transform(ANY_SIZE, p, Suffix(p, 1)) == Some(Suffix(p, 1)) && SourceSet(Suffix(p, 1)) == {0, 3}
    ensures Try(ANY_SIZE, in_, p, 1).Select? && Try(ANY_SIZE, in_, p, 1).bound
  {
    var candidate := Suffix(p, 1);
    OmittedExchange();
    ExchangeCheckpoints();
    assert |HISTORY.messages| == 4;
    assert TryCandidate(ANY_SIZE, in_, p, 1, candidate) == TryRequest(ANY_SIZE, in_, p, 1, candidate, RequestFor(HISTORY, [1, 2]).value);
  }

  lemma RepeatingShape()
    ensures Shape(Repeating().items)
  {}

  lemma RepeatingAssembled()
    ensures Assembled(Repeating())
  {
    var items := Sources(HISTORY.messages);
    assert items == Assemble(HISTORY.messages, 1, [], []);
    AssembleIsAssembled(Repeating(), 1, [], []);
  }

  lemma HeadUnbalanced(items: seq<Item>)
    requires Shape(items)
    ensures TailClosed(items) && !HeadBalanced(items)
  {
    Parts(items);
    Pairs(items);
    var head := Head(items);
    assert head == [items[0]];
    assert 1 in CallsIn(head) by { assert head[0] in head; }
    assert 1 in CallsIn(head) * ClosedPairs(items) && 1 !in ResultsIn(head) * ClosedPairs(items);
  }

  lemma AnySizeIsLawful()
    ensures Lawful(ANY_SIZE)
  {}

  /** The input is lawful and assembled and its cut is admissible; only the system message that repeats the call stands in
      the way. */
  lemma GuardFiresOnRepeatedCall()
    ensures Lawful(ANY_SIZE) && Assembled(Repeating()) && TailClosed(Repeating().items) && !HeadBalanced(Repeating().items)
    ensures Reduce(ANY_SIZE, Repeating()) == Failed(OrphanToolPair)
  {
    AnySizeIsLawful();
    RepeatingShape();
    RepeatingAssembled();
    HeadUnbalanced(Repeating().items);
    OrphanAnswer(Repeating(), Views(Repeating().items));
    OrphanGuardFires(ANY_SIZE, Repeating());
  }

  lemma OrphanAnswer(in_: Input, p: Plan)
    requires in_ == Repeating() && p == Views(in_.items) && Shape(in_.items)
    ensures |p.turns| == 2 && Answers(ANY_SIZE, in_, p, 1) && HeadOrphan(p, 1)
  {
    CutIsAdmissible(p, in_.items);
    BoundCutSelected(p, in_);
    FirstCutAnswers(in_, p);
  }

  lemma FirstCutAnswers(in_: Input, p: Plan)
    requires in_ == Repeating() && p == Views(in_.items) && |p.turns| == 2
    requires Try(ANY_SIZE, in_, p, 1).Select? && Try(ANY_SIZE, in_, p, 1).bound
    ensures Answers(ANY_SIZE, in_, p, 1)
  {
    assert Size(ANY_SIZE, Mandatory(p)) == 0;
    assert Scan(ANY_SIZE, in_, p, 1) == At(1, Try(ANY_SIZE, in_, p, 1));
  }
}
