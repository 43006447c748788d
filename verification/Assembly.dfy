/** `_assemble`: the messages a reduction starts from, and what that list guarantees. */
module Assembly {
  import opened Wrappers
  import opened ContextTypes
  import opened Checkpoints
  import opened ContextReduce
  import opened ReductionTheorems

  /** Every source message under its own index. */
  function Sources(ms: seq<Message>): (r: seq<Item>)
    ensures |r| == |ms| && forall i :: 0 <= i < |ms| ==> r[i] == Item(FromSource(i), ms[i])
  { seq(|ms|, i requires 0 <= i < |ms| => Item(FromSource(i), ms[i])) }

  function AsInjected(ms: seq<Message>): (r: seq<Item>)
    ensures |r| == |ms| && forall i :: 0 <= i < |ms| ==> r[i] == Item(Injected, ms[i])
  { seq(|ms|, i requires 0 <= i < |ms| => Item(Injected, ms[i])) }

  /** How many system messages stand at the beginning. */
  method LeadingSystems(ms: seq<Message>) returns (n: nat)
    ensures n <= |ms| && (forall i :: 0 <= i < n ==> ms[i].role == System) && (n < |ms| ==> ms[n].role != System)
  {
    n := 0;
    while n < |ms| && ms[n].role == System
      invariant n <= |ms| && forall i :: 0 <= i < n ==> ms[i].role == System
    {
      n := n + 1;
    }
  }

  function Assemble(ms: seq<Message>, leading: nat, injected: seq<Message>, tail: seq<Message>): seq<Item>
    requires leading <= |ms|
  {
    Sources(ms)[..leading] + AsInjected(injected) + Sources(ms)[leading..] + AsTail(tail)
  }

  method AssembleMessages(ms: seq<Message>, injected: seq<Message>, tail: seq<Message>) returns (items: seq<Item>, leading: nat)
    ensures leading <= |ms| && (forall i :: 0 <= i < leading ==> ms[i].role == System) && (leading < |ms| ==> ms[leading].role != System)
    ensures items == Assemble(ms, leading, injected, tail)
  {
    leading := LeadingSystems(ms);
    var source := Sources(ms);
    items := source[..leading] + AsInjected(injected) + source[leading..] + AsTail(tail);
  }

  // ----- What the list guarantees ------------------------------------------------------------------------

  /** Where an assembled message sits among the sources. */
  lemma AssembleAt(ms: seq<Message>, leading: nat, injected: seq<Message>, tail: seq<Message>, k: nat)
    requires leading <= |ms| && k < |Assemble(ms, leading, injected, tail)|
    ensures var (x, n) := (Assemble(ms, leading, injected, tail)[k], |injected|);
            if k < leading then x == Item(FromSource(k), ms[k])
            else if k < leading + n then x == Item(Injected, injected[k - leading])
            else if k < |ms| + n then x == Item(FromSource(k - n), ms[k - n])
            else x == Item(NativeTail, tail[k - |ms| - n])
  {}

  /** Every source message once, unchanged and in order, and no marker: nothing about a reduction's input is assumed. */
  lemma AssembleIsAssembled(in_: Input, leading: nat, injected: seq<Message>, tail: seq<Message>)
    requires leading <= |in_.manifest.messages| && in_.items == Assemble(in_.manifest.messages, leading, injected, tail)
    ensures Assembled(in_)
  {
    var (ms, items) := (in_.manifest.messages, in_.items);
    forall x | x in items
      ensures !x.tag.Marker? && (x.tag.FromSource? ==> x.tag.index < |ms| && x.message == ms[x.tag.index])
    {
      var k :| 0 <= k < |items| && items[k] == x;
      AssembleAt(ms, leading, injected, tail, k);
    }
    forall i | 0 <= i < |ms| ensures i in SourceSet(items) {
      var k := if i < leading then i else i + |injected|;
      AssembleAt(ms, leading, injected, tail, k);
      assert items[k] in items;
    }
    forall a, b | 0 <= a < b < |items| && items[a].tag.FromSource? && items[b].tag.FromSource?
      ensures items[a].tag.index < items[b].tag.index
    {
      AssembleAt(ms, leading, injected, tail, a);
      AssembleAt(ms, leading, injected, tail, b);
    }
  }

  lemma {:induction false} PickConcat(part: Part, a: seq<Item>, b: seq<Item>)
    ensures Pick(part, a + b) == Pick(part, a) + Pick(part, b)
  {
    if b == [] {
      assert a + b == a;
    } else {
      PickConcat(part, a, b[..|b| - 1]);
      assert (a + b)[..|a + b| - 1] == a + b[..|b| - 1];
    }
  }

  lemma {:induction false} PickNone(part: Part, items: seq<Item>)
    requires forall i :: 0 <= i < |items| ==> PartOf(items[i]) != part
    ensures Pick(part, items) == []
  {
    if items != [] { PickNone(part, items[..|items| - 1]); }
  }

  lemma {:induction false} PickAll(part: Part, items: seq<Item>)
    requires forall i :: 0 <= i < |items| ==> PartOf(items[i]) == part
    ensures Pick(part, items) == items
  {
    if items != [] {
      PickAll(part, items[..|items| - 1]);
      assert items[..|items| - 1] + [items[|items| - 1]] == items;
    }
  }

  /** The native tail of an assembled list is the native batch, so it is self-closed. */
  lemma AssembleTailClosed(ms: seq<Message>, leading: nat, injected: seq<Message>, ids: set<Id>, tail: seq<Message>)
    requires leading <= |ms| && NativeBatch(ids, tail).Some? && forall i :: 0 <= i < |tail| ==> tail[i].role != System
    ensures TailClosed(Assemble(ms, leading, injected, tail))
  {
    var front := Sources(ms)[..leading] + AsInjected(injected) + Sources(ms)[leading..];
    PickNone(TailPart, front);
    PickAll(TailPart, AsTail(tail));
    PickConcat(TailPart, front, AsTail(tail));
    assert Pick(TailPart, Assemble(ms, leading, injected, tail)) == AsTail(tail);
    NativeBatchIsClosed(ids, tail, Assemble(ms, leading, injected, tail));
  }
}
