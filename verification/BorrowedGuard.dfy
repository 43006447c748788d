/** A child session's view of its parent's guard (`_BorrowedExecutionGuard`): it may pause and end, but it only
    ever reads, verifies or renews the parent's lease. */
module BorrowedGuard {
  import opened Wrappers
  import opened ExecutionGuard

  datatype Borrowed = Borrowed(session: string, phase: Phase)

  datatype BorrowOp =
    | BorrowFence
    | BorrowAssert(reply: Reply)
    | BorrowRenew(reply: Reply)
    | BorrowRelease
    | BorrowWait(reply: Reply)
    | BorrowReacquire(revision: Option<int>, reply: Reply)

  function Project(session: string, outcome: Outcome): Outcome {
    if outcome.Holds? then Holds(outcome.lease.(execution := session)) else outcome
  }

  function BorrowBlocked(b: Borrowed): Option<Failure> {
    match b.phase
    case Active => None
    case Waiting => Some(ReleasedWhileWaiting)
    case Released => Some(GuardReleased)
  }

  /** The step of the view, the step it takes on the parent, and what the caller sees. */
  function BorrowStep(b: Borrowed, parent: Guard, op: BorrowOp): (Borrowed, Guard, Outcome) {
    match op
    case BorrowFence =>
      if BorrowBlocked(b).Some? then (b, parent, Failed(BorrowBlocked(b).value))
      else (b, parent, Step(parent, Fence).1)
    case BorrowAssert(reply) =>
      if BorrowBlocked(b).Some? then (b, parent, Failed(BorrowBlocked(b).value))
      else var (p, r) := Step(parent, AssertActive(reply)); (b, p, Project(b.session, r))
    case BorrowRenew(reply) =>
      if BorrowBlocked(b).Some? then (b, parent, Failed(BorrowBlocked(b).value))
      else var (p, r) := Step(parent, Renew(reply)); (b, p, Project(b.session, r))
    case BorrowRelease =>
      (b.(phase := Released), parent, Done)
    case BorrowWait(reply) =>
      if BorrowBlocked(b).Some? then (b, parent, Failed(BorrowBlocked(b).value))
      else
        var (p, r) := Step(parent, AssertActive(reply));
        if r.Failed? then (b, p, r) else (b.(phase := Waiting), p, Done)
    case BorrowReacquire(revision, reply) =>
      if revision.Some? && revision.value < 0 then (b, parent, Failed(InvalidRevision))
      else if b.phase != Waiting then (b, parent, Failed(NotWaiting))
      else
        var (p, r) := Step(parent, AssertActive(reply));
        if r.Failed? then (b, p, r) else (b.(phase := Active), p, Project(b.session, r))
  }

  class Borrower {
    const session: string
    const parent: LeaseGuard
    var phase: Phase

    ghost function State(): Borrowed
      reads this
    { Borrowed(session, phase) }

    constructor (parent: LeaseGuard, session: string)
      ensures this.parent == parent && State() == Borrowed(session, Active)
    {
      this.parent, this.session, phase := parent, session, Active;
    }

    function EnsureActive(): (blocked: Option<Failure>)
      reads this
      ensures blocked.None? <==> phase == Active
      ensures blocked == BorrowBlocked(State())
    {
      if phase == Active then None else Some(if phase == Waiting then ReleasedWhileWaiting else GuardReleased)
    }

    method GetFence() returns (r: Outcome)
      ensures (State(), parent.State(), r) == BorrowStep(State(), parent.State(), BorrowFence)
    {
      var blocked := EnsureActive();
      if blocked.Some? { return Failed(blocked.value); }
      r := parent.GetFence();
    }

    method DoAssert(reply: Reply) returns (r: Outcome)
      modifies parent
      ensures (State(), parent.State(), r) == BorrowStep(old(State()), old(parent.State()), BorrowAssert(reply))
    {
      var blocked := EnsureActive();
      if blocked.Some? { return Failed(blocked.value); }
      var p := parent.DoAssertActive(reply);
      r := Project(session, p);
    }

    method DoRenew(reply: Reply) returns (r: Outcome)
      modifies parent
      ensures (State(), parent.State(), r) == BorrowStep(old(State()), old(parent.State()), BorrowRenew(reply))
    {
      var blocked := EnsureActive();
      if blocked.Some? { return Failed(blocked.value); }
      var p := parent.DoRenew(reply);
      r := Project(session, p);
    }

    method DoRelease()
      modifies this
      ensures (State(), parent.State(), Done) == BorrowStep(old(State()), old(parent.State()), BorrowRelease)
    {
      phase := Released;
    }

    method DoWait(reply: Reply) returns (r: Outcome)
      modifies this, parent
      ensures (State(), parent.State(), r) == BorrowStep(old(State()), old(parent.State()), BorrowWait(reply))
    {
      var blocked := EnsureActive();
      if blocked.Some? { return Failed(blocked.value); }
      r := parent.DoAssertActive(reply);
      if r.Failed? { return; }
      phase := Waiting;
      r := Done;
    }

    method DoReacquire(revision: Option<int>, reply: Reply) returns (r: Outcome)
      modifies this, parent
      ensures (State(), parent.State(), r) == BorrowStep(old(State()), old(parent.State()), BorrowReacquire(revision, reply))
    {
      if revision.Some? && revision.value < 0 { return Failed(InvalidRevision); }
      if phase != Waiting { return Failed(NotWaiting); }
      var p := parent.DoAssertActive(reply);
      if p.Failed? { return p; }
      phase := Active;
      r := Project(session, p);
    }
  }

  /** `_borrow_execution_guard`: only the root session or a descendant `root:...` may borrow; `idOk` is the identifier
      syntax check. */
  method Borrow(idOk: string -> bool, parent: LeaseGuard, session: string, reply: Reply) returns (borrower: Option<Borrower>)
    modifies parent
    ensures borrower.Some? <==>
              && Step(old(parent.State()), Fence).1.Holds?
              && (session == old(parent.lease.execution) || old(parent.lease.execution) + ":" <= session)
              && idOk(session)
              && Step(old(parent.State()), AssertActive(reply)).1.Holds?
    ensures borrower.Some? ==>
              fresh(borrower.value) && borrower.value.parent == parent && borrower.value.State() == Borrowed(session, Active)
    ensures parent.State() == old(parent.State()) || parent.State() == Step(old(parent.State()), AssertActive(reply)).0
  {
    var fence := parent.GetFence();
    if fence.Failed? { return None; }
    var root := fence.lease.execution;
    if !(session == root || root + ":" <= session) { return None; }
    if !idOk(session) { return None; }
    var held := parent.DoAssertActive(reply);
    if held.Failed? { return None; }
    var b := new Borrower(parent, session);
    borrower := Some(b);
  }

  // ----- Any number of children over one parent ---------------------------------------------------

  datatype Family = Family(parent: Guard, children: map<nat, Borrowed>)

  /** What can happen while only children and the heartbeat act: no operation of the parent itself. */
  datatype FamilyOp = ChildOp(child: nat, op: BorrowOp) | ParentHeartbeat(reply: Reply)

  function FamilyStep(f: Family, op: FamilyOp): Family {
    match op
    case ParentHeartbeat(reply) => f.(parent := Step(f.parent, Heartbeat(reply)).0)
    case ChildOp(child, bop) =>
      if child !in f.children then f
      else var (b, p, _) := BorrowStep(f.children[child], f.parent, bop); Family(p, f.children[child := b])
  }

  function FamilyRun(f: Family, ops: seq<FamilyOp>): Family {
    if ops == [] then f else FamilyStep(FamilyRun(f, ops[..|ops| - 1]), ops[|ops| - 1])
  }

  predicate Passive(call: StoreCall) { call.VerifyCall? || call.RenewCall? }

  /** No run of children's operations releases or reacquires the parent's lease: phase and token stay, and the
      store only ever sees verify and renew calls. */
  lemma {:induction false} ChildrenNeverRelease(f: Family, ops: seq<FamilyOp>)
    ensures var g := FamilyRun(f, ops);
            StillHeld(f.parent, g.parent) && g.children.Keys == f.children.Keys
  {
    if ops != [] {
      var g := FamilyRun(f, ops[..|ops| - 1]);
      ChildrenNeverRelease(f, ops[..|ops| - 1]);
      StepStillHeld(g, ops[|ops| - 1]);
      StillHeldTransitive(f.parent, g.parent, FamilyRun(f, ops).parent);
    }
  }

  /** From `g` to `h` the lease was neither given up nor taken anew. */
  ghost predicate StillHeld(g: Guard, h: Guard) {
    && h.phase == g.phase && h.lease.token == g.lease.token
    && h.lease.execution == g.lease.execution && h.lease.owner == g.lease.owner
    && g.log <= h.log && forall i :: |g.log| <= i < |h.log| ==> Passive(h.log[i])
  }

  lemma StillHeldTransitive(g: Guard, h: Guard, k: Guard)
    requires StillHeld(g, h) && StillHeld(h, k)
    ensures StillHeld(g, k)
  {
    forall i | |g.log| <= i < |k.log| ensures Passive(k.log[i]) {
      assert i < |h.log| ==> k.log[i] == h.log[i];
    }
  }

  lemma StepStillHeld(f: Family, op: FamilyOp)
    ensures StillHeld(f.parent, FamilyStep(f, op).parent) && FamilyStep(f, op).children.Keys == f.children.Keys
  {}

  lemma {:induction false} SiblingStays(f: Family, ops: seq<FamilyOp>, sibling: nat)
    requires sibling in f.children
    requires forall i :: 0 <= i < |ops| ==> ops[i].ChildOp? ==> ops[i].child != sibling
    ensures sibling in FamilyRun(f, ops).children && FamilyRun(f, ops).children[sibling] == f.children[sibling]
  {
    if ops != [] { SiblingStays(f, ops[..|ops| - 1], sibling); }
  }

  /** Whatever the other children and the heartbeat did, waiting and releasing included, a sibling that was active under
      an active parent still has the lease: its fence answers with the same execution, owner and token, unless the
      heartbeat recorded an error, and then with exactly that error. */
  lemma SiblingsUntouched(f: Family, ops: seq<FamilyOp>, sibling: nat)
    requires sibling in f.children && f.children[sibling].phase == Active && f.parent.phase == Active
    requires forall i :: 0 <= i < |ops| ==> ops[i].ChildOp? ==> ops[i].child != sibling
    ensures var g := FamilyRun(f, ops);
            && sibling in g.children && g.children[sibling] == f.children[sibling]
            && var (_, _, answer) := BorrowStep(g.children[sibling], g.parent, BorrowFence);
               if g.parent.heartbeatError.Some? then answer == Failed(g.parent.heartbeatError.value)
               else answer.Holds? && answer.lease.token == f.parent.lease.token
                    && answer.lease.execution == f.parent.lease.execution && answer.lease.owner == f.parent.lease.owner
  {
    SiblingStays(f, ops, sibling);
    ChildrenNeverRelease(f, ops);
  }
}
