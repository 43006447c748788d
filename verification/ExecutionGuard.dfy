/** The ownership handle of one execution (`ExecutionGuard`). Every lock-protected block is one atomic step;
    the heartbeat is a step that may fire at any moment; the lease store is an adversary whose answer is an
    argument of the step. `Step` specifies the steps, the class performs them in place, and the lemmas are
    about every finite interleaving of them. */
module ExecutionGuard {
  import opened Wrappers

  datatype Lease = Lease(execution: string, owner: string, token: nat, acquiredAt: nat, expiresAt: nat)

  /** What the store answers to one call; for a release only `Raised` matters. */
  datatype Reply = Raised(error: nat) | Returned(lease: Lease) | ReturnedOther

  datatype StoreCall =
    | AcquireCall(execution: string, owner: string)
    | VerifyCall(execution: string, owner: string, token: nat)
    | RenewCall(execution: string, owner: string, token: nat)
    | ReleaseCall(execution: string, owner: string, token: nat)

  datatype Phase = Active | Waiting | Released

  datatype Failure =
    | ReleasedWhileWaiting | GuardReleased | StoreRaised(error: nat) | NotALease | ForeignLease | TokenChanged
    | AcquisitionTimeChanged | LeaseShortened | NotWaiting | TokenNotAdvanced | InvalidRevision

  datatype Outcome = Holds(lease: Lease) | Done | Failed(failure: Failure)

  /** `log` records the calls made to the store, oldest first. */
  datatype Guard = Guard(lease: Lease, phase: Phase, heartbeatError: Option<Failure>, heartbeatStop: bool, log: seq<StoreCall>)

  datatype Op =
    | Fence
    | AssertActive(reply: Reply)
    | Renew(reply: Reply)
    | RequestStop
    | Release(reply: Reply)
    | ReleaseForWait(reply: Reply)
    | Reacquire(revision: Option<int>, reply: Reply)
    | Heartbeat(reply: Reply)

  // ----- Specification of the steps -----------------------------------------------------------

  function Initial(lease: Lease): Guard { Guard(lease, Active, None, false, []) }

  /** `_validate_store_lease`; without a token only the identity is checked. */
  function ValidateStoreLease(reply: Reply, execution: string, owner: string, token: Option<nat>): Outcome {
    match reply
    case Raised(e) => Failed(StoreRaised(e))
    case ReturnedOther => Failed(NotALease)
    case Returned(lease) =>
      if lease.execution != execution || lease.owner != owner then Failed(ForeignLease)
      else if token.Some? && lease.token != token.value then Failed(TokenChanged)
      else Holds(lease)
  }

  /** `_ensure_active_locked`. */
  function Blocked(g: Guard): Option<Failure> {
    if g.phase == Waiting then Some(ReleasedWhileWaiting)
    else if g.phase == Released then Some(GuardReleased)
    else g.heartbeatError
  }

  function RenewReply(current: Lease, reply: Reply): Outcome {
    var checked := ValidateStoreLease(reply, current.execution, current.owner, Some(current.token));
    if checked.Failed? then checked
    else if checked.lease.acquiredAt != current.acquiredAt then Failed(AcquisitionTimeChanged)
    else if checked.lease.expiresAt < current.expiresAt then Failed(LeaseShortened)
    else checked
  }

  function RenewLocked(g: Guard, reply: Reply): (Guard, Outcome) {
    var called := g.(log := g.log + [RenewCall(g.lease.execution, g.lease.owner, g.lease.token)]);
    var outcome := RenewReply(g.lease, reply);
    (if outcome.Holds? then called.(lease := outcome.lease) else called, outcome)
  }

  function ReleaseLocked(g: Guard, reply: Reply, next: Phase): (Guard, Outcome) {
    var called := g.(log := g.log + [ReleaseCall(g.lease.execution, g.lease.owner, g.lease.token)]);
    if reply.Raised? then (called, Failed(StoreRaised(reply.error)))
    else (called.(phase := next, heartbeatError := None), Done)
  }

  function ReacquireLocked(g: Guard, reply: Reply): (Guard, Outcome) {
    var called := g.(log := g.log + [AcquireCall(g.lease.execution, g.lease.owner)]);
    var checked := ValidateStoreLease(reply, g.lease.execution, g.lease.owner, None);
    if checked.Failed? then (called, checked)
    else if checked.lease.token <= g.lease.token then (called, Failed(TokenNotAdvanced))
    else (called.(lease := checked.lease, phase := Active, heartbeatError := None, heartbeatStop := false), checked)
  }

  function Step(g: Guard, op: Op): (Guard, Outcome) {
    match op
    case Fence =>
      if Blocked(g).Some? then (g, Failed(Blocked(g).value)) else (g, Holds(g.lease))
    case AssertActive(reply) =>
      if Blocked(g).Some? then (g, Failed(Blocked(g).value))
      else
        var called := g.(log := g.log + [VerifyCall(g.lease.execution, g.lease.owner, g.lease.token)]);
        var outcome := ValidateStoreLease(reply, g.lease.execution, g.lease.owner, Some(g.lease.token));
        (if outcome.Holds? then called.(lease := outcome.lease) else called, outcome)
    case Renew(reply) =>
      if Blocked(g).Some? then (g, Failed(Blocked(g).value)) else RenewLocked(g, reply)
    case RequestStop =>
      (g.(heartbeatStop := true), Done)
    case Release(reply) =>
      if g.phase == Released then (g, Done)
      else if g.phase == Waiting then (g.(phase := Released, heartbeatError := None), Done)
      else ReleaseLocked(g, reply, Released)
    case ReleaseForWait(reply) =>
      if g.phase == Waiting then (g, Done)
      else if g.phase == Released then (g, Failed(GuardReleased))
      else ReleaseLocked(g, reply, Waiting)
    case Reacquire(revision, reply) =>
      if revision.Some? && revision.value < 0 then (g, Failed(InvalidRevision))
      else if g.phase != Waiting then (g, Failed(NotWaiting))
      else ReacquireLocked(g, reply)
    case Heartbeat(reply) =>
      if g.heartbeatStop || g.phase != Active then (g, Done)
      else
        var (renewed, outcome) := RenewLocked(g, reply);
        if outcome.Failed? then (renewed.(heartbeatError := Some(outcome.failure), heartbeatStop := true), Done)
        else (renewed, Done)
  }

  function Run(g: Guard, ops: seq<Op>): Guard {
    if ops == [] then g else Step(Run(g, ops[..|ops| - 1]), ops[|ops| - 1]).0
  }

  /** The outcome of the last step of a run. */
  function Answer(g: Guard, ops: seq<Op>): Outcome
    requires ops != []
  { Step(Run(g, ops[..|ops| - 1]), ops[|ops| - 1]).1 }

  // ----- The object ----------------------------------------------------------------------------

  class LeaseGuard {
    var lease: Lease
    var phase: Phase
    var heartbeatError: Option<Failure>
    var heartbeatStop: bool
    var log: seq<StoreCall>

    ghost function State(): Guard
      reads this
    { Guard(lease, phase, heartbeatError, heartbeatStop, log) }

    constructor (lease: Lease)
      ensures State() == Initial(lease)
    {
      this.lease, phase, heartbeatError, heartbeatStop, log := lease, Active, None, false, [];
    }

    method EnsureActive() returns (blocked: Option<Failure>)
      ensures blocked == Blocked(State())
    {
      if phase != Active {
        return Some(if phase == Waiting then ReleasedWhileWaiting else GuardReleased);
      }
      blocked := heartbeatError;
    }

    method GetFence() returns (r: Outcome)
      ensures (State(), r) == Step(State(), Fence)
    {
      var blocked := EnsureActive();
      if blocked.Some? { return Failed(blocked.value); }
      r := Holds(lease);
    }

    method DoAssertActive(reply: Reply) returns (r: Outcome)
      modifies this
      ensures (State(), r) == Step(old(State()), AssertActive(reply))
    {
      var blocked := EnsureActive();
      if blocked.Some? { return Failed(blocked.value); }
      log := log + [VerifyCall(lease.execution, lease.owner, lease.token)];
      r := ValidateStoreLease(reply, lease.execution, lease.owner, Some(lease.token));
      if r.Holds? { lease := r.lease; }
    }

    method DoRenewLocked(reply: Reply) returns (r: Outcome)
      modifies this
      ensures (State(), r) == RenewLocked(old(State()), reply)
    {
      log := log + [RenewCall(lease.execution, lease.owner, lease.token)];
      r := ValidateStoreLease(reply, lease.execution, lease.owner, Some(lease.token));
      if r.Failed? { return; }
      if r.lease.acquiredAt != lease.acquiredAt { return Failed(AcquisitionTimeChanged); }
      if r.lease.expiresAt < lease.expiresAt { return Failed(LeaseShortened); }
      lease := r.lease;
    }

    method DoRenew(reply: Reply) returns (r: Outcome)
      modifies this
      ensures (State(), r) == Step(old(State()), Renew(reply))
    {
      var blocked := EnsureActive();
      if blocked.Some? { return Failed(blocked.value); }
      r := DoRenewLocked(reply);
    }

    method DoRequestStop()
      modifies this
      ensures (State(), Done) == Step(old(State()), RequestStop)
    {
      heartbeatStop := true;
    }

    method DoRelease(reply: Reply) returns (r: Outcome)
      modifies this
      ensures (State(), r) == Step(old(State()), Release(reply))
    {
      if phase == Released { return Done; }
      if phase == Active {
        log := log + [ReleaseCall(lease.execution, lease.owner, lease.token)];
        if reply.Raised? { return Failed(StoreRaised(reply.error)); }
      }
      phase, heartbeatError := Released, None;
      r := Done;
    }

    method DoReleaseForWait(reply: Reply) returns (r: Outcome)
      modifies this
      ensures (State(), r) == Step(old(State()), ReleaseForWait(reply))
    {
      if phase == Waiting { return Done; }
      if phase != Active { return Failed(GuardReleased); }
      log := log + [ReleaseCall(lease.execution, lease.owner, lease.token)];
      if reply.Raised? { return Failed(StoreRaised(reply.error)); }
      phase, heartbeatError := Waiting, None;
      r := Done;
    }

    method DoReacquire(revision: Option<int>, reply: Reply) returns (r: Outcome)
      modifies this
      ensures (State(), r) == Step(old(State()), Reacquire(revision, reply))
    {
      if revision.Some? && revision.value < 0 { return Failed(InvalidRevision); }
      if phase != Waiting { return Failed(NotWaiting); }
      log := log + [AcquireCall(lease.execution, lease.owner)];
      r := ValidateStoreLease(reply, lease.execution, lease.owner, None);
      if r.Failed? { return; }
      if r.lease.token <= lease.token { return Failed(TokenNotAdvanced); }
      lease, phase, heartbeatError, heartbeatStop := r.lease, Active, None, false;
    }

    /** One round of the heartbeat thread, under the lock. */
    method DoHeartbeat(reply: Reply)
      modifies this
      ensures (State(), Done) == Step(old(State()), Heartbeat(reply))
    {
      if heartbeatStop || phase != Active { return; }
      var r := DoRenewLocked(reply);
      if r.Failed? { heartbeatError, heartbeatStop := Some(r.failure), true; }
    }
  }

  // ----- Safety over every interleaving and every store -----------------------------------------

  /** How many times a run got a new tenure. */
  function Reacquired(g: Guard, ops: seq<Op>): nat {
    if ops == [] then 0
    else Reacquired(g, ops[..|ops| - 1]) +
         (if ops[|ops| - 1].Reacquire? && Answer(g, ops).Holds? then 1 else 0)
  }

  /** Execution and owner never change; the token only moves at a successful reacquire, and then forward;
      the record of store calls only grows. */
  lemma {:induction false} RunKeepsIdentity(g: Guard, ops: seq<Op>)
    ensures Run(g, ops).lease.execution == g.lease.execution && Run(g, ops).lease.owner == g.lease.owner
    ensures Run(g, ops).lease.token >= g.lease.token + Reacquired(g, ops)
    ensures Reacquired(g, ops) == 0 ==> Run(g, ops).lease.token == g.lease.token
    ensures g.log <= Run(g, ops).log
  {
    if ops != [] {
      RunKeepsIdentity(g, ops[..|ops| - 1]);
      StepKeepsIdentity(Run(g, ops[..|ops| - 1]), ops[|ops| - 1]);
    }
  }

  lemma StepKeepsIdentity(g: Guard, op: Op)
    ensures var (h, answer) := Step(g, op);
            && h.lease.execution == g.lease.execution && h.lease.owner == g.lease.owner && g.log <= h.log
            && (if op.Reacquire? && answer.Holds? then h.lease.token > g.lease.token else h.lease.token == g.lease.token)
  {}

  predicate Usable(op: Op) { op.Fence? || op.AssertActive? || op.Renew? }

  /** A guard that is not usable in its present tenure: released, waiting, or with a heartbeat error. */
  predicate Spent(g: Guard) { g.phase != Active || g.heartbeatError.Some? }

  /** Once a tenure is spent, fence, renew and assert fail without touching the store until the token
      has strictly advanced. */
  lemma {:induction false} SpentTenureStaysSpent(g: Guard, ops: seq<Op>)
    requires Spent(g)
    ensures Spent(Run(g, ops)) || Run(g, ops).lease.token > g.lease.token
    ensures ops != [] && Usable(ops[|ops| - 1]) && Answer(g, ops).Holds? ==> Run(g, ops).lease.token > g.lease.token
    ensures ops != [] && Usable(ops[|ops| - 1]) && Run(g, ops).lease.token == g.lease.token ==>
              Answer(g, ops).Failed? && Run(g, ops) == Run(g, ops[..|ops| - 1])
  {
    if ops != [] {
      var front := ops[..|ops| - 1];
      SpentTenureStaysSpent(g, front);
      RunKeepsIdentity(g, front);
      RunKeepsIdentity(Run(g, front), [ops[|ops| - 1]]);
      assert [ops[|ops| - 1]][..0] == [];
    }
  }

  /** A recorded error has stopped the heartbeat, so nothing can overwrite it within the tenure. */
  lemma {:induction false} ErrorStopsHeartbeat(lease: Lease, ops: seq<Op>)
    ensures var g := Run(Initial(lease), ops); g.heartbeatError.Some? ==> g.heartbeatStop && g.phase == Active
  {
    if ops != [] { ErrorStopsHeartbeat(lease, ops[..|ops| - 1]); }
  }

  lemma {:induction false} ErrorPersists(g: Guard, ops: seq<Op>)
    requires g.phase == Active && g.heartbeatError.Some? && g.heartbeatStop
    ensures var h := Run(g, ops);
            h.lease.token > g.lease.token || h.phase != Active || (h.heartbeatError == g.heartbeatError && h.heartbeatStop)
  {
    if ops != [] {
      ErrorPersists(g, ops[..|ops| - 1]);
      RunKeepsIdentity(g, ops[..|ops| - 1]);
    }
  }

  /** However the guard got its heartbeat error, as long as it is active under the same token every
      fence, renew and assert reports exactly that error and makes no store call. */
  lemma HeartbeatErrorBlocks(lease: Lease, before: seq<Op>, after: seq<Op>, op: Op)
    requires Usable(op) && Run(Initial(lease), before).heartbeatError.Some?
    requires Run(Run(Initial(lease), before), after).phase == Active
    requires Run(Run(Initial(lease), before), after).lease.token == Run(Initial(lease), before).lease.token
    ensures var h := Run(Run(Initial(lease), before), after);
            Step(h, op) == (h, Failed(Run(Initial(lease), before).heartbeatError.value))
  {
    ErrorStopsHeartbeat(lease, before);
    ErrorPersists(Run(Initial(lease), before), after);
  }

  /** "Released" is absorbing: the lease and the record of store calls never change again. */
  lemma {:induction false} ReleasedIsFinal(g: Guard, ops: seq<Op>)
    requires g.phase == Released
    ensures var h := Run(g, ops); h.phase == Released && h.lease == g.lease && h.log == g.log
    ensures ops != [] && (Usable(ops[|ops| - 1]) || ops[|ops| - 1].Reacquire?) ==> Answer(g, ops).Failed?
  {
    if ops != [] { ReleasedIsFinal(g, ops[..|ops| - 1]); }
  }

  predicate Carries(call: StoreCall, execution: string, owner: string, least: nat, most: nat) {
    && call.execution == execution && call.owner == owner
    && (!call.AcquireCall? ==> least <= call.token <= most)
  }

  /** Whatever the store answered before, every call names this guard's own execution and owner and a token
      it was granted; and after a tenure was given up no call carries its token again. */
  lemma {:induction false} CallsCarryOwnTokens(g: Guard, ops: seq<Op>)
    ensures OwnCalls(g, Run(g, ops), g.lease.token)
    ensures g.phase != Active ==>
              && (Run(g, ops).phase != Active || Run(g, ops).lease.token > g.lease.token)
              && OwnCalls(g, Run(g, ops), g.lease.token + 1)
  {
    if ops != [] {
      var front := ops[..|ops| - 1];
      var h := Run(g, front);
      CallsCarryOwnTokens(g, front);
      RunKeepsIdentity(g, front);
      StepCalls(h, ops[|ops| - 1]);
      OwnCallsStep(g, h, ops[|ops| - 1], g.lease.token);
      if g.phase != Active { OwnCallsStep(g, h, ops[|ops| - 1], g.lease.token + 1); }
    }
  }

  /** All calls since `g` carry its identity and tokens from `least` on. */
  ghost predicate OwnCalls(g: Guard, h: Guard, least: nat) {
    && g.log <= h.log
    && forall i :: |g.log| <= i < |h.log| ==> Carries(h.log[i], g.lease.execution, g.lease.owner, least, h.lease.token)
  }

  lemma OwnCallsStep(g: Guard, h: Guard, op: Op, least: nat)
    requires OwnCalls(g, h, least) && h.lease.execution == g.lease.execution && h.lease.owner == g.lease.owner
    requires h.phase == Active ==> least <= h.lease.token
    ensures OwnCalls(g, Step(h, op).0, least)
  {
    var k := Step(h, op).0;
    StepCalls(h, op);
    forall i | |g.log| <= i < |k.log| ensures Carries(k.log[i], g.lease.execution, g.lease.owner, least, k.lease.token) {
      assert i < |h.log| ==> k.log[i] == h.log[i];
    }
  }

  lemma StepCalls(g: Guard, op: Op)
    ensures var h := Step(g, op).0;
            && h.lease.token >= g.lease.token && g.log <= h.log && |h.log| <= |g.log| + 1
            && (|h.log| > |g.log| ==>
                  Carries(h.log[|g.log|], g.lease.execution, g.lease.owner, g.lease.token, h.lease.token)
                  && (g.phase != Active ==> h.log[|g.log|].AcquireCall?))
            && (g.phase != Active && h.phase == Active ==> h.lease.token > g.lease.token)
  {}
}
