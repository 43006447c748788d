/** What each operation of a guard and of a borrowed guard means to its caller. */
module GuardSteps {
  import opened Wrappers
  import opened ExecutionGuard
  import opened BorrowedGuard

  /** Active, with no heartbeat error. */
  predicate Healthy(g: Guard) { g.phase == Active && g.heartbeatError.None? }

  /** The store answered with a lease of this guard's execution and owner. */
  predicate Own(g: Guard, reply: Reply) {
    reply.Returned? && reply.lease.execution == g.lease.execution && reply.lease.owner == g.lease.owner
  }

  /** Nothing but the record of store calls and the heartbeat's stop flag may have changed. */
  predicate SameTenure(g: Guard, h: Guard) { h.lease == g.lease && h.phase == g.phase && h.heartbeatError == g.heartbeatError }

  predicate Called(g: Guard, h: Guard, call: StoreCall) { h.log == g.log + [call] }

  // ----- Reading, verifying and renewing ------------------------------------------------------------------

  /** A fence is the present lease of a healthy guard, and nothing else; it never asks the store. */
  lemma FenceAnswers(g: Guard)
    ensures Step(g, Fence).0 == g
    ensures Step(g, Fence).1 == Holds(g.lease) <==> Healthy(g)
    ensures g.phase == Waiting ==> Step(g, Fence).1 == Failed(ReleasedWhileWaiting)
    ensures g.phase == Released ==> Step(g, Fence).1 == Failed(GuardReleased)
    ensures g.phase == Active && g.heartbeatError.Some? ==> Step(g, Fence).1 == Failed(g.heartbeatError.value)
  {}

  /** An assertion holds exactly when a healthy guard's one verify call is answered with its own token; then that lease is
      the present one. */
  lemma AssertAnswers(g: Guard, reply: Reply)
    ensures var (h, r) := Step(g, AssertActive(reply));
            && (r.Holds? <==> Healthy(g) && Own(g, reply) && reply.lease.token == g.lease.token)
            && (r.Holds? ==> r == Holds(reply.lease) && h == g.(lease := reply.lease, log := h.log))
            && (!r.Holds? ==> r.Failed? && SameTenure(g, h))
            && (if Healthy(g) then Called(g, h, VerifyCall(g.lease.execution, g.lease.owner, g.lease.token)) else h == g)
  {}

  /** What a renewal accepts: its own token, the same acquisition time and no earlier expiry. */
  predicate Renewed(g: Guard, reply: Reply) {
    && Own(g, reply) && reply.lease.token == g.lease.token && reply.lease.acquiredAt == g.lease.acquiredAt
    && reply.lease.expiresAt >= g.lease.expiresAt
  }

  lemma RenewAnswers(g: Guard, reply: Reply)
    ensures var (h, r) := Step(g, Renew(reply));
            && (r.Holds? <==> Healthy(g) && Renewed(g, reply))
            && (r.Holds? ==> r == Holds(reply.lease) && h == g.(lease := reply.lease, log := h.log))
            && (!r.Holds? ==> r.Failed? && SameTenure(g, h))
            && (if Healthy(g) then Called(g, h, RenewCall(g.lease.execution, g.lease.owner, g.lease.token)) else h == g)
  {}

  /** The heartbeat renews an active guard until it is stopped or fails; a failure is recorded and stops it. */
  lemma HeartbeatBeats(g: Guard, reply: Reply)
    ensures var h := Step(g, Heartbeat(reply)).0;
            if g.heartbeatStop || g.phase != Active then h == g
            else && Called(g, h, RenewCall(g.lease.execution, g.lease.owner, g.lease.token)) && h.phase == Active
                 && (if Renewed(g, reply) then h == g.(lease := reply.lease, log := h.log)
                     else h.lease == g.lease && h.heartbeatStop && h.heartbeatError == Some(Refusal(g, reply)))
  {}

  /** Why a renewal fails. */
  function Refusal(g: Guard, reply: Reply): Failure
    requires !Renewed(g, reply)
  {
    match reply
    case Raised(e) => StoreRaised(e)
    case ReturnedOther => NotALease
    case Returned(lease) =>
      if lease.execution != g.lease.execution || lease.owner != g.lease.owner then ForeignLease
      else if lease.token != g.lease.token then TokenChanged
      else if lease.acquiredAt != g.lease.acquiredAt then AcquisitionTimeChanged
      else LeaseShortened
  }

  /** An explicit renewal fails for the same reasons. */
  lemma RenewRefuses(g: Guard, reply: Reply)
    requires Healthy(g) && !Renewed(g, reply)
    ensures Step(g, Renew(reply)).1 == Failed(Refusal(g, reply))
  {}

  lemma StopOnlyStops(g: Guard)
    ensures Step(g, RequestStop).0 == g.(heartbeatStop := true)
  {}

  // ----- Giving up and coming back -------------------------------------------------------------------------

  /** Release succeeds unless the store of an active guard raises, and then nothing changed. After a success the guard is
      released for good: no continuation calls the store again, and fence, renew, assert and reacquire all fail. */
  lemma ReleaseIsForGood(g: Guard, reply: Reply, ops: seq<Op>, op: Op)
    ensures var (h, r) := Step(g, Release(reply));
            && (r == Done <==> (g.phase == Active ==> !reply.Raised?)) && (r != Done ==> r.Failed? && SameTenure(g, h))
            && (if g.phase == Active then Called(g, h, ReleaseCall(g.lease.execution, g.lease.owner, g.lease.token)) else h.log == g.log)
            && (r == Done ==>
                  var k := Run(h, ops);
                  && k.phase == Released && k.lease == g.lease && k.log == h.log
                  && (Usable(op) || op.Reacquire? ==> Step(k, op).1.Failed? && Step(k, op).0.log == h.log))
  {
    var (h, r) := Step(g, Release(reply));
    if r == Done {
      ReleasedIsFinal(h, ops);
    }
  }

  /** Waiting succeeds unless the guard was released or the store raises, and then nothing changed; after a success the
      guard waits with its lease, unusable until it reacquires. */
  lemma WaitPauses(g: Guard, reply: Reply)
    ensures var (h, r) := Step(g, ReleaseForWait(reply));
            && (r == Done <==> g.phase == Waiting || (g.phase == Active && !reply.Raised?))
            && (r == Done ==> h.phase == Waiting && h.lease == g.lease && Step(h, Fence).1.Failed?)
            && (r != Done ==> r.Failed? && SameTenure(g, h))
            && (if g.phase == Active then Called(g, h, ReleaseCall(g.lease.execution, g.lease.owner, g.lease.token)) else h.log == g.log)
  {}

  /** A waiting guard comes back exactly with a larger token of its own, and is then healthy under the granted lease. */
  lemma ReacquireResumes(g: Guard, revision: Option<int>, reply: Reply)
    ensures var (h, r) := Step(g, Reacquire(revision, reply));
            && (r.Holds? <==>
                  && (revision.Some? ==> revision.value >= 0) && g.phase == Waiting
                  && Own(g, reply) && reply.lease.token > g.lease.token)
            && (r.Holds? ==> r == Holds(reply.lease) && Healthy(h) && !h.heartbeatStop && Step(h, Fence).1 == Holds(reply.lease))
            && (!r.Holds? ==> r.Failed? && SameTenure(g, h))
            && (if g.phase == Waiting && (revision.Some? ==> revision.value >= 0) then Called(g, h, AcquireCall(g.lease.execution, g.lease.owner))
                else h.log == g.log)
  {}

  // ----- Borrowed guards -------------------------------------------------------------------------------------

  /** An active child answers what its parent answers, under its own session name; any other child answers nothing and leaves
      the parent alone. */
  lemma BorrowAnswers(b: Borrowed, parent: Guard, reply: Reply)
    ensures var (b', p, r) := BorrowStep(b, parent, BorrowAssert(reply));
            && b' == b && (r.Holds? <==> b.phase == Active && Step(parent, AssertActive(reply)).1.Holds?)
            && (r.Holds? ==> r.lease == Step(parent, AssertActive(reply)).1.lease.(execution := b.session))
            && p == (if b.phase == Active then Step(parent, AssertActive(reply)).0 else parent)
    ensures var (b', p, r) := BorrowStep(b, parent, BorrowRenew(reply));
            && b' == b && (r.Holds? <==> b.phase == Active && Step(parent, Renew(reply)).1.Holds?)
            && (r.Holds? ==> r.lease == Step(parent, Renew(reply)).1.lease.(execution := b.session))
            && p == (if b.phase == Active then Step(parent, Renew(reply)).0 else parent)
    ensures var (b', p, r) := BorrowStep(b, parent, BorrowFence);
            b' == b && p == parent && r == (if b.phase == Active then Step(parent, Fence).1
                                            else Failed(if b.phase == Waiting then ReleasedWhileWaiting else GuardReleased))
  {}

  /** Releasing ends a child and touches nothing else. */
  lemma BorrowReleaseEnds(b: Borrowed, parent: Guard, reply: Reply)
    ensures var (b', p, r) := BorrowStep(b, parent, BorrowRelease);
            && b' == Borrowed(b.session, Released) && p == parent && r == Done
            && BorrowStep(b', p, BorrowAssert(reply)).2 == Failed(GuardReleased)
            && BorrowStep(b', p, BorrowReacquire(None, reply)).2.Failed? && BorrowStep(b', p, BorrowReacquire(None, reply)).0 == b'
  {}

  /** Waiting pauses an active child whose parent is verified, and reacquiring resumes a paused one under the same
      condition; otherwise the child stays as it is. */
  lemma BorrowWaitAndResume(b: Borrowed, parent: Guard, revision: Option<int>, reply: Reply)
    ensures var (b', p, r) := BorrowStep(b, parent, BorrowWait(reply)); var verified := Step(parent, AssertActive(reply)).1.Holds?;
            && (r == Done <==> b.phase == Active && verified) && (r != Done ==> r.Failed?)
            && b' == (if b.phase == Active && verified then Borrowed(b.session, Waiting) else b)
            && p == (if b.phase == Active then Step(parent, AssertActive(reply)).0 else parent)
    ensures var (b', p, r) := BorrowStep(b, parent, BorrowReacquire(revision, reply)); var verified := Step(parent, AssertActive(reply)).1.Holds?;
            var asked := b.phase == Waiting && (revision.Some? ==> revision.value >= 0);
            && (r.Holds? <==> asked && verified) && (!r.Holds? ==> r.Failed?)
            && (r.Holds? ==> r.lease == Step(parent, AssertActive(reply)).1.lease.(execution := b.session))
            && b' == (if asked && verified then Borrowed(b.session, Active) else b)
            && p == (if asked then Step(parent, AssertActive(reply)).0 else parent)
  {}
}
