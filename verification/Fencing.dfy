/** Whole runs of several workers over one fencing store: a store that raises the token at every acquire and
    verifies, renews or releases only the current one. Workers, heartbeats, expiries and store failures
    interleave arbitrarily. */
module Fencing {
  import opened Wrappers
  import opened ExecutionGuard

  datatype Holder = Holder(owner: string, token: nat)
  /** `high` is the largest token ever granted; `holder` is empty after a release or an expiry. */
  datatype Store = Store(high: nat, holder: Option<Holder>)
  /** Guards by worker, and the store they share, for one execution. */
  datatype System = System(execution: string, store: Store, guards: map<nat, Guard>)

  datatype Kind = KFence | KAssert | KRenew | KStop | KRelease | KWait | KReacquire | KHeartbeat

  /** What the environment decides: whether the store fails, whether it acts but its reply is lost, by how much it raises
      the token, and times. */
  datatype Env = Env(fails: bool, lost: bool, raise: nat, acquiredAt: nat, expiresAt: nat)

  datatype Action =
    | Acquire(worker: nat, owner: string, env: Env)
    | Call(worker: nat, kind: Kind, env: Env)
    | Expire

  // ----- The store -----------------------------------------------------------------------------

  predicate IsHolder(store: Store, g: Guard) {
    store.holder == Some(Holder(g.lease.owner, g.lease.token))
  }

  /** The store honours a call that names the guard's token. */
  predicate Honours(store: Store, g: Guard, env: Env) { !env.fails && IsHolder(store, g) }

  /** What the guard sees of it. */
  function Confirm(store: Store, execution: string, g: Guard, env: Env): Reply {
    if env.lost || !Honours(store, g, env) then Raised(0)
    else Returned(Lease(execution, g.lease.owner, g.lease.token, env.acquiredAt, env.expiresAt))
  }

  /** What the store would answer to this guard's next call, and the state it would be left in. */
  function Serve(store: Store, execution: string, g: Guard, kind: Kind, env: Env): (Store, Op) {
    var answer := Confirm(store, execution, g, env);
    match kind
    case KFence => (store, Fence)
    case KAssert => (store, AssertActive(answer))
    case KRenew => (store, Renew(answer))
    case KStop => (store, RequestStop)
    case KHeartbeat => (store, Heartbeat(answer))
    case KRelease => (if Honours(store, g, env) then store.(holder := None) else store, Release(answer))
    case KWait => (if Honours(store, g, env) then store.(holder := None) else store, ReleaseForWait(answer))
    case KReacquire =>
      if env.fails then (store, Reacquire(None, Raised(0)))
      else
        var token := store.high + 1 + env.raise;
        (Store(token, Some(Holder(g.lease.owner, token))),
         Reacquire(None, if env.lost then Raised(0) else Returned(Lease(execution, g.lease.owner, token, env.acquiredAt, env.expiresAt))))
  }

  function Act(s: System, a: Action): System {
    match a
    case Expire => s.(store := s.store.(holder := None))
    case Acquire(worker, owner, env) =>
      if env.fails || worker in s.guards then s
      else
        var token := s.store.high + 1 + env.raise;
        System(s.execution, Store(token, Some(Holder(owner, token))),
               if env.lost then s.guards
               else s.guards[worker := Initial(Lease(s.execution, owner, token, env.acquiredAt, env.expiresAt))])
    case Call(worker, kind, env) =>
      if worker !in s.guards then s
      else
        var g := s.guards[worker];
        var (store, op) := Serve(s.store, s.execution, g, kind, env);
        var h := Step(g, op).0;
        // the store only changes when the guard really called it
        System(s.execution, if |h.log| > |g.log| then store else s.store, s.guards[worker := h])
  }

  function Reply(s: System, a: Action): Outcome
    requires a.Call? && a.worker in s.guards
  {
    Step(s.guards[a.worker], Serve(s.store, s.execution, s.guards[a.worker], a.kind, a.env).1).1
  }

  function Trace(s: System, actions: seq<Action>): System {
    if actions == [] then s else Act(Trace(s, actions[..|actions| - 1]), actions[|actions| - 1])
  }

  // ----- What every step keeps -----------------------------------------------------------------

  /** The holder carries the highest token, and every guard's lease is one the store granted here. */
  predicate Inv(s: System) {
    && (s.store.holder.Some? ==> s.store.holder.value.token == s.store.high)
    && forall w :: w in s.guards ==> s.guards[w].lease.token <= s.store.high && s.guards[w].lease.execution == s.execution
  }

  /** The same owner, under the same token or one granted after `high`. */
  predicate Tenure(before: Guard, after: Guard, high: nat) {
    after.lease.owner == before.lease.owner && (after.lease.token == before.lease.token || after.lease.token > high)
  }

  lemma ActKeepsInv(s: System, a: Action)
    requires Inv(s)
    ensures Inv(Act(s, a)) && Act(s, a).store.high >= s.store.high && Act(s, a).execution == s.execution
    ensures Act(s, a).store.high == s.store.high ==>
              Act(s, a).store.holder == s.store.holder || Act(s, a).store.holder == None
    ensures forall w :: w in s.guards ==> w in Act(s, a).guards && Tenure(s.guards[w], Act(s, a).guards[w], s.store.high)
  {
    if a.Call? && a.worker in s.guards {
      CallKeepsInv(s, a.worker, a.kind, a.env);
    }
  }

  lemma CallKeepsInv(s: System, worker: nat, kind: Kind, env: Env)
    requires Inv(s) && worker in s.guards
    ensures var t := Act(s, Call(worker, kind, env)); var (g, h) := (s.guards[worker], t.guards[worker]);
            && h.lease.execution == g.lease.execution && h.lease.owner == g.lease.owner
            && (h.lease.token == g.lease.token || (h.lease.token == t.store.high > s.store.high))
            && t.store.high >= s.store.high
            && (t.store.high == s.store.high ==> t.store.holder == s.store.holder || t.store.holder == None)
            && (t.store.holder.Some? ==> t.store.holder.value.token == t.store.high)
  {}

  lemma {:induction false} TraceKeepsInv(s: System, actions: seq<Action>)
    requires Inv(s)
    ensures var t := Trace(s, actions); Inv(t) && t.store.high >= s.store.high && t.execution == s.execution
    ensures var t := Trace(s, actions);
            t.store.high == s.store.high ==> t.store.holder == s.store.holder || t.store.holder == None
    ensures forall w :: w in s.guards ==>
              w in Trace(s, actions).guards && Tenure(s.guards[w], Trace(s, actions).guards[w], s.store.high)
  {
    if actions != [] {
      TraceKeepsInv(s, actions[..|actions| - 1]);
      ActKeepsInv(Trace(s, actions[..|actions| - 1]), actions[|actions| - 1]);
    }
  }

  /** A positive answer to assert or renew comes from the holder of the highest token. */
  lemma AnswerNeedsHolder(s: System, a: Action)
    requires Inv(s) && a.Call? && a.worker in s.guards && (a.kind == KAssert || a.kind == KRenew)
    requires Reply(s, a).Holds?
    ensures IsHolder(s.store, s.guards[a.worker]) && s.guards[a.worker].lease.token == s.store.high
    ensures Act(s, a).store == s.store && Act(s, a).guards[a.worker].lease.token == s.guards[a.worker].lease.token
  {}

  // ----- Fencing -------------------------------------------------------------------------------

  /** Once anyone was granted a higher token, the guard never again verifies or renews under its old one,
      in any continuation. */
  lemma SupersededForever(s: System, worker: nat, actions: seq<Action>, a: Action)
    requires Inv(s) && worker in s.guards && s.guards[worker].lease.token < s.store.high
    requires a.Call? && a.worker == worker && (a.kind == KAssert || a.kind == KRenew)
    ensures worker in Trace(s, actions).guards
    ensures Reply(Trace(s, actions), a).Holds? ==> Trace(s, actions).guards[worker].lease.token > s.store.high
  {
    TraceKeepsInv(s, actions);
    if Reply(Trace(s, actions), a).Holds? { AnswerNeedsHolder(Trace(s, actions), a); }
  }

  /** If the token has not moved over a run, nobody was granted the execution in between. */
  lemma {:induction false} HolderThroughout(s: System, actions: seq<Action>, k: nat)
    requires Inv(s) && k <= |actions|
    requires s.store.holder.Some? && Trace(s, actions).store == s.store
    ensures Trace(s, actions[..k]).store == s.store
    decreases |actions|
  {
    if k == |actions| {
      assert actions[..k] == actions;
    } else {
      var front := actions[..|actions| - 1];
      TraceKeepsInv(s, front);
      ActKeepsInv(Trace(s, front), actions[|actions| - 1]);
      assert Trace(s, front).store == s.store;
      HolderThroughout(s, front, k);
      assert front[..k] == actions[..k];
    }
  }

  /** A guarded model call: renew, then anything at all, then assert, both answered positively. The token is
      unchanged exactly when no grant was made in between; and then this worker held the execution at every
      moment of the call. */
  lemma GuardedCallSawNoTakeover(s: System, worker: nat, renew: Env, between: seq<Action>, check: Env)
    requires Inv(s) && worker in s.guards
    requires Reply(s, Call(worker, KRenew, renew)).Holds?
    requires var s1 := Act(s, Call(worker, KRenew, renew));
             worker in Trace(s1, between).guards && Reply(Trace(s1, between), Call(worker, KAssert, check)).Holds?
    ensures var s1 := Act(s, Call(worker, KRenew, renew)); var s2 := Trace(s1, between);
            s2.guards[worker].lease.token == s1.guards[worker].lease.token <==> s2.store.high == s1.store.high
    ensures var s1 := Act(s, Call(worker, KRenew, renew)); var s2 := Trace(s1, between);
            s2.guards[worker].lease.token == s1.guards[worker].lease.token ==>
              forall k :: 0 <= k <= |between| ==> IsHolder(Trace(s1, between[..k]).store, s1.guards[worker])
  {
    var s1 := Act(s, Call(worker, KRenew, renew));
    AnswerNeedsHolder(s, Call(worker, KRenew, renew));
    ActKeepsInv(s, Call(worker, KRenew, renew));
    TraceKeepsInv(s1, between);
    var s2 := Trace(s1, between);
    AnswerNeedsHolder(s2, Call(worker, KAssert, check));
    if s2.guards[worker].lease.token == s1.guards[worker].lease.token {
      forall k | 0 <= k <= |between| ensures IsHolder(Trace(s1, between[..k]).store, s1.guards[worker]) {
        HolderThroughout(s1, between, k);
      }
    }
  }

  lemma TraceOfThree(s: System, a: Action, b: Action, c: Action)
    ensures Trace(s, [a, b, c]) == Act(Act(Act(s, a), b), c)
    ensures Trace(s, [a, b, c][..2]) == Act(Act(s, a), b)
  {
    assert [a, b, c][..2] == [a, b] && [a, b][..1] == [a] && [a][..0] == [];
    assert Trace(s, [a]) == Act(s, a);
    assert Trace(s, [a, b]) == Act(Trace(s, [a]), b);
  }

  lemma HolderWaits(s: System, w: nat, e: Env)
    requires w in s.guards && s.guards[w].phase == Active && IsHolder(s.store, s.guards[w]) && !e.fails && !e.lost
    ensures var t := Act(s, Call(w, KWait, e));
            t.store == s.store.(holder := None) && t.execution == s.execution && t.guards.Keys == s.guards.Keys
            && t.guards[w].phase == Waiting && t.guards[w].lease == s.guards[w].lease
  {}

  lemma WaiterReturns(s: System, w: nat, e: Env)
    requires w in s.guards && s.guards[w].phase == Waiting && !e.fails && !e.lost
    requires s.guards[w].lease.execution == s.execution && s.guards[w].lease.token <= s.store.high
    ensures var t := Act(s, Call(w, KReacquire, e));
            && t.guards.Keys == s.guards.Keys && t.execution == s.execution
            && t.guards[w].phase == Active && t.guards[w].heartbeatError == None && IsHolder(t.store, t.guards[w])
            && t.guards[w].lease.execution == s.execution
  {}

  lemma HolderConfirmed(s: System, w: nat, e: Env)
    requires w in s.guards && s.guards[w].phase == Active && s.guards[w].heartbeatError == None && !e.fails && !e.lost
    requires IsHolder(s.store, s.guards[w]) && s.guards[w].lease.execution == s.execution
    ensures Reply(s, Call(w, KAssert, e)).Holds?
  {}

  /** The unchanged token is needed: a worker that waits and reacquires during its own model call gets two
      positive answers although another owner held the execution in between. */
  lemma TakeoverInsideCall(owner: string, other: string) returns (s: System, between: seq<Action>, e: Env)
    requires owner != other
    ensures Inv(s) && 0 in s.guards && s.guards[0].lease.owner == owner && |between| == 3
    ensures Reply(s, Call(0, KRenew, e)).Holds?
    ensures var s1 := Act(s, Call(0, KRenew, e));
            && Trace(s1, between[..2]).store.holder == Some(Holder(other, 2))
            && 0 in Trace(s1, between).guards && Reply(Trace(s1, between), Call(0, KAssert, e)).Holds?
  {
    e := Env(false, false, 0, 0, 1);
    var g := Initial(Lease("x", owner, 1, 0, 1));
    s := System("x", Store(1, Some(Holder(owner, 1))), map[0 := g]);
    var wait, take, back := Call(0, KWait, e), Acquire(1, other, e), Call(0, KReacquire, e);
    between := [wait, take, back];
    var s1 := Act(s, Call(0, KRenew, e));
    assert s1.guards[0] == g.(log := [RenewCall("x", owner, 1)]) && s1.store == s.store && s1.guards.Keys == {0};
    TakeoverContinues(s1, other, e);
  }

  lemma TakeoverContinues(s: System, other: string, e: Env)
    requires s.guards.Keys == {0} && s.guards[0].phase == Active && IsHolder(s.store, s.guards[0]) && s.store.high == 1 && e == Env(false, false, 0, 0, 1)
    requires s.guards[0].lease.execution == s.execution && s.guards[0].lease.token <= s.store.high
    ensures var between := [Call(0, KWait, e), Acquire(1, other, e), Call(0, KReacquire, e)];
            && Trace(s, between[..2]).store.holder == Some(Holder(other, 2))
            && 0 in Trace(s, between).guards && Reply(Trace(s, between), Call(0, KAssert, e)).Holds?
  {
    var (wait, take, back) := (Call(0, KWait, e), Acquire(1, other, e), Call(0, KReacquire, e));
    TraceOfThree(s, wait, take, back);
    HolderWaits(s, 0, e);
    var t := Act(Act(s, wait), take);
    assert t.guards[0] == Act(s, wait).guards[0];
    WaiterReturns(t, 0, e);
    HolderConfirmed(Act(t, back), 0, e);
  }
}
