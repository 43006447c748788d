/** Fencing seen through borrowed guards: children of the workers act in the same runs, each through its parent. */
module BorrowedFencing {
  import opened Wrappers
  import opened ExecutionGuard
  import opened BorrowedGuard
  import opened Fencing

  datatype Child = Child(worker: nat, view: Borrowed)

  /** All workers over one store, and the children that borrowed from them. */
  datatype Crew = Crew(system: System, children: map<nat, Child>)

  datatype ChildKind = ChildFence | ChildAssert | ChildRenew | ChildRelease | ChildWait | ChildReacquire

  datatype CrewAction =
    | Worker(action: Action)
    | Lend(child: nat, worker: nat, session: string)
    | ChildAct(child: nat, kind: ChildKind, env: Env)

  function OpOf(kind: ChildKind, reply: ExecutionGuard.Reply): BorrowOp {
    match kind
    case ChildFence => BorrowFence
    case ChildAssert => BorrowAssert(reply)
    case ChildRenew => BorrowRenew(reply)
    case ChildRelease => BorrowRelease
    case ChildWait => BorrowWait(reply)
    case ChildReacquire => BorrowReacquire(None, reply)
  }

  predicate Working(c: Crew, child: nat) { child in c.children && c.children[child].worker in c.system.guards }

  /** The child's step against its parent and the store as they are. */
  function ChildStep(c: Crew, child: nat, kind: ChildKind, env: Env): (Borrowed, Guard, Outcome)
    requires Working(c, child)
  {
    var parent := c.system.guards[c.children[child].worker];
    BorrowStep(c.children[child].view, parent, OpOf(kind, Confirm(c.system.store, c.system.execution, parent, env)))
  }

  function CrewStep(c: Crew, a: CrewAction): Crew {
    match a
    case Worker(action) => c.(system := Act(c.system, action))
    case Lend(child, worker, session) =>
      if child in c.children then c else c.(children := c.children[child := Child(worker, Borrowed(session, Active))])
    case ChildAct(child, kind, env) =>
      if !Working(c, child) then c
      else
        var (view, parent, _) := ChildStep(c, child, kind, env);
        var worker := c.children[child].worker;
        Crew(c.system.(guards := c.system.guards[worker := parent]), c.children[child := Child(worker, view)])
  }

  function CrewRun(c: Crew, actions: seq<CrewAction>): Crew {
    if actions == [] then c else CrewStep(CrewRun(c, actions[..|actions| - 1]), actions[|actions| - 1])
  }

  // ----- A child's step is its parent's --------------------------------------------------------------

  /** What the parent does for this step of a child: a verify, a renew, or nothing. */
  function ParentKind(b: Borrowed, kind: ChildKind): Option<Kind> {
    match kind
    case ChildFence => None
    case ChildRelease => None
    case ChildAssert => if b.phase == Active then Some(KAssert) else None
    case ChildRenew => if b.phase == Active then Some(KRenew) else None
    case ChildWait => if b.phase == Active then Some(KAssert) else None
    case ChildReacquire => if b.phase == Waiting then Some(KAssert) else None
  }

  /** The workers' actions a crew action amounts to: none or one. */
  function Shadow(c: Crew, a: CrewAction): seq<Action> {
    match a
    case Worker(action) => [action]
    case Lend(_, _, _) => []
    case ChildAct(child, kind, env) =>
      if !Working(c, child) then []
      else
        var k := ParentKind(c.children[child].view, kind);
        if k.None? then [] else [Call(c.children[child].worker, k.value, env)]
  }

  function Shadows(c: Crew, actions: seq<CrewAction>): seq<Action> {
    if actions == [] then []
    else Shadows(c, actions[..|actions| - 1]) + Shadow(CrewRun(c, actions[..|actions| - 1]), actions[|actions| - 1])
  }

  lemma ChildStepIsShadow(c: Crew, child: nat, kind: ChildKind, env: Env)
    requires Working(c, child)
    ensures var k := ParentKind(c.children[child].view, kind);
            CrewStep(c, ChildAct(child, kind, env)).system ==
              if k.None? then c.system else Act(c.system, Call(c.children[child].worker, k.value, env))
  {
    var w := c.children[child].worker;
    assert c.system.guards[w := c.system.guards[w]] == c.system.guards;
  }

  lemma StepIsShadow(c: Crew, a: CrewAction)
    ensures CrewStep(c, a).system == Trace(c.system, Shadow(c, a))
  {
    if a.ChildAct? && Working(c, a.child) { ChildStepIsShadow(c, a.child, a.kind, a.env); }
    var shadow := Shadow(c, a);
    if shadow != [] { assert shadow[..0] == []; }
  }

  lemma {:induction false} TraceConcat(s: System, a: seq<Action>, b: seq<Action>)
    ensures Trace(s, a + b) == Trace(Trace(s, a), b)
  {
    if b == [] {
      assert a + b == a;
    } else {
      TraceConcat(s, a, b[..|b| - 1]);
      assert (a + b)[..|a + b| - 1] == a + b[..|b| - 1];
    }
  }

  /** Every run of a crew is, for the workers and the store, a run without children: borrowed guards add no behaviour. */
  lemma {:induction false} CrewRefinesWorkers(c: Crew, actions: seq<CrewAction>)
    ensures CrewRun(c, actions).system == Trace(c.system, Shadows(c, actions))
  {
    if actions != [] {
      var front := actions[..|actions| - 1];
      CrewRefinesWorkers(c, front);
      StepIsShadow(CrewRun(c, front), actions[|actions| - 1]);
      TraceConcat(c.system, Shadows(c, front), Shadow(CrewRun(c, front), actions[|actions| - 1]));
    }
  }

  lemma {:induction false} ShadowsPrefix(c: Crew, actions: seq<CrewAction>, k: nat)
    requires k <= |actions|
    ensures Shadows(c, actions[..k]) <= Shadows(c, actions)
  {
    if k == |actions| {
      assert actions[..k] == actions;
    } else {
      var front := actions[..|actions| - 1];
      ShadowsPrefix(c, front, k);
      assert front[..k] == actions[..k];
    }
  }

  lemma {:induction false} WorkerOfChild(c: Crew, actions: seq<CrewAction>, child: nat)
    requires child in c.children
    ensures child in CrewRun(c, actions).children && CrewRun(c, actions).children[child].worker == c.children[child].worker
  {
    if actions != [] { WorkerOfChild(c, actions[..|actions| - 1], child); }
  }

  function ChildReply(c: Crew, child: nat, kind: ChildKind, env: Env): Outcome
    requires Working(c, child)
  { ChildStep(c, child, kind, env).2 }

  /** A positive answer to a child is a positive answer to its parent. */
  lemma AnswerComesFromParent(c: Crew, child: nat, kind: ChildKind, env: Env)
    requires Working(c, child) && (kind == ChildAssert || kind == ChildRenew) && ChildReply(c, child, kind, env).Holds?
    ensures var k := if kind == ChildAssert then KAssert else KRenew;
            && ParentKind(c.children[child].view, kind) == Some(k)
            && Fencing.Reply(c.system, Call(c.children[child].worker, k, env)).Holds?
  {}

  /** A guarded model call through a child: the same renew and assert, with anything at all in between, by workers and by
      other children. The parent's token is unchanged exactly when no grant was made in between; and then the parent
      held the execution at every moment of the call. */
  lemma BorrowedCallSawNoTakeover(c: Crew, child: nat, renew: Env, between: seq<CrewAction>, check: Env)
    requires Inv(c.system) && Working(c, child) && ChildReply(c, child, ChildRenew, renew).Holds?
    requires var c2 := CrewRun(CrewStep(c, ChildAct(child, ChildRenew, renew)), between);
             Working(c2, child) && ChildReply(c2, child, ChildAssert, check).Holds?
    ensures var c1 := CrewStep(c, ChildAct(child, ChildRenew, renew)); var c2 := CrewRun(c1, between);
            var w := c.children[child].worker;
            && w in c1.system.guards && w in c2.system.guards
            && (c2.system.guards[w].lease.token == c1.system.guards[w].lease.token <==> c2.system.store.high == c1.system.store.high)
            && (c2.system.guards[w].lease.token == c1.system.guards[w].lease.token ==>
                  forall k :: 0 <= k <= |between| ==> IsHolder(CrewRun(c1, between[..k]).system.store, c1.system.guards[w]))
  {
    var w := c.children[child].worker;
    var c1 := CrewStep(c, ChildAct(child, ChildRenew, renew));
    var c2 := CrewRun(c1, between);
    AnswerComesFromParent(c, child, ChildRenew, renew);
    ChildStepIsShadow(c, child, ChildRenew, renew);
    WorkerOfChild(c1, between, child);
    CrewRefinesWorkers(c1, between);
    AnswerComesFromParent(c2, child, ChildAssert, check);
    GuardedCallSawNoTakeover(c.system, w, renew, Shadows(c1, between), check);
    if c2.system.guards[w].lease.token == c1.system.guards[w].lease.token { HeldThroughout(c1, between, c1.system.guards[w]); }
  }

  /** Whoever held the execution at every moment of the workers' run held it at every moment of the crew's. */
  lemma HeldThroughout(c: Crew, actions: seq<CrewAction>, g: Guard)
    requires forall k :: 0 <= k <= |Shadows(c, actions)| ==> IsHolder(Trace(c.system, Shadows(c, actions)[..k]).store, g)
    ensures forall k :: 0 <= k <= |actions| ==> IsHolder(CrewRun(c, actions[..k]).system.store, g)
  {
    forall k | 0 <= k <= |actions| ensures IsHolder(CrewRun(c, actions[..k]).system.store, g) {
      CrewRefinesWorkers(c, actions[..k]);
      ShadowsPrefix(c, actions, k);
      var (all, part) := (Shadows(c, actions), Shadows(c, actions[..k]));
      assert part == all[..|part|];
    }
  }
}
