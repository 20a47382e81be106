/**
 Whole runs of one daemon: ticks, resolve requests and restarts in any order, with other daemons and
 app surfaces answering gates, and with the death of any process possible after any disk step.
 */
module GateRuns {
  import opened Text
  import opened GateFiles
  import opened GateCrashes
  import opened Telegram
  import opened GatePlans
  import opened DaemonTick

  datatype Activity =
    | Tick(input: TickInput)
    | Resolve(request: Request)        // by the daemon's own process
    | Elsewhere(caller: Caller)        // by another process
    | Restart

  /** `cut` is the number of disk steps after which the acting process dies, None when it finishes. */
  datatype Step = Step(activity: Activity, cut: Option<nat>)

  datatype System = System(w: World, seen: set<GateId>)

  const START := System(EMPTY_WORLD, {})

  function Seen(cache: Cache): set<GateId> {
    if cache.Some? then cache.value else {}
  }

  /** The disk steps of an activity and the cache it leaves when it finishes. */
  function Plan(w: World, cache: Cache, a: Activity): (seq<Op>, Cache) {
    match a
    case Tick(input) => var t := TickPlan(w, cache, input); (t.ops, t.cache)
    case Resolve(request) => var e := ResolvePlan(w, cache, request); (e.ops, e.cache)
    case Elsewhere(caller) => (CallerPlan(w, caller), cache)
    case Restart => ([], if cache.Some? then Some({}) else None)
  }

  function After(s: System, st: Step): System {
    var (ops, cache) := Plan(s.w, Some(s.seen), st.activity);
    System(Run(s.w, Cut(ops, st.cut)),
           if st.cut.None? then Seen(cache) else if st.activity.Elsewhere? then s.seen else {})
  }

  function AfterAll(s: System, steps: seq<Step>): System
    decreases |steps|
  {
    if steps == [] then s else AfterAll(After(s, steps[0]), steps[1..])
  }

  /** What the environment guarantees about each step. */
  predicate Possible(w: World, a: Activity) {
    a.Tick? ==> Feasible(w, a.input)
  }

  predicate PossibleAll(s: System, steps: seq<Step>)
    decreases |steps|
  {
    steps != [] ==> Possible(s.w, steps[0].activity) && PossibleAll(After(s, steps[0]), steps[1..])
  }

  lemma PlanTidy(w: World, cache: Cache, a: Activity)
    requires Inv(w) && Possible(w, a)
    ensures Tidy(w, Plan(w, cache, a).0)
  {
    hide Inv, Run, AllowedAll, Paired, NoExecute, TickPlan, ResolvePlan, CallerPlan, Feasible;
    match a
    case Tick(input) => TickTidy(w, cache, input);
    case Resolve(request) => ResolveAllowed(w, cache, request);
    case Elsewhere(caller) => CallerOrderly(w, caller);
    case Restart => OrderlyNothing(w);
  }

  /** The disk steps performed by a step of a run. */
  function OpsOf(s: System, st: Step): seq<Op> {
    Cut(Plan(s.w, Some(s.seen), st.activity).0, st.cut)
  }

  lemma OpsTidy(s: System, st: Step)
    requires Inv(s.w) && Possible(s.w, st.activity)
    ensures Tidy(s.w, OpsOf(s, st)) && After(s, st).w == Run(s.w, OpsOf(s, st))
  {
    hide Inv, Run, AllowedAll, Paired, Plan, Cut;
    PlanTidy(s.w, Some(s.seen), st.activity);
    CutAllowed(s.w, Plan(s.w, Some(s.seen), st.activity).0, st.cut);
    PairedCut(Plan(s.w, Some(s.seen), st.activity).0, st.cut);
  }

  lemma StepSafe(s: System, st: Step)
    requires Inv(s.w) && Possible(s.w, st.activity)
    ensures Inv(After(s, st).w) && Grows(s.w, After(s, st).w)
  {
    hide Inv, Run, AllowedAll, Grows, After, OpsOf, Paired;
    OpsTidy(s, st);
    RunKeepsInv(s.w, OpsOf(s, st));
    RunGrows(s.w, OpsOf(s, st));
  }

  lemma GrowsReflexive(w: World)
    ensures Grows(w, w)
  {}

  /** Every run keeps the invariant and never undoes an answer, whatever crashes on the way. */
  lemma {:induction false} RunSafe(s: System, steps: seq<Step>)
    requires Inv(s.w) && PossibleAll(s, steps)
    ensures Inv(AfterAll(s, steps).w) && Grows(s.w, AfterAll(s, steps).w)
    decreases |steps|
  {
    hide Inv, Grows, After, Possible;
    GrowsReflexive(s.w);
    if steps != [] {
      var s1 := After(s, steps[0]);
      StepSafe(s, steps[0]);
      RunSafe(s1, steps[1..]);
      GrowsTransitive(s.w, s1.w, AfterAll(s1, steps[1..]).w);
    }
  }

  lemma StartInv()
    ensures Inv(EMPTY_WORLD) && Idle(EMPTY_WORLD)
  {}

  /** The answer to `g` on disk is a whole document about `g` itself, whose option is set. */
  predicate WholeAnswer(w: World, g: GateId) {
    && g in w.resolved && w.resolved[g].Doc?
    && w.resolved[g].doc.gateId == g && w.resolved[g].doc.status == Closed && w.resolved[g].doc.chosen != Missing
  }

  /**
   The gate directory is safe in every state a run can reach, in the middle of operations included:
   an opened gate is never lost, an answer is never partial and can be read if it is one of the three
   options, a gate is reported as resolved at most once and only with the answer on disk, and no
   matter is asked about twice at a time.
   */
  lemma GateSafety(steps: seq<Step>)
    requires PossibleAll(START, steps)
    ensures var w := AfterAll(START, steps).w;
            && (forall i :: 0 <= i < |w.log| && w.log[i].GateOpened? ==>
              w.log[i].gate in w.pending || w.log[i].gate in w.resolved)
            && (forall g :: g in w.resolved ==>
                  WholeAnswer(w, g) && (ReadResolved(w, g).Some? <==> w.resolved[g].doc.chosen.Known?))
            && (forall i :: 0 <= i < |w.log| && w.log[i].GateResolved? ==> Answers(w, w.log[i].gate, w.log[i].answer))
            && (forall i, j :: 0 <= i < j < |w.log| && w.log[i].GateResolved? && w.log[j].GateResolved? ==>
                  w.log[i].gate != w.log[j].gate)
            && (forall g, h, role, subject :: OpenFor(w, g, role, subject) && OpenFor(w, h, role, subject) ==> g == h)
  {
    StartInv();
    RunSafe(START, steps);
  }

  lemma {:induction false} AfterConcat(s: System, a: seq<Step>, b: seq<Step>)
    ensures AfterAll(s, a + b) == AfterAll(AfterAll(s, a), b)
    ensures PossibleAll(s, a + b) ==> PossibleAll(AfterAll(s, a), b)
    ensures PossibleAll(s, a + b) ==> PossibleAll(s, a)
    decreases |a|
  {
    if a == [] {
      assert a + b == b;
    } else {
      assert (a + b)[1..] == a[1..] + b;
      AfterConcat(After(s, a[0]), a[1..], b);
    }
  }

  /** Once a gate has an answer, every later state has the same answer, and reads it or rejects it as before. */
  lemma VerdictIsFinal(steps: seq<Step>, more: seq<Step>, g: GateId)
    requires PossibleAll(START, steps + more)
    ensures var w, w' := AfterAll(START, steps).w, AfterAll(START, steps + more).w;
            g in w.resolved ==>
              && g in w'.resolved && w'.resolved[g] == w.resolved[g]
              && ReadResolved(w', g) == ReadResolved(w, g)
  {
    StartInv();
    AfterConcat(START, steps, more);
    RunSafe(START, steps);
    RunSafe(AfterAll(START, steps), more);
  }

  /** A gate whose id is not valid is never answered, in any run. */
  lemma InvalidNeverAnswered(steps: seq<Step>, g: GateId)
    requires PossibleAll(START, steps) && !ValidGateId(g)
    ensures g !in AfterAll(START, steps).w.resolved
  {
    StartInv();
    RunSafe(START, steps);
    InvalidUnread(AfterAll(START, steps).w, g);
  }

  // ----- every execution of every run is authorised

  /** The disk steps performed by the `n`-th step of a run. */
  function OpsAt(steps: seq<Step>, n: nat): seq<Op>
    requires n < |steps|
  {
    OpsOf(AfterAll(START, steps[..n]), steps[n])
  }

  /**
   The `i`-th disk step of the `n`-th step of the run executes `run`, is the `k`-th execution of the
   run, and is justified in its own tick.
   */
  predicate AuthorisedAt(steps: seq<Step>, n: nat, i: nat, k: nat, run: Execution) {
    && n < |steps| && i < |OpsAt(steps, n)| && OpsAt(steps, n)[i] == Execute(run)
    && |Run(AfterAll(START, steps[..n]).w, OpsAt(steps, n)[..i]).executions| == k
    && steps[n].activity.Tick?
    && Justified(AfterAll(START, steps[..n]).w, steps[n].activity.input, OpsAt(steps, n), i)
  }

  /** The step that produced the `k`-th execution. */
  lemma {:induction false} RunExecutions(w: World, ops: seq<Op>, k: nat)
    requires |w.executions| <= k < |Run(w, ops).executions|
    ensures exists i ::
              0 <= i < |ops| && ops[i] == Execute(Run(w, ops).executions[k]) && |Run(w, ops[..i]).executions| == k
  {
    if ops != [] {
      hide Run;
      var n := |ops| - 1;
      LastExecution(w, ops);
      if k < |Run(w, ops[..n]).executions| {
        RunExecutions(w, ops[..n], k);
        var i :| 0 <= i < n && ops[..n][i] == Execute(Run(w, ops[..n]).executions[k])
          && |Run(w, ops[..n][..i]).executions| == k;
        assert ops[..n][..i] == ops[..i];
        assert ops[i] == ops[..n][i];
      } else {
        assert ops[n] == Execute(Run(w, ops).executions[k]);
      }
    }
  }

  lemma OnlyTicksExecute(w: World, cache: Cache, a: Activity)
    requires Inv(w) && Possible(w, a) && !a.Tick?
    ensures NoExecute(Plan(w, cache, a).0)
  {
    hide Inv, Run, AllowedAll, Paired, NoExecute, ResolvePlan, CallerPlan, TickPlan;
    match a
    case Resolve(request) => ResolveAllowed(w, cache, request);
    case Elsewhere(caller) => CallerOrderly(w, caller);
    case Restart => OrderlyNothing(w);
  }

  /** An execution among the performed steps of one activity is justified, even if the process dies right after it. */
  lemma StepJustified(w: World, cache: Cache, st: Step, i: nat)
    requires Inv(w) && Possible(w, st.activity)
    requires var ops := Cut(Plan(w, cache, st.activity).0, st.cut); i < |ops| && ops[i].Execute?
    ensures st.activity.Tick? && Justified(w, st.activity.input, Cut(Plan(w, cache, st.activity).0, st.cut), i)
  {
    var ops := Plan(w, cache, st.activity).0;
    assert i < |ops| && Cut(ops, st.cut)[i] == ops[i];
    if st.activity.Tick? {
      hide Inv, Run, TickPlan, ReadResolved, Backed, Feasible;
      TickJustified(w, cache, st.activity.input, i);
      assert Cut(ops, st.cut)[..i] == ops[..i];
    } else {
      OnlyTicksExecute(w, cache, st.activity);
    }
  }

  /**
   Over every run, with crashes and other surfaces anywhere, the `k`-th execution on record was
   authorised by its own tick: automatically in unattended mode for an allowed candidate, or by an
   approval of the gate about its role and subject that was on disk at that moment.
   */
  lemma {:induction false} EveryExecutionAuthorised(steps: seq<Step>, k: nat)
    requires PossibleAll(START, steps)
    ensures var x := AfterAll(START, steps).w.executions;
            k < |x| ==> exists n: nat, i: nat :: AuthorisedAt(steps, n, i, k, x[k])
  {
    hide Inv, Grows, Possible, Run, Plan, Justified, After, Cut;
    if steps != [] && k < |AfterAll(START, steps).w.executions| {
      var n := |steps| - 1;
      var s, st := AfterAll(START, steps[..n]), steps[n];
      LastStep(steps);
      var ops := OpsAt(steps, n);
      if k < |s.w.executions| {
        EveryExecutionAuthorised(steps[..n], k);
        var m: nat, i: nat :| AuthorisedAt(steps[..n], m, i, k, s.w.executions[k]);
        assert steps[..n][..m] == steps[..m];
        assert AuthorisedAt(steps, m, i, k, s.w.executions[k]);
      } else {
        RunExecutions(s.w, ops, k);
        var i :| 0 <= i < |ops| && ops[i] == Execute(AfterAll(START, steps).w.executions[k])
                 && |Run(s.w, ops[..i]).executions| == k;
        StepJustified(s.w, Some(s.seen), st, i);
        assert AuthorisedAt(steps, n, i, k, AfterAll(START, steps).w.executions[k]);
      }
    }
  }

  /** The last step of a run, taken from a safe state. */
  lemma LastStep(steps: seq<Step>)
    requires PossibleAll(START, steps) && steps != []
    ensures var n := |steps| - 1;
            var s := AfterAll(START, steps[..n]);
            && PossibleAll(START, steps[..n]) && Inv(s.w) && Possible(s.w, steps[n].activity)
            && AfterAll(START, steps) == After(s, steps[n])
            && AfterAll(START, steps).w == Run(s.w, OpsAt(steps, n))
            && Tidy(s.w, OpsAt(steps, n))
            && s.w.executions <= AfterAll(START, steps).w.executions
  {
    hide Inv, Grows, Possible, Plan, Run, After, Tidy, OpsOf;
    var n := |steps| - 1;
    assert steps == steps[..n] + [steps[n]];
    AfterConcat(START, steps[..n], [steps[n]]);
    StartInv();
    RunSafe(START, steps[..n]);
    var s := AfterAll(START, steps[..n]);
    assert [steps[n]][1..] == [];
    assert AfterAll(s, [steps[n]]) == After(s, steps[n]);
    OpsTidy(s, steps[n]);
    StepGrowsExecutions(s, steps[n]);
  }

  lemma StepGrowsExecutions(s: System, st: Step)
    requires Inv(s.w) && Possible(s.w, st.activity)
    ensures s.w.executions <= After(s, st).w.executions
  {
    hide Inv, After, Possible;
    StepSafe(s, st);
  }

  // ----- what the deaths of processes leave behind over a run

  /** In some step of the run a process died right after this disk step. */
  ghost predicate DiedInRun(steps: seq<Step>, op: Op) {
    exists n :: 0 <= n < |steps| && DiedAfter(OpsAt(steps, n), op)
  }

  lemma DiedInRunSnoc(steps: seq<Step>, op: Op)
    requires steps != []
    ensures DiedInRun(steps, op) <==> DiedInRun(steps[..|steps| - 1], op) || DiedAfter(OpsAt(steps, |steps| - 1), op)
  {
    hide OpsOf, DiedAfter, AfterAll;
    var last := |steps| - 1;
    var front := steps[..last];
    forall n: nat | n < last ensures OpsAt(front, n) == OpsAt(steps, n) {
      assert front[..n] == steps[..n];
    }
    if DiedInRun(front, op) {
      var n :| 0 <= n < |front| && DiedAfter(OpsAt(front, n), op);
      assert DiedAfter(OpsAt(steps, n), op);
    }
    if DiedInRun(steps, op) {
      var n :| 0 <= n < |steps| && DiedAfter(OpsAt(steps, n), op);
      assert n < last ==> DiedAfter(OpsAt(front, n), op);
    }
  }

  /**
   A gate is stale after a run exactly if some process died, in some step of it, between publishing
   the answer and renaming the question of that very gate.
   */
  lemma {:induction false} StaleAfterRun(steps: seq<Step>, g: GateId)
    requires PossibleAll(START, steps)
    ensures var w := AfterAll(START, steps).w;
            Idle(w) && (Stale(w, g) <==> DiedInRun(steps, PublishTmp(g)))
  {
    hide Inv, Stale, Run, After, Possible, OpsAt, AllowedAll, Paired, DiedAfter, Idle;
    NothingAtStart(g);
    if steps != [] {
      var n := |steps| - 1;
      LastStep(steps);
      StaleAfterRun(steps[..n], g);
      StaleExactly(AfterAll(START, steps[..n]).w, OpsAt(steps, n), g);
      DiedInRunSnoc(steps, PublishTmp(g));
    }
  }

  lemma NothingAtStart(g: GateId)
    ensures Inv(START.w) && Idle(START.w) && !Stale(START.w, g) && !Unlogged(START.w, g)
  {}

  /** An answer is missing from the log exactly if its resolver died after publishing it and before reporting it. */
  lemma {:induction false} UnloggedAfterRun(steps: seq<Step>, g: GateId)
    requires PossibleAll(START, steps)
    ensures Unlogged(AfterAll(START, steps).w, g)
            <==> DiedInRun(steps, PublishTmp(g)) || DiedInRun(steps, RetirePending(g))
  {
    hide Inv, Unlogged, Run, After, Possible, OpsAt, AllowedAll, Paired, DiedAfter, Idle;
    NothingAtStart(g);
    if steps != [] {
      var n := |steps| - 1;
      LastStep(steps);
      StaleAfterRun(steps[..n], g);
      UnloggedAfterRun(steps[..n], g);
      UnloggedExactly(AfterAll(START, steps[..n]).w, OpsAt(steps, n), g);
      DiedInRunSnoc(steps, PublishTmp(g));
      DiedInRunSnoc(steps, RetirePending(g));
    }
  }

  /** Nobody died between publishing an answer and renaming its question. */
  ghost predicate NoneHalfPublished(steps: seq<Step>) {
    forall g :: !DiedInRun(steps, PublishTmp(g))
  }

  /** Nobody died between renaming a question and reporting its answer. */
  ghost predicate NoneHalfReported(steps: seq<Step>) {
    forall g :: !DiedInRun(steps, RetirePending(g))
  }

  ghost predicate AllLogged(w: World) {
    forall g :: g in w.resolved ==> AnswerLogged(w, g)
  }

  /**
   Questions and answers are separate, and every answer is handled, exactly if nobody died between
   publishing an answer and renaming its question; every answer is logged exactly if, moreover,
   nobody died between renaming and reporting. No two executions rest on the same gate then.
   */
  lemma CrashFreeRun(steps: seq<Step>)
    requires PossibleAll(START, steps)
    ensures var w := AfterAll(START, steps).w;
            && (w.pending.Keys !! w.resolved.Keys <==> NoneHalfPublished(steps))
            && (w.handled.Keys == w.resolved.Keys <==> NoneHalfPublished(steps))
            && (AllLogged(w) <==> NoneHalfPublished(steps) && NoneHalfReported(steps))
            && (NoneHalfPublished(steps) ==>
                  forall i, j :: 0 <= i < j < |w.executions| ==> !SameGate(w.executions[i], w.executions[j]))
  {
    hide DiedInRun, NoneHalfReported, AllLogged, After;
    StaleGates(steps);
    LoggedExactly(steps, AfterAll(START, steps).w);
    var w := AfterAll(START, steps).w;
    hide Inv, Stale;
    SettledShape(w);
    RepeatedGatesAreStale(w);
  }

  lemma StaleGates(steps: seq<Step>)
    requires PossibleAll(START, steps)
    ensures Inv(AfterAll(START, steps).w)
    ensures forall g :: Stale(AfterAll(START, steps).w, g) <==> DiedInRun(steps, PublishTmp(g))
  {
    hide DiedInRun, Inv, Stale;
    StartInv();
    RunSafe(START, steps);
    forall g ensures Stale(AfterAll(START, steps).w, g) <==> DiedInRun(steps, PublishTmp(g)) {
      StaleAfterRun(steps, g);
    }
  }

  lemma LoggedExactly(steps: seq<Step>, w: World)
    requires PossibleAll(START, steps) && w == AfterAll(START, steps).w
    ensures AllLogged(w) <==> NoneHalfPublished(steps) && NoneHalfReported(steps)
  {
    hide DiedInRun, AnswerLogged, After, AllLogged, NoneHalfPublished, NoneHalfReported;
    if AllLogged(w) {
      LoggedMeansWhole(steps, w);
    }
    if NoneHalfPublished(steps) && NoneHalfReported(steps) {
      WholeMeansLogged(steps, w);
    }
  }

  lemma LoggedMeansWhole(steps: seq<Step>, w: World)
    requires PossibleAll(START, steps) && w == AfterAll(START, steps).w && AllLogged(w)
    ensures NoneHalfPublished(steps) && NoneHalfReported(steps)
  {
    hide DiedInRun, AnswerLogged, After;
    forall g ensures !DiedInRun(steps, PublishTmp(g)) {
      UnloggedAfterRun(steps, g);
    }
    forall g ensures !DiedInRun(steps, RetirePending(g)) {
      UnloggedAfterRun(steps, g);
    }
  }

  lemma WholeMeansLogged(steps: seq<Step>, w: World)
    requires PossibleAll(START, steps) && w == AfterAll(START, steps).w
    requires NoneHalfPublished(steps) && NoneHalfReported(steps)
    ensures AllLogged(w)
  {
    hide DiedInRun, AnswerLogged, After;
    forall g | g in w.resolved ensures AnswerLogged(w, g) {
      UnloggedAfterRun(steps, g);
    }
  }

  // ----- when an approval is spent

  /** An attended tick that gets as far as asking about its first candidate, and can claim it. */
  predicate Asks(t: TickInput) {
    AsksPrincipal(t) && t.claim != ClaimRaised
  }

  lemma AnsweredWaitEnds(w: World, cache: Cache, t: TickInput, g: GateId, deadline: int)
    requires Inv(w) && ReadResolved(w, g).Some? && deadline == t.now + PROPOSAL_TIMEOUT
    ensures var wt := TickWait(w, cache, t, g);
            wt.result == Chosen(ReadResolved(w, g).value) && wt.ops == OthersPlan(w, t.env(t.now).others)
  {
    hide Inv, OthersPlan;
    OthersOrderly(w, t.env(t.now).others);
    OrderlyKeepsInv(w, OthersPlan(w, t.env(t.now).others));
    RunGrows(w, OthersPlan(w, t.env(t.now).others));
    assert TickWait(w, cache, t, g) == WaitPlan(w, cache, g, t.role, t.env, t.now, deadline);
  }

  /** Where a tick about an answered matter executes: after its discovery, the first visits, and two entries. */
  function SpendsAt(w: World, t: TickInput): nat
    requires t.candidates != []
  {
    1 + |OthersPlan(Run(w, Discovery(t)), t.env(t.now).others)| + 2
  }

  /**
   A stale approved gate is executed again by the next attended tick about its matter, whatever the
   environment does meanwhile: the tick takes the old answer for an answer to its own question.
   */
  lemma StaleApprovalRunsAgain(w: World, cache: Cache, t: TickInput, g: GateId)
    requires Inv(w) && Feasible(w, t) && Asks(t)
    requires Stale(w, g) && ReadResolved(w, g) == Some(Approve) && OpenFor(w, g, t.role, Subject(t.candidates[0]))
    ensures var ops := TickPlan(w, cache, t).ops;
            && SpendsAt(w, t) < |ops|
            && ops[SpendsAt(w, t)] == Execute(Execution(t.role, Subject(t.candidates[0]), Some(g)))
  {
    hide Inv, Run, Feasible, ReadResolved, AskPlan, OthersPlan, NoHalt, Scan;
    ScanExactly(t.warnings);
    var subject := Subject(t.candidates[0]);
    var found := Discovery(t);
    DiscoveryKeeps(w, t, subject);
    StillOpen(w, t, g);
    var w1 := Run(w, found);
    var a := AskPlan(w1, cache, t, subject);
    StaleAskRunsAgain(w1, cache, t, subject, g);
    assert TickPlan(w, cache, t).ops == found + a.ops;
    assert (found + a.ops)[SpendsAt(w, t)] == a.ops[SpendsAt(w, t) - 1];
  }

  lemma StillOpen(w: World, t: TickInput, g: GateId)
    requires t.candidates != []
    ensures var w1 := Run(w, Discovery(t));
            && (forall role, subject :: OpenFor(w1, g, role, subject) <==> OpenFor(w, g, role, subject))
            && (forall role, subject :: OpenFor(w, g, role, subject) ==> g in w.pending)
            && ReadResolved(w1, g) == ReadResolved(w, g)
  {
    RunOne(w, Append(WorkDiscovered(t.role, Subject(t.candidates[0]))));
  }

  lemma StaleAskRunsAgain(w: World, cache: Cache, t: TickInput, subject: string, g: GateId)
    requires Inv(w) && Feasible(w, t) && Asks(t)
    requires ReadResolved(w, g) == Some(Approve) && OpenFor(w, g, t.role, subject)
    ensures var ops := AskPlan(w, cache, t, subject).ops;
            var n := |OthersPlan(w, t.env(t.now).others)| + 2;
            n < |ops| && ops[n] == Execute(Execution(t.role, subject, Some(g)))
  {
    hide Run, TickWait, ReadResolved, Paired, AllowedAll, OthersPlan;
    var o := OpenPlan(w, t.listing, t.role, subject, t.hex);
    OpenAllowed(w, t.listing, t.role, subject, t.hex);
    assert !o.isNew;
    assert Run(w, []) == w by { RunNone(w); }
    assert o.gate == g;
    AnsweredWaitEnds(w, cache, t, g, t.now + PROPOSAL_TIMEOUT);
    var ops := ConcludePlan(t, subject, g, Chosen(Approve)).0;
    assert ops[2] == Execute(TickRun(t, subject, Some(g)));
    var a := AskPlan(w, cache, t, subject);
    assert a.ops[|o.ops + TickWait(w, cache, t, g).ops| + 2] == ops[2];
  }

  /** A tick that executes on a gate answered before it began found that gate stale, and asks. */
  lemma SpendingTick(w: World, cache: Cache, t: TickInput, g: GateId, i: nat)
    requires Inv(w) && Feasible(w, t) && g in w.resolved
    requires var ops := TickPlan(w, cache, t).ops; i < |ops| && ops[i].Execute? && ops[i].run.gate == Some(g)
    ensures Asks(t) && Stale(w, g) && ReadResolved(w, g) == Some(Approve)
            && OpenFor(w, g, t.role, Subject(t.candidates[0]))
    ensures i == SpendsAt(w, t)
    ensures TickPlan(w, cache, t).ops[i].run == Execution(t.role, Subject(t.candidates[0]), Some(g))
  {
    hide Inv, Run, Feasible, ReadResolved, AskPlan, OthersPlan, Backed, OpenFor, DispatchPlan, NoHalt, Scan;
    ScanExactly(t.warnings);
    TickJustified(w, cache, t, i);
    var ops := TickPlan(w, cache, t).ops;
    var subject := Subject(t.candidates[0]);
    AnswerUnchanged(w, cache, t, g, i);
    DiscoveryKeeps(w, t, subject);
    StillOpen(w, t, g);
    var w1 := Run(w, Discovery(t));
    var a := AskPlan(w1, cache, t, subject);
    assert ops == Discovery(t) + a.ops;
    assert ops[i] == a.ops[i - 1];
    SpendingAsk(w1, cache, t, subject, g, i - 1);
  }

  /** What the tick reads of a gate that had an answer before is that answer. */
  lemma AnswerUnchanged(w: World, cache: Cache, t: TickInput, g: GateId, i: nat)
    requires Inv(w) && Feasible(w, t) && g in w.resolved && i <= |TickPlan(w, cache, t).ops|
    ensures ReadResolved(Run(w, TickPlan(w, cache, t).ops[..i]), g) == ReadResolved(w, g)
  {
    hide Inv, Feasible, TickPlan, Run, AllowedAll, Paired;
    TickTidy(w, cache, t);
    AllowedPrefix(w, TickPlan(w, cache, t).ops, i);
    RunGrows(w, TickPlan(w, cache, t).ops[..i]);
  }

  lemma SpendingAsk(w: World, cache: Cache, t: TickInput, subject: string, g: GateId, i: nat)
    requires Inv(w) && Feasible(w, t) && g in w.resolved && ReadResolved(w, g) == Some(Approve)
    requires var ops := AskPlan(w, cache, t, subject).ops; i < |ops| && ops[i].Execute? && ops[i].run.gate == Some(g)
    ensures OpenFor(w, g, t.role, subject) && t.claim != ClaimRaised
    ensures i == |OthersPlan(w, t.env(t.now).others)| + 2
    ensures AskPlan(w, cache, t, subject).ops[i].run == Execution(t.role, subject, Some(g))
  {
    hide Run, TickWait, ReadResolved, OthersPlan, Inv, AllowedAll, Paired, OpenFor;
    AskExecutesLast(w, cache, t, subject, i);
    var o := OpenPlan(w, t.listing, t.role, subject, t.hex);
    OpenAllowed(w, t.listing, t.role, subject, t.hex);
    assert o.gate == g && !o.isNew;
    assert Run(w, []) == w by { RunNone(w); }
    AnsweredWaitEnds(w, cache, t, g, t.now + PROPOSAL_TIMEOUT);
  }

  /**
   Exactly which ticks execute on an approval that was there before they began: those that ask, about
   the matter of a gate that is stale and whose answer reads "approve".
   */
  lemma TickSpendsExactly(w: World, cache: Cache, t: TickInput, g: GateId)
    requires Inv(w) && Feasible(w, t) && g in w.resolved && t.candidates != []
    ensures Execute(Execution(t.role, Subject(t.candidates[0]), Some(g))) in TickPlan(w, cache, t).ops
            <==> && Asks(t) && Stale(w, g) && ReadResolved(w, g) == Some(Approve)
                 && OpenFor(w, g, t.role, Subject(t.candidates[0]))
  {
    hide Inv, Feasible, TickPlan, ReadResolved, OpenFor, Asks, SpendsAt, Stale, Subject;
    var ops := TickPlan(w, cache, t).ops;
    var run := Execution(t.role, Subject(t.candidates[0]), Some(g));
    if Execute(run) in ops {
      var i :| 0 <= i < |ops| && ops[i] == Execute(run);
      SpendingTick(w, cache, t, g, i);
    }
    if Asks(t) && Stale(w, g) && ReadResolved(w, g) == Some(Approve)
      && OpenFor(w, g, t.role, Subject(t.candidates[0])) {
      StaleApprovalRunsAgain(w, cache, t, g);
    }
  }

  // ----- when an approval is spent twice

  /**
   In the `n`-th step of the run a tick asks about the matter of a gate that was executed on before
   and is still listed as a question, and is not cut off before it executes.
   */
  predicate SpendsAgain(steps: seq<Step>, n: nat, g: GateId) {
    && n < |steps| && steps[n].activity.Tick?
    && var w, t := AfterAll(START, steps[..n]).w, steps[n].activity.input;
       && RestsOn(w, g) && Asks(t) && OpenFor(w, g, t.role, Subject(t.candidates[0]))
       && (steps[n].cut.Some? ==> steps[n].cut.value > SpendsAt(w, t))
  }

  lemma UsedIsApproved(w: World, g: GateId)
    requires Inv(w) && RestsOn(w, g)
    ensures g in w.resolved && ReadResolved(w, g) == Some(Approve)
    ensures forall role, subject :: OpenFor(w, g, role, subject) ==> Stale(w, g)
  {
    var i :| 0 <= i < |w.executions| && w.executions[i].gate == Some(g);
    assert Backed(w, w.executions[i]);
  }

  lemma CutKeeps(ops: seq<Op>, cut: Option<nat>, i: nat)
    requires i < |ops|
    ensures (cut.Some? ==> cut.value > i) ==> i < |Cut(ops, cut)| && Cut(ops, cut)[i] == ops[i]
    ensures i < |Cut(ops, cut)| && Cut(ops, cut)[i].Execute? ==>
            Cut(ops, cut)[i] == ops[i] && (cut.Some? ==> cut.value > i)
  {}

  lemma {:induction false} ExecutionRecorded(w: World, ops: seq<Op>, i: nat)
    requires i < |ops| && ops[i].Execute?
    ensures exists k :: |w.executions| <= k < |Run(w, ops).executions| && Run(w, ops).executions[k] == ops[i].run
  {
    hide Run;
    var n := |ops| - 1;
    ExecutionsOnlyGrow(w, ops[..n]);
    LastExecution(w, ops);
    if i == n {
      assert Run(w, ops).executions[|Run(w, ops[..n]).executions|] == ops[i].run;
    } else {
      ExecutionRecorded(w, ops[..n], i);
      var k :| |w.executions| <= k < |Run(w, ops[..n]).executions| && Run(w, ops[..n]).executions[k] == ops[..n][i].run;
      assert Run(w, ops).executions[k] == ops[i].run;
    }
  }

  lemma {:induction false} ExecutionsOnlyGrow(w: World, ops: seq<Op>)
    ensures w.executions <= Run(w, ops).executions
  {
    RunNone(w);
    if ops != [] {
      hide Run;
      LastExecution(w, ops);
      ExecutionsOnlyGrow(w, ops[..|ops| - 1]);
    }
  }

  lemma SplitRun(steps: seq<Step>, n: nat)
    requires PossibleAll(START, steps) && n <= |steps|
    ensures PossibleAll(START, steps[..n]) && PossibleAll(AfterAll(START, steps[..n]), steps[n..])
    ensures AfterAll(START, steps) == AfterAll(AfterAll(START, steps[..n]), steps[n..])
    ensures Inv(AfterAll(START, steps[..n]).w)
  {
    hide Inv, AfterAll, PossibleAll, Grows;
    assert steps == steps[..n] + steps[n..];
    AfterConcat(START, steps[..n], steps[n..]);
    StartInv();
    RunSafe(START, steps[..n]);
  }

  /** A step of the run, seen from the world it starts in. */
  lemma TickAt(steps: seq<Step>, n: nat)
    requires PossibleAll(START, steps) && n < |steps|
    ensures var w := AfterAll(START, steps[..n]).w;
            && Inv(w) && Possible(w, steps[n].activity)
            && Run(w, OpsAt(steps, n)).executions <= AfterAll(START, steps).w.executions
  {
    hide Inv, Possible, Run, Tidy, OpsOf, AfterAll, PossibleAll, After;
    var front := steps[..n + 1];
    assert front[..n] == steps[..n] && front[n] == steps[n];
    assert OpsAt(front, n) == OpsAt(steps, n);
    SplitRun(steps, n + 1);
    LastStep(front);
    RestKeepsExecutions(AfterAll(START, front), steps[n + 1..]);
  }

  lemma RestKeepsExecutions(s: System, steps: seq<Step>)
    requires Inv(s.w) && PossibleAll(s, steps)
    ensures s.w.executions <= AfterAll(s, steps).w.executions
  {
    hide Inv, After, Possible;
    RunSafe(s, steps);
  }

  lemma SpendsAgainRepeats(steps: seq<Step>, n: nat, g: GateId)
    requires PossibleAll(START, steps) && SpendsAgain(steps, n, g)
    ensures var x := AfterAll(START, steps).w.executions;
            exists i, j :: 0 <= i < j < |x| && SameGate(x[i], x[j]) && x[i].gate == Some(g)
  {
    hide Inv, Run, Feasible, Scan, ApprovalRequired, OpenFor, SpendsAt, TickPlan, Cut;
    TickAt(steps, n);
    var s, t := AfterAll(START, steps[..n]), steps[n].activity.input;
    var x := AfterAll(START, steps).w.executions;
    UsedIsApproved(s.w, g);
    StaleApprovalRunsAgain(s.w, Some(s.seen), t, g);
    var e := SpendsAt(s.w, t);
    CutKeeps(TickPlan(s.w, Some(s.seen), t).ops, steps[n].cut, e);
    assert OpsAt(steps, n)[e].run.gate == Some(g);
    ExecutionRecorded(s.w, OpsAt(steps, n), e);
    ExecutionsOnlyGrow(s.w, OpsAt(steps, n));
    var i :| 0 <= i < |s.w.executions| && s.w.executions[i].gate == Some(g);
    var j :| |s.w.executions| <= j < |Run(s.w, OpsAt(steps, n)).executions|
             && Run(s.w, OpsAt(steps, n)).executions[j] == OpsAt(steps, n)[e].run;
    assert x[i] == s.w.executions[i] && x[j].gate == Some(g);
  }

  /** Before a tick executes on an old answer it has executed nothing. */
  lemma {:induction false} NothingBefore(w: World, ops: seq<Op>, i: nat)
    requires i <= |ops| && forall k :: 0 <= k < i ==> !ops[k].Execute?
    ensures Run(w, ops[..i]).executions == w.executions
  {
    assert NoExecute(ops[..i]);
    NoExecuteKeepsExecutions(w, ops[..i]);
  }

  lemma {:induction false} RepeatSpendsAgain(steps: seq<Step>, i: nat, j: nat)
    requires PossibleAll(START, steps)
    requires var x := AfterAll(START, steps).w.executions; i < j < |x| && SameGate(x[i], x[j])
    ensures exists n: nat, g :: SpendsAgain(steps, n, g)
  {
    hide Inv, Run, Feasible, Asks, OpenFor, SpendsAt, TickPlan, Cut, Justified;
    var x := AfterAll(START, steps).w.executions;
    var g := x[i].gate.value;
    EveryExecutionAuthorised(steps, j);
    var n: nat, m: nat :| AuthorisedAt(steps, n, m, j, x[j]);
    TickAt(steps, n);
    var s, t := AfterAll(START, steps[..n]), steps[n].activity.input;
    var ops, cut := TickPlan(s.w, Some(s.seen), t).ops, steps[n].cut;
    assert OpsAt(steps, n) == Cut(ops, cut);
    CutLonger(ops, cut, m);
    CutKeeps(ops, cut, m);
    OneExecution(s.w, Some(s.seen), t, m);
    CutPrefix(ops, cut, m);
    NothingBefore(s.w, ops, m);
    ExecutionsOnlyGrow(s.w, OpsAt(steps, n));
    assert |s.w.executions| == j;
    assert s.w.executions[i] == x[i];
    assert RestsOn(s.w, g);
    UsedIsApproved(s.w, g);
    SpendingTick(s.w, Some(s.seen), t, g, m);
    assert SpendsAgain(steps, n, g);
  }

  lemma CutLonger(ops: seq<Op>, cut: Option<nat>, i: nat)
    requires i < |Cut(ops, cut)| && Cut(ops, cut)[i].Execute?
    ensures i < |ops|
  {}

  lemma CutPrefix(ops: seq<Op>, cut: Option<nat>, i: nat)
    requires i < |ops| && (cut.Some? ==> cut.value > i)
    ensures i < |Cut(ops, cut)| && Cut(ops, cut)[..i] == ops[..i]
  {}

  /** A tick executes at most once. */
  lemma OneExecution(w: World, cache: Cache, t: TickInput, i: nat)
    requires Inv(w) && Feasible(w, t)
    requires var ops := TickPlan(w, cache, t).ops; i < |ops| && ops[i].Execute?
    ensures forall k :: 0 <= k < i ==> !TickPlan(w, cache, t).ops[k].Execute?
  {
    hide Inv, Run, Feasible, AskPlan, Justified;
    var ops := TickPlan(w, cache, t).ops;
    TickJustified(w, cache, t, i);
    var subject := Subject(t.candidates[0]);
    DiscoveryKeeps(w, t, subject);
    var d := DecidePlan(Run(w, Discovery(t)), cache, t, subject);
    assert ops == Discovery(t) + d.ops;
    forall k | 0 <= k < i && ops[k].Execute? ensures false {
      assert ops[k] == d.ops[k - 1] && ops[i] == d.ops[i - 1];
      OneDecision(Run(w, Discovery(t)), cache, t, subject, k - 1, i - 1);
    }
  }

  lemma OneDecision(w: World, cache: Cache, t: TickInput, subject: string, i: nat, j: nat)
    requires Inv(w) && Feasible(w, t)
    requires var ops := DecidePlan(w, cache, t, subject).ops;
             i < |ops| && j < |ops| && ops[i].Execute? && ops[j].Execute?
    ensures i == j
  {
    hide Inv, Run, Feasible, AskPlan, DispatchPlan;
    DispatchShape(t, subject, None);
    if t.unattended && !ApprovalRequired(t.auth) {
      var ops := DispatchPlan(t, subject, None).0;
      assert DecidePlan(w, cache, t, subject).ops == [Append(AutoApproved(t.role, subject))] + ops;
      assert ops[i - 1].Execute? && ops[j - 1].Execute?;
    } else {
      AskExecutesLast(w, cache, t, subject, i);
      AskExecutesLast(w, cache, t, subject, j);
    }
  }

  /**
   Over every run, some approval is spent twice exactly if some tick asks about the matter of a gate
   that was executed on before and is still listed as a question.
   */
  lemma RepeatedApprovalExactly(steps: seq<Step>)
    requires PossibleAll(START, steps)
    ensures var x := AfterAll(START, steps).w.executions;
            (exists i, j :: 0 <= i < j < |x| && SameGate(x[i], x[j])) <==> exists n: nat, g :: SpendsAgain(steps, n, g)
  {
    hide SpendsAgain, AfterAll, PossibleAll;
    var x := AfterAll(START, steps).w.executions;
    if i, j :| 0 <= i < j < |x| && SameGate(x[i], x[j]) {
      RepeatSpendsAgain(steps, i, j);
    }
    if n: nat, g :| SpendsAgain(steps, n, g) {
      SpendsAgainRepeats(steps, n, g);
    }
  }

  /** Such a gate is stale, so a process died between publishing its approval and renaming its question. */
  lemma RepeatedApprovalNeedsCrash(steps: seq<Step>, i: nat, j: nat)
    requires PossibleAll(START, steps)
    ensures var w := AfterAll(START, steps).w;
            i < j < |w.executions| && SameGate(w.executions[i], w.executions[j]) ==>
              var g := w.executions[i].gate.value; Stale(w, g) && DiedInRun(steps, PublishTmp(g))
  {
    hide DiedInRun;
    var w := AfterAll(START, steps).w;
    StartInv();
    RunSafe(START, steps);
    RepeatedGatesAreStale(w);
    if i < j < |w.executions| && SameGate(w.executions[i], w.executions[j]) {
      StaleAfterRun(steps, w.executions[i].gate.value);
    }
  }

  lemma StaleMatter(w: World, w': World, g: GateId, role: string, subject: string)
    requires Inv(w) && Inv(w') && Grows(w, w') && OpenFor(w, g, role, subject)
    ensures StuckStale(w, g) ==> StuckStale(w', g) && ReadResolved(w', g) == ReadResolved(w, g)
    ensures Stale(w', g) ==> OpenFor(w', g, role, subject)
  {
    hide UniqueInv, LogInv, ExecInv, RestsOn, IsPendingDoc, ValidGateId;
    assert About(w, g, role, subject);
    assert About(w', g, role, subject);
  }

  /**
   What a crash right after the publishing step of an approval leaves: a stale gate, and the questions
   as they were.
   */
  lemma CrashedAnswer(s: System, r: Request)
    requires Inv(s.w) && Opened(s.w, r.gate) && r.gate !in s.w.resolved && r.gate !in s.seen
    requires ValidGateId(r.gate) && r.option.Some?
    ensures var w := After(s, Step(Resolve(r), Some(3))).w;
            && StuckStale(w, r.gate) && ReadResolved(w, r.gate) == r.option
            && forall t :: Feasible(s.w, t) ==> Feasible(w, t)
  {
    hide Inv, ReadResolved, AnswerWorld, StuckStale, Feasible;
    OpenedResolves(s.w, r, r.option.value);
    CrashLeavesStale(s.w, Some(s.seen), r);
    CrashKeepsFeasible(s.w, Some(s.seen), r);
  }

  lemma CrashKeepsFeasible(w: World, cache: Cache, r: Request)
    requires ResolvePlan(w, cache, r).outcome.Answered?
    ensures var w' := Run(w, Cut(ResolvePlan(w, cache, r).ops, Some(3)));
            forall t :: Feasible(w, t) ==> Feasible(w', t)
  {
    ResolveOutcome(w, cache, r);
    var doc := ResolvedDoc(r.gate, w.pending[r.gate].doc, r.option.value);
    var ops := ResolvePlan(w, cache, r).ops;
    AnswerSteps(w, r.gate, doc, r.role, r.surface, 3);
    RunSnoc(w, ops[..3], Perish);
    hide ResolvePlan, Run, NewGateId;
  }

  lemma StaleTickRuns(w: World, cache: Cache, t: TickInput, g: GateId)
    requires Inv(w) && Feasible(w, t) && Asks(t)
    requires Stale(w, g) && ReadResolved(w, g) == Some(Approve) && OpenFor(w, g, t.role, Subject(t.candidates[0]))
    ensures Execute(Execution(t.role, Subject(t.candidates[0]), Some(g))) in TickPlan(w, cache, t).ops
  {
    hide TickPlan, Inv, Run, SpendsAt;
    StaleApprovalRunsAgain(w, cache, t, g);
  }

  /**
   The counterexample family: the principal approves an open gate, the process dies between
   publishing the answer and renaming the question, and two later ticks both execute on it.
   */
  lemma CrashedApprovalRunsTwice(s: System, r: Request, t1: TickInput, t2: TickInput, subject: string)
    requires Inv(s.w) && OpenFor(s.w, r.gate, t1.role, subject) && r.gate !in s.w.resolved && r.gate !in s.seen
    requires ValidGateId(r.gate) && r.option == Some(Approve)
    requires Asks(t1) && Asks(t2) && t2.role == t1.role && Feasible(s.w, t1)
    requires Subject(t1.candidates[0]) == subject && Subject(t2.candidates[0]) == subject
    ensures var s1 := After(s, Step(Resolve(r), Some(3)));
            var s2 := After(s1, Step(Tick(t1), None));
            var run := Execute(Execution(t1.role, subject, Some(r.gate)));
            && run in TickPlan(s1.w, Some(s1.seen), t1).ops
            && (Feasible(s2.w, t2) ==> run in TickPlan(s2.w, Some(s2.seen), t2).ops)
  {
    var crash := Step(Resolve(r), Some(3));
    var s1 := After(s, crash);
    var s2 := After(s1, Step(Tick(t1), None));
    CrashedAnswer(s, r);
    hide Run, Inv, Grows, ReadResolved, TickPlan, OpenFor, ResolvePlan, Feasible;
    StepSafe(s, crash);
    StaleMatter(s.w, s1.w, r.gate, t1.role, subject);
    StaleTickRuns(s1.w, Some(s1.seen), t1, r.gate);
    StepSafe(s1, Step(Tick(t1), None));
    StaleMatter(s1.w, s2.w, r.gate, t1.role, subject);
    if Feasible(s2.w, t2) {
      StaleTickRuns(s2.w, Some(s2.seen), t2, r.gate);
    }
  }

  // ----- what becomes of the cache

  /** A process that dies loses its cache, and a new one starts without; others leave it alone. */
  lemma CacheAfterStep(s: System, st: Step)
    ensures st.activity.Elsewhere? ==> After(s, st).seen == s.seen
    ensures st.activity.Restart? || (!st.activity.Elsewhere? && st.cut.Some?) ==> After(s, st).seen == {}
    ensures st.activity.Resolve? && st.cut.None? ==>
              Some(After(s, st).seen) == ResolvePlan(s.w, Some(s.seen), st.activity.request).cache
    ensures st.activity.Tick? && st.cut.None? ==>
              After(s, st).seen == Seen(TickPlan(s.w, Some(s.seen), st.activity.input).cache)
  {
    hide Run, TickPlan, CallerPlan, ResolveOnDisk;
  }
}
