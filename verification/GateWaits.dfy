/** When a wait on a gate ends with an option: what each of its passes finds on disk. */
module GateWaits {
  import opened Text
  import opened GateFiles
  import opened GateCrashes
  import opened Telegram
  import opened GatePlans

  /** The state in which a pass of the wait loop begins. */
  datatype Pass = Pass(w: World, cache: Cache, clock: int)

  /** The world in which a pass reads the answer: other processes have had their turn. */
  function ReadWorld(p: Pass, env: int -> Round): World {
    Run(p.w, OthersPlan(p.w, env(p.clock).others))
  }

  /** What a pass finds on disk. */
  function Finds(p: Pass, g: GateId, env: int -> Round): Option<Verdict> {
    ReadResolved(ReadWorld(p, env), g)
  }

  /** The state in which the next pass begins: the inbox has been polled, and the loop has slept. */
  function NextPass(p: Pass, g: GateId, role: string, env: int -> Round): Pass {
    var e := PollPlan(ReadWorld(p, env), p.cache, g, role, env(p.clock));
    Pass(Run(ReadWorld(p, env), e.ops), e.cache, p.clock + SLEEP + env(p.clock).delay)
  }

  function PassAfter(p: Pass, g: GateId, role: string, env: int -> Round, n: nat): Pass
    decreases n
  {
    if n == 0 then p else PassAfter(NextPass(p, g, role, env), g, role, env, n - 1)
  }

  /** The `n`-th pass begins before the deadline and finds the option. */
  predicate FindsAt(p: Pass, g: GateId, role: string, env: int -> Round, deadline: int, option: Verdict, n: nat) {
    var q := PassAfter(p, g, role, env, n);
    q.clock < deadline && Finds(q, g, env) == Some(option)
  }

  ghost predicate SomePassFinds(p: Pass, g: GateId, role: string, env: int -> Round, deadline: int, option: Verdict) {
    exists n: nat :: FindsAt(p, g, role, env, deadline, option, n)
  }

  function Wait(p: Pass, g: GateId, role: string, env: int -> Round, deadline: int): Waited {
    WaitPlan(p.w, p.cache, g, role, env, p.clock, deadline)
  }

  lemma WaitUnfold(p: Pass, g: GateId, role: string, env: int -> Round, deadline: int)
    ensures var wt := Wait(p, g, role, env, deadline);
            var e := PollPlan(ReadWorld(p, env), p.cache, g, role, env(p.clock));
            && (p.clock >= deadline ==> wt.result == TimedOut)
            && (p.clock < deadline && Finds(p, g, env).Some? ==> wt.result == Chosen(Finds(p, g, env).value))
            && (p.clock < deadline && Finds(p, g, env).None? ==>
                  wt.result == if e.outcome.Raises() then WaitRaised
                               else Wait(NextPass(p, g, role, env), g, role, env, deadline).result)
  {
    hide OthersPlan, PollPlan, ReadResolved, Run;
  }

  lemma PassSafe(p: Pass, g: GateId, role: string, env: int -> Round)
    requires Inv(p.w)
    ensures var q := NextPass(p, g, role, env);
            && Inv(ReadWorld(p, env)) && Grows(p.w, ReadWorld(p, env))
            && Inv(q.w) && Grows(ReadWorld(p, env), q.w) && q.clock > p.clock
  {
    hide Inv, AllowedAll, Paired, NoExecute, OthersPlan, PollPlan, Run, Grows;
    var before := OthersPlan(p.w, env(p.clock).others);
    var w1 := ReadWorld(p, env);
    OthersOrderly(p.w, env(p.clock).others);
    RunKeepsInv(p.w, before);
    RunGrows(p.w, before);
    PollOrderly(w1, p.cache, g, role, env(p.clock));
    RunKeepsInv(w1, PollPlan(w1, p.cache, g, role, env(p.clock)).ops);
    RunGrows(w1, PollPlan(w1, p.cache, g, role, env(p.clock)).ops);
  }

  lemma GrowsReads(w: World, w': World, g: GateId)
    requires Grows(w, w')
    ensures ReadResolved(w, g).Some? ==> ReadResolved(w', g) == ReadResolved(w, g)
    ensures Opened(w, g) ==> Opened(w', g)
  {}

  /** Passes begin later and later, and find again what an earlier one found. */
  lemma {:induction false} LaterPass(p: Pass, g: GateId, role: string, env: int -> Round, n: nat)
    requires Inv(p.w)
    ensures var q := PassAfter(p, g, role, env, n);
            && q.clock >= p.clock && Inv(q.w)
            && (Finds(p, g, env).Some? ==> Finds(q, g, env) == Finds(p, g, env))
    decreases n
  {
    hide Inv, Grows, ReadWorld, NextPass, ReadResolved;
    if n > 0 {
      var next := NextPass(p, g, role, env);
      PassSafe(p, g, role, env);
      PassSafe(next, g, role, env);
      GrowsReads(ReadWorld(p, env), next.w, g);
      GrowsReads(next.w, ReadWorld(next, env), g);
      LaterPass(next, g, role, env, n - 1);
    }
  }

  /** Polling on behalf of an opened gate raises only if nobody can answer it. */
  lemma OpenedPoll(w: World, cache: Cache, g: GateId, role: string, round: Round)
    requires Inv(w) && Opened(w, g) && PollPlan(w, cache, g, role, round).outcome.Raises()
    ensures !ValidGateId(g)
  {
    hide FirstDecision, ValidGateId, Inv;
    var d := FirstDecision(round.messages, g);
    assert round.telegram && d.Some?;
    OpenedResolves(w, Request(g, d, "telegram", role), d.value);
  }

  /** No pass of a wait on a gate with an invalid id finds anything. */
  lemma InvalidFindsNothing(p: Pass, g: GateId, role: string, env: int -> Round, n: nat)
    requires Inv(p.w) && !ValidGateId(g)
    ensures Finds(PassAfter(p, g, role, env, n), g, env).None?
  {
    hide Inv, Grows, ReadWorld, NextPass, ReadResolved, PassAfter;
    LaterPass(p, g, role, env, n);
    var q := PassAfter(p, g, role, env, n);
    PassSafe(q, g, role, env);
    InvalidUnread(ReadWorld(q, env), g);
  }

  lemma PassOneOn(p: Pass, g: GateId, role: string, env: int -> Round, deadline: int, option: Verdict, n: nat)
    ensures n > 0 ==> (FindsAt(p, g, role, env, deadline, option, n)
                       <==> FindsAt(NextPass(p, g, role, env), g, role, env, deadline, option, n - 1))
    ensures FindsAt(p, g, role, env, deadline, option, 0) <==> p.clock < deadline && Finds(p, g, env) == Some(option)
  {
    hide Finds, NextPass;
  }

  lemma {:induction false} ChosenIsFound(p: Pass, g: GateId, role: string, env: int -> Round, deadline: int,
    option: Verdict)
    requires Wait(p, g, role, env, deadline).result == Chosen(option)
    ensures SomePassFinds(p, g, role, env, deadline, option)
    decreases deadline - p.clock
  {
    hide Wait, Finds, FindsAt, PollPlan, ReadWorld;
    WaitUnfold(p, g, role, env, deadline);
    PassOneOn(p, g, role, env, deadline, option, 0);
    if p.clock < deadline && Finds(p, g, env).None? {
      var next := NextPass(p, g, role, env);
      ChosenIsFound(next, g, role, env, deadline, option);
      var n: nat :| FindsAt(next, g, role, env, deadline, option, n);
      PassOneOn(p, g, role, env, deadline, option, n + 1);
    }
  }

  lemma {:induction false} FoundIsChosen(p: Pass, g: GateId, role: string, env: int -> Round, deadline: int,
                                         option: Verdict, n: nat)
    requires Inv(p.w) && Opened(p.w, g) && FindsAt(p, g, role, env, deadline, option, n)
    ensures Wait(p, g, role, env, deadline).result == Chosen(option)
    decreases n
  {
    hide Inv, Opened, Grows, Wait, Finds, PassAfter, PollPlan, ReadWorld, NextPass, ValidGateId;
    LaterPass(p, g, role, env, n);
    WaitUnfold(p, g, role, env, deadline);
    if Finds(p, g, env).None? {
      PassOneOn(p, g, role, env, deadline, option, n);
      PassSafe(p, g, role, env);
      GrowsReads(p.w, ReadWorld(p, env), g);
      GrowsReads(ReadWorld(p, env), NextPass(p, g, role, env).w, g);
      if PollPlan(ReadWorld(p, env), p.cache, g, role, env(p.clock)).outcome.Raises() {
        OpenedPoll(ReadWorld(p, env), p.cache, g, role, env(p.clock));
        InvalidFindsNothing(p, g, role, env, n);
      } else {
        FoundIsChosen(NextPass(p, g, role, env), g, role, env, deadline, option, n - 1);
      }
    }
  }

  /**
     A wait on an opened gate ends with an option exactly if some pass that begins before the deadline
     finds it on disk.
   */
  lemma WaitEndsExactly(p: Pass, g: GateId, role: string, env: int -> Round, deadline: int, option: Verdict)
    requires Inv(p.w) && Opened(p.w, g)
    ensures Wait(p, g, role, env, deadline).result == Chosen(option)
            <==> SomePassFinds(p, g, role, env, deadline, option)
  {
    hide Inv, Opened, Wait, FindsAt;
    if Wait(p, g, role, env, deadline).result == Chosen(option) {
      ChosenIsFound(p, g, role, env, deadline, option);
    }
    if n: nat :| FindsAt(p, g, role, env, deadline, option, n) {
      FoundIsChosen(p, g, role, env, deadline, option, n);
    }
  }

  /**
   A reply in time that is not acted on: the last pass before the deadline reads before it polls, so the
   answer it records is on disk and handled when the wait reports that there was none.
   */
  lemma LastPassReplyIsLost(p: Pass, g: GateId, role: string, env: int -> Round, deadline: int, option: Verdict)
    requires Inv(p.w) && Opened(p.w, g) && g !in p.w.resolved && ValidGateId(g)
    requires p.cache.Some? ==> g !in p.cache.value
    requires p.clock < deadline <= p.clock + SLEEP + env(p.clock).delay
    requires env(p.clock).others == [] && env(p.clock).telegram
             && FirstDecision(env(p.clock).messages, g) == Some(option)
    ensures var wt := Wait(p, g, role, env, deadline);
            && wt.result == TimedOut
            && ReadResolved(Run(p.w, wt.ops), g) == Some(option)
            && g in Run(p.w, wt.ops).handled
  {
    hide Inv, FirstDecision, ValidGateId, Run, AnswerWorld;
    var r := Request(g, Some(option), "telegram", role);
    RunNone(p.w);
    OpenedResolves(p.w, r, option);
    var e := ResolvePlan(p.w, p.cache, r);
    assert e.outcome.Answered?;
    LateWait(p, g, role, env, deadline, option);
    ResolveAllowed(p.w, p.cache, r);
    AnsweredIsHandled(p.w, p.cache, r);
  }

  lemma LateWait(p: Pass, g: GateId, role: string, env: int -> Round, deadline: int, option: Verdict)
    requires g !in p.w.resolved && p.clock < deadline <= p.clock + SLEEP + env(p.clock).delay
    requires env(p.clock).others == [] && env(p.clock).telegram
             && FirstDecision(env(p.clock).messages, g) == Some(option)
    requires ResolvePlan(p.w, p.cache, Request(g, Some(option), "telegram", role)).outcome.Answered?
    ensures var e := ResolvePlan(p.w, p.cache, Request(g, Some(option), "telegram", role));
            Wait(p, g, role, env, deadline) == Waited(e.ops, e.cache, TimedOut)
  {
    hide ResolvePlan, FirstDecision, Run;
    var r := Request(g, Some(option), "telegram", role);
    var e := ResolvePlan(p.w, p.cache, r);
    RunNone(p.w);
    assert OthersPlan(p.w, env(p.clock).others) == [];
    assert PollPlan(p.w, p.cache, g, role, env(p.clock)) == e;
    var later := p.clock + SLEEP + env(p.clock).delay;
    var rest := WaitPlan(Run(p.w, e.ops), e.cache, g, role, env, later, deadline);
    assert rest == Waited([], e.cache, TimedOut);
    assert [] + e.ops + rest.ops == e.ops;
  }

  lemma AnsweredIsHandled(w: World, cache: Cache, r: Request)
    requires ResolvePlan(w, cache, r).outcome.Answered?
    ensures r.gate in Run(w, ResolvePlan(w, cache, r).ops).handled
  {
    ResolveOutcome(w, cache, r);
    var doc := ResolvedDoc(r.gate, w.pending[r.gate].doc, r.option.value);
    var ops := AnswerOps(r.gate, doc, r.role, r.surface);
    AnswerSteps(w, r.gate, doc, r.role, r.surface, 5);
    assert ops[..5] == ops;
  }

  // ----- when a wait ends without an option

  /** A reply decides about the gate in the `n`-th pass, which begins before the deadline. */
  predicate HearsAt(p: Pass, g: GateId, role: string, env: int -> Round, deadline: int, n: nat) {
    var q := PassAfter(p, g, role, env, n);
    q.clock < deadline && env(q.clock).telegram && FirstDecision(env(q.clock).messages, g).Some?
  }

  /** Waiting on an opened gate with a valid id never raises. */
  lemma {:induction false} ValidWaitEnds(p: Pass, g: GateId, role: string, env: int -> Round, deadline: int)
    requires Inv(p.w) && Opened(p.w, g) && ValidGateId(g)
    ensures Wait(p, g, role, env, deadline).result != WaitRaised
    decreases deadline - p.clock
  {
    hide Inv, Opened, Grows, Wait, Finds, PollPlan, ReadWorld, NextPass, ValidGateId;
    WaitUnfold(p, g, role, env, deadline);
    if p.clock < deadline && Finds(p, g, env).None? {
      PassSafe(p, g, role, env);
      GrowsReads(p.w, ReadWorld(p, env), g);
      GrowsReads(ReadWorld(p, env), NextPass(p, g, role, env).w, g);
      if PollPlan(ReadWorld(p, env), p.cache, g, role, env(p.clock)).outcome.Raises() {
        OpenedPoll(ReadWorld(p, env), p.cache, g, role, env(p.clock));
        assert false;
      }
      ValidWaitEnds(NextPass(p, g, role, env), g, role, env, deadline);
    }
  }

  /** So it times out exactly if no pass in time finds an option. */
  lemma ValidWaitTimesOut(p: Pass, g: GateId, role: string, env: int -> Round, deadline: int)
    requires Inv(p.w) && Opened(p.w, g) && ValidGateId(g)
    ensures Wait(p, g, role, env, deadline).result == TimedOut
            <==> forall option :: !SomePassFinds(p, g, role, env, deadline, option)
  {
    hide Inv, Opened, Wait, SomePassFinds, ValidGateId;
    ValidWaitEnds(p, g, role, env, deadline);
    forall option
      ensures Wait(p, g, role, env, deadline).result == Chosen(option)
              <==> SomePassFinds(p, g, role, env, deadline, option)
    {
      WaitEndsExactly(p, g, role, env, deadline, option);
    }
  }

  lemma HearsOneOn(p: Pass, g: GateId, role: string, env: int -> Round, deadline: int, n: nat)
    ensures n > 0 ==> (HearsAt(p, g, role, env, deadline, n)
                       <==> HearsAt(NextPass(p, g, role, env), g, role, env, deadline, n - 1))
    ensures HearsAt(p, g, role, env, deadline, 0)
            <==> p.clock < deadline && env(p.clock).telegram && FirstDecision(env(p.clock).messages, g).Some?
  {
    hide FirstDecision, NextPass;
  }

  /** Waiting on a gate with an invalid id raises exactly if a reply decides about it in time, and never finds one. */
  lemma {:induction false} InvalidWaitRaises(p: Pass, g: GateId, role: string, env: int -> Round, deadline: int)
    requires Inv(p.w) && !ValidGateId(g)
    ensures Wait(p, g, role, env, deadline).result == WaitRaised
            <==> exists n: nat :: HearsAt(p, g, role, env, deadline, n)
    decreases deadline - p.clock
  {
    hide Inv, Grows, Wait, Finds, PollPlan, ReadWorld, NextPass, ValidGateId, HearsAt;
    WaitUnfold(p, g, role, env, deadline);
    HearsOneOn(p, g, role, env, deadline, 0);
    var next := NextPass(p, g, role, env);
    if p.clock < deadline {
      InvalidFindsNothing(p, g, role, env, 0);
      InvalidPoll(ReadWorld(p, env), p.cache, g, role, env(p.clock));
      PassSafe(p, g, role, env);
      InvalidWaitRaises(next, g, role, env, deadline);
      if n: nat :| HearsAt(p, g, role, env, deadline, n) {
        if n > 0 {
          HearsOneOn(p, g, role, env, deadline, n);
        }
      }
      if n: nat :| HearsAt(next, g, role, env, deadline, n) {
        HearsOneOn(p, g, role, env, deadline, n + 1);
      }
    } else if n: nat :| HearsAt(p, g, role, env, deadline, n) {
      LateHearsNothing(p, g, role, env, deadline, n);
    }
  }

  lemma LateHearsNothing(p: Pass, g: GateId, role: string, env: int -> Round, deadline: int, n: nat)
    requires Inv(p.w) && p.clock >= deadline
    ensures !HearsAt(p, g, role, env, deadline, n)
  {
    hide Inv, FirstDecision, Finds;
    LaterPass(p, g, role, env, n);
  }

  /** Nothing makes a pass of the loop take longer than its sleep. */
  ghost predicate Undelayed(env: int -> Round) {
    forall c :: env(c).delay == 0
  }

  /** Passes begin at least five seconds apart, and just so when nothing delays them. */
  lemma {:induction false} PassClock(p: Pass, g: GateId, role: string, env: int -> Round, n: nat)
    ensures PassAfter(p, g, role, env, n).clock >= p.clock + 5_000 * n
    ensures Undelayed(env) ==> PassAfter(p, g, role, env, n).clock == p.clock + 5_000 * n
    decreases n
  {
    hide ReadWorld, PollPlan, Run;
    if n > 0 {
      PassClock(NextPass(p, g, role, env), g, role, env, n - 1);
    }
  }

  // ----- an answer from elsewhere

  /** An answer that another daemon gives to an opened gate ends the wait in the very pass in which it comes. */
  lemma AnswerElsewhereIsHeard(p: Pass, g: GateId, role: string, env: int -> Round, deadline: int, r: Request)
    requires Inv(p.w) && Opened(p.w, g) && g !in p.w.resolved && ValidGateId(g) && p.clock < deadline
    requires env(p.clock).others == [Visit(OtherDaemon(r), None)] && r.gate == g && r.option.Some?
    ensures Wait(p, g, role, env, deadline).result == Chosen(r.option.value)
  {
    hide Inv, Opened, Wait, AnswerOps, Run, ReadResolved, ResolveOnDisk;
    OpenedResolves(p.w, r, r.option.value);
    ResolveAllowed(p.w, None, r);
    OneVisit(p.w, Visit(OtherDaemon(r), None));
    WaitUnfold(p, g, role, env, deadline);
  }
}
