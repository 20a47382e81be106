/** The in-process cache of resolved gate ids cannot be observed in the gate directory or the log. */
module GateCache {
  import opened Text
  import opened GateFiles
  import opened GateCrashes
  import opened Telegram
  import opened GatePlans
  import opened DaemonTick
  import opened GateRuns

  /** Every cached id has an answer on disk. */
  predicate Sound(w: World, seen: set<GateId>) {
    forall g :: g in seen ==> g in w.resolved
  }

  /**
   The request names a valid gate and an option, and the gate is still to be answered on disk: its
   question is readable, is its own, offers the option, and has no answer yet.
   */
  predicate Answerable(w: World, r: Request) {
    && ValidGateId(r.gate) && r.option.Some?
    && r.gate !in w.resolved && r.gate in w.pending && w.pending[r.gate].Doc?
    && (w.pending[r.gate].doc.gateId == "" || w.pending[r.gate].doc.gateId == r.gate)
    && Offers(w.pending[r.gate].doc, r.option.value)
  }

  /** Answering adds an entry to the log, so it shows in any world. */
  lemma AnswerShows(w: World, g: GateId, doc: GateDoc, role: string, surface: string)
    requires g in w.pending
    ensures Run(w, AnswerOps(g, doc, role, surface)) != w
  {
    var ops := AnswerOps(g, doc, role, surface);
    AnswerSteps(w, g, doc, role, surface, 5);
    assert ops[..5] == ops;
    assert |AnswerWorld(w, g, doc, role, surface, 5).log| == |w.log| + 1;
  }

  /**
   One call leaves the same world with and without the cache exactly when the cache does not hold
   the id of a gate that is still to be answered as the request asks.
   */
  lemma CacheMattersExactly(w: World, seen: set<GateId>, r: Request)
    ensures Run(w, ResolvePlan(w, Some(seen), r).ops) == Run(w, ResolvePlan(w, None, r).ops)
            <==> !(r.gate in seen && Answerable(w, r))
  {
    hide AnswerOps, ValidGateId;
    ResolveOutcome(w, None, r);
    RunNone(w);
    if Answerable(w, r) {
      AnswerShows(w, r.gate, ResolvedDoc(r.gate, w.pending[r.gate].doc, r.option.value), r.role, r.surface);
    }
  }

  /**
   Where the cache does show: a request for a gate that does not exist yet fails, but is remembered,
   and once the gate is opened the same process ignores an answer it would otherwise record.
   */
  lemma PrematureRequestIsRemembered(w: World, seen: set<GateId>, r: Request, w': World)
    requires ValidGateId(r.gate) && r.option.Some? && r.gate !in seen && |seen| < CACHE_LIMIT && Unused(w, r.gate)
    requires Inv(w') && Opened(w', r.gate) && r.gate !in w'.resolved
    ensures var e := ResolvePlan(w, Some(seen), r);
            && e.outcome == NoPendingGate
            && ResolvePlan(w', e.cache, r).outcome == DuplicateInMemory
            && ResolvePlan(w', None, r).outcome == Answered
  {
    OpenedResolves(w', r, r.option.value);
  }

  lemma MarkedSound(w: World, seen: set<GateId>, g: GateId)
    requires Sound(w, seen) && g in w.resolved
    ensures Sound(w, Marked(seen, g))
  {}

  lemma GrowsKeepsSound(w: World, w': World, seen: set<GateId>)
    requires Sound(w, seen) && Grows(w, w')
    ensures Sound(w', seen)
  {}

  lemma ResolveTransparent(w: World, seen: set<GateId>, r: Request)
    requires Inv(w) && Sound(w, seen) && Opened(w, r.gate)
    ensures var e := ResolvePlan(w, Some(seen), r);
            && e.ops == ResolvePlan(w, None, r).ops
            && ResolvePlan(w, None, r).cache == None
            && e.outcome.Raises() == ResolvePlan(w, None, r).outcome.Raises()
            && e.cache.Some? && Sound(Run(w, e.ops), e.cache.value)
  {
    var e := ResolvePlan(w, Some(seen), r);
    ResolveAllowed(w, Some(seen), r);
    RunGrows(w, e.ops);
    var w' := Run(w, e.ops);
    if ValidGateId(r.gate) && r.option.Some? && r.gate !in seen {
      OpenedResolves(w, r, r.option.value);
      assert r.gate in w'.resolved;
      GrowsKeepsSound(w, w', seen);
      MarkedSound(w', seen, r.gate);
    }
  }

  lemma PollTransparent(w: World, seen: set<GateId>, g: GateId, role: string, round: Round)
    requires Inv(w) && Sound(w, seen) && Opened(w, g)
    ensures var e := PollPlan(w, Some(seen), g, role, round);
            && e.ops == PollPlan(w, None, g, role, round).ops
            && PollPlan(w, None, g, role, round).cache == None
            && e.outcome.Raises() == PollPlan(w, None, g, role, round).outcome.Raises()
            && e.cache.Some? && Sound(Run(w, e.ops), e.cache.value)
  {
    hide Inv, Sound, Opened, FirstDecision, ResolvePlan;
    var d := FirstDecision(round.messages, g);
    if d.Some? {
      ResolveTransparent(w, seen, Request(g, d, "telegram", role));
    }
    RunNone(w);
  }

  lemma OpenedStays(w: World, w': World, g: GateId)
    requires Grows(w, w') && Opened(w, g)
    ensures Opened(w', g)
  {}

  lemma OrderlyGrows(w: World, ops: seq<Op>)
    requires Inv(w) && Orderly(w, ops)
    ensures Inv(Run(w, ops)) && Grows(w, Run(w, ops))
  {
    RunKeepsInv(w, ops);
    RunGrows(w, ops);
  }

  lemma {:induction false} WaitTransparent(w: World, seen: set<GateId>, g: GateId, role: string, env: int -> Round,
          clock: int, deadline: int)
    requires Inv(w) && Sound(w, seen) && Opened(w, g)
    ensures var a := WaitPlan(w, Some(seen), g, role, env, clock, deadline);
            var b := WaitPlan(w, None, g, role, env, clock, deadline);
            && a.ops == b.ops && a.result == b.result
            && a.cache.Some? && Sound(Run(w, a.ops), a.cache.value)
    decreases deadline - clock
  {
    hide Inv, Sound, Opened, OthersPlan, PollPlan, ReadResolved, Run, Grows, Orderly;
    RunNone(w);
    if clock < deadline {
      var before := OthersPlan(w, env(clock).others);
      OthersOrderly(w, env(clock).others);
      OrderlyGrows(w, before);
      var w1 := Run(w, before);
      GrowsKeepsSound(w, w1, seen);
      OpenedStays(w, w1, g);
      if ReadResolved(w1, g).None? {
        PollTransparent(w1, seen, g, role, env(clock));
        var e := PollPlan(w1, Some(seen), g, role, env(clock));
        RunConcat(w, before, e.ops);
        if !e.outcome.Raises() {
          PollOrderly(w1, Some(seen), g, role, env(clock));
          OrderlyGrows(w1, e.ops);
          var w2 := Run(w1, e.ops);
          OpenedStays(w1, w2, g);
          var later := clock + SLEEP + env(clock).delay;
          WaitTransparent(w2, e.cache.value, g, role, env, later, deadline);
          RunConcat(w, before + e.ops, WaitPlan(w2, e.cache, g, role, env, later, deadline).ops);
        }
      }
    }
  }

  lemma TickWaitTransparent(w: World, seen: set<GateId>, t: TickInput, g: GateId, deadline: int)
    requires Inv(w) && Sound(w, seen) && Opened(w, g) && deadline == t.now + PROPOSAL_TIMEOUT
    ensures var a := TickWait(w, Some(seen), t, g);
            var b := TickWait(w, None, t, g);
            && a.ops == b.ops && a.result == b.result
            && a.cache.Some? && Sound(Run(w, a.ops), a.cache.value)
  {
    hide Inv, Sound, Opened, WaitPlan, Run;
    WaitTransparent(w, seen, g, t.role, t.env, t.now, deadline);
    assert TickWait(w, Some(seen), t, g) == WaitPlan(w, Some(seen), g, t.role, t.env, t.now, deadline);
    assert TickWait(w, None, t, g) == WaitPlan(w, None, g, t.role, t.env, t.now, deadline);
  }

  /** The cache a tick leaves is the one its wait leaves, or the one it began with. */
  lemma AskTransparent(w: World, seen: set<GateId>, t: TickInput, subject: string)
    requires Inv(w) && Feasible(w, t) && Sound(w, seen)
    ensures var a := AskPlan(w, Some(seen), t, subject);
            var b := AskPlan(w, None, t, subject);
            && a.ops == b.ops && a.outcome == b.outcome
            && a.cache.Some? && Sound(Run(w, a.ops), a.cache.value)
  {
    hide Inv, Sound, OpenPlan, TickWait, ConcludePlan, Run, Orderly, Grows, Opened, OpenFor, Feasible, AllowedAll;
    var o := OpenPlan(w, t.listing, t.role, subject, t.hex);
    AskOpens(w, t, subject);
    OrderlyGrows(w, o.ops);
    var w1 := Run(w, o.ops);
    GrowsKeepsSound(w, w1, seen);
    AskTidy(w, Some(seen), t, subject);
    var a := AskPlan(w, Some(seen), t, subject);
    if t.unattended {
      RunGrows(w, a.ops);
      GrowsKeepsSound(w, Run(w, a.ops), seen);
    } else {
      TickWaitTransparent(w1, seen, t, o.gate, t.now + PROPOSAL_TIMEOUT);
      var wt := TickWait(w1, Some(seen), t, o.gate);
      RunConcat(w, o.ops, wt.ops);
      var asked := o.ops + wt.ops;
      var rest := ConcludePlan(t, subject, o.gate, wt.result).0;
      RunConcat(w, asked, rest);
      ConcludeKeepsResolved(Run(w, asked), t, subject, o.gate, wt.result);
      SameAnswersSound(Run(w, asked), Run(w, a.ops), wt.cache.value);
    }
  }

  lemma AskOpens(w: World, t: TickInput, subject: string)
    requires Inv(w) && Feasible(w, t)
    ensures var o := OpenPlan(w, t.listing, t.role, subject, t.hex);
            Orderly(w, o.ops) && Opened(Run(w, o.ops), o.gate)
  {
    hide Inv, Orderly, OpenPlan, Run;
    OpenAllowed(w, t.listing, t.role, subject, t.hex);
  }

  lemma SameAnswersSound(w: World, w': World, seen: set<GateId>)
    requires Sound(w, seen) && w'.resolved == w.resolved
    ensures Sound(w', seen)
  {}

  predicate TouchesNoFile(ops: seq<Op>) {
    forall i :: 0 <= i < |ops| ==> ops[i].Append? || ops[i].Execute?
  }

  lemma {:induction false} NoFileTouched(w: World, ops: seq<Op>)
    requires TouchesNoFile(ops)
    ensures Run(w, ops).resolved == w.resolved
  {
    if ops != [] {
      NoFileTouched(w, ops[..|ops| - 1]);
    }
  }

  lemma ConcludeKeepsResolved(w: World, t: TickInput, subject: string, gate: GateId, result: WaitResult)
    ensures Run(w, ConcludePlan(t, subject, gate, result).0).resolved == w.resolved
  {
    NoFileTouched(w, ConcludePlan(t, subject, gate, result).0);
  }

  /** A whole tick behaves the same with and without the cache. */
  lemma TickTransparent(w: World, seen: set<GateId>, t: TickInput)
    requires Inv(w) && Feasible(w, t) && Sound(w, seen)
    ensures var a := TickPlan(w, Some(seen), t);
            var b := TickPlan(w, None, t);
            && a.ops == b.ops && a.outcome == b.outcome
            && a.cache.Some? && Sound(Run(w, a.ops), a.cache.value)
  {
    hide Inv, Sound, AskPlan, Run, DispatchPlan, Scan, AllowedAll, Grows, Feasible, Allowed;
    TickTidy(w, Some(seen), t);
    var a := TickPlan(w, Some(seen), t);
    RunGrows(w, a.ops);
    GrowsKeepsSound(w, Run(w, a.ops), seen);
    if Scan(t.warnings).None? && t.candidates != [] {
      var subject := Subject(t.candidates[0]);
      var found := [Append(WorkDiscovered(t.role, subject))];
      DiscoveryHarmless(w, seen, t, subject);
      AskTransparent(Run(w, found), seen, t, subject);
      RunConcat(w, found, AskPlan(Run(w, found), Some(seen), t, subject).ops);
    }
  }

  lemma DiscoveryHarmless(w: World, seen: set<GateId>, t: TickInput, subject: string)
    requires Inv(w) && Feasible(w, t) && Sound(w, seen)
    ensures var w1 := Run(w, [Append(WorkDiscovered(t.role, subject))]);
            Inv(w1) && Feasible(w1, t) && Sound(w1, seen)
  {
    DiscoveryKeeps(w, t, subject);
  }

  // ----- whole runs

  function AfterUncached(w: World, st: Step): World {
    Run(w, Cut(Plan(w, None, st.activity).0, st.cut))
  }

  function AfterAllUncached(w: World, steps: seq<Step>): World
    decreases |steps|
  {
    if steps == [] then w else AfterAllUncached(AfterUncached(w, steps[0]), steps[1..])
  }

  /** Every resolve request of the daemon's own process is about a gate that was opened by then. */
  predicate RequestsOpened(s: System, steps: seq<Step>)
    decreases |steps|
  {
    steps != [] ==>
      && (steps[0].activity.Resolve? ==> Opened(s.w, steps[0].activity.request.gate))
      && RequestsOpened(After(s, steps[0]), steps[1..])
  }

  lemma StepTransparent(s: System, st: Step)
    requires Inv(s.w) && Sound(s.w, s.seen) && Possible(s.w, st.activity)
    requires st.activity.Resolve? ==> Opened(s.w, st.activity.request.gate)
    ensures After(s, st).w == AfterUncached(s.w, st)
    ensures Sound(After(s, st).w, After(s, st).seen)
  {
    hide Inv, Run, Grows, Opened, TickPlan, ResolvePlan, Feasible, Sound, AllowedAll;
    StepSafe(s, st);
    GrowsKeepsSound(s.w, After(s, st).w, s.seen);
    NothingSound(After(s, st).w);
    match st.activity
    case Tick(input) => TickTransparent(s.w, s.seen, input);
    case Resolve(request) => ResolveTransparent(s.w, s.seen, request);
    case Elsewhere(caller) =>
    case Restart =>
  }

  lemma NothingSound(w: World)
    ensures Sound(w, {})
  {}

  /** Over every run, with crashes and restarts anywhere, the cache changes neither disk nor log. */
  lemma {:induction false} CacheUnobservable(s: System, steps: seq<Step>)
    requires Inv(s.w) && Sound(s.w, s.seen) && PossibleAll(s, steps) && RequestsOpened(s, steps)
    ensures AfterAll(s, steps).w == AfterAllUncached(s.w, steps)
    decreases |steps|
  {
    hide Inv, Sound, After, AfterUncached, Possible, Opened, Grows;
    if steps != [] {
      StepTransparent(s, steps[0]);
      StepSafe(s, steps[0]);
      CacheUnobservable(After(s, steps[0]), steps[1..]);
    }
  }

  // ----- exactly when the cache shows in a wait

  /** Nobody else acts during the passes of a wait. */
  ghost predicate Quiet(env: int -> Round) {
    forall c: int :: env(c).others == []
  }

  /** Some pass that begins before the deadline polls a batch that decides. */
  predicate Hears(env: int -> Round, g: GateId, clock: int, deadline: int)
    decreases deadline - clock
  {
    clock < deadline &&
    (|| (env(clock).telegram && FirstDecision(env(clock).messages, g).Some?)
     || Hears(env, g, clock + SLEEP + env(clock).delay, deadline))
  }

  /** The cache holds the id of a gate that is still to be answered. */
  predicate Hidden(w: World, seen: set<GateId>, g: GateId) {
    g in seen && ValidGateId(g) && g !in w.resolved
  }

  lemma QuietPass(w: World, env: int -> Round, clock: int)
    requires Quiet(env)
    ensures OthersPlan(w, env(clock).others) == [] && Run(w, OthersPlan(w, env(clock).others)) == w
  {
    RunNone(w);
  }

  /** What a deciding poll does with the cache and without it. */
  lemma PollCompared(w: World, seen: set<GateId>, g: GateId, role: string, round: Round)
    requires Inv(w) && Opened(w, g)
    ensures var a := PollPlan(w, Some(seen), g, role, round);
            var b := PollPlan(w, None, g, role, round);
            && a.cache.Some? && b.cache.None?
            && (!(round.telegram && FirstDecision(round.messages, g).Some?) ==>
                  a.ops == [] && b.ops == [] && !a.outcome.Raises() && !b.outcome.Raises() && a.cache == Some(seen))
            && (!Hidden(w, seen, g) ==> a.ops == b.ops && a.outcome.Raises() == b.outcome.Raises())
            && (Hidden(w, seen, g) ==> a.ops == [] && !a.outcome.Raises() && a.cache == Some(seen))
            && (Hidden(w, seen, g) && round.telegram && FirstDecision(round.messages, g).Some? ==> b.outcome.Answered?)
  {
    hide Inv, FirstDecision, ValidGateId;
    var d := FirstDecision(round.messages, g);
    if round.telegram && d.Some? {
      OpenedResolves(w, Request(g, d, "telegram", role), d.value);
    }
  }

  /** After a poll that the cache does not suppress, the cache suppresses nothing about this gate. */
  lemma PollSettles(w: World, seen: set<GateId>, g: GateId, role: string, round: Round)
    requires Inv(w) && Opened(w, g) && !Hidden(w, seen, g)
    requires round.telegram && FirstDecision(round.messages, g).Some?
    requires !PollPlan(w, None, g, role, round).outcome.Raises()
    ensures g in Run(w, PollPlan(w, None, g, role, round).ops).resolved
  {
    hide FirstDecision, ValidGateId;
    var d := FirstDecision(round.messages, g);
    var r := Request(g, d, "telegram", role);
    OpenedResolves(w, r, d.value);
    ResolveAllowed(w, None, r);
    RunGrows(w, PollPlan(w, None, g, role, round).ops);
  }

  lemma PollSafe(w: World, cache: Cache, g: GateId, role: string, round: Round)
    requires Inv(w) && Opened(w, g)
    ensures var w' := Run(w, PollPlan(w, cache, g, role, round).ops); Inv(w') && Opened(w', g) && Grows(w, w')
  {
    hide Inv, Opened, Run, Grows, PollPlan, AllowedAll, Paired, NoExecute;
    PollOrderly(w, cache, g, role, round);
    OrderlyGrows(w, PollPlan(w, cache, g, role, round).ops);
    OpenedStays(w, Run(w, PollPlan(w, cache, g, role, round).ops), g);
  }

  lemma {:induction false} WaitSame(w: World, seen: set<GateId>, g: GateId, role: string, env: int -> Round,
                                    clock: int, deadline: int)
    requires Inv(w) && Opened(w, g) && Quiet(env)
    requires !(Hidden(w, seen, g) && Hears(env, g, clock, deadline))
    ensures var a := WaitPlan(w, Some(seen), g, role, env, clock, deadline);
            var b := WaitPlan(w, None, g, role, env, clock, deadline);
            a.ops == b.ops && a.result == b.result
    decreases deadline - clock
  {
    hide Inv, Opened, OthersPlan, PollPlan, ReadResolved, Run, Quiet, FirstDecision, ValidGateId, Grows;
    if clock < deadline {
      QuietPass(w, env, clock);
      if ReadResolved(w, g).None? {
        var round := env(clock);
        PollCompared(w, seen, g, role, round);
        var a := PollPlan(w, Some(seen), g, role, round);
        var b := PollPlan(w, None, g, role, round);
        assert a.ops == b.ops && a.outcome.Raises() == b.outcome.Raises();
        if !a.outcome.Raises() {
          PollSafe(w, None, g, role, round);
          if round.telegram && FirstDecision(round.messages, g).Some? {
            PollSettles(w, seen, g, role, round);
          }
          RunNone(w);
          WaitSame(Run(w, b.ops), a.cache.value, g, role, env, clock + SLEEP + round.delay, deadline);
        }
      }
    }
  }

  lemma UnansweredIsUnread(w: World, g: GateId)
    requires g !in w.resolved
    ensures ReadResolved(w, g).None?
  {}

  /** With the gate's id in the cache the wait is deaf. */
  lemma {:induction false} WaitDeaf(w: World, seen: set<GateId>, g: GateId, role: string, env: int -> Round,
                                    clock: int, deadline: int)
    requires Inv(w) && Opened(w, g) && Quiet(env) && Hidden(w, seen, g)
    ensures var a := WaitPlan(w, Some(seen), g, role, env, clock, deadline); a.ops == [] && a.result == TimedOut
    decreases deadline - clock
  {
    hide Inv, Opened, OthersPlan, PollPlan, ReadResolved, Run, Quiet, FirstDecision, Hidden;
    if clock < deadline {
      QuietPass(w, env, clock);
      HiddenIsUnread(w, seen, g);
      PollCompared(w, seen, g, role, env(clock));
      RunNone(w);
      WaitDeaf(w, seen, g, role, env, clock + SLEEP + env(clock).delay, deadline);
    }
  }

  lemma HiddenIsUnread(w: World, seen: set<GateId>, g: GateId)
    requires Hidden(w, seen, g)
    ensures ReadResolved(w, g).None?
  {
    UnansweredIsUnread(w, g);
  }

  /** Without a cache the first deciding batch is recorded. */
  lemma {:induction false} WaitRecords(w: World, seen: set<GateId>, g: GateId, role: string, env: int -> Round,
                                       clock: int, deadline: int)
    requires Inv(w) && Opened(w, g) && Quiet(env) && Hidden(w, seen, g) && Hears(env, g, clock, deadline)
    ensures g in Run(w, WaitPlan(w, None, g, role, env, clock, deadline).ops).resolved
    decreases deadline - clock
  {
    hide Inv, Opened, OthersPlan, PollPlan, ReadResolved, Run, Quiet, FirstDecision, Hidden, Grows, Orderly;
    var round := env(clock);
    QuietPass(w, env, clock);
    HiddenIsUnread(w, seen, g);
    PollCompared(w, seen, g, role, round);
    var e := PollPlan(w, None, g, role, round);
    var later := clock + SLEEP + round.delay;
    RunNone(w);
    if round.telegram && FirstDecision(round.messages, g).Some? {
      DecidedPoll(w, g, role, round);
      PollSafe(w, None, g, role, round);
      var w1 := Run(w, e.ops);
      var rest := WaitPlan(w1, None, g, role, env, later, deadline);
      WaitOrderly(w1, None, g, role, env, later, deadline);
      OrderlyGrows(w1, rest.ops);
      RunConcat(w, e.ops, rest.ops);
      GrowsKeepsAnswer(w1, Run(w1, rest.ops), g);
      assert [] + e.ops + rest.ops == e.ops + rest.ops;
    } else {
      WaitRecords(w, seen, g, role, env, later, deadline);
      var rest := WaitPlan(w, None, g, role, env, later, deadline);
      assert [] + [] + rest.ops == rest.ops;
    }
  }

  lemma DecidedPoll(w: World, g: GateId, role: string, round: Round)
    requires PollPlan(w, None, g, role, round).outcome.Answered?
    ensures g in Run(w, PollPlan(w, None, g, role, round).ops).resolved
    ensures PollPlan(w, None, g, role, round).cache.None?
  {
    hide FirstDecision;
    var r := Request(g, FirstDecision(round.messages, g), "telegram", role);
    ResolveOutcome(w, None, r);
    var doc := ResolvedDoc(g, w.pending[g].doc, r.option.value);
    var ops := AnswerOps(g, doc, r.role, r.surface);
    AnswerSteps(w, g, doc, r.role, r.surface, 5);
    assert ops[..5] == ops;
  }

  lemma GrowsKeepsAnswer(w: World, w': World, g: GateId)
    requires Grows(w, w') && g in w.resolved
    ensures g in w'.resolved
  {}

  // ----- exactly when the cache shows in a tick

  /**
   The tick asks about a gate whose id is in the cache although it is still to be answered, and some
   batch polled before the deadline decides.
   */
  predicate TickSuppresses(w: World, seen: set<GateId>, t: TickInput) {
    && AsksPrincipal(t) && Hidden(AskedWorld(w, t), seen, Asked(w, t).gate)
    && Hears(t.env, Asked(w, t).gate, t.now, t.now + PROPOSAL_TIMEOUT)
  }

  /** The wait of a tick, with the cache and without it. */
  lemma TickWaitCompared(w: World, seen: set<GateId>, t: TickInput, deadline: int)
    requires Inv(w) && Feasible(w, t) && AsksPrincipal(t) && Quiet(t.env) && deadline == t.now + PROPOSAL_TIMEOUT
    ensures var w1, g := AskedWorld(w, t), Asked(w, t).gate;
            var a, b := TickWait(w1, Some(seen), t, g), TickWait(w1, None, t, g);
            if TickSuppresses(w, seen, t) then a.ops == [] && g !in w1.resolved && g in Run(w1, b.ops).resolved
            else a.ops == b.ops && a.result == b.result
  {
    hide Inv, Opened, Quiet, WaitPlan, AskedWorld, Asked, Orderly, Hears, Feasible;
    var w1, g := AskedWorld(w, t), Asked(w, t).gate;
    TickOpens(w, t);
    assert TickWait(w1, Some(seen), t, g) == WaitPlan(w1, Some(seen), g, t.role, t.env, t.now, deadline);
    assert TickWait(w1, None, t, g) == WaitPlan(w1, None, g, t.role, t.env, t.now, deadline);
    if TickSuppresses(w, seen, t) {
      WaitDeaf(w1, seen, g, t.role, t.env, t.now, deadline);
      WaitRecords(w1, seen, g, t.role, t.env, t.now, deadline);
    } else {
      WaitSame(w1, seen, g, t.role, t.env, t.now, deadline);
    }
  }

  /** What a tick has answered at its end is what was answered at the end of its wait. */
  lemma AskingTickAnswers(w: World, cache: Cache, t: TickInput)
    requires Inv(w) && Feasible(w, t) && AsksPrincipal(t)
    ensures var w1 := AskedWorld(w, t);
            Run(w, TickPlan(w, cache, t).ops).resolved
            == Run(w1, TickWait(w1, cache, t, Asked(w, t).gate).ops).resolved
  {
    hide Inv, Run, Feasible, OpenPlan, TickWait, ConcludePlan, TickPlan, Subject, Discovery;
    var g := Asked(w, t).gate;
    var w1 := AskedWorld(w, t);
    var wt := TickWait(w1, cache, t, g);
    var ops := ConcludePlan(t, Subject(t.candidates[0]), g, wt.result).0;
    AskingTick(w, cache, t);
    RunConcat(w, Discovery(t) + (Asked(w, t).ops + wt.ops), ops);
    RunConcat(w, Discovery(t), Asked(w, t).ops + wt.ops);
    RunConcat(Run(w, Discovery(t)), Asked(w, t).ops, wt.ops);
    ConcludeKeepsResolved(Run(w1, wt.ops), t, Subject(t.candidates[0]), g, wt.result);
  }

  /** A tick that does not wait has no use for the cache. */
  lemma WaitlessTick(w: World, seen: set<GateId>, t: TickInput)
    requires !AsksPrincipal(t)
    ensures TickPlan(w, Some(seen), t).ops == TickPlan(w, None, t).ops
  {
    hide Run, OpenPlan, TickWait, DispatchPlan, Scan, NoHalt;
    ScanExactly(t.warnings);
  }

  lemma QuietTickAgrees(w: World, seen: set<GateId>, t: TickInput)
    requires Inv(w) && Feasible(w, t) && Quiet(t.env)
    ensures Run(w, TickPlan(w, Some(seen), t).ops) == Run(w, TickPlan(w, None, t).ops) <==> !TickSuppresses(w, seen, t)
    ensures !TickSuppresses(w, seen, t) ==> TickPlan(w, Some(seen), t).ops == TickPlan(w, None, t).ops
  {
    hide Inv, Run, Feasible, TickPlan, TickWait, ConcludePlan, Asked, AskedWorld, Hidden, Hears, Quiet, Discovery,
      Subject;
    if !AsksPrincipal(t) {
      WaitlessTick(w, seen, t);
    } else {
      TickWaitCompared(w, seen, t, t.now + PROPOSAL_TIMEOUT);
      AskingTick(w, Some(seen), t);
      AskingTick(w, None, t);
      AskingTickAnswers(w, Some(seen), t);
      AskingTickAnswers(w, None, t);
      RunNone(AskedWorld(w, t));
    }
  }

  /** A sound cache holds no id of a gate that a tick has yet to have answered. */
  lemma SoundNeverHides(w: World, seen: set<GateId>, t: TickInput)
    requires Inv(w) && Feasible(w, t) && Sound(w, seen)
    ensures !TickSuppresses(w, seen, t)
  {
    if AsksPrincipal(t) {
      hide Inv, Run, Feasible, OpenPlan, Grows, AllowedAll, Paired, NoExecute, Sound;
      var subject := Subject(t.candidates[0]);
      DiscoveryHarmless(w, seen, t, subject);
      TickOpens(w, t);
      OrderlyGrows(Run(w, Discovery(t)), Asked(w, t).ops);
      GrowsKeepsSound(Run(w, Discovery(t)), AskedWorld(w, t), seen);
      SoundMeansAnswered(AskedWorld(w, t), seen, Asked(w, t).gate);
    }
  }

  lemma SoundMeansAnswered(w: World, seen: set<GateId>, g: GateId)
    requires Sound(w, seen)
    ensures !Hidden(w, seen, g)
  {}

  /**
   Whatever the cache holds, a tick leaves the same world with and without it exactly unless it asks about
   a gate whose id is in the cache although it is still to be answered, and hears a decision in time.
   */
  lemma TickAgreesExactly(w: World, seen: set<GateId>, t: TickInput)
    requires Inv(w) && Feasible(w, t) && (AsksPrincipal(t) ==> Quiet(t.env) || Sound(w, seen))
    ensures Run(w, TickPlan(w, Some(seen), t).ops) == Run(w, TickPlan(w, None, t).ops) <==> !TickSuppresses(w, seen, t)
  {
    hide Inv, Run, Feasible, TickPlan, Quiet, Sound, Hidden, Hears, AskedWorld, Asked;
    if !AsksPrincipal(t) {
      WaitlessTick(w, seen, t);
    } else if Quiet(t.env) {
      QuietTickAgrees(w, seen, t);
    } else {
      TickTransparent(w, seen, t);
      SoundNeverHides(w, seen, t);
    }
  }

  // ----- exactly when the cache shows in a run

  /** The cache holds the id of a gate that is still to be answered as this step asks. */
  predicate Suppresses(s: System, st: Step) {
    match st.activity
    case Tick(input) => TickSuppresses(s.w, s.seen, input)
    case Resolve(request) => request.gate in s.seen && Answerable(s.w, request)
    case _ => false
  }

  predicate NeverSuppresses(s: System, steps: seq<Step>)
    decreases |steps|
  {
    steps != [] ==> !Suppresses(s, steps[0]) && NeverSuppresses(After(s, steps[0]), steps[1..])
  }

  /** The two runs are in the same world after every step. */
  predicate AgreeThroughout(s: System, w: World, steps: seq<Step>)
    decreases |steps|
  {
    s.w == w && (steps != [] ==> AgreeThroughout(After(s, steps[0]), AfterUncached(w, steps[0]), steps[1..]))
  }

  /**
   A resolve request finishes. A tick that waits finishes and nobody else acts during its wait, unless it
   begins with a cache that holds answered gates only; then, like a tick that does not wait, it may do as
   it likes.
   */
  ghost predicate PlainStep(s: System, st: Step) {
    match st.activity
    case Tick(input) => AsksPrincipal(input) ==> (st.cut.None? && Quiet(input.env)) || Sound(s.w, s.seen)
    case Resolve(_) => st.cut.None?
    case _ => true
  }

  ghost predicate Plain(s: System, steps: seq<Step>)
    decreases |steps|
  {
    steps != [] ==> PlainStep(s, steps[0]) && Plain(After(s, steps[0]), steps[1..])
  }

  lemma NoWaitNoHiding(w: World, seen: set<GateId>, t: TickInput)
    requires !AsksPrincipal(t)
    ensures !TickSuppresses(w, seen, t)
  {}

  lemma StepAgreesExactly(s: System, st: Step)
    requires Inv(s.w) && Possible(s.w, st.activity) && PlainStep(s, st)
    ensures After(s, st).w == AfterUncached(s.w, st) <==> !Suppresses(s, st)
  {
    hide Inv, Run, TickPlan, ResolvePlan, CallerPlan, Feasible, Sound, Answerable, TickSuppresses, Quiet;
    match st.activity
    case Tick(input) =>
      if !AsksPrincipal(input) {
        WaitlessTick(s.w, s.seen, input);
        NoWaitNoHiding(s.w, s.seen, input);
      } else if Sound(s.w, s.seen) {
        TickTransparent(s.w, s.seen, input);
        SoundNeverHides(s.w, s.seen, input);
      } else {
        TickAgreesExactly(s.w, s.seen, input);
      }
    case Resolve(request) => CacheMattersExactly(s.w, s.seen, request);
    case Elsewhere(caller) =>
    case Restart =>
  }

  /**
   Runs with and without the cache agree after every step exactly if the cache never holds the id of a
   gate that is still to be answered when a request for it is made or a reply to it is heard, be the
   cache sound or not.
   */
  lemma {:induction false} CacheShowsExactly(s: System, steps: seq<Step>)
    requires Inv(s.w) && PossibleAll(s, steps) && Plain(s, steps)
    ensures AgreeThroughout(s, s.w, steps) <==> NeverSuppresses(s, steps)
    decreases |steps|
  {
    hide Inv, After, AfterUncached, Possible, Suppresses, PlainStep, Grows;
    if steps != [] {
      var s1 := After(s, steps[0]);
      StepAgreesExactly(s, steps[0]);
      StepSafe(s, steps[0]);
      CacheShowsExactly(s1, steps[1..]);
      if s1.w != AfterUncached(s.w, steps[0]) {
        assert !AgreeThroughout(s1, AfterUncached(s.w, steps[0]), steps[1..]);
      }
    }
  }

  // ----- a run of a new daemon in which the cache shows

  /** An unattended tick about a candidate that needs the principal's approval, on an empty gate directory. */
  predicate Queues(t: TickInput) {
    Proceeds(t) && t.unattended && !t.auth.allowed && t.listing == []
  }

  /**
     Asked to resolve a gate that is yet to be opened, the daemon fails, remembers the id and leaves
     nothing on disk.
   */
  lemma PrematureStep(r: Request)
    requires ValidGateId(r.gate) && r.option.Some?
    ensures After(START, Step(Resolve(r), None)) == System(START.w, {r.gate})
    ensures AfterUncached(START.w, Step(Resolve(r), None)) == START.w
  {
    assert |{} + {r.gate}| == 1;
    assert {} + {r.gate} == {r.gate};
  }

  /** The tick then opens the gate. */
  lemma QueueingStep(t: TickInput, seen: set<GateId>)
    requires Queues(t)
    ensures Feasible(START.w, t)
    ensures var st, g := Step(Tick(t), None), NewGateId(t.role, t.hex);
            var s := After(System(START.w, seen), st);
            && AfterUncached(START.w, st) == s.w && s.seen == seen
            && Inv(s.w) && Opened(s.w, g) && g !in s.w.resolved
  {
    StartInv();
    var w, g := START.w, NewGateId(t.role, t.hex);
    var subject := Subject(t.candidates[0]);
    var found := [Append(WorkDiscovered(t.role, subject))];
    RunOne(w, found[0]);
    var w1 := Run(w, found);
    assert w1.pending == map[] && w1.resolved == map[];
    NewGateIsProposal(t.role, t.hex);
    assert Feasible(w, t);
    var queued := QueuedForPrincipal(g, t.role);
    assert OpenPlan(w1, t.listing, t.role, subject, t.hex) == Opening(g, true, OpenOps(g, t.role, subject));
    var p := Ticked(found + (OpenOps(g, t.role, subject) + [Append(queued)]), Some(seen), Returned(false));
    hide Inv, Run, Scan, Subject, Feasible, IsProposal, NewGateId, NoHalt;
    ScanExactly(t.warnings);
    assert TickPlan(w, Some(seen), t) == p;
    assert TickPlan(w, None, t) == p.(cache := None);
    QueuedWorld(w, w1, g, t.role, subject, WorkDiscovered(t.role, subject), queued);
    TickTidy(w, None, t);
    RunKeepsInv(w, p.ops);
  }

  lemma QueuedWorld(w: World, w1: World, g: GateId, role: string, subject: string, first: Entry, last: Entry)
    requires w1 == Run(w, [Append(first)]) && g !in w.resolved
    ensures var w' := Run(w, [Append(first)] + (OpenOps(g, role, subject) + [Append(last)]));
            Opened(w', g) && g !in w'.resolved
  {
    RunOne(w, Append(first));
    RunConcat(w, [Append(first)], OpenOps(g, role, subject) + [Append(last)]);
    RunConcat(w1, OpenOps(g, role, subject), [Append(last)]);
    OpenSteps(w1, g, role, subject);
    RunOne(Run(w1, OpenOps(g, role, subject)), Append(last));
    hide Run;
  }

  /** Asked again, the daemon ignores what a resolver without cache records. */
  lemma IgnoredStep(s: System, r: Request)
    requires Inv(s.w) && Opened(s.w, r.gate) && r.gate !in s.w.resolved && r.gate in s.seen
    requires ValidGateId(r.gate) && r.option.Some?
    ensures After(s, Step(Resolve(r), None)).w == s.w
    ensures r.gate in AfterUncached(s.w, Step(Resolve(r), None)).resolved
    ensures Suppresses(s, Step(Resolve(r), None))
  {
    hide Inv, ValidGateId;
    RunNone(s.w);
    OpenedResolves(s.w, r, r.option.value);
    var doc := ResolvedDoc(r.gate, s.w.pending[r.gate].doc, r.option.value);
    var ops := AnswerOps(r.gate, doc, r.role, r.surface);
    AnswerSteps(s.w, r.gate, doc, r.role, r.surface, 5);
    assert ops[..5] == ops;
  }

  function PrematureRun(r: Request, t: TickInput): seq<Step> {
    [Step(Resolve(r), None), Step(Tick(t), None), Step(Resolve(r), None)]
  }

  /**
   Three steps of a new daemon: a request for a gate that is yet to be opened, the tick that opens it, and
   the request again. With the cache the gate stays unanswered, without it the gate is answered.
   */
  lemma PrematureRunDiffers(r: Request, t: TickInput)
    requires Queues(t) && r.gate == NewGateId(t.role, t.hex) && ValidGateId(r.gate) && r.option.Some?
    ensures var steps := PrematureRun(r, t);
            && PossibleAll(START, steps) && Plain(START, steps) && !NeverSuppresses(START, steps)
            && r.gate !in AfterAll(START, steps).w.resolved
            && r.gate in AfterAllUncached(START.w, steps).resolved
  {
    hide Inv, After, AfterUncached, Feasible, TickPlan, Suppresses, ValidGateId, NewGateId, Scan, Quiet, Sound;
    var steps := PrematureRun(r, t);
    var s1 := System(START.w, {r.gate});
    var s2 := After(s1, steps[1]);
    PrematureStep(r);
    QueueingStep(t, {r.gate});
    IgnoredStep(s2, r);
    assert steps[1..][0] == steps[1] && steps[1..][1..][0] == steps[2] && steps[1..][1..][1..] == [];
    hide Queues;
    ThreeSteps(START, steps);
    ThreeUncached(START.w, steps);
  }

  lemma ThreeSteps(s: System, steps: seq<Step>)
    requires |steps| == 3
    ensures var s1 := After(s, steps[0]); var s2 := After(s1, steps[1]);
            && AfterAll(s, steps) == After(s2, steps[2])
            && (PossibleAll(s, steps) <==>
                  Possible(s.w, steps[0].activity) && Possible(s1.w, steps[1].activity)
                    && Possible(s2.w, steps[2].activity))
            && (Plain(s, steps) <==> PlainStep(s, steps[0]) && PlainStep(s1, steps[1]) && PlainStep(s2, steps[2]))
            && (Suppresses(s2, steps[2]) ==> !NeverSuppresses(s, steps))
  {
    hide After, Possible, PlainStep, Suppresses;
    var rest := steps[1..];
    var last := rest[1..];
    assert rest[0] == steps[1] && last[0] == steps[2] && last[1..] == [];
    var s1 := After(s, steps[0]);
    var s2 := After(s1, steps[1]);
    assert AfterAll(s2, last) == After(s2, steps[2]);
    assert AfterAll(s1, rest) == AfterAll(s2, last);
    assert PossibleAll(s2, last) <==> Possible(s2.w, steps[2].activity);
    assert PossibleAll(s1, rest) <==> Possible(s1.w, steps[1].activity) && PossibleAll(s2, last);
    assert Plain(s2, last) <==> PlainStep(s2, steps[2]);
    assert Plain(s1, rest) <==> PlainStep(s1, steps[1]) && Plain(s2, last);
    assert NeverSuppresses(s2, last) ==> !Suppresses(s2, steps[2]);
    assert NeverSuppresses(s1, rest) ==> NeverSuppresses(s2, last);
  }

  lemma ThreeUncached(w: World, steps: seq<Step>)
    requires |steps| == 3
    ensures AfterAllUncached(w, steps) == AfterUncached(AfterUncached(AfterUncached(w, steps[0]), steps[1]), steps[2])
  {
    hide AfterUncached;
    var rest := steps[1..];
    var last := rest[1..];
    assert rest[0] == steps[1] && last[0] == steps[2] && last[1..] == [];
    var w1 := AfterUncached(w, steps[0]);
    var w2 := AfterUncached(w1, steps[1]);
    assert AfterAllUncached(w2, last) == AfterUncached(w2, steps[2]);
    assert AfterAllUncached(w1, rest) == AfterAllUncached(w2, last);
  }

  /** Such a tick of the manager, with a gate id that ends in "abc". */
  function ManagerTick(): TickInput {
    TickInput("manager", false, true, [], [Candidate("review the budget", "")],
      Authorization(false, "principal", false),
              [], "abc", 0, _ => Round(0, [], false, []), NothingToClaim, Recorded(true))
  }

  lemma ManagerRunDiffers()
    ensures var r := Request(NewGateId("manager", "abc"), Some(Approve), "telegram", "manager");
            var steps := PrematureRun(r, ManagerTick());
            AfterAll(START, steps).w != AfterAllUncached(START.w, steps)
  {
    var role, hex := "manager", "abc";
    assert forall i :: 0 <= i < |role| ==> IsGateIdChar(role[i]);
    assert forall i :: 0 <= i < |hex| ==> IsGateIdChar(hex[i]);
    NewGateIdValid(role, hex);
    assert Queues(ManagerTick());
    hide AfterAll, AfterAllUncached, NewGateId, ValidGateId, Queues, PossibleAll, Plain, NeverSuppresses;
    PrematureRunDiffers(Request(NewGateId("manager", "abc"), Some(Approve), "telegram", "manager"), ManagerTick());
  }

  // ----- the cache stays small

  predicate Bounded(cache: Cache) {
    cache.Some? ==> |cache.value| <= CACHE_LIMIT
  }

  lemma ResolveBounded(w: World, cache: Cache, r: Request)
    requires Bounded(cache)
    ensures Bounded(ResolvePlan(w, cache, r).cache)
  {}

  lemma {:induction false} WaitBounded(w: World, cache: Cache, g: GateId, role: string, env: int -> Round,
          clock: int, deadline: int)
    requires Bounded(cache)
    ensures Bounded(WaitPlan(w, cache, g, role, env, clock, deadline).cache)
    decreases deadline - clock
  {
    hide OthersPlan, ReadResolved, Run, FirstDecision, ResolvePlan, Bounded;
    if clock < deadline {
      var w1 := Run(w, OthersPlan(w, env(clock).others));
      var d := FirstDecision(env(clock).messages, g);
      ResolveBounded(w1, cache, Request(g, d, "telegram", role));
      var e := PollPlan(w1, cache, g, role, env(clock));
      WaitBounded(Run(w1, e.ops), e.cache, g, role, env, clock + SLEEP + env(clock).delay, deadline);
    }
  }

  lemma TickBounded(w: World, cache: Cache, t: TickInput, deadline: int)
    requires Bounded(cache) && deadline == t.now + PROPOSAL_TIMEOUT
    ensures Bounded(TickPlan(w, cache, t).cache)
  {
    hide Run, WaitPlan, OpenPlan, ConcludePlan, DispatchPlan, Bounded;
    if Scan(t.warnings).None? && t.candidates != [] {
      var subject := Subject(t.candidates[0]);
      var w1 := Run(w, [Append(WorkDiscovered(t.role, subject))]);
      var o := OpenPlan(w1, t.listing, t.role, subject, t.hex);
      WaitBounded(Run(w1, o.ops), cache, o.gate, t.role, t.env, t.now, deadline);
      assert TickWait(Run(w1, o.ops), cache, t, o.gate)
        == WaitPlan(Run(w1, o.ops), cache, o.gate, t.role, t.env, t.now, deadline);
    }
  }

  /** Between activities the cache never holds more than 500 ids. */
  lemma {:induction false} CacheStaysSmall(s: System, steps: seq<Step>)
    requires |s.seen| <= 500
    ensures |AfterAll(s, steps).seen| <= 500
    decreases |steps|
  {
    if steps != [] {
      StepBounded(s, steps[0]);
      CacheStaysSmall(After(s, steps[0]), steps[1..]);
    }
  }

  lemma StepBounded(s: System, st: Step)
    requires |s.seen| <= CACHE_LIMIT
    ensures |After(s, st).seen| <= CACHE_LIMIT
  {
    hide Run, TickPlan, ResolvePlan;
    match st.activity
    case Tick(input) => TickBounded(s.w, Some(s.seen), input, input.now + PROPOSAL_TIMEOUT);
    case Resolve(request) => ResolveBounded(s.w, Some(s.seen), request);
    case Elsewhere(caller) =>
    case Restart =>
  }
}
