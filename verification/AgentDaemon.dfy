/**
 The daemon process itself: a class whose methods update the gate directory, the log and the cache in
 place. Every method is proved to perform exactly the disk steps of its plan, in order.
 */
module AgentDaemon {
  import opened Text
  import opened GateFiles
  import opened GateCrashes
  import opened Telegram
  import opened GatePlans
  import opened DaemonTick

  class Daemon {
    var pending: map<GateId, Content>
    var handled: map<GateId, Content>
    var tmp: map<GateId, Content>
    var resolved: map<GateId, Content>
    var log: seq<Entry>
    var executions: seq<Execution>
    var recentlyResolved: set<GateId>
    var publishing: Option<GateId>      // not on disk, see World
    ghost var trace: seq<Op>            // every disk step performed so far

    function View(): World
      reads this
    {
      World(pending, handled, tmp, resolved, log, executions, publishing)
    }

    /** The call performed exactly these disk steps. */
    twostate predicate Performed(ops: seq<Op>)
      reads this
    {
      View() == Run(old(View()), ops) && trace == old(trace) + ops
    }

    constructor ()
      ensures View() == EMPTY_WORLD && trace == [] && recentlyResolved == {}
    {
      pending, handled, tmp, resolved := map[], map[], map[], map[];
      log, executions, recentlyResolved := [], [], {};
      publishing, trace := None, [];
    }

    // ----- single disk steps

    /** A plain write: the file is torn until the last byte is out. */
    method WritePending(g: GateId, doc: GateDoc)
      modifies this`pending, this`trace
      ensures Performed([TearPending(g), FillPending(g, doc)])
    {
      ghost var w := View();
      ghost var ops := [TearPending(g), FillPending(g, doc)];
      RunTwo(w, ops[0], ops[1]);
      pending := pending[g := Torn];
      trace := trace + [TearPending(g)];
      pending := pending[g := Doc(doc)];
      trace := trace + [FillPending(g, doc)];
    }

    method WriteTmp(g: GateId, doc: GateDoc)
      modifies this`tmp, this`trace
      ensures Performed([TearTmp(g), FillTmp(g, doc)])
      ensures g in tmp
    {
      RunTwo(View(), TearTmp(g), FillTmp(g, doc));
      tmp := tmp[g := Torn];
      trace := trace + [TearTmp(g)];
      tmp := tmp[g := Doc(doc)];
      trace := trace + [FillTmp(g, doc)];
    }

    method MoveTmpToResolved(g: GateId)
      requires g in tmp
      modifies this`tmp, this`resolved, this`publishing, this`trace
      ensures Performed([PublishTmp(g)])
    {
      RunOne(View(), PublishTmp(g));
      resolved, tmp, publishing := resolved[g := tmp[g]], tmp - {g}, Some(g);
      trace := trace + [PublishTmp(g)];
    }

    method RenamePendingToHandled(g: GateId)
      requires g in pending
      modifies this`pending, this`handled, this`publishing, this`trace
      ensures Performed([RetirePending(g)])
    {
      RunOne(View(), RetirePending(g));
      handled, pending, publishing := handled[g := pending[g]], pending - {g}, None;
      trace := trace + [RetirePending(g)];
    }

    method AppendTransition(entry: Entry)
      modifies this`log, this`trace
      ensures Performed([Append(entry)])
    {
      RunOne(View(), Append(entry));
      log := log + [entry];
      trace := trace + [Append(entry)];
    }

    method RunAgent(run: Execution)
      modifies this`executions, this`trace
      ensures Performed([Execute(run)])
    {
      RunOne(View(), Execute(run));
      executions := executions + [run];
      trace := trace + [Execute(run)];
    }

    // ----- resolving

    method MarkGateResolvedInMemory(g: GateId) returns (first: bool)
      modifies this`recentlyResolved
      ensures first <==> g !in old(recentlyResolved)
      ensures recentlyResolved == if first then Marked(old(recentlyResolved), g) else old(recentlyResolved)
    {
      if g in recentlyResolved {
        return false;
      }
      recentlyResolved := recentlyResolved + {g};
      if |recentlyResolved| > CACHE_LIMIT {
        recentlyResolved := {};
      }
      return true;
    }

    /** Everything the resolver does after its validation and its look at the cache. */
    method AnswerOnDisk(r: Request, option: Verdict) returns (outcome: Resolution)
      modifies this`pending, this`handled, this`tmp, this`resolved, this`log, this`publishing, this`trace
      ensures Performed(ResolveOnDisk(old(View()), r, option).1)
      ensures outcome == ResolveOnDisk(old(View()), r, option).0
    {
      ghost var w := View();
      var g := r.gate;
      RunNone(w);
      if g in resolved {
        return AlreadyResolved;
      }
      if g !in pending {
        return NoPendingGate;
      }
      match pending[g] {
        case Torn => return PendingUnreadable;
        case NotObject => return PendingNotObject;
        case Doc(loaded) =>
          if loaded.gateId != "" && loaded.gateId != g {
            return IdMismatch;
          }
          if !Offers(loaded, option) {
            return OptionNotAllowed;
          }
          var doc := ResolvedDoc(g, loaded, option);
          WriteTmp(g, doc);
          MoveTmpToResolved(g);
          RenamePendingToHandled(g);
          AppendTransition(GateResolved(g, r.role, r.surface, doc.chosen));
          AnswerChain(w, g, doc, r.role, r.surface);
          return Answered;
      }
    }

    /** The resolver of the app surfaces, which works on the same directories. */
    method ResolveGateForApp(g: GateId, option: string) returns (outcome: Resolution)
      modifies this`pending, this`handled, this`tmp, this`resolved, this`log, this`publishing, this`trace
      ensures Performed(AppPlan(old(View()), g, option).1) && outcome == AppPlan(old(View()), g, option).0
    {
      hide FieldOf, ValidGateId;
      ghost var w := View();
      RunNone(w);
      if !ValidGateId(g) {
        return BadGateId;
      }
      if option == "" {
        return BadOption;
      }
      if g in resolved {
        return AlreadyResolved;
      }
      if g !in pending {
        return NoPendingGate;
      }
      match pending[g] {
        case Torn => return PendingUnreadable;
        case NotObject => return PendingNotObject;
        case Doc(gate) =>
          var doc := AnsweredDoc(gate, FieldOf(option));
          WriteTmp(g, doc);
          MoveTmpToResolved(g);
          RenamePendingToHandled(g);
          AppendTransition(GateResolved(g, "", "orbit", doc.chosen));
          AnswerChain(w, g, doc, "", "orbit");
          return Answered;
      }
    }

    method WriteResolvedGateFromSurface(g: GateId, chosenOption: string, surface: string, role: string)
      returns (outcome: Resolution)
      modifies this`pending, this`handled, this`tmp, this`resolved, this`log, this`publishing, this`trace,
        this`recentlyResolved
      ensures var r := Request(g, ParseOption(chosenOption), surface, role);
              var e := ResolvePlan(old(View()), Some(old(recentlyResolved)), r);
              Performed(e.ops) && outcome == e.outcome && Some(recentlyResolved) == e.cache
    {
      RunNone(View());
      if !ValidGateId(g) {
        return BadGateId;
      }
      var option := ParseOption(chosenOption);
      if option.None? {
        return BadOption;
      }
      var first := MarkGateResolvedInMemory(g);
      if !first {
        return DuplicateInMemory;
      }
      outcome := AnswerOnDisk(Request(g, option, surface, role), option.value);
    }

    method ReadResolvedGate(g: GateId) returns (option: Option<Verdict>)
      ensures option == ReadResolved(View(), g)
    {
      if g !in resolved || !resolved[g].Doc? {
        return None;
      }
      var data := resolved[g].doc;
      if data.gateId != g || data.status != Closed {
        return None;
      }
      var chosen := if data.chosen != Missing then data.chosen else data.verdict;
      return if chosen.Known? then Some(chosen.option) else None;
    }

    // ----- opening

    method FindExistingPendingGate(listing: seq<GateId>, role: string, subject: string) returns (found: GateId)
      ensures found == FindExisting(View(), listing, role, subject)
    {
      for i := 0 to |listing|
        invariant FindExisting(View(), listing, role, subject) == FindExisting(View(), listing[i..], role, subject)
      {
        assert listing[i..][1..] == listing[i + 1..];
        var g := listing[i];
        if g in pending && pending[g].Doc? && pending[g].doc.status == Open
           && pending[g].doc.owner == role && pending[g].doc.subject == subject {
          return pending[g].doc.gateId;
        }
      }
      return "";
    }

    method WriteProposalGate(listing: seq<GateId>, role: string, subject: string, hex: string)
      returns (gate: GateId, wasFresh: bool)
      modifies this`pending, this`log, this`trace
      ensures var o := OpenPlan(old(View()), listing, role, subject, hex);
              Performed(o.ops) && gate == o.gate && wasFresh == o.isNew
    {
      ghost var w := View();
      RunNone(w);
      var existing := FindExistingPendingGate(listing, role, subject);
      if existing != "" {
        return existing, false;
      }
      gate := NewGateId(role, hex);
      WritePending(gate, PendingDoc(gate, role, subject));
      AppendTransition(GateOpened(gate, role));
      RunConcat(w, [TearPending(gate), FillPending(gate, PendingDoc(gate, role, subject))],
        [Append(GateOpened(gate, role))]);
      assert [TearPending(gate), FillPending(gate, PendingDoc(gate, role, subject))] + [Append(GateOpened(gate, role))]
             == OpenOps(gate, role, subject);
      return gate, true;
    }

    // ----- waiting

    /** The first message that is meant for the gate and decodes to an option resolves it. */
    method ResolveGateFromTelegram(g: GateId, role: string, messages: seq<Message>) returns (outcome: Resolution)
      modifies this`pending, this`handled, this`tmp, this`resolved, this`log, this`publishing, this`trace,
        this`recentlyResolved
      ensures var d := FirstDecision(messages, g);
              var e := if d.None? then Effect(AlreadyResolved, [], Some(old(recentlyResolved)))
                       else ResolvePlan(old(View()), Some(old(recentlyResolved)), Request(g, d, "telegram", role));
              Performed(e.ops) && outcome == e.outcome && Some(recentlyResolved) == e.cache
    {
      RunNone(View());
      ghost var ds := Decisions(messages, g);
      for i := 0 to |messages|
        invariant FirstSome(ds) == FirstSome(ds[i..])
        invariant View() == old(View()) && trace == old(trace) && recentlyResolved == old(recentlyResolved)
      {
        assert ds[i..][0] == ds[i] && ds[i..][1..] == ds[i + 1..];
        if !Routes(messages[i], g) {
          continue;
        }
        var chosen := Decode(messages[i]);
        if chosen.Some? {
          ParseOptionOfWord(chosen.value);
          outcome := WriteResolvedGateFromSurface(g, Word(chosen.value), "telegram", role);
          return;
        }
      }
      return AlreadyResolved;
    }

    method PollTelegram(g: GateId, role: string, round: Round) returns (outcome: Resolution)
      modifies this`pending, this`handled, this`tmp, this`resolved, this`log, this`publishing, this`trace,
        this`recentlyResolved
      ensures var e := PollPlan(old(View()), Some(old(recentlyResolved)), g, role, round);
              Performed(e.ops) && outcome == e.outcome && Some(recentlyResolved) == e.cache
    {
      hide Run, ResolvePlan, FirstDecision;
      RunNone(View());
      if !round.telegram {
        return AlreadyResolved;
      }
      outcome := ResolveGateFromTelegram(g, role, round.messages);
    }

    /** Another process takes these steps. */
    method Interfere(ops: seq<Op>)
      modifies this`pending, this`handled, this`tmp, this`resolved, this`log, this`executions, this`publishing,
        this`trace
      ensures Performed(ops)
    {
      hide Apply, Run;
      ghost var w := View();
      RunNone(w);
      for i := 0 to |ops|
        invariant View() == Run(w, ops[..i]) && trace == old(trace) + ops[..i]
      {
        var next := Apply(View(), ops[i]);
        pending, handled, tmp, resolved := next.pending, next.handled, next.tmp, next.resolved;
        log, executions, publishing := next.log, next.executions, next.publishing;
        trace := trace + [ops[i]];
        assert ops[..i + 1] == ops[..i] + [ops[i]];
        RunSnoc(w, ops[..i], ops[i]);
      }
      assert ops[..|ops|] == ops;
    }

    /** Other processes answer gates while the daemon waits. */
    method OtherSurfaces(others: seq<Visit>)
      modifies this`pending, this`handled, this`tmp, this`resolved, this`log, this`executions, this`publishing,
        this`trace
      ensures Performed(OthersPlan(old(View()), others))
    {
      hide Run, OthersPlan, VisitPlan;
      ghost var w := View();
      ghost var done: seq<Op> := [];
      RunNone(w);
      assert others[0..] == others;
      for i := 0 to |others|
        invariant View() == Run(w, done) && trace == old(trace) + done
        invariant OthersPlan(w, others) == done + OthersPlan(View(), others[i..])
      {
        var ops := VisitPlan(View(), others[i]);
        OthersUnfold(View(), others[i..]);
        assert others[i..][0] == others[i] && others[i..][1..] == others[i + 1..];
        Interfere(ops);
        RunConcat(w, done, ops);
        done := done + ops;
      }
      OthersUnfold(View(), []);
      assert others[|others|..] == [] && done + [] == done;
    }

    /** Polls for an answer until the deadline, at most once every five seconds. */
    method WaitForGateResolution(g: GateId, role: string, env: int -> Round, now: int)
      returns (result: WaitResult, polls: nat)
      modifies this`pending, this`handled, this`tmp, this`resolved, this`log, this`executions, this`publishing,
        this`trace, this`recentlyResolved
      ensures var wt := WaitPlan(old(View()), Some(old(recentlyResolved)), g, role, env, now, now + PROPOSAL_TIMEOUT);
              Performed(wt.ops) && result == wt.result && Some(recentlyResolved) == wt.cache
      ensures polls <= PROPOSAL_TIMEOUT / SLEEP
    {
      hide Run, WaitPlan, OthersPlan, ReadResolved, PollPlan;
      ghost var w := View();
      ghost var done: seq<Op> := [];
      RunNone(w);
      var clock := now;
      var deadline := now + PROPOSAL_TIMEOUT;
      ghost var whole := WaitPlan(w, Some(recentlyResolved), g, role, env, clock, deadline);
      polls := 0;
      while clock < deadline
        invariant View() == Run(w, done) && trace == old(trace) + done
        invariant whole == WaitPlan(View(), Some(recentlyResolved), g, role, env, clock, deadline).After(done)
        invariant clock >= now + polls * SLEEP && polls <= PROPOSAL_TIMEOUT / SLEEP
        decreases deadline - clock
      {
        ghost var here, seen := View(), Some(recentlyResolved);
        WaitUnfold(here, seen, g, role, env, clock, deadline);
        var round := env(clock);
        ghost var before := OthersPlan(here, round.others);
        OtherSurfaces(round.others);
        RunConcat(w, done, before);
        Regroup(old(trace), done, before);
        var option := ReadResolvedGate(g);
        if option.Some? {
          return Chosen(option.value), polls;
        }
        ghost var mid := View();
        ghost var e := PollPlan(mid, seen, g, role, round);
        var outcome := PollTelegram(g, role, round);
        RunConcat(w, done + before, e.ops);
        Regroup(done, before, e.ops);
        Regroup(old(trace), done + before, e.ops);
        Regroup(old(trace), done, before);
        done := done + before + e.ops;
        if outcome.Raises() {
          return WaitRaised, polls;
        }
        clock := clock + SLEEP + round.delay;
        polls := polls + 1;
      }
      WaitUnfold(View(), Some(recentlyResolved), g, role, env, clock, deadline);
      assert done + [] == done;
      return TimedOut, polls;
    }

    // ----- the tick

    method DispatchCandidate(t: TickInput, subject: string, gate: Option<GateId>) returns (outcome: Outcome)
      modifies this`log, this`executions, this`trace
      ensures Performed(DispatchPlan(t, subject, gate).0) && outcome == DispatchPlan(t, subject, gate).1
    {
      hide Run;
      ghost var w := View();
      if t.claim == ClaimRaised {
        AppendTransition(ClaimFailed(t.role, subject));
        return Returned(false);
      }
      var claimed := if t.claim == Claimed then TaskClaimed(t.role, subject) else ApprovedWithoutClaim(t.role, subject);
      var run := Execution(t.role, subject, gate);
      AppendTransition(claimed);
      RunAgent(run);
      RunConcat(w, [Append(claimed)], [Execute(run)]);
      assert [Append(claimed)] + [Execute(run)] == [Append(claimed), Execute(run)];
      if t.aftermath.AftermathRaised? {
        return Raised;
      }
      AppendTransition(TaskEnded(t.role, subject, t.aftermath.success));
      RunConcat(w, [Append(claimed), Execute(run)], [Append(TaskEnded(t.role, subject, t.aftermath.success))]);
      return Returned(true);
    }

    method Conclude(t: TickInput, subject: string, gate: GateId, result: WaitResult) returns (outcome: Outcome)
      modifies this`log, this`executions, this`trace
      ensures Performed(ConcludePlan(t, subject, gate, result).0) && outcome == ConcludePlan(t, subject, gate, result).1
    {
      hide Run, DispatchPlan;
      ghost var w := View();
      RunNone(w);
      match result {
        case WaitRaised => return Raised;
        case TimedOut =>
          AppendTransition(ClosedWithoutExecution(gate, t.role, None));
          return Returned(false);
        case Chosen(option) =>
          if option != Approve {
            AppendTransition(ClosedWithoutExecution(gate, t.role, Some(option)));
            return if option == Stop then Exited else Returned(false);
          }
          AppendTransition(GateApproved(gate, t.role));
          outcome := DispatchCandidate(t, subject, Some(gate));
          RunConcat(w, [Append(GateApproved(gate, t.role))], DispatchPlan(t, subject, Some(gate)).0);
      }
    }

    method AskPrincipal(t: TickInput, subject: string) returns (outcome: Outcome)
      modifies this
      ensures var a := AskPlan(old(View()), Some(old(recentlyResolved)), t, subject);
              Performed(a.ops) && outcome == a.outcome && Some(recentlyResolved) == a.cache
    {
      hide Run, OpenPlan, WaitPlan, ConcludePlan;
      ghost var w := View();
      ghost var o := OpenPlan(w, t.listing, t.role, subject, t.hex);
      var gate, wasFresh := WriteProposalGate(t.listing, t.role, subject, t.hex);
      if t.unattended {
        AppendTransition(QueuedForPrincipal(gate, t.role));
        RunConcat(w, o.ops, [Append(QueuedForPrincipal(gate, t.role))]);
        return Returned(false);
      }
      ghost var wt := TickWait(View(), Some(recentlyResolved), t, gate);
      var result, polls := WaitForGateResolution(gate, t.role, t.env, t.now);
      outcome := Conclude(t, subject, gate, result);
      RunChain(w, o.ops, wt.ops, ConcludePlan(t, subject, gate, result).0);
    }

    /** One governance tick. */
    method Tick(t: TickInput) returns (outcome: Outcome)
      modifies this
      ensures var p := TickPlan(old(View()), Some(old(recentlyResolved)), t);
              Performed(p.ops) && outcome == p.outcome && Some(recentlyResolved) == p.cache
    {
      hide Run, AskPlan, DispatchPlan;
      ghost var w := View();
      RunNone(w);
      for i := 0 to |t.warnings|
        invariant Scan(t.warnings) == Scan(t.warnings[i..])
        invariant View() == w && trace == old(trace) && recentlyResolved == old(recentlyResolved)
      {
        assert t.warnings[i..][0] == t.warnings[i] && t.warnings[i..][1..] == t.warnings[i + 1..];
        if Contains(t.warnings[i], "STOP") {
          return Exited;
        }
        if Contains(t.warnings[i], "PAUSE") {
          return Paused;
        }
      }
      if t.candidates == [] {
        return Returned(false);
      }
      var subject := Subject(t.candidates[0]);
      AppendTransition(WorkDiscovered(t.role, subject));
      ghost var found := [Append(WorkDiscovered(t.role, subject))];
      ghost var d := DecidePlan(View(), Some(recentlyResolved), t, subject);
      RunConcat(w, found, d.ops);
      RunNone(View());
      var approvalRequired := ApprovalRequired(t.auth);
      if !t.auth.allowed && !approvalRequired {
        AppendTransition(DispatchRefused(t.role, subject));
        return Returned(false);
      }
      if t.dryRun {
        return Returned(false);
      }
      if t.unattended && !approvalRequired {
        ghost var w1 := View();
        AppendTransition(AutoApproved(t.role, subject));
        outcome := DispatchCandidate(t, subject, None);
        RunConcat(w1, [Append(AutoApproved(t.role, subject))], DispatchPlan(t, subject, None).0);
      } else {
        outcome := AskPrincipal(t, subject);
      }
    }
  }

  lemma Regroup(a: seq<Op>, b: seq<Op>, c: seq<Op>)
    ensures a + (b + c) == a + b + c
  {}

  lemma OthersUnfold(w: World, others: seq<Visit>)
    ensures OthersPlan(w, others) ==
            if others == [] then []
            else var ops := VisitPlan(w, others[0]); ops + OthersPlan(Run(w, ops), others[1..])
  {
    hide VisitPlan, Run;
  }

  /** The five steps of an answer, as they are taken. */
  lemma AnswerChain(w: World, g: GateId, doc: GateDoc, role: string, surface: string)
    ensures var entry := Append(GateResolved(g, role, surface, doc.chosen));
            && [TearTmp(g), FillTmp(g, doc)] + [PublishTmp(g)] + [RetirePending(g)] + [entry]
              == AnswerOps(g, doc, role, surface)
            && Run(Run(Run(Run(w, [TearTmp(g), FillTmp(g, doc)]), [PublishTmp(g)]), [RetirePending(g)]), [entry])
               == Run(w, AnswerOps(g, doc, role, surface))
  {
    hide Run;
    var write := [TearTmp(g), FillTmp(g, doc)];
    RunChain(w, write, [PublishTmp(g)], [RetirePending(g)]);
    RunConcat(w, write + [PublishTmp(g)] + [RetirePending(g)], [Append(GateResolved(g, role, surface, doc.chosen))]);
  }

  lemma WaitUnfold(w: World, cache: Cache, g: GateId, role: string, env: int -> Round, clock: int, deadline: int)
    ensures WaitPlan(w, cache, g, role, env, clock, deadline) ==
            if clock >= deadline then Waited([], cache, TimedOut)
            else
              var before := OthersPlan(w, env(clock).others);
              var w1 := Run(w, before);
              if ReadResolved(w1, g).Some? then Waited(before, cache, Chosen(ReadResolved(w1, g).value))
              else
                var e := PollPlan(w1, cache, g, role, env(clock));
                if e.outcome.Raises() then Waited(before + e.ops, e.cache, WaitRaised)
                else
                  var later := clock + SLEEP + env(clock).delay;
                  WaitPlan(Run(w1, e.ops), e.cache, g, role, env, later, deadline).After(before + e.ops)
  {
    hide OthersPlan, ReadResolved, PollPlan, Run;
  }

  lemma RunTwo(w: World, a: Op, b: Op)
    ensures Run(w, [a, b]) == Apply(Apply(w, a), b)
  {
    RunOne(w, a);
    assert [a] + [b] == [a, b];
    RunSnoc(w, [a], b);
  }

  lemma RunChain(w: World, a: seq<Op>, b: seq<Op>, c: seq<Op>)
    ensures Run(w, a + b + c) == Run(Run(Run(w, a), b), c)
  {
    RunConcat(w, a, b);
    RunConcat(w, a + b, c);
  }
}
