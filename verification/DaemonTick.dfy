/** One governance tick of the daemon: discover, authorise, propose, wait, execute, record. */
module DaemonTick {
  import opened Text
  import opened GateFiles
  import opened GateCrashes
  import opened Telegram
  import opened GatePlans
  import opened GateWaits

  /** `goalId` is "" when the candidate's metadata has none. */
  datatype Candidate = Candidate(intent: string, goalId: string)

  datatype Authorization = Authorization(allowed: bool, requiredApproval: string, terminal: bool)

  datatype Claim = Claimed | NothingToClaim | ClaimRaised

  /** How the tick ends once the agent runtime has been invoked. */
  datatype Aftermath = Recorded(success: bool) | AftermathRaised

  /** Everything a tick learns from outside the gate directory. */
  datatype TickInput = TickInput(
    role: string,
    dryRun: bool,
    unattended: bool,
    warnings: seq<string>,
    candidates: seq<Candidate>,
    auth: Authorization,
    listing: seq<GateId>,
    hex: string,
    now: int,
    env: int -> Round,
    claim: Claim,
    aftermath: Aftermath
  )

  datatype Outcome = Exited | Paused | Returned(dispatched: bool) | Raised

  datatype Ticked = Ticked(ops: seq<Op>, cache: Cache, outcome: Outcome)

  datatype Halt = HaltStop | HaltPause

  /** The first warning that mentions STOP or PAUSE decides; STOP is looked for first in each. */
  function Scan(warnings: seq<string>): Option<Halt> {
    if warnings == [] then None
    else if Contains(warnings[0], "STOP") then Some(HaltStop)
    else if Contains(warnings[0], "PAUSE") then Some(HaltPause)
    else Scan(warnings[1..])
  }

  /** The key under which proposals are deduplicated: the goal, or the first 80 characters of the intent. */
  function Subject(c: Candidate): string {
    if c.goalId != "" then c.goalId else if |c.intent| > 80 then c.intent[..80] else c.intent
  }

  predicate ApprovalRequired(auth: Authorization) {
    !auth.allowed && auth.requiredApproval == "principal" && !auth.terminal
  }

  function TickRun(t: TickInput, subject: string, gate: Option<GateId>): Execution {
    Execution(t.role, subject, gate)
  }

  /** Claim the work, run the agent, record the result. */
  function DispatchPlan(t: TickInput, subject: string, gate: Option<GateId>): (seq<Op>, Outcome) {
    match t.claim
    case ClaimRaised => ([Append(ClaimFailed(t.role, subject))], Returned(false))
    case _ =>
      var claimed := if t.claim == Claimed then TaskClaimed(t.role, subject) else ApprovedWithoutClaim(t.role, subject);
      var run := [Append(claimed), Execute(TickRun(t, subject, gate))];
      match t.aftermath
      case AftermathRaised => (run, Raised)
      case Recorded(success) => (run + [Append(TaskEnded(t.role, subject, success))], Returned(true))
  }

  /** What follows the wait for the answer to a gate. */
  function ConcludePlan(t: TickInput, subject: string, gate: GateId, result: WaitResult): (seq<Op>, Outcome) {
    match result
    case WaitRaised => ([], Raised)
    case Chosen(Approve) =>
      var (ops, outcome) := DispatchPlan(t, subject, Some(gate));
      ([Append(GateApproved(gate, t.role))] + ops, outcome)
    case Chosen(option) =>
      ([Append(ClosedWithoutExecution(gate, t.role, Some(option)))], if option == Stop then Exited else Returned(false))
    case TimedOut =>
      ([Append(ClosedWithoutExecution(gate, t.role, None))], Returned(false))
  }

  /** The attended wait of a tick on the gate it opened or reused. */
  function TickWait(w: World, cache: Cache, t: TickInput, gate: GateId): Waited {
    WaitPlan(w, cache, gate, t.role, t.env, t.now, t.now + PROPOSAL_TIMEOUT)
  }

  /** Ask the principal: open or reuse the proposal gate and, when attended, wait for its answer. */
  function AskPlan(w: World, cache: Cache, t: TickInput, subject: string): Ticked {
    var o := OpenPlan(w, t.listing, t.role, subject, t.hex);
    if t.unattended then
      Ticked(o.ops + [Append(QueuedForPrincipal(o.gate, t.role))], cache, Returned(false))
    else
      var wt := TickWait(Run(w, o.ops), cache, t, o.gate);
      var (ops, outcome) := ConcludePlan(t, subject, o.gate, wt.result);
      Ticked(o.ops + wt.ops + ops, wt.cache, outcome)
  }

  /** What follows the discovery of a candidate that is authorised or may be asked about. */
  function DecidePlan(w: World, cache: Cache, t: TickInput, subject: string): Ticked {
    if !t.auth.allowed && !ApprovalRequired(t.auth) then
      Ticked([Append(DispatchRefused(t.role, subject))], cache, Returned(false))
    else if t.dryRun then Ticked([], cache, Returned(false))
    else if t.unattended && !ApprovalRequired(t.auth) then
      var (ops, outcome) := DispatchPlan(t, subject, None);
      Ticked([Append(AutoApproved(t.role, subject))] + ops, cache, outcome)
    else AskPlan(w, cache, t, subject)
  }

  function TickPlan(w: World, cache: Cache, t: TickInput): Ticked {
    match Scan(t.warnings)
    case Some(HaltStop) => Ticked([], cache, Exited)
    case Some(HaltPause) => Ticked([], cache, Paused)
    case None =>
      if t.candidates == [] then Ticked([], cache, Returned(false))
      else
        var subject := Subject(t.candidates[0]);
        var found := [Append(WorkDiscovered(t.role, subject))];
        var d := DecidePlan(Run(w, found), cache, t, subject);
        Ticked(found + d.ops, d.cache, d.outcome)
  }

  /** What the environment guarantees: the directory listing is complete and the new id is unused. */
  predicate Feasible(w: World, t: TickInput) {
    Lists(t.listing, w) && Unused(w, NewGateId(t.role, t.hex))
  }

  // ----- every tick keeps the discipline

  predicate Free(entry: Entry) {
    !entry.GateOpened? && !entry.GateResolved?
  }

  /** A tidy plan keeps the discipline. */
  predicate Tidy(w: World, ops: seq<Op>) {
    AllowedAll(w, ops) && Paired(ops)
  }

  lemma TidyConcat(w: World, a: seq<Op>, b: seq<Op>)
    requires Tidy(w, a) && Tidy(Run(w, a), b)
    ensures Tidy(w, a + b)
  {
    AllowedConcat(w, a, b);
    PairedConcat(a, b);
  }

  lemma AppendTidy(w: World, entry: Entry)
    requires Free(entry)
    ensures Tidy(w, [Append(entry)])
  {}

  lemma ExecuteTidy(w: World, run: Execution)
    requires Allowed(w, Execute(run))
    ensures Tidy(w, [Execute(run)])
  {}

  lemma DispatchTidy(w: World, t: TickInput, subject: string, gate: Option<GateId>)
    requires Allowed(w, Execute(TickRun(t, subject, gate)))
    ensures Tidy(w, DispatchPlan(t, subject, gate).0)
  {
    var run := TickRun(t, subject, gate);
    if t.claim == ClaimRaised {
      AppendTidy(w, ClaimFailed(t.role, subject));
    } else {
      var claimed := if t.claim == Claimed then TaskClaimed(t.role, subject) else ApprovedWithoutClaim(t.role, subject);
      AppendTidy(w, claimed);
      RunOne(w, Append(claimed));
      var w1 := Run(w, [Append(claimed)]);
      assert Allowed(w1, Execute(run));
      ExecuteTidy(w1, run);
      TidyConcat(w, [Append(claimed)], [Execute(run)]);
      assert [Append(claimed)] + [Execute(run)] == [Append(claimed), Execute(run)];
      if t.aftermath.Recorded? {
        var ended := TaskEnded(t.role, subject, t.aftermath.success);
        AppendTidy(Run(w, [Append(claimed), Execute(run)]), ended);
        TidyConcat(w, [Append(claimed), Execute(run)], [Append(ended)]);
      }
    }
  }

  /** A gate that was open before and is approved now backs a run, and was not used before unless stale. */
  lemma ApprovedBacks(w1: World, w2: World, g: GateId, role: string, subject: string)
    requires Inv(w1) && Inv(w2) && Grows(w1, w2) && w1.executions == w2.executions
    requires OpenFor(w1, g, role, subject) && ReadResolved(w2, g) == Some(Approve)
    ensures Allowed(w2, Execute(Execution(role, subject, Some(g))))
  {
    assert About(w1, g, role, subject);
    assert About(w2, g, role, subject);
    assert RestsOn(w2, g) ==> RestsOn(w1, g);
  }

  lemma ApprovedRunAllowed(w: World, ops: seq<Op>, g: GateId, role: string, subject: string)
    requires Inv(w) && Orderly(w, ops)
    requires OpenFor(w, g, role, subject) && ReadResolved(Run(w, ops), g) == Some(Approve)
    ensures Allowed(Run(w, ops), Execute(Execution(role, subject, Some(g))))
  {
    hide Inv, Run, Allowed, Grows, ReadResolved, OpenFor;
    OrderlyKeepsInv(w, ops);
    RunGrows(w, ops);
    NoExecuteKeepsExecutions(w, ops);
    ApprovedBacks(w, Run(w, ops), g, role, subject);
  }

  lemma ConcludeTidy(w: World, t: TickInput, subject: string, gate: GateId, result: WaitResult)
    requires result == Chosen(Approve) ==> Allowed(w, Execute(TickRun(t, subject, Some(gate))))
    ensures Tidy(w, ConcludePlan(t, subject, gate, result).0)
  {
    match result
    case WaitRaised =>
    case Chosen(Approve) =>
      var approved := GateApproved(gate, t.role);
      AppendTidy(w, approved);
      RunOne(w, Append(approved));
      DispatchTidy(Run(w, [Append(approved)]), t, subject, Some(gate));
      TidyConcat(w, [Append(approved)], DispatchPlan(t, subject, Some(gate)).0);
    case Chosen(option) => AppendTidy(w, ClosedWithoutExecution(gate, t.role, Some(option)));
    case TimedOut => AppendTidy(w, ClosedWithoutExecution(gate, t.role, None));
  }

  lemma TickWaitOrderly(w: World, cache: Cache, t: TickInput, gate: GateId, deadline: int)
    requires Inv(w) && deadline == t.now + PROPOSAL_TIMEOUT
    ensures var wt := TickWait(w, cache, t, gate);
            && Orderly(w, wt.ops)
            && (wt.result.Chosen? ==> ReadResolved(Run(w, wt.ops), gate) == Some(wt.result.option))
  {
    hide Inv, Orderly, ReadResolved, Run, WaitPlan;
    WaitOrderly(w, cache, gate, t.role, t.env, t.now, deadline);
    assert TickWait(w, cache, t, gate) == WaitPlan(w, cache, gate, t.role, t.env, t.now, deadline);
  }

  /** The part of an attended tick up to the end of its wait. */
  lemma AskedOrderly(w: World, cache: Cache, t: TickInput, subject: string)
    requires Inv(w) && Feasible(w, t)
    ensures var o := OpenPlan(w, t.listing, t.role, subject, t.hex);
            var wt := TickWait(Run(w, o.ops), cache, t, o.gate);
            && Orderly(Run(w, o.ops), wt.ops)
            && Orderly(w, o.ops + wt.ops)
            && (wt.result == Chosen(Approve) ==> ReadResolved(Run(w, o.ops + wt.ops), o.gate) == Some(Approve))
  {
    hide Inv, Run, Allowed, Orderly, ReadResolved, OpenFor, OpenPlan, TickWait;
    var o := OpenPlan(w, t.listing, t.role, subject, t.hex);
    OpenAllowed(w, t.listing, t.role, subject, t.hex);
    OrderlyKeepsInv(w, o.ops);
    var wt := TickWait(Run(w, o.ops), cache, t, o.gate);
    TickWaitOrderly(Run(w, o.ops), cache, t, o.gate, t.now + PROPOSAL_TIMEOUT);
    OrderlyConcat(w, o.ops, wt.ops);
    RunConcat(w, o.ops, wt.ops);
  }

  lemma AskedAllowed(w: World, cache: Cache, t: TickInput, subject: string)
    requires Inv(w) && Feasible(w, t)
    ensures var o := OpenPlan(w, t.listing, t.role, subject, t.hex);
            var wt := TickWait(Run(w, o.ops), cache, t, o.gate);
            wt.result == Chosen(Approve) ==> Allowed(Run(w, o.ops + wt.ops), Execute(TickRun(t, subject, Some(o.gate))))
  {
    hide Inv, Run, Allowed, Orderly, ReadResolved, OpenFor, OpenPlan, TickWait;
    var o := OpenPlan(w, t.listing, t.role, subject, t.hex);
    OpenAllowed(w, t.listing, t.role, subject, t.hex);
    var wt := TickWait(Run(w, o.ops), cache, t, o.gate);
    AskedOrderly(w, cache, t, subject);
    RunConcat(w, o.ops, wt.ops);
    OrderlyKeepsInv(w, o.ops);
    if wt.result == Chosen(Approve) {
      ApprovedRunAllowed(Run(w, o.ops), wt.ops, o.gate, t.role, subject);
    }
  }

  lemma AskTidy(w: World, cache: Cache, t: TickInput, subject: string)
    requires Inv(w) && Feasible(w, t)
    ensures Tidy(w, AskPlan(w, cache, t, subject).ops)
  {
    var o := OpenPlan(w, t.listing, t.role, subject, t.hex);
    if t.unattended {
      OpenAllowed(w, t.listing, t.role, subject, t.hex);
      AppendTidy(Run(w, o.ops), QueuedForPrincipal(o.gate, t.role));
      TidyConcat(w, o.ops, [Append(QueuedForPrincipal(o.gate, t.role))]);
    } else {
      var wt := TickWait(Run(w, o.ops), cache, t, o.gate);
      AskedOrderly(w, cache, t, subject);
      AskedAllowed(w, cache, t, subject);
      ConcludeTidy(Run(w, o.ops + wt.ops), t, subject, o.gate, wt.result);
      TidyConcat(w, o.ops + wt.ops, ConcludePlan(t, subject, o.gate, wt.result).0);
    }
  }

  lemma DecideTidy(w: World, cache: Cache, t: TickInput, subject: string)
    requires Inv(w) && Feasible(w, t)
    ensures Tidy(w, DecidePlan(w, cache, t, subject).ops)
  {
    AppendTidy(w, DispatchRefused(t.role, subject));
    AppendTidy(w, AutoApproved(t.role, subject));
    RunOne(w, Append(AutoApproved(t.role, subject)));
    var w1 := Run(w, [Append(AutoApproved(t.role, subject))]);
    DispatchTidy(w1, t, subject, None);
    TidyConcat(w, [Append(AutoApproved(t.role, subject))], DispatchPlan(t, subject, None).0);
    AskTidy(w, cache, t, subject);
  }

  /** Whatever a tick meets, each of its disk steps is allowed. */
  lemma TickTidy(w: World, cache: Cache, t: TickInput)
    requires Inv(w) && Feasible(w, t)
    ensures Tidy(w, TickPlan(w, cache, t).ops)
  {
    if Scan(t.warnings).None? && t.candidates != [] {
      var subject := Subject(t.candidates[0]);
      var found := [Append(WorkDiscovered(t.role, subject))];
      AppendTidy(w, WorkDiscovered(t.role, subject));
      DiscoveryKeeps(w, t, subject);
      DecideTidy(Run(w, found), cache, t, subject);
      TidyConcat(w, found, DecidePlan(Run(w, found), cache, t, subject).ops);
    }
  }

  /**
   After a tick exactly those gates are stale that were stale before it, or whose answer another
   process published during the wait and died before it renamed the question.
   */
  lemma TickLeavesStale(w: World, cache: Cache, t: TickInput, g: GateId)
    requires Inv(w) && Idle(w) && Feasible(w, t)
    ensures var ops := TickPlan(w, cache, t).ops;
            Stale(Run(w, ops), g) <==> Stale(w, g) || DiedAfter(ops, PublishTmp(g))
  {
    hide Inv, Feasible, TickPlan, Run, Stale, DiedAfter;
    TickTidy(w, cache, t);
    StaleExactly(w, TickPlan(w, cache, t).ops, g);
  }

  // ----- every execution is authorised in its own tick

  /**
   The step `ops[i]`, an execution, is preceded in its tick by an automatic approval of an allowed
   candidate in unattended mode, or by the record that the principal approved its gate, and the
   candidate was allowed or open to approval; at that point the gate's answer on disk is "approve"
   and is about the executed role and subject.
   */
  predicate Justified(w: World, t: TickInput, ops: seq<Op>, i: nat)
    requires i < |ops| && ops[i].Execute?
  {
    var run := ops[i].run;
    && !t.dryRun && run.role == t.role && t.candidates != [] && run.subject == Subject(t.candidates[0])
    && match run.gate
       case None => t.unattended && t.auth.allowed && Append(AutoApproved(t.role, run.subject)) in ops[..i]
       case Some(g) =>
         && !t.unattended && (t.auth.allowed || (t.auth.requiredApproval == "principal" && !t.auth.terminal))
         && Append(GateApproved(g, t.role)) in ops[..i]
         && ReadResolved(Run(w, ops[..i]), g) == Some(Approve)
         && Backed(Run(w, ops[..i]), run)
  }

  /** How a tick that has run the agent ends. */
  function Ended(t: TickInput): Outcome {
    if t.aftermath.Recorded? then Returned(true) else Raised
  }

  predicate Executes(ops: seq<Op>) {
    exists i :: 0 <= i < |ops| && ops[i].Execute?
  }

  lemma DispatchShape(t: TickInput, subject: string, gate: Option<GateId>)
    ensures var (ops, outcome) := DispatchPlan(t, subject, gate);
            && (forall i :: 0 <= i < |ops| && ops[i].Execute? ==>
              i == 1 && ops[i].run == TickRun(t, subject, gate) && ops[0].Append?)
            && (outcome == Returned(true) ==> |ops| > 1 && ops[1].Execute? && t.aftermath.Recorded?)
            && (|ops| > 1 ==> outcome == Ended(t))
            && outcome != Exited
  {}

  lemma ConcludeShape(t: TickInput, subject: string, gate: GateId, result: WaitResult)
    ensures var (ops, outcome) := ConcludePlan(t, subject, gate, result);
            && (forall i :: 0 <= i < |ops| && ops[i].Execute? ==>
                  && i == 2 && ops[0] == Append(GateApproved(gate, t.role)) && ops[1].Append?
                  && ops[2].run == TickRun(t, subject, Some(gate)) && result == Chosen(Approve))
            && (outcome == Returned(true) ==> |ops| > 2 && ops[2].Execute? && t.aftermath.Recorded?)
            && (|ops| > 2 ==> outcome == Ended(t))
  {
    DispatchShape(t, subject, Some(gate));
  }

  /** Two appended entries change nothing that backs an execution. */
  lemma AppendsKeepBacking(w: World, a: Entry, b: Entry, run: Execution, g: GateId)
    ensures var w' := Run(w, [Append(a), Append(b)]);
            (Backed(w', run) <==> Backed(w, run)) && ReadResolved(w', g) == ReadResolved(w, g)
  {
    RunOne(w, Append(a));
    RunOne(Run(w, [Append(a)]), Append(b));
    RunConcat(w, [Append(a)], [Append(b)]);
    assert [Append(a)] + [Append(b)] == [Append(a), Append(b)];
  }

  /** Where the execution of an asking tick stands, and what stands before it. */
  lemma AskExecutesLast(w: World, cache: Cache, t: TickInput, subject: string, i: nat)
    requires Inv(w) && Feasible(w, t)
    requires var ops := AskPlan(w, cache, t, subject).ops; i < |ops| && ops[i].Execute?
    ensures var o := OpenPlan(w, t.listing, t.role, subject, t.hex);
            var wt := TickWait(Run(w, o.ops), cache, t, o.gate);
            var (ops, outcome) := ConcludePlan(t, subject, o.gate, wt.result);
            && !t.unattended && wt.result == Chosen(Approve)
            && i == |o.ops + wt.ops| + 2 && |ops| > 2
            && AskPlan(w, cache, t, subject).ops[i] == ops[2] == Execute(TickRun(t, subject, Some(o.gate)))
            && AskPlan(w, cache, t, subject).ops[..i] == o.ops + wt.ops + ops[..2]
            && ops[0] == Append(GateApproved(o.gate, t.role)) && ops[1].Append?
  {
    hide Inv, Run, Allowed, ReadResolved, OpenFor, OpenPlan, TickWait, ConcludePlan, AllowedAll;
    var a := AskPlan(w, cache, t, subject);
    var o := OpenPlan(w, t.listing, t.role, subject, t.hex);
    OpenAllowed(w, t.listing, t.role, subject, t.hex);
    if !t.unattended {
      var wt := TickWait(Run(w, o.ops), cache, t, o.gate);
      var asked := o.ops + wt.ops;
      AskedOrderly(w, cache, t, subject);
      ConcludeShape(t, subject, o.gate, wt.result);
      assert forall k :: 0 <= k < |asked| ==> a.ops[k] == asked[k];
    }
  }

  /** An asking tick executes only after the approval of its gate was recorded, and only if attended. */
  lemma AskJustified(w: World, cache: Cache, t: TickInput, subject: string, i: nat)
    requires Inv(w) && Feasible(w, t)
    requires var ops := AskPlan(w, cache, t, subject).ops; i < |ops| && ops[i].Execute?
    ensures var a := AskPlan(w, cache, t, subject);
            var run := a.ops[i].run;
            && !t.unattended && run.gate.Some? && run == TickRun(t, subject, run.gate)
            && Append(GateApproved(run.gate.value, t.role)) in a.ops[..i]
            && ReadResolved(Run(w, a.ops[..i]), run.gate.value) == Some(Approve)
            && Backed(Run(w, a.ops[..i]), run)
            && a.outcome == Ended(t)
  {
    hide Inv, Run, Allowed, ReadResolved, Backed, OpenFor, OpenPlan, TickWait, ConcludePlan, Orderly;
    var a := AskPlan(w, cache, t, subject);
    AskExecutesLast(w, cache, t, subject, i);
    var o := OpenPlan(w, t.listing, t.role, subject, t.hex);
    var wt := TickWait(Run(w, o.ops), cache, t, o.gate);
    var asked := o.ops + wt.ops;
    var ops := ConcludePlan(t, subject, o.gate, wt.result).0;
    AskedOrderly(w, cache, t, subject);
    ApprovedIsBacked(w, cache, t, subject);
    ConcludeShape(t, subject, o.gate, wt.result);
    assert ops[..2] == [ops[0], ops[1]];
    assert ops[..2][0] in a.ops[..i];
    RunConcat(w, asked, ops[..2]);
    AppendsKeepBacking(Run(w, asked), ops[0].entry, ops[1].entry, a.ops[i].run, o.gate);
  }

  lemma ApprovedIsBacked(w: World, cache: Cache, t: TickInput, subject: string)
    requires Inv(w) && Feasible(w, t)
    ensures var o := OpenPlan(w, t.listing, t.role, subject, t.hex);
            var wt := TickWait(Run(w, o.ops), cache, t, o.gate);
            wt.result == Chosen(Approve) ==> Backed(Run(w, o.ops + wt.ops), TickRun(t, subject, Some(o.gate)))
  {
    hide Inv, Run, OpenPlan, TickWait, Backed, RestsOn, Feasible;
    AskedAllowed(w, cache, t, subject);
  }

  lemma AskDispatches(w: World, cache: Cache, t: TickInput, subject: string)
    ensures var a := AskPlan(w, cache, t, subject);
            a.outcome == Returned(true) ==> t.aftermath.Recorded? && Executes(a.ops)
  {
    var a := AskPlan(w, cache, t, subject);
    if a.outcome == Returned(true) {
      var o := OpenPlan(w, t.listing, t.role, subject, t.hex);
      var wt := TickWait(Run(w, o.ops), cache, t, o.gate);
      ConcludeShape(t, subject, o.gate, wt.result);
      assert a.ops[|o.ops + wt.ops| + 2] == ConcludePlan(t, subject, o.gate, wt.result).0[2];
    }
  }

  /** The same for everything that can follow a discovery. */
  lemma DecideJustified(w: World, cache: Cache, t: TickInput, subject: string, i: nat)
    requires Inv(w) && Feasible(w, t)
    requires var ops := DecidePlan(w, cache, t, subject).ops; i < |ops| && ops[i].Execute?
    ensures var d := DecidePlan(w, cache, t, subject);
            var run := d.ops[i].run;
            && !t.dryRun && run == TickRun(t, subject, run.gate)
            && (run.gate.None? ==>
                  && t.unattended && t.auth.allowed
                  && Append(AutoApproved(t.role, subject)) in d.ops[..i])
            && (run.gate.Some? ==>
                  && !t.unattended && (t.auth.allowed || ApprovalRequired(t.auth))
                  && Append(GateApproved(run.gate.value, t.role)) in d.ops[..i]
                  && ReadResolved(Run(w, d.ops[..i]), run.gate.value) == Some(Approve)
                  && Backed(Run(w, d.ops[..i]), run))
            && d.outcome == Ended(t)
  {
    var d := DecidePlan(w, cache, t, subject);
    if (t.auth.allowed || ApprovalRequired(t.auth)) && !t.dryRun {
      if t.unattended && !ApprovalRequired(t.auth) {
        var ops := DispatchPlan(t, subject, None).0;
        DispatchShape(t, subject, None);
        assert d.ops[i] == ops[i - 1];
        assert d.ops[..i][0] == Append(AutoApproved(t.role, subject));
      } else {
        AskJustified(w, cache, t, subject, i);
      }
    }
  }

  lemma DecideDispatches(w: World, cache: Cache, t: TickInput, subject: string)
    ensures var d := DecidePlan(w, cache, t, subject);
            d.outcome == Returned(true) ==> t.aftermath.Recorded? && Executes(d.ops)
  {
    var d := DecidePlan(w, cache, t, subject);
    AskDispatches(w, cache, t, subject);
    DispatchShape(t, subject, None);
    if d.outcome == Returned(true) && t.unattended && !ApprovalRequired(t.auth) {
      assert d.ops[2] == DispatchPlan(t, subject, None).0[1];
    }
  }

  /** The first log entry of a tick changes nothing that the rest of it depends on. */
  lemma DiscoveryKeeps(w: World, t: TickInput, subject: string)
    requires Inv(w) && Feasible(w, t)
    ensures var w1 := Run(w, [Append(WorkDiscovered(t.role, subject))]);
            Inv(w1) && Feasible(w1, t) && w1.resolved == w.resolved
  {
    AppendTidy(w, WorkDiscovered(t.role, subject));
    RunOne(w, Append(WorkDiscovered(t.role, subject)));
    RunKeepsInv(w, [Append(WorkDiscovered(t.role, subject))]);
  }

  /** Every execution of every tick is justified in that tick. */
  lemma TickJustified(w: World, cache: Cache, t: TickInput, i: nat)
    requires Inv(w) && Feasible(w, t)
    requires var ops := TickPlan(w, cache, t).ops; i < |ops| && ops[i].Execute?
    ensures Justified(w, t, TickPlan(w, cache, t).ops, i)
    ensures TickPlan(w, cache, t).outcome == Ended(t)
  {
    hide Inv, Feasible, Run, DecidePlan, Backed, ReadResolved, Scan, Subject, Ended;
    var ops := TickPlan(w, cache, t).ops;
    var subject := Subject(t.candidates[0]);
    var found := [Append(WorkDiscovered(t.role, subject))];
    DiscoveryKeeps(w, t, subject);
    var d := DecidePlan(Run(w, found), cache, t, subject);
    assert ops[i] == d.ops[i - 1];
    DecideJustified(Run(w, found), cache, t, subject, i - 1);
    assert ops[..i] == found + d.ops[..i - 1];
    RunConcat(w, found, d.ops[..i - 1]);
  }

  /**
   A tick reports True exactly when it ran the agent and recorded the result; dry runs and queued
   candidates therefore report otherwise.
   */
  lemma TickReportsDispatch(w: World, cache: Cache, t: TickInput)
    requires Inv(w) && Feasible(w, t)
    ensures TickPlan(w, cache, t).outcome == Returned(true)
            <==> Executes(TickPlan(w, cache, t).ops) && t.aftermath.Recorded?
  {
    hide Inv, Feasible, Run, DecidePlan, Justified, Scan;
    var p := TickPlan(w, cache, t);
    if p.outcome == Returned(true) {
      var subject := Subject(t.candidates[0]);
      var found := [Append(WorkDiscovered(t.role, subject))];
      var d := DecidePlan(Run(w, found), cache, t, subject);
      DecideDispatches(Run(w, found), cache, t, subject);
      var i :| 0 <= i < |d.ops| && d.ops[i].Execute?;
      assert p.ops[i + 1] == d.ops[i];
    }
    if Executes(p.ops) {
      var i :| 0 <= i < |p.ops| && p.ops[i].Execute?;
      TickJustified(w, cache, t, i);
    }
  }

  // ----- a tick ends the daemon only when told to stop

  lemma {:induction false} ScanStop(warnings: seq<string>)
    requires Scan(warnings) == Some(HaltStop)
    ensures exists i :: 0 <= i < |warnings| && Contains(warnings[i], "STOP")
  {
    if !Contains(warnings[0], "STOP") {
      ScanStop(warnings[1..]);
      var i :| 0 <= i < |warnings[1..]| && Contains(warnings[1..][i], "STOP");
      assert Contains(warnings[i + 1], "STOP");
    }
  }

  /** The matter of this role and subject has been answered with "stop". */
  ghost predicate ToldToStop(w: World, role: string, subject: string) {
    exists g :: ReadResolved(w, g) == Some(Stop) && About(w, g, role, subject)
  }

  lemma AskExits(w: World, cache: Cache, t: TickInput, subject: string)
    requires Inv(w) && Feasible(w, t) && AskPlan(w, cache, t, subject).outcome == Exited
    ensures ToldToStop(Run(w, AskPlan(w, cache, t, subject).ops), t.role, subject)
    ensures !Executes(AskPlan(w, cache, t, subject).ops)
  {
    hide Inv, Run, ReadResolved, About, OpenPlan, TickWait, Orderly, Lists, Unused, OpenFor, Grows, DispatchPlan;
    var o := OpenPlan(w, t.listing, t.role, subject, t.hex);
    var w1 := Run(w, o.ops);
    OpenAllowed(w, t.listing, t.role, subject, t.hex);
    OrderlyKeepsInv(w, o.ops);
    var wt := TickWait(w1, cache, t, o.gate);
    TickWaitOrderly(w1, cache, t, o.gate, t.now + PROPOSAL_TIMEOUT);
    DispatchShape(t, subject, Some(o.gate));
    var closed := ClosedWithoutExecution(o.gate, t.role, Some(Stop));
    assert wt.result == Chosen(Stop);
    assert AskPlan(w, cache, t, subject).ops == o.ops + wt.ops + [Append(closed)];
    RunConcat(w, o.ops, wt.ops);
    RunConcat(w, o.ops + wt.ops, [Append(closed)]);
    AnsweredMatter(w1, wt.ops, o.gate, t.role, subject, closed);
    NothingExecuted(w, t, subject, o.ops, w1, wt.ops, closed);
  }

  lemma AnsweredMatter(w: World, ops: seq<Op>, g: GateId, role: string, subject: string, entry: Entry)
    requires Inv(w) && Orderly(w, ops) && OpenFor(w, g, role, subject) && ReadResolved(Run(w, ops), g) == Some(Stop)
    ensures ToldToStop(Run(Run(w, ops), [Append(entry)]), role, subject)
  {
    hide Inv, Run, AllowedAll, NoExecute;
    RunGrows(w, ops);
    RunOne(Run(w, ops), Append(entry));
    assert About(w, g, role, subject);
    assert About(Run(w, ops), g, role, subject);
    assert ReadResolved(Run(Run(w, ops), [Append(entry)]), g) == Some(Stop);
    assert About(Run(Run(w, ops), [Append(entry)]), g, role, subject);
  }

  lemma NothingExecuted(w: World, t: TickInput, subject: string, a: seq<Op>, w1: World, b: seq<Op>, entry: Entry)
    requires Orderly(w, a) && Orderly(w1, b)
    ensures !Executes(a + b + [Append(entry)])
  {
    hide AllowedAll, Run;
  }

  /**
   A tick ends the daemon only if a warning says STOP or the principal answered "stop" to the gate
   about its candidate, and such a tick executes nothing.
   */
  lemma TickExitsWhenTold(w: World, cache: Cache, t: TickInput)
    requires Inv(w) && Feasible(w, t) && TickPlan(w, cache, t).outcome == Exited
    ensures (exists i :: 0 <= i < |t.warnings| && Contains(t.warnings[i], "STOP"))
            || (t.candidates != [] && ToldToStop(Run(w, TickPlan(w, cache, t).ops), t.role, Subject(t.candidates[0])))
    ensures !Executes(TickPlan(w, cache, t).ops)
  {
    hide Inv, Run, Feasible, ReadResolved, About, AskPlan, Subject;
    if Scan(t.warnings).Some? {
      ScanStop(t.warnings);
    } else {
      var subject := Subject(t.candidates[0]);
      var found := [Append(WorkDiscovered(t.role, subject))];
      DiscoveryKeeps(w, t, subject);
      var w1 := Run(w, found);
      DispatchShape(t, subject, None);
      var ops := AskPlan(w1, cache, t, subject).ops;
      AskExits(w1, cache, t, subject);
      RunConcat(w, found, ops);
      assert TickPlan(w, cache, t).ops == found + ops;
    }
  }

  // ----- what the warnings decide

  /** No warning mentions STOP or PAUSE. */
  predicate NoHalt(warnings: seq<string>) {
    forall i :: 0 <= i < |warnings| ==> !Contains(warnings[i], "STOP") && !Contains(warnings[i], "PAUSE")
  }

  /** The first warning that mentions STOP or PAUSE mentions STOP. */
  predicate StopFirst(warnings: seq<string>) {
    exists i :: 0 <= i < |warnings| && Contains(warnings[i], "STOP") && NoHalt(warnings[..i])
  }

  /** The first warning that mentions STOP or PAUSE mentions PAUSE alone. */
  predicate PauseFirst(warnings: seq<string>) {
    exists i ::
      0 <= i < |warnings| && Contains(warnings[i], "PAUSE") && !Contains(warnings[i], "STOP") && NoHalt(warnings[..i])
  }

  lemma NoHaltAfter(warnings: seq<string>, n: nat)
    requires 0 < n <= |warnings|
    ensures NoHalt(warnings[..n])
            <==> !Contains(warnings[0], "STOP") && !Contains(warnings[0], "PAUSE") && NoHalt(warnings[1..][..n - 1])
  {
    hide Contains;
    var a, b := warnings[..n], warnings[1..][..n - 1];
    assert forall i :: 0 < i < n ==> a[i] == b[i - 1];
    assert forall i :: 0 <= i < n - 1 ==> b[i] == a[i + 1];
    assert a[0] == warnings[0];
  }

  lemma {:induction false} ScanExactly(warnings: seq<string>)
    ensures Scan(warnings) == Some(HaltStop) <==> StopFirst(warnings)
    ensures Scan(warnings) == Some(HaltPause) <==> PauseFirst(warnings)
    ensures Scan(warnings).None? <==> NoHalt(warnings)
  {
    hide Contains, NoHalt;
    NoHaltOfNothing();
    if warnings != [] {
      var rest := warnings[1..];
      ScanExactly(rest);
      NoHaltAfter(warnings, |warnings|);
      assert warnings[..|warnings|] == warnings && rest[..|rest|] == rest && warnings[..0] == [];
      forall i | 0 <= i < |rest|
        ensures warnings[i + 1] == rest[i]
        ensures NoHalt(warnings[..i + 1])
                <==> !Contains(warnings[0], "STOP") && !Contains(warnings[0], "PAUSE") && NoHalt(rest[..i])
      {
        NoHaltAfter(warnings, i + 1);
      }
      if StopFirst(rest) {
        var i :| 0 <= i < |rest| && Contains(rest[i], "STOP") && NoHalt(rest[..i]);
        assert Contains(warnings[i + 1], "STOP");
      }
      if PauseFirst(rest) {
        var i :| 0 <= i < |rest| && Contains(rest[i], "PAUSE") && !Contains(rest[i], "STOP") && NoHalt(rest[..i]);
        assert Contains(warnings[i + 1], "PAUSE");
      }
      if StopFirst(warnings) {
        var i :| 0 <= i < |warnings| && Contains(warnings[i], "STOP") && NoHalt(warnings[..i]);
        if i > 0 {
          assert rest[i - 1] == warnings[i];
        }
      }
      if PauseFirst(warnings) {
        var i :| 0 <= i < |warnings| && Contains(warnings[i], "PAUSE") && !Contains(warnings[i], "STOP")
                 && NoHalt(warnings[..i]);
        if i > 0 {
          assert rest[i - 1] == warnings[i];
        }
      }
    }
  }

  lemma NoHaltOfNothing()
    ensures NoHalt([])
  {}

  // ----- exactly which ticks execute, and which end the daemon

  /** A tick that gets past its warnings, its discovery and its authorisation, and is not a dry run. */
  predicate Proceeds(t: TickInput) {
    && NoHalt(t.warnings) && t.candidates != [] && !t.dryRun
    && (t.auth.allowed || (t.auth.requiredApproval == "principal" && !t.auth.terminal))
  }

  predicate RunsUnasked(t: TickInput) {
    Proceeds(t) && t.unattended && t.auth.allowed
  }

  /** An attended tick that gets as far as asking about its first candidate. */
  predicate AsksPrincipal(t: TickInput) {
    Proceeds(t) && !t.unattended
  }

  /** The first log entry of a tick. */
  function Discovery(t: TickInput): seq<Op>
    requires t.candidates != []
  {
    [Append(WorkDiscovered(t.role, Subject(t.candidates[0])))]
  }

  /** The gate a tick opens or reuses. */
  function Asked(w: World, t: TickInput): Opening
    requires t.candidates != []
  {
    OpenPlan(Run(w, Discovery(t)), t.listing, t.role, Subject(t.candidates[0]), t.hex)
  }

  /** The world in which a tick begins to wait. */
  function AskedWorld(w: World, t: TickInput): World
    requires t.candidates != []
  {
    Run(Run(w, Discovery(t)), Asked(w, t).ops)
  }

  /** Some pass of the tick's wait finds the option on disk in time. */
  ghost predicate TickHears(w: World, cache: Cache, t: TickInput, option: Verdict)
    requires t.candidates != []
  {
    SomePassFinds(Pass(AskedWorld(w, t), cache, t.now), Asked(w, t).gate, t.role, t.env, t.now
      + PROPOSAL_TIMEOUT, option)
  }

  lemma TickOpens(w: World, t: TickInput)
    requires Inv(w) && Feasible(w, t) && t.candidates != []
    ensures Inv(AskedWorld(w, t)) && Opened(AskedWorld(w, t), Asked(w, t).gate)
    ensures Orderly(Run(w, Discovery(t)), Asked(w, t).ops)
  {
    hide Inv, OpenPlan, AllowedAll, Paired, NoExecute, Run, Lists, Unused;
    var w1 := Run(w, Discovery(t));
    DiscoveryKeeps(w, t, Subject(t.candidates[0]));
    OpenAllowed(w1, t.listing, t.role, Subject(t.candidates[0]), t.hex);
    OrderlyKeepsInv(w1, Asked(w, t).ops);
  }

  lemma TickWaitEnds(w: World, cache: Cache, t: TickInput, option: Verdict, deadline: int)
    requires Inv(w) && Feasible(w, t) && t.candidates != [] && deadline == t.now + PROPOSAL_TIMEOUT
    ensures TickWait(AskedWorld(w, t), cache, t, Asked(w, t).gate).result == Chosen(option)
            <==> TickHears(w, cache, t, option)
  {
    hide Inv, Opened, WaitPlan, SomePassFinds, AskedWorld, Asked, Orderly, Feasible;
    TickOpens(w, t);
    var p, g := Pass(AskedWorld(w, t), cache, t.now), Asked(w, t).gate;
    WaitEndsExactly(p, g, t.role, t.env, deadline, option);
    assert TickWait(p.w, cache, t, g) == WaitPlan(p.w, cache, g, t.role, t.env, t.now, deadline);
  }

  /** The steps of an asking tick. */
  lemma AskingTick(w: World, cache: Cache, t: TickInput)
    requires Inv(w) && Feasible(w, t) && AsksPrincipal(t)
    ensures var g := Asked(w, t).gate;
            var wt := TickWait(AskedWorld(w, t), cache, t, g);
            var before := Discovery(t) + (Asked(w, t).ops + wt.ops);
            var (ops, outcome) := ConcludePlan(t, Subject(t.candidates[0]), g, wt.result);
            && TickPlan(w, cache, t) == Ticked(before + ops, wt.cache, outcome)
            && NoExecute(before)
  {
    hide Inv, OpenPlan, TickWait, AllowedAll, Paired, Run, Feasible, Opened, ConcludePlan, NoHalt, Scan;
    ScanExactly(t.warnings);
    TickOpens(w, t);
    var g := Asked(w, t).gate;
    var wt := TickWait(AskedWorld(w, t), cache, t, g);
    TickWaitOrderly(AskedWorld(w, t), cache, t, g, t.now + PROPOSAL_TIMEOUT);
    var ops := ConcludePlan(t, Subject(t.candidates[0]), g, wt.result).0;
    assert Discovery(t) + (Asked(w, t).ops + wt.ops + ops) == Discovery(t) + (Asked(w, t).ops + wt.ops) + ops;
  }

  lemma ConcludeExactly(t: TickInput, subject: string, gate: GateId, result: WaitResult, run: Execution)
    ensures var (ops, outcome) := ConcludePlan(t, subject, gate, result);
            && (Execute(run) in ops
                <==> result == Chosen(Approve) && t.claim != ClaimRaised && run == TickRun(t, subject, Some(gate)))
            && (outcome == Exited <==> result == Chosen(Stop))
  {
    ConcludeShape(t, subject, gate, result);
    DispatchShape(t, subject, Some(gate));
    var ops := ConcludePlan(t, subject, gate, result).0;
    if result == Chosen(Approve) && t.claim != ClaimRaised {
      assert ops[2] == Execute(TickRun(t, subject, Some(gate)));
    }
  }

  /** The steps of a tick that does not ask. */
  lemma UnaskedTick(w: World, cache: Cache, t: TickInput, run: Execution)
    requires Inv(w) && Feasible(w, t) && !AsksPrincipal(t) && t.candidates != []
    ensures Execute(run) in TickPlan(w, cache, t).ops
            <==> RunsUnasked(t) && t.claim != ClaimRaised && run == TickRun(t, Subject(t.candidates[0]), None)
    ensures TickPlan(w, cache, t).outcome == Exited <==> Scan(t.warnings) == Some(HaltStop)
  {
    hide Inv, Run, Feasible, OpenPlan, Scan, Subject, NoHalt, StopFirst, PauseFirst;
    ScanExactly(t.warnings);
    var subject := Subject(t.candidates[0]);
    var ops := TickPlan(w, cache, t).ops;
    DiscoveryKeeps(w, t, subject);
    if Scan(t.warnings).None? && RunsUnasked(t) {
      var rest := DispatchPlan(t, subject, None).0;
      DispatchShape(t, subject, None);
      assert ops == Discovery(t) + ([Append(AutoApproved(t.role, subject))] + rest);
      if t.claim != ClaimRaised {
        assert ops[3] == Execute(TickRun(t, subject, None));
      }
    } else if Scan(t.warnings).None? && t.unattended && Proceeds(t) {
      TickOpens(w, t);
      var queued := QueuedForPrincipal(Asked(w, t).gate, t.role);
      assert ops == Discovery(t) + (Asked(w, t).ops + [Append(queued)]);
      assert NoExecute(Asked(w, t).ops);
    }
  }

  /**
   Exactly when a tick executes. Without a gate: if it proceeds unattended with nothing to ask, and can
   claim its candidate. On a gate: if it is the one it asks about, some pass of the wait finds "approve"
   on disk in time, and it can claim its candidate.
   */
  lemma TickExecutesExactly(w: World, cache: Cache, t: TickInput, gate: Option<GateId>)
    requires Inv(w) && Feasible(w, t) && t.candidates != []
    ensures Execute(TickRun(t, Subject(t.candidates[0]), gate)) in TickPlan(w, cache, t).ops
            <==> && t.claim != ClaimRaised
                 && match gate
                    case None => RunsUnasked(t)
                    case Some(g) => AsksPrincipal(t) && g == Asked(w, t).gate && TickHears(w, cache, t, Approve)
  {
    hide Inv, Feasible, TickHears, Proceeds, Asked, AskedWorld, TickWait, ConcludePlan, TickPlan, Subject, Discovery;
    var subject := Subject(t.candidates[0]);
    var run := TickRun(t, subject, gate);
    if AsksPrincipal(t) {
      var g := Asked(w, t).gate;
      var wt := TickWait(AskedWorld(w, t), cache, t, g);
      AskingTick(w, cache, t);
      ConcludeExactly(t, subject, g, wt.result, run);
      TickWaitEnds(w, cache, t, Approve, t.now + PROPOSAL_TIMEOUT);
    } else {
      UnaskedTick(w, cache, t, run);
    }
  }

  /**
   Exactly when a tick ends the daemon: a warning says STOP before any says PAUSE, or the tick asks and
   some pass of its wait finds "stop" on disk in time.
   */
  lemma TickExitsExactly(w: World, cache: Cache, t: TickInput)
    requires Inv(w) && Feasible(w, t)
    ensures TickPlan(w, cache, t).outcome == Exited
            <==> StopFirst(t.warnings) || (AsksPrincipal(t) && TickHears(w, cache, t, Stop))
  {
    hide Inv, Feasible, TickHears, StopFirst, Asked, AskedWorld, TickWait, ConcludePlan, Subject;
    ScanExactly(t.warnings);
    if AsksPrincipal(t) {
      var subject := Subject(t.candidates[0]);
      var g := Asked(w, t).gate;
      var wt := TickWait(AskedWorld(w, t), cache, t, g);
      AskingTick(w, cache, t);
      ConcludeExactly(t, subject, g, wt.result, TickRun(t, subject, Some(g)));
      TickWaitEnds(w, cache, t, Stop, t.now + PROPOSAL_TIMEOUT);
    } else if t.candidates != [] {
      UnaskedTick(w, cache, t, TickRun(t, "", None));
    }
  }

  /**
   Exactly when a tick pauses: the first warning that mentions STOP or PAUSE mentions PAUSE alone. A tick
   that a warning halts, either way, takes no step at all.
   */
  lemma TickPausesExactly(w: World, cache: Cache, t: TickInput)
    ensures TickPlan(w, cache, t).outcome == Paused <==> PauseFirst(t.warnings)
    ensures !NoHalt(t.warnings) ==> TickPlan(w, cache, t).ops == []
  {
    hide Run, OpenPlan, TickWait, Scan, NoHalt, StopFirst, PauseFirst, Subject;
    ScanExactly(t.warnings);
  }

  // ----- what a tick writes to the log

  /** The steps log nothing but openings and answers of gates. */
  predicate GateWork(ops: seq<Op>) {
    forall i :: 0 <= i < |ops| && ops[i].Append? ==> !Free(ops[i].entry)
  }

  lemma ResolveGateWork(w: World, cache: Cache, r: Request)
    ensures GateWork(ResolvePlan(w, cache, r).ops)
  {}

  lemma VisitGateWork(w: World, v: Visit)
    ensures GateWork(VisitPlan(w, v))
  {
    match v.caller
    case OtherDaemon(request) => ResolveGateWork(w, None, request);
    case App(g, option) => AppOutcome(w, g, option);
  }

  lemma {:induction false} OthersGateWork(w: World, others: seq<Visit>)
    ensures GateWork(OthersPlan(w, others))
    decreases |others|
  {
    hide VisitPlan, Run;
    if others != [] {
      VisitGateWork(w, others[0]);
      OthersGateWork(Run(w, VisitPlan(w, others[0])), others[1..]);
    }
  }

  lemma {:induction false} WaitGateWork(w: World, cache: Cache, g: GateId, role: string, env: int -> Round,
                                        clock: int, deadline: int)
    ensures GateWork(WaitPlan(w, cache, g, role, env, clock, deadline).ops)
    decreases deadline - clock
  {
    hide Run, OthersPlan, ResolvePlan, ReadResolved, FirstDecision;
    if clock < deadline {
      OthersGateWork(w, env(clock).others);
      var w1 := Run(w, OthersPlan(w, env(clock).others));
      var d := FirstDecision(env(clock).messages, g);
      ResolveGateWork(w1, cache, Request(g, d, "telegram", role));
      var e := PollPlan(w1, cache, g, role, env(clock));
      WaitGateWork(Run(w1, e.ops), e.cache, g, role, env, clock + SLEEP + env(clock).delay, deadline);
    }
  }

  /** Nothing, or the principal's approval in this tick, stands between the tick and running the agent. */
  ghost predicate Cleared(w: World, cache: Cache, t: TickInput) {
    RunsUnasked(t) || (AsksPrincipal(t) && TickHears(w, cache, t, Approve))
  }

  /** The entry is about the role of the tick and its first candidate. */
  predicate OnCandidate(t: TickInput, role: string, subject: string)
    requires t.candidates != []
  {
    role == t.role && subject == Subject(t.candidates[0])
  }

  predicate OnAsked(w: World, t: TickInput, gate: GateId, role: string)
    requires t.candidates != []
  {
    role == t.role && gate == Asked(w, t).gate
  }

  /** What a tick with a candidate logs, apart from openings and answers of gates. */
  ghost predicate Logs(w: World, cache: Cache, t: TickInput, entry: Entry)
    requires t.candidates != [] && Free(entry)
  {
    match entry
    case WorkDiscovered(role, subject) => OnCandidate(t, role, subject) && NoHalt(t.warnings)
    case DispatchRefused(role, subject) =>
      && OnCandidate(t, role, subject) && NoHalt(t.warnings)
      && !t.auth.allowed && (t.auth.requiredApproval == "principal" ==> t.auth.terminal)
    case AutoApproved(role, subject) => OnCandidate(t, role, subject) && RunsUnasked(t)
    case QueuedForPrincipal(gate, role) =>
      OnAsked(w, t, gate, role) && Proceeds(t) && t.unattended && !t.auth.allowed
    case GateApproved(gate, role) =>
      OnAsked(w, t, gate, role) && AsksPrincipal(t) && TickHears(w, cache, t, Approve)
    case ClosedWithoutExecution(gate, role, Some(option)) =>
      OnAsked(w, t, gate, role) && AsksPrincipal(t) && option != Approve && TickHears(w, cache, t, option)
    case ClosedWithoutExecution(gate, role, None) =>
      OnAsked(w, t, gate, role) && AsksPrincipal(t) && TickWait(AskedWorld(w, t), cache, t, gate).result == TimedOut
    case TaskClaimed(role, subject) => OnCandidate(t, role, subject) && Cleared(w, cache, t) && t.claim == Claimed
    case ApprovedWithoutClaim(role, subject) =>
      OnCandidate(t, role, subject) && Cleared(w, cache, t) && t.claim == NothingToClaim
    case ClaimFailed(role, subject) => OnCandidate(t, role, subject) && Cleared(w, cache, t) && t.claim == ClaimRaised
    case TaskEnded(role, subject, success) =>
      && OnCandidate(t, role, subject) && Cleared(w, cache, t)
      && t.claim != ClaimRaised && t.aftermath == Recorded(success)
  }

  lemma DispatchLogs(t: TickInput, subject: string, gate: Option<GateId>, entry: Entry)
    ensures Append(entry) in DispatchPlan(t, subject, gate).0 <==>
            match entry
            case TaskClaimed(r, s) => r == t.role && s == subject && t.claim == Claimed
            case ApprovedWithoutClaim(r, s) => r == t.role && s == subject && t.claim == NothingToClaim
            case ClaimFailed(r, s) => r == t.role && s == subject && t.claim == ClaimRaised
            case TaskEnded(r, s, success) =>
              r == t.role && s == subject && t.claim != ClaimRaised && t.aftermath == Recorded(success)
            case _ => false
  {
    var ops := DispatchPlan(t, subject, gate).0;
    if t.claim == ClaimRaised {
      assert ops[0] == Append(ClaimFailed(t.role, subject));
    } else {
      assert ops[0].Append? && ops[1].Execute?;
      if t.aftermath.Recorded? {
        assert ops[2] == Append(TaskEnded(t.role, subject, t.aftermath.success));
      }
    }
  }

  lemma ConcludeLogs(t: TickInput, subject: string, gate: GateId, result: WaitResult, entry: Entry)
    ensures Append(entry) in ConcludePlan(t, subject, gate, result).0 <==>
            match result
            case WaitRaised => false
            case TimedOut => entry == ClosedWithoutExecution(gate, t.role, None)
            case Chosen(option) =>
              if option == Approve then
                || entry == GateApproved(gate, t.role)
                || Append(entry) in DispatchPlan(t, subject, Some(gate)).0
              else entry == ClosedWithoutExecution(gate, t.role, Some(option))
  {
    hide DispatchPlan;
  }

  lemma GateWorkLogs(ops: seq<Op>, entry: Entry)
    requires GateWork(ops) && Free(entry)
    ensures Append(entry) !in ops
  {}

  lemma AskingTickLogs(w: World, cache: Cache, t: TickInput, entry: Entry)
    requires Inv(w) && Feasible(w, t) && t.candidates != [] && AsksPrincipal(t) && Free(entry)
    ensures Append(entry) in TickPlan(w, cache, t).ops <==> Logs(w, cache, t, entry)
  {
    hide Inv, Feasible, TickHears, Proceeds, OpenPlan, AskedWorld, WaitPlan, ConcludePlan, TickPlan, Subject, Run,
      DispatchPlan, NoExecute;
    var g, subject := Asked(w, t).gate, Subject(t.candidates[0]);
    var wt := TickWait(AskedWorld(w, t), cache, t, g);
    AskingTick(w, cache, t);
    OpenGateWork(Run(w, Discovery(t)), t.listing, t.role, subject, t.hex);
    WaitGateWork(AskedWorld(w, t), cache, g, t.role, t.env, t.now, t.now + PROPOSAL_TIMEOUT);
    GateWorkLogs(Asked(w, t).ops + wt.ops, entry);
    ConcludeLogs(t, subject, g, wt.result, entry);
    DispatchLogs(t, subject, Some(g), entry);
    TickWaitEnds(w, cache, t, Approve, t.now + PROPOSAL_TIMEOUT);
    TickWaitEnds(w, cache, t, Skip, t.now + PROPOSAL_TIMEOUT);
    TickWaitEnds(w, cache, t, Stop, t.now + PROPOSAL_TIMEOUT);
    ProceedsShape(t);
  }

  lemma ProceedsShape(t: TickInput)
    requires Proceeds(t)
    ensures NoHalt(t.warnings)
    ensures t.auth.allowed || (t.auth.requiredApproval == "principal" && !t.auth.terminal)
  {}

  lemma OpenGateWork(w: World, listing: seq<GateId>, role: string, subject: string, hex: string)
    ensures GateWork(OpenPlan(w, listing, role, subject, hex).ops)
  {}

  lemma UnaskedTickLogs(w: World, cache: Cache, t: TickInput, entry: Entry)
    requires Inv(w) && Feasible(w, t) && t.candidates != [] && !AsksPrincipal(t) && Free(entry)
    ensures Append(entry) in TickPlan(w, cache, t).ops <==> Logs(w, cache, t, entry)
  {
    hide Inv, Run, Feasible, OpenPlan, Scan, Subject, NoHalt, StopFirst, PauseFirst, TickHears, DispatchPlan;
    ScanExactly(t.warnings);
    var subject := Subject(t.candidates[0]);
    var ops := TickPlan(w, cache, t).ops;
    DispatchLogs(t, subject, None, entry);
    OpenGateWork(Run(w, Discovery(t)), t.listing, t.role, subject, t.hex);
    GateWorkLogs(Asked(w, t).ops, entry);
    if NoHalt(t.warnings) {
      assert ops[0] == Append(WorkDiscovered(t.role, subject));
      if RunsUnasked(t) {
        assert ops == Discovery(t) + ([Append(AutoApproved(t.role, subject))] + DispatchPlan(t, subject, None).0);
      } else if Proceeds(t) {
        assert ops == Discovery(t) + (Asked(w, t).ops + [Append(QueuedForPrincipal(Asked(w, t).gate, t.role))]);
      }
    }
  }

  /**
   The log of a tick tells exactly what happened: each kind of entry is written under its own condition
   and no other.
   */
  lemma TickLogsExactly(w: World, cache: Cache, t: TickInput, entry: Entry)
    requires Inv(w) && Feasible(w, t) && t.candidates != [] && Free(entry)
    ensures Append(entry) in TickPlan(w, cache, t).ops <==> Logs(w, cache, t, entry)
  {
    hide Inv, Feasible, TickPlan, Logs, Proceeds;
    if AsksPrincipal(t) {
      AskingTickLogs(w, cache, t, entry);
    } else {
      UnaskedTickLogs(w, cache, t, entry);
    }
  }

  // ----- what a tick is about

  /** Two candidates without a goal are the same matter exactly if their intents agree on the first 80 characters. */
  lemma SubjectExactly(a: Candidate, b: Candidate)
    ensures a.goalId != "" ==> Subject(a) == a.goalId
    ensures a.goalId == "" ==>
              Subject(a) <= a.intent && (|Subject(a)| == 80 || (|a.intent| <= 80 && Subject(a) == a.intent))
    ensures a.goalId == "" && b.goalId == "" ==>
              (Subject(a) == Subject(b)
               <==> a.intent == b.intent || (|a.intent| >= 80 && |b.intent| >= 80 && a.intent[..80] == b.intent[..80]))
  {
    assert |a.intent| == 80 ==> a.intent[..80] == a.intent;
    assert |b.intent| == 80 ==> b.intent[..80] == b.intent;
  }

  // ----- which ticks raise

  lemma ConcludeRaises(t: TickInput, subject: string, gate: GateId, result: WaitResult)
    ensures ConcludePlan(t, subject, gate, result).1 == Raised
            <==> || result.WaitRaised?
                 || (result == Chosen(Approve) && t.claim != ClaimRaised && t.aftermath.AftermathRaised?)
  {}

  /**
   Exactly when a tick ends in an exception: the agent runtime raised, or the wait did.
   */
  lemma TickRaisesExactly(w: World, cache: Cache, t: TickInput)
    requires Inv(w) && Feasible(w, t) && t.candidates != []
    ensures TickPlan(w, cache, t).outcome == Raised
            <==> || (Cleared(w, cache, t) && t.claim != ClaimRaised && t.aftermath.AftermathRaised?)
                 || (AsksPrincipal(t) && TickWait(AskedWorld(w, t), cache, t, Asked(w, t).gate).result == WaitRaised)
  {
    hide Inv, Feasible, TickHears, NoHalt, StopFirst, PauseFirst, Asked, AskedWorld, TickWait, Scan, Subject,
      ConcludePlan;
    ScanExactly(t.warnings);
    var subject := Subject(t.candidates[0]);
    if AsksPrincipal(t) {
      var wt := TickWait(AskedWorld(w, t), cache, t, Asked(w, t).gate);
      AskingTick(w, cache, t);
      ConcludeRaises(t, subject, Asked(w, t).gate, wt.result);
      TickWaitEnds(w, cache, t, Approve, t.now + PROPOSAL_TIMEOUT);
    }
  }

  // ----- how long a tick waits

  /**
   The wait of a tick lasts half an hour: no pass after the 360th counts, and just so many are made when
   nothing delays them.
   */
  lemma TickPasses(w: World, cache: Cache, t: TickInput, option: Verdict)
    requires t.candidates != []
    ensures TickHears(w, cache, t, option) ==> FoundInTime(w, cache, t, option)
    ensures Undelayed(t.env) && FoundInTime(w, cache, t, option) ==> TickHears(w, cache, t, option)
  {
    hide Asked, AskedWorld, PassAfter, Finds, Undelayed;
    var p, g, deadline := Pass(AskedWorld(w, t), cache, t.now), Asked(w, t).gate, t.now + PROPOSAL_TIMEOUT;
    if n: nat :| FindsAt(p, g, t.role, t.env, deadline, option, n) {
      PassClock(p, g, t.role, t.env, n);
      assert Finds(PassAfter(p, g, t.role, t.env, n), g, t.env) == Some(option);
    }
    if n: nat :| n < 360 && Finds(PassAfter(p, g, t.role, t.env, n), g, t.env) == Some(option) {
      PassClock(p, g, t.role, t.env, n);
      if Undelayed(t.env) {
        assert FindsAt(p, g, t.role, t.env, deadline, option, n);
        assert SomePassFinds(p, g, t.role, t.env, deadline, option);
      }
    }
  }

  /** One of the first 360 passes of the tick's wait finds the option. */
  ghost predicate FoundInTime(w: World, cache: Cache, t: TickInput, option: Verdict)
    requires t.candidates != []
  {
    var p, g := Pass(AskedWorld(w, t), cache, t.now), Asked(w, t).gate;
    exists n: nat :: n < 360 && Finds(PassAfter(p, g, t.role, t.env, n), g, t.env) == Some(option)
  }
}
