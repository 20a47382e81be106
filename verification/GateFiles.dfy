/**
 The approval-gate directory of the agent daemon as a state machine over single disk steps.

 A gate file `pending/<id>.json` is resolved by writing `resolved/<id>.json.tmp`, moving it over
 `resolved/<id>.json` and renaming the pending file to `pending/<id>.json.handled`. Moves are atomic;
 a plain write is not, so it appears here as two steps, the first of which leaves a torn file.
 The process can die between any two steps.
 */
module GateFiles {
  import opened Text

  type GateId = string

  datatype Verdict = Approve | Skip | Stop

  /** A text field that may hold an option: absent, one of the three words in any case, or something else. */
  datatype Field = Missing | Known(option: Verdict) | Unknown

  /** `Open` is the exact text "pending"; `Closed` is "resolved" in any case. */
  datatype Status = Open | Closed | OtherStatus

  datatype GateDoc = GateDoc(
    gateId: string,        // "" when the field is missing
    owner: string,
    subject: string,
    status: Status,
    options: seq<Field>,   // the ids of the offered options
    chosen: Field,         // resolution.chosen_option
    verdict: Field
  )

  /** What reading a gate file yields. */
  datatype Content = Torn | NotObject | Doc(doc: GateDoc)

  /** The transition-log entries the daemon appends. */
  datatype Entry =
    | WorkDiscovered(role: string, subject: string)
    | DispatchRefused(role: string, subject: string)
    | AutoApproved(role: string, subject: string)
    | GateOpened(gate: GateId, role: string)
    | GateResolved(gate: GateId, role: string, surface: string, answer: Field)
    | QueuedForPrincipal(gate: GateId, role: string)
    | ClosedWithoutExecution(gate: GateId, role: string, chosen: Option<Verdict>)
    | GateApproved(gate: GateId, role: string)
    | TaskClaimed(role: string, subject: string)
    | ApprovedWithoutClaim(role: string, subject: string)
    | ClaimFailed(role: string, subject: string)
    | TaskEnded(role: string, subject: string, success: bool)

  /** One run of the agent runtime, and the gate that approved it, if any. */
  datatype Execution = Execution(role: string, subject: string, gate: Option<GateId>)

  datatype World = World(
    pending: map<GateId, Content>,
    handled: map<GateId, Content>,
    tmp: map<GateId, Content>,
    resolved: map<GateId, Content>,
    log: seq<Entry>,
    executions: seq<Execution>,
    publishing: Option<GateId>   // not on disk: the answer that the running operation has published but not retired
  )

  const EMPTY_WORLD := World(map[], map[], map[], map[], [], [], None)

  datatype Op =
    | TearPending(g: GateId)
    | FillPending(g: GateId, doc: GateDoc)
    | TearTmp(g: GateId)
    | FillTmp(g: GateId, doc: GateDoc)
    | PublishTmp(g: GateId)
    | RetirePending(g: GateId)
    | Append(entry: Entry)
    | Execute(run: Execution)
    | Perish                       // the acting process dies: nothing on disk changes

  function Apply(w: World, op: Op): World {
    match op
    case TearPending(g) => w.(pending := w.pending[g := Torn])
    case FillPending(g, doc) => w.(pending := w.pending[g := Doc(doc)])
    case TearTmp(g) => w.(tmp := w.tmp[g := Torn])
    case FillTmp(g, doc) => w.(tmp := w.tmp[g := Doc(doc)])
    case PublishTmp(g) =>
      if g in w.tmp then w.(resolved := w.resolved[g := w.tmp[g]], tmp := w.tmp - {g}, publishing := Some(g)) else w
    case RetirePending(g) =>
      if g in w.pending then
        w.(handled := w.handled[g := w.pending[g]], pending := w.pending - {g}, publishing := None)
      else w
    case Append(entry) => w.(log := w.log + [entry])
    case Execute(run) => w.(executions := w.executions + [run])
    case Perish => w.(publishing := None)
  }

  /** The world after a sequence of steps; a crash leaves the world after a prefix of one. */
  function Run(w: World, ops: seq<Op>): World {
    if ops == [] then w else Apply(Run(w, ops[..|ops| - 1]), ops[|ops| - 1])
  }

  lemma RunNone(w: World)
    ensures Run(w, []) == w
  {}

  lemma RunOne(w: World, op: Op)
    ensures Run(w, [op]) == Apply(w, op)
  {
    assert [] + [op] == [op];
    RunSnoc(w, [], op);
  }

  lemma RunSnoc(w: World, ops: seq<Op>, op: Op)
    ensures Run(w, ops + [op]) == Apply(Run(w, ops), op)
  {
    assert (ops + [op])[..|ops|] == ops;
  }

  lemma {:induction false} RunConcat(w: World, a: seq<Op>, b: seq<Op>)
    ensures Run(w, a + b) == Run(Run(w, a), b)
  {
    if b == [] {
      assert a + b == a;
    } else {
      var b' := b[..|b| - 1];
      assert a + b == (a + b') + [b[|b| - 1]];
      RunConcat(w, a, b');
      RunSnoc(w, a + b', b[|b| - 1]);
    }
  }

  // ----- documents

  function PendingDoc(g: GateId, role: string, subject: string): GateDoc {
    GateDoc(g, role, subject, Open, [Known(Approve), Known(Skip), Known(Stop)], Missing, Missing)
  }

  /** `doc` is the pending document of gate `g` as the daemon opens it. */
  predicate IsPendingDoc(g: GateId, doc: GateDoc) {
    g != "" && doc == PendingDoc(g, doc.owner, doc.subject)
  }

  /** A gate's document with an answer in it. */
  function AnsweredDoc(doc: GateDoc, chosen: Field): GateDoc {
    doc.(status := Closed, chosen := chosen)
  }

  function ResolvedDoc(g: GateId, doc: GateDoc, option: Verdict): GateDoc {
    AnsweredDoc(doc.(gateId := g), Known(option))
  }

  /** Nothing but the answer distinguishes the document from the question as the daemon opens it. */
  predicate IsResolvedDoc(g: GateId, doc: GateDoc) {
    doc.chosen != Missing && doc == AnsweredDoc(PendingDoc(g, doc.owner, doc.subject), doc.chosen)
  }

  /** The option a resolved file stands for, or None when the reader rejects the file. */
  function ReadResolved(w: World, g: GateId): Option<Verdict> {
    if g !in w.resolved || !w.resolved[g].Doc? then None
    else
      var doc := w.resolved[g].doc;
      var chosen := if doc.chosen != Missing then doc.chosen else doc.verdict;
      if doc.gateId == g && doc.status == Closed && chosen.Known? then Some(chosen.option) else None
  }

  predicate IsGateIdChar(c: char) {
    'A' <= c <= 'Z' || 'a' <= c <= 'z' || '0' <= c <= '9' || c == '_' || c == '.' || c == ':' || c == '-'
  }

  /** The ids that a resolver accepts. */
  predicate ValidGateId(g: GateId) {
    g != "" && forall c :: c in g ==> IsGateIdChar(c)
  }

  /** What makes a resolved file stand for an option: its own fields, and `verdict` only where no option is chosen. */
  lemma ReadExactly(w: World, g: GateId, option: Verdict)
    ensures ReadResolved(w, g) == Some(option) <==>
            && g in w.resolved && w.resolved[g].Doc?
            && w.resolved[g].doc.gateId == g && w.resolved[g].doc.status == Closed
            && (w.resolved[g].doc.chosen == Known(option)
                || (w.resolved[g].doc.chosen == Missing && w.resolved[g].doc.verdict == Known(option)))
  {}

  /** The characters of valid ids, one by one: letters, digits, and four more. */
  lemma IdCharTable(c: char, i: nat)
    ensures var large, small := "ABCDEFGHIJKLMNOPQRSTUVWXYZ", "abcdefghijklmnopqrstuvwxyz";
            && (i < 26 ==> IsGateIdChar(large[i]) && IsGateIdChar(small[i]))
            && (i < 10 ==> IsGateIdChar("0123456789"[i]))
            && IsGateIdChar('_') && IsGateIdChar('.') && IsGateIdChar(':') && IsGateIdChar('-')
            && (IsGateIdChar(c) ==>
                  c in large || c in small || c in "0123456789" || c == '_' || c == '.' || c == ':' || c == '-')
  {
    var large, small := "ABCDEFGHIJKLMNOPQRSTUVWXYZ", "abcdefghijklmnopqrstuvwxyz";
    assert 'A' <= c <= 'Z' ==> large[c as int - 'A' as int] == c;
    assert 'a' <= c <= 'z' ==> small[c as int - 'a' as int] == c;
    assert '0' <= c <= '9' ==> "0123456789"[c as int - '0' as int] == c;
  }

  // ----- the invariant

  /** An unanswered question to the principal about this role and subject. */
  predicate OpenFor(w: World, g: GateId, role: string, subject: string) {
    g in w.pending && w.pending[g].Doc? && w.pending[g].doc.owner == role && w.pending[g].doc.subject == subject
  }

  /** The gate was opened: its pending file was written completely, or it has an answer by now. */
  predicate Opened(w: World, g: GateId) {
    (g in w.pending && w.pending[g].Doc?) || g in w.resolved
  }

  /** The gate has an answer but its question is still listed as pending. */
  predicate Stale(w: World, g: GateId) {
    g in w.pending && g in w.resolved
  }

  predicate SameMatter(a: Content, b: Content) {
    a.Doc? && b.Doc? && a.doc.owner == b.doc.owner && a.doc.subject == b.doc.subject
  }

  /** What the pending directory's `proposal_*.json` pattern matches. */
  predicate IsProposal(g: GateId) {
    "proposal_" <= g
  }

  /** The answer on disk is `chosen`. */
  predicate Answers(w: World, g: GateId, chosen: Field) {
    g in w.resolved && w.resolved[g].Doc? && w.resolved[g].doc.chosen == chosen
  }

  ghost predicate FilesInv(w: World) {
    && (forall g :: g in w.pending ==> IsProposal(g))
    && (forall g :: g in w.pending ==> w.pending[g] == Torn || (w.pending[g].Doc? && IsPendingDoc(g, w.pending[g].doc)))
    && (forall g :: g in w.resolved ==> ValidGateId(g) && w.resolved[g].Doc? && IsResolvedDoc(g, w.resolved[g].doc))
    && (forall g :: g in w.handled ==> g !in w.pending && g in w.resolved)
    && (forall g :: g in w.resolved ==> g in w.handled || (g in w.pending && SameMatter(w.pending[g], w.resolved[g])))
  }

  ghost predicate UniqueInv(w: World) {
    forall g, h, role, subject :: OpenFor(w, g, role, subject) && OpenFor(w, h, role, subject) ==> g == h
  }

  ghost predicate LogInv(w: World) {
    && (forall i :: 0 <= i < |w.log| && w.log[i].GateOpened? ==> Opened(w, w.log[i].gate))
    && (forall i :: 0 <= i < |w.log| && w.log[i].GateResolved? ==>
          w.log[i].gate in w.handled && Answers(w, w.log[i].gate, w.log[i].answer))
    && (forall i, j :: 0 <= i < j < |w.log| && w.log[i].GateResolved? && w.log[j].GateResolved? ==>
          w.log[i].gate != w.log[j].gate)
  }

  /** The execution rests on an answer "approve" to the question about its own role and subject. */
  predicate Backed(w: World, run: Execution) {
    run.gate.Some? ==>
      var g := run.gate.value;
      && g in w.resolved && w.resolved[g].Doc?
      && w.resolved[g].doc.chosen == Known(Approve)
      && w.resolved[g].doc.owner == run.role && w.resolved[g].doc.subject == run.subject
  }

  predicate RestsOn(w: World, g: GateId) {
    exists i :: 0 <= i < |w.executions| && w.executions[i].gate == Some(g)
  }

  predicate SameGate(a: Execution, b: Execution) {
    a.gate.Some? && a.gate == b.gate
  }

  ghost predicate ExecInv(w: World) {
    && (forall i :: 0 <= i < |w.executions| ==> Backed(w, w.executions[i]))
    && (forall i, j :: 0 <= i < j < |w.executions| && SameGate(w.executions[i], w.executions[j]) ==>
          w.executions[i].gate.value in w.pending)
  }

  ghost predicate Inv(w: World) {
    FilesInv(w) && UniqueInv(w) && LogInv(w) && ExecInv(w)
  }

  // ----- the discipline every step of the daemon obeys

  predicate Allowed(w: World, op: Op) {
    match op
    case TearPending(g) => IsProposal(g) && g !in w.pending && g !in w.handled && g !in w.resolved
    case FillPending(g, doc) =>
      && g in w.pending && w.pending[g] == Torn && g !in w.resolved && IsPendingDoc(g, doc)
      && forall h :: h in w.pending ==> !OpenFor(w, h, doc.owner, doc.subject)
    case TearTmp(g) => true
    case FillTmp(g, doc) => true
    case PublishTmp(g) =>
      && ValidGateId(g) && g in w.tmp && g !in w.resolved && w.tmp[g].Doc? && IsResolvedDoc(g, w.tmp[g].doc)
      && g in w.pending && SameMatter(w.pending[g], w.tmp[g])
    case RetirePending(g) => g in w.pending && g in w.resolved && w.publishing == Some(g) && !RestsOn(w, g)
    case Append(GateOpened(g, _)) => Opened(w, g)
    case Append(GateResolved(g, _, _, answer)) =>
      && g in w.handled && Answers(w, g, answer)
      && forall i :: 0 <= i < |w.log| ==> !(w.log[i].GateResolved? && w.log[i].gate == g)
    case Append(_) => true
    case Execute(run) =>
      && Backed(w, run)
      && (run.gate.Some? && RestsOn(w, run.gate.value) ==> run.gate.value in w.pending)
    case Perish => true
  }

  /** Every step is allowed in the world its predecessors leave. */
  predicate AllowedAll(w: World, ops: seq<Op>) {
    forall k :: 0 <= k < |ops| ==> Allowed(Run(w, ops[..k]), ops[k])
  }

  lemma FilesKept(w: World, op: Op)
    requires FilesInv(w) && Allowed(w, op)
    ensures FilesInv(Apply(w, op))
  {
    hide IsPendingDoc, IsResolvedDoc, ValidGateId, IsProposal, RestsOn, Backed, Answers;
  }

  lemma UniqueKept(w: World, op: Op)
    requires Inv(w) && Allowed(w, op)
    ensures UniqueInv(Apply(w, op))
  {
    var w' := Apply(w, op);
    forall g, h, role, subject | OpenFor(w', g, role, subject) && OpenFor(w', h, role, subject) ensures g == h {
      if !op.FillPending? {
        assert OpenFor(w, g, role, subject) && OpenFor(w, h, role, subject);
      } else {
        assert g == op.g || OpenFor(w, g, role, subject);
        assert h == op.g || OpenFor(w, h, role, subject);
      }
    }
  }

  lemma OpenedKept(w: World, op: Op, g: GateId)
    requires FilesInv(w) && Allowed(w, op) && Opened(w, g)
    ensures Opened(Apply(w, op), g)
  {}

  lemma HandledKept(w: World, op: Op, g: GateId)
    requires FilesInv(w) && Allowed(w, op) && g in w.handled
    ensures g in Apply(w, op).handled && g in Apply(w, op).resolved && Apply(w, op).resolved[g] == w.resolved[g]
  {}

  lemma LogKeptByAppend(w: World, entry: Entry)
    requires LogInv(w) && Allowed(w, Append(entry))
    ensures LogInv(Apply(w, Append(entry)))
  {
    var w' := Apply(w, Append(entry));
    assert w'.log == w.log + [entry];
    assert forall g :: Opened(w', g) <==> Opened(w, g);
    assert forall g, answer :: Answers(w', g, answer) <==> Answers(w, g, answer);
    hide Opened, Answers;
  }

  lemma LogAndExecutions(w: World, op: Op)
    ensures !op.Append? ==> Apply(w, op).log == w.log
    ensures !op.Execute? ==> Apply(w, op).executions == w.executions
  {}

  lemma LogKeptByOthers(w: World, op: Op)
    requires FilesInv(w) && LogInv(w) && Allowed(w, op) && !op.Append?
    ensures LogInv(Apply(w, op))
  {
    hide FilesInv, Opened, Allowed, Apply;
    LogAndExecutions(w, op);
    forall g | Opened(w, g) { OpenedKept(w, op, g); }
    forall g | g in w.handled { HandledKept(w, op, g); }
  }

  lemma LogKept(w: World, op: Op)
    requires FilesInv(w) && LogInv(w) && Allowed(w, op)
    ensures LogInv(Apply(w, op))
  {
    hide FilesInv, LogInv, Allowed, Apply;
    if op.Append? {
      LogKeptByAppend(w, op.entry);
    } else {
      LogKeptByOthers(w, op);
    }
  }

  lemma BackedKept(w: World, op: Op, run: Execution)
    requires FilesInv(w) && Allowed(w, op) && Backed(w, run)
    ensures Backed(Apply(w, op), run)
  {
    hide FilesInv, IsResolvedDoc, ValidGateId, RestsOn, Answers;
  }

  lemma ExecKeptByExecute(w: World, run: Execution)
    requires ExecInv(w) && Allowed(w, Execute(run))
    ensures ExecInv(Apply(w, Execute(run)))
  {
    var w' := Apply(w, Execute(run));
    var n := |w.executions|;
    assert w'.executions == w.executions + [run];
    assert forall r :: Backed(w', r) <==> Backed(w, r);
    hide Backed;
    forall i, j | 0 <= i < j < |w'.executions| && SameGate(w'.executions[i], w'.executions[j])
      ensures w'.executions[i].gate.value in w'.pending
    {
      if j == n {
        assert w.executions[i] == w'.executions[i];
        assert RestsOn(w, run.gate.value);
      }
    }
  }

  lemma UsedStays(w: World, op: Op, g: GateId)
    requires Allowed(w, op) && RestsOn(w, g) && g in w.pending
    ensures g in Apply(w, op).pending
  {}

  lemma ExecKeptByOthers(w: World, op: Op)
    requires FilesInv(w) && ExecInv(w) && Allowed(w, op) && !op.Execute?
    ensures ExecInv(Apply(w, op))
  {
    hide FilesInv, Backed, Allowed, Apply;
    LogAndExecutions(w, op);
    forall run | Backed(w, run) { BackedKept(w, op, run); }
    forall i, j | 0 <= i < j < |w.executions| && SameGate(w.executions[i], w.executions[j])
      ensures w.executions[i].gate.value in Apply(w, op).pending
    {
      assert RestsOn(w, w.executions[i].gate.value);
      UsedStays(w, op, w.executions[i].gate.value);
    }
  }

  lemma ExecKept(w: World, op: Op)
    requires FilesInv(w) && ExecInv(w) && Allowed(w, op)
    ensures ExecInv(Apply(w, op))
  {
    hide FilesInv, ExecInv, Allowed, Apply;
    if op.Execute? {
      ExecKeptByExecute(w, op.run);
    } else {
      ExecKeptByOthers(w, op);
    }
  }

  /** One allowed step keeps the whole invariant. */
  lemma StepKeepsInv(w: World, op: Op)
    requires Inv(w) && Allowed(w, op)
    ensures Inv(Apply(w, op))
  {
    hide FilesInv, UniqueInv, LogInv, ExecInv, Allowed, Apply;
    FilesKept(w, op);
    UniqueKept(w, op);
    LogKept(w, op);
    ExecKept(w, op);
  }

  lemma AllowedPrefix(w: World, ops: seq<Op>, k: nat)
    requires k <= |ops| && AllowedAll(w, ops)
    ensures AllowedAll(w, ops[..k])
  {
    forall j | 0 <= j < k ensures Allowed(Run(w, ops[..k][..j]), ops[..k][j]) {
      assert ops[..k][..j] == ops[..j];
    }
  }

  /** Wherever a sequence of allowed steps is cut off, the invariant holds. */
  lemma {:induction false} PrefixKeepsInv(w: World, ops: seq<Op>, k: nat)
    requires Inv(w) && AllowedAll(w, ops) && k <= |ops|
    ensures Inv(Run(w, ops[..k]))
  {
    if k > 0 {
      PrefixKeepsInv(w, ops, k - 1);
      assert ops[..k] == ops[..k - 1] + [ops[k - 1]];
      RunSnoc(w, ops[..k - 1], ops[k - 1]);
      StepKeepsInv(Run(w, ops[..k - 1]), ops[k - 1]);
    }
  }

  lemma RunKeepsInv(w: World, ops: seq<Op>)
    requires Inv(w) && AllowedAll(w, ops)
    ensures Inv(Run(w, ops))
  {
    PrefixKeepsInv(w, ops, |ops|);
    assert ops[..|ops|] == ops;
  }

  lemma AllowedConcat(w: World, a: seq<Op>, b: seq<Op>)
    requires AllowedAll(w, a) && AllowedAll(Run(w, a), b)
    ensures AllowedAll(w, a + b)
  {
    forall k | 0 <= k < |a + b| ensures Allowed(Run(w, (a + b)[..k]), (a + b)[k]) {
      if k < |a| {
        assert (a + b)[..k] == a[..k];
      } else {
        assert (a + b)[..k] == a + b[..k - |a|];
        RunConcat(w, a, b[..k - |a|]);
      }
    }
  }

  /** The gate's question, or its answer, is about this role and subject. */
  predicate About(w: World, g: GateId, role: string, subject: string) {
    OpenFor(w, g, role, subject)
    || (g in w.resolved && w.resolved[g].Doc? && w.resolved[g].doc.owner == role
      && w.resolved[g].doc.subject == subject)
  }

  /** A stale gate no running operation is about to retire. */
  predicate StuckStale(w: World, g: GateId) {
    Stale(w, g) && w.publishing != Some(g)
  }

  /** What later steps never undo: answers, opened gates, the log, past executions. */
  ghost predicate Grows(w: World, w': World) {
    && (forall g :: g in w.resolved ==> g in w'.resolved && w'.resolved[g] == w.resolved[g])
    && (forall g :: g in w.handled ==> g in w'.handled && w'.handled[g] == w.handled[g])
    && (forall g :: g in w.pending && w.pending[g].Doc? ==> Opened(w', g))
    && (forall g :: g in w.pending && RestsOn(w, g) ==> g in w'.pending)
    && (forall g, role, subject :: About(w, g, role, subject) ==> About(w', g, role, subject))
    && (forall g :: StuckStale(w, g) ==> StuckStale(w', g))
    && w.log <= w'.log
    && w.executions <= w'.executions
  }

  lemma StepKeepsAbout(w: World, op: Op, g: GateId, role: string, subject: string)
    requires FilesInv(w) && Allowed(w, op) && About(w, g, role, subject)
    ensures About(Apply(w, op), g, role, subject)
  {
    hide IsPendingDoc, IsResolvedDoc, ValidGateId, IsProposal, RestsOn, Backed, Answers;
  }

  lemma StepKeepsOpened(w: World, op: Op, g: GateId)
    requires Inv(w) && Allowed(w, op) && g in w.pending && w.pending[g].Doc?
    ensures Opened(Apply(w, op), g)
  {}

  lemma StepKeepsFiles(w: World, op: Op, g: GateId)
    requires FilesInv(w) && Allowed(w, op)
    ensures var w' := Apply(w, op);
            && (g in w.resolved ==> g in w'.resolved && w'.resolved[g] == w.resolved[g])
            && (g in w.handled ==> g in w'.handled && w'.handled[g] == w.handled[g])
            && (g in w.pending && RestsOn(w, g) ==> g in w'.pending)
  {
    hide IsPendingDoc, IsResolvedDoc, ValidGateId, IsProposal, RestsOn, Backed, Answers;
  }

  lemma StepKeepsStale(w: World, op: Op, g: GateId)
    requires Inv(w) && Allowed(w, op) && StuckStale(w, g)
    ensures StuckStale(Apply(w, op), g)
  {}

  lemma StepGrows(w: World, op: Op)
    requires Inv(w) && Allowed(w, op)
    ensures Grows(w, Apply(w, op))
  {
    var w' := Apply(w, op);
    forall g { StepKeepsFiles(w, op, g); }
    forall g | g in w.pending && w.pending[g].Doc? { StepKeepsOpened(w, op, g); }
    forall g | StuckStale(w, g) { StepKeepsStale(w, op, g); }
    forall g, role, subject | About(w, g, role, subject) { StepKeepsAbout(w, op, g, role, subject); }
  }

  lemma GrowsTransitive(a: World, b: World, c: World)
    requires Grows(a, b) && Grows(b, c)
    ensures Grows(a, c)
  {
    forall g | g in a.pending && RestsOn(a, g) ensures g in c.pending {
      var i :| 0 <= i < |a.executions| && a.executions[i].gate == Some(g);
      assert b.executions[i] == a.executions[i];
    }
  }

  lemma {:induction false} RunGrows(w: World, ops: seq<Op>)
    requires Inv(w) && AllowedAll(w, ops)
    ensures Grows(w, Run(w, ops))
  {
    if ops != [] {
      var n := |ops| - 1;
      AllowedPrefix(w, ops, n);
      RunGrows(w, ops[..n]);
      PrefixKeepsInv(w, ops, n);
      StepGrows(Run(w, ops[..n]), ops[n]);
      GrowsTransitive(w, Run(w, ops[..n]), Run(w, ops));
    }
  }

  predicate NoExecute(ops: seq<Op>) {
    forall i :: 0 <= i < |ops| ==> !ops[i].Execute?
  }

  lemma LastExecution(w: World, ops: seq<Op>)
    requires ops != []
    ensures var last := ops[|ops| - 1];
            Run(w, ops).executions == Run(w, ops[..|ops| - 1]).executions + if last.Execute? then [last.run] else []
  {}

  lemma {:induction false} NoExecuteKeepsExecutions(w: World, ops: seq<Op>)
    requires NoExecute(ops)
    ensures Run(w, ops).executions == w.executions
  {
    RunNone(w);
    if ops != [] {
      hide Run;
      LastExecution(w, ops);
      NoExecuteKeepsExecutions(w, ops[..|ops| - 1]);
    }
  }

  /** Two executions rest on one gate only while that gate is stale. */
  lemma RepeatedGatesAreStale(w: World)
    requires Inv(w)
    ensures forall i, j :: 0 <= i < j < |w.executions| && SameGate(w.executions[i], w.executions[j]) ==>
              Stale(w, w.executions[i].gate.value)
  {
    assert forall i :: 0 <= i < |w.executions| ==> Backed(w, w.executions[i]);
  }

  /** Questions and answers are separate, and all answers are handled, exactly when no gate is stale. */
  lemma SettledShape(w: World)
    requires Inv(w)
    ensures w.pending.Keys !! w.resolved.Keys <==> forall g :: !Stale(w, g)
    ensures w.handled.Keys == w.resolved.Keys <==> forall g :: !Stale(w, g)
  {
    if w.pending.Keys !! w.resolved.Keys {
      forall g ensures !Stale(w, g) {
        assert g in w.pending ==> g !in w.resolved.Keys;
      }
    }
    if w.handled.Keys == w.resolved.Keys {
      forall g ensures !Stale(w, g) {
        assert g in w.resolved ==> g in w.handled.Keys;
      }
    }
    if forall g :: !Stale(w, g) {
      forall g | g in w.resolved.Keys ensures g in w.handled.Keys {
        assert !Stale(w, g);
      }
    }
  }
}
