/**
 What the daemon does with the gate directory, as the sequence of disk steps each operation issues.
 A plan is computed from the world the operation finds; a crash carries out a prefix of it.
 */
module GatePlans {
  import opened Text
  import opened GateFiles
  import opened GateCrashes
  import opened Telegram

  /** A plan that keeps the discipline and executes nothing. */
  predicate Orderly(w: World, ops: seq<Op>) {
    AllowedAll(w, ops) && NoExecute(ops) && Paired(ops)
  }

  lemma OrderlyNothing(w: World)
    ensures Orderly(w, [])
  {}

  lemma OrderlyKeepsInv(w: World, ops: seq<Op>)
    requires Inv(w) && Orderly(w, ops)
    ensures Inv(Run(w, ops))
  {
    RunKeepsInv(w, ops);
  }

  lemma OrderlyConcat(w: World, a: seq<Op>, b: seq<Op>)
    requires Orderly(w, a) && Orderly(Run(w, a), b)
    ensures Orderly(w, a + b)
  {
    AllowedConcat(w, a, b);
    PairedConcat(a, b);
  }

  lemma OrderlyCut(w: World, ops: seq<Op>, cut: Option<nat>)
    requires Orderly(w, ops)
    ensures Orderly(w, Cut(ops, cut))
  {
    CutAllowed(w, ops, cut);
    PairedCut(ops, cut);
  }

  // ----- resolving a gate

  /** `option` is None when the text the surface passes names no option. */
  datatype Request = Request(gate: GateId, option: Option<Verdict>, surface: string, role: string)

  datatype Resolution =
    | Answered | DuplicateInMemory | AlreadyResolved
    | BadGateId | BadOption | NoPendingGate | PendingUnreadable | PendingNotObject | IdMismatch | OptionNotAllowed
  {
    /** The call raises an exception. */
    predicate Raises() {
      !Answered? && !DuplicateInMemory? && !AlreadyResolved?
    }
  }

  /** The ids resolved by this process; None stands for a resolver without that cache. */
  type Cache = Option<set<GateId>>

  const CACHE_LIMIT := 500

  datatype Effect = Effect(outcome: Resolution, ops: seq<Op>, cache: Cache)

  /** The cache after a first sighting of `g`, which empties it when it would exceed its limit. */
  function Marked(seen: set<GateId>, g: GateId): set<GateId> {
    if |seen + {g}| > CACHE_LIMIT then {} else seen + {g}
  }

  /** A gate that offers options at all accepts only those. */
  predicate Offers(doc: GateDoc, option: Verdict) {
    doc.options == [] || Known(option) in doc.options
  }

  function AnswerOps(g: GateId, doc: GateDoc, role: string, surface: string): seq<Op> {
    [TearTmp(g), FillTmp(g, doc), PublishTmp(g), RetirePending(g), Append(GateResolved(g, role, surface, doc.chosen))]
  }

  /** The part of the resolver that looks at the disk. */
  function ResolveOnDisk(w: World, r: Request, option: Verdict): (Resolution, seq<Op>) {
    var g := r.gate;
    if g in w.resolved then (AlreadyResolved, [])
    else if g !in w.pending then (NoPendingGate, [])
    else
      match w.pending[g]
      case Torn => (PendingUnreadable, [])
      case NotObject => (PendingNotObject, [])
      case Doc(doc) =>
        if doc.gateId != "" && doc.gateId != g then (IdMismatch, [])
        else if !Offers(doc, option) then (OptionNotAllowed, [])
        else (Answered, AnswerOps(g, ResolvedDoc(g, doc, option), r.role, r.surface))
  }

  function ResolvePlan(w: World, cache: Cache, r: Request): Effect {
    if !ValidGateId(r.gate) then Effect(BadGateId, [], cache)
    else if r.option.None? then Effect(BadOption, [], cache)
    else if cache.Some? && r.gate in cache.value then Effect(DuplicateInMemory, [], cache)
    else
      var (outcome, ops) := ResolveOnDisk(w, r, r.option.value);
      Effect(outcome, ops, if cache.Some? then Some(Marked(cache.value, r.gate)) else None)
  }

  /**
   What becomes of a request, told from its own fields, the files and the cache. Each outcome has its own
   condition; only an answer issues steps.
   */
  lemma ResolveExactly(w: World, cache: Cache, r: Request)
    ensures var e, g := ResolvePlan(w, cache, r), r.gate;
            var asked := ValidGateId(g) && r.option != None && !(cache.Some? && g in cache.value);
            var open := asked && g !in w.resolved;
            var readable := open && g in w.pending && w.pending[g].Doc?;
            var matching := readable && (w.pending[g].doc.gateId == "" || w.pending[g].doc.gateId == g);
            var offered := matching && (w.pending[g].doc.options == []
                                        || Known(r.option.value) in w.pending[g].doc.options);
            && (e.outcome == BadGateId <==> !ValidGateId(g))
            && (e.outcome == BadOption <==> ValidGateId(g) && r.option == None)
            && (e.outcome == DuplicateInMemory
                <==> ValidGateId(g) && r.option != None && cache.Some? && g in cache.value)
            && (e.outcome == AlreadyResolved <==> asked && g in w.resolved)
            && (e.outcome == NoPendingGate <==> open && g !in w.pending)
            && (e.outcome == PendingUnreadable <==> open && g in w.pending && w.pending[g] == Torn)
            && (e.outcome == PendingNotObject <==> open && g in w.pending && w.pending[g] == NotObject)
            && (e.outcome == IdMismatch <==> readable && !matching)
            && (e.outcome == OptionNotAllowed <==> matching && !offered)
            && (e.outcome == Answered <==> offered)
            && (e.outcome != Answered ==> e.ops == [])
            && e.cache == (if !asked || cache.None? then cache
                           else Some(if |cache.value| < 500 then cache.value + {g} else {}))
  {}

  /**
   What an answer leaves behind: the question with the answer in it, and nothing else changed in it; the
   question renamed; and one entry in the log.
   */
  lemma AnsweredOnDisk(w: World, cache: Cache, r: Request)
    requires ResolvePlan(w, cache, r).outcome.Answered?
    ensures var g, asked, option := r.gate, w.pending[r.gate].doc, r.option.value;
            var answer := GateDoc(g, asked.owner, asked.subject, Closed, asked.options, Known(option), asked.verdict);
            Run(w, ResolvePlan(w, cache, r).ops) == w.(
              resolved := w.resolved[g := Doc(answer)],
              pending := w.pending - {g},
              handled := w.handled[g := w.pending[g]],
              tmp := w.tmp - {g},
              publishing := None,
              log := w.log + [GateResolved(g, r.role, r.surface, Known(option))])
  {
    ResolveOutcome(w, cache, r);
    var doc := ResolvedDoc(r.gate, w.pending[r.gate].doc, r.option.value);
    AnswerSteps(w, r.gate, doc, r.role, r.surface, 5);
    var ops := AnswerOps(r.gate, doc, r.role, r.surface);
    assert ops[..5] == ops;
  }

  /** The app surfaces ask less: an id, any text, and a readable open gate. */
  lemma AppExactly(w: World, g: GateId, option: string)
    ensures var outcome := AppPlan(w, g, option).0;
            var open := ValidGateId(g) && option != "" && g !in w.resolved;
            && (outcome == BadGateId <==> !ValidGateId(g))
            && (outcome == BadOption <==> ValidGateId(g) && option == "")
            && (outcome == AlreadyResolved <==> ValidGateId(g) && option != "" && g in w.resolved)
            && (outcome == NoPendingGate <==> open && g !in w.pending)
            && (outcome == PendingUnreadable <==> open && g in w.pending && w.pending[g] == Torn)
            && (outcome == PendingNotObject <==> open && g in w.pending && w.pending[g] == NotObject)
            && (outcome == Answered <==> open && g in w.pending && w.pending[g].Doc?)
  {}

  /** The world after the first `k` steps of an answer. */
  function AnswerWorld(w: World, g: GateId, doc: GateDoc, role: string, surface: string, k: nat): World
    requires g in w.pending && k <= 5
  {
    if k == 0 then w
    else if k == 1 then w.(tmp := w.tmp[g := Torn])
    else if k == 2 then w.(tmp := w.tmp[g := Doc(doc)])
    else
      var published := w.(tmp := w.tmp - {g}, resolved := w.resolved[g := Doc(doc)], publishing := Some(g));
      if k == 3 then published
      else
        var retired := published.(pending := w.pending - {g}, handled := w.handled[g := w.pending[g]],
          publishing := None);
        if k == 4 then retired else retired.(log := w.log + [GateResolved(g, role, surface, doc.chosen)])
  }

  lemma AnswerStep(w: World, g: GateId, doc: GateDoc, role: string, surface: string, k: nat)
    requires g in w.pending && k < 5
    ensures Apply(AnswerWorld(w, g, doc, role, surface, k), AnswerOps(g, doc, role, surface)[k])
            == AnswerWorld(w, g, doc, role, surface, k + 1)
  {
    if k == 1 {
      assert w.tmp[g := Torn][g := Doc(doc)] == w.tmp[g := Doc(doc)];
    } else if k == 2 {
      assert w.tmp[g := Doc(doc)] - {g} == w.tmp - {g};
    }
  }

  lemma {:induction false} AnswerSteps(w: World, g: GateId, doc: GateDoc, role: string, surface: string, k: nat)
    requires g in w.pending && k <= 5
    ensures Run(w, AnswerOps(g, doc, role, surface)[..k]) == AnswerWorld(w, g, doc, role, surface, k)
  {
    if k > 0 {
      var ops := AnswerOps(g, doc, role, surface);
      AnswerSteps(w, g, doc, role, surface, k - 1);
      AnswerStep(w, g, doc, role, surface, k - 1);
      assert ops[..k] == ops[..k - 1] + [ops[k - 1]];
      RunSnoc(w, ops[..k - 1], ops[k - 1]);
    }
  }

  /** `g` is an open question and `doc` an answer to it. */
  predicate Fits(w: World, g: GateId, doc: GateDoc) {
    && ValidGateId(g) && g in w.pending && w.pending[g].Doc? && g !in w.resolved
    && IsResolvedDoc(g, doc) && SameMatter(w.pending[g], Doc(doc))
  }

  /** Answering an open gate obeys the discipline at each of its five steps. */
  lemma AnswerStepAllowed(w: World, g: GateId, doc: GateDoc, role: string, surface: string, k: nat)
    requires Inv(w) && Fits(w, g, doc) && k < 5
    ensures Allowed(AnswerWorld(w, g, doc, role, surface, k), AnswerOps(g, doc, role, surface)[k])
  {
    if k == 3 {
      UnansweredIsUnused(w, g);
      assert !RestsOn(AnswerWorld(w, g, doc, role, surface, 3), g);
    } else if k == 4 {
      assert forall i :: 0 <= i < |w.log| && w.log[i].GateResolved? ==> w.log[i].gate in w.resolved;
    }
  }

  lemma UnansweredIsUnused(w: World, g: GateId)
    requires Inv(w) && g !in w.resolved
    ensures !RestsOn(w, g)
  {
    assert forall i :: 0 <= i < |w.executions| ==> Backed(w, w.executions[i]);
  }

  lemma AnswerAllowed(w: World, g: GateId, doc: GateDoc, role: string, surface: string)
    requires Inv(w) && Fits(w, g, doc)
    ensures var ops := AnswerOps(g, doc, role, surface);
            && Orderly(w, ops)
            && Run(w, ops) == AnswerWorld(w, g, doc, role, surface, 5)
  {
    var ops := AnswerOps(g, doc, role, surface);
    AnswerShape(g, doc, role, surface);
    assert g in w.pending;
    hide Inv, Fits, Run, Allowed, AnswerWorld, AnswerOps;
    forall k | 0 <= k < |ops| ensures Allowed(Run(w, ops[..k]), ops[k]) {
      AnswerSteps(w, g, doc, role, surface, k);
      AnswerStepAllowed(w, g, doc, role, surface, k);
    }
    AnswerSteps(w, g, doc, role, surface, 5);
    assert ops[..5] == ops;
  }

  lemma AnswerShape(g: GateId, doc: GateDoc, role: string, surface: string)
    ensures var ops := AnswerOps(g, doc, role, surface); |ops| == 5 && NoExecute(ops) && Paired(ops)
  {}

  /** From its third step on an answer can be read if its option is one of the three words, and otherwise not. */
  lemma AnswerReads(w: World, g: GateId, doc: GateDoc, role: string, surface: string)
    requires g in w.pending && doc.gateId == g && doc.status == Closed && doc.chosen != Missing
    ensures forall k :: 3 <= k <= 5 ==>
              ReadResolved(AnswerWorld(w, g, doc, role, surface, k), g)
              == if doc.chosen.Known? then Some(doc.chosen.option) else None
  {}

  /** An opened gate in a world of the daemon's own making can only be answered or be answered already. */
  lemma OpenedResolves(w: World, r: Request, option: Verdict)
    requires Inv(w) && Opened(w, r.gate)
    ensures var (outcome, ops) := ResolveOnDisk(w, r, option);
            if r.gate in w.resolved then outcome == AlreadyResolved && ops == []
            else
              && outcome == Answered
              && ops == AnswerOps(r.gate, ResolvedDoc(r.gate, w.pending[r.gate].doc, option), r.role, r.surface)
  {
    if r.gate !in w.resolved {
      assert Known(option) in w.pending[r.gate].doc.options by {
        assert PendingDoc("", "", "").options[if option == Approve then 0 else if option == Skip then 1 else 2]
          == Known(option);
      }
    }
  }

  lemma ResolveOutcome(w: World, cache: Cache, r: Request)
    ensures var e := ResolvePlan(w, cache, r);
            if e.outcome.Answered? then
              && ValidGateId(r.gate) && r.gate in w.pending && w.pending[r.gate].Doc? && r.gate !in w.resolved
              && r.option.Some?
              && e.ops == AnswerOps(r.gate, ResolvedDoc(r.gate, w.pending[r.gate].doc, r.option.value), r.role,
                r.surface)
            else e.ops == []
  {}

  lemma OwnAnswerFits(w: World, g: GateId, option: Verdict)
    requires Inv(w) && ValidGateId(g) && g in w.pending && w.pending[g].Doc? && g !in w.resolved
    ensures Fits(w, g, ResolvedDoc(g, w.pending[g].doc, option))
  {}

  lemma ResolveAllowed(w: World, cache: Cache, r: Request)
    requires Inv(w)
    ensures var e := ResolvePlan(w, cache, r);
            && Orderly(w, e.ops)
            && (e.outcome.Answered? ==> ReadResolved(Run(w, e.ops), r.gate) == r.option)
  {
    hide Inv, Run, Orderly, AnswerOps, ResolvePlan, ReadResolved, AnswerWorld, Fits;
    ResolveOutcome(w, cache, r);
    OrderlyNothing(w);
    if ResolvePlan(w, cache, r).outcome.Answered? {
      var doc := ResolvedDoc(r.gate, w.pending[r.gate].doc, r.option.value);
      OwnAnswerFits(w, r.gate, r.option.value);
      AnswerAllowed(w, r.gate, doc, r.role, r.surface);
      AnswerReads(w, r.gate, doc, r.role, r.surface);
    }
  }

  /** Cutting the resolver off between its publishing and its renaming step leaves the gate stale. */
  lemma CrashLeavesStale(w: World, cache: Cache, r: Request)
    requires ResolvePlan(w, cache, r).outcome.Answered?
    ensures |ResolvePlan(w, cache, r).ops| == 5
    ensures var w' := Run(w, Cut(ResolvePlan(w, cache, r).ops, Some(3)));
            StuckStale(w', r.gate) && ReadResolved(w', r.gate) == r.option
  {
    ResolveOutcome(w, cache, r);
    var doc := ResolvedDoc(r.gate, w.pending[r.gate].doc, r.option.value);
    var ops := ResolvePlan(w, cache, r).ops;
    AnswerSteps(w, r.gate, doc, r.role, r.surface, 3);
    AnswerReads(w, r.gate, doc, r.role, r.surface);
    RunSnoc(w, ops[..3], Perish);
  }

  // ----- the app surfaces

  /**
   The resolver behind the app surfaces: any option text will do, neither the options on offer nor
   the id inside the file matter, and the text is stored as it is.
   */
  function AppPlan(w: World, g: GateId, option: string): (Resolution, seq<Op>) {
    if !ValidGateId(g) then (BadGateId, [])
    else if option == "" then (BadOption, [])
    else if g in w.resolved then (AlreadyResolved, [])
    else if g !in w.pending then (NoPendingGate, [])
    else
      match w.pending[g]
      case Torn => (PendingUnreadable, [])
      case NotObject => (PendingNotObject, [])
      case Doc(doc) => (Answered, AnswerOps(g, AnsweredDoc(doc, FieldOf(option)), "", "orbit"))
  }

  lemma AppOutcome(w: World, g: GateId, option: string)
    ensures var (outcome, ops) := AppPlan(w, g, option);
            if outcome.Answered? then
              && ValidGateId(g) && g in w.pending && w.pending[g].Doc? && g !in w.resolved && option != ""
              && ops == AnswerOps(g, AnsweredDoc(w.pending[g].doc, FieldOf(option)), "", "orbit")
            else ops == []
  {}

  lemma AppAnswerFits(w: World, g: GateId, option: string)
    requires Inv(w) && ValidGateId(g) && g in w.pending && w.pending[g].Doc? && g !in w.resolved && option != ""
    ensures Fits(w, g, AnsweredDoc(w.pending[g].doc, FieldOf(option)))
  {
    assert |ToLower(option)| > 0;
  }

  /** An app surface keeps the discipline too, whatever option text it passes. */
  lemma AppOrderly(w: World, g: GateId, option: string)
    requires Inv(w)
    ensures Orderly(w, AppPlan(w, g, option).1)
  {
    hide Inv, Run, Orderly, AnswerOps, AppPlan, AnswerWorld, Fits, FieldOf;
    AppOutcome(w, g, option);
    OrderlyNothing(w);
    if AppPlan(w, g, option).0.Answered? {
      AppAnswerFits(w, g, option);
      AnswerAllowed(w, g, AnsweredDoc(w.pending[g].doc, FieldOf(option)), "", "orbit");
    }
  }

  /**
   A gate that an app surface answers gets a readable answer exactly when the option text, in lower
   case, is one of the three words; it is that word then.
   */
  lemma AppAnswerReadable(w: World, g: GateId, option: string)
    requires Inv(w) && AppPlan(w, g, option).0.Answered?
    ensures var read := ReadResolved(Run(w, AppPlan(w, g, option).1), g);
            && (read.Some? <==> ToLower(option) == "approve" || ToLower(option) == "skip" || ToLower(option) == "stop")
            && (read.Some? ==> Word(read.value) == ToLower(option))
  {
    hide Inv, Run, AnswerOps, AppPlan, AnswerWorld, ReadResolved;
    AppOutcome(w, g, option);
    AppAnswerFits(w, g, option);
    var doc := AnsweredDoc(w.pending[g].doc, FieldOf(option));
    AnswerAllowed(w, g, doc, "", "orbit");
    AnswerReads(w, g, doc, "", "orbit");
  }

  /** The text the web surface sends when its request names no option: the gate is closed without a verdict. */
  lemma AppDefaultIsUnreadable(w: World, g: GateId)
    requires Inv(w) && ValidGateId(g) && Opened(w, g) && g !in w.resolved
    ensures AppPlan(w, g, "resolved").0.Answered?
    ensures ReadResolved(Run(w, AppPlan(w, g, "resolved").1), g).None?
  {
    AppAnswerReadable(w, g, "resolved");
    assert ToLower("resolved")[0] == 'r' && |ToLower("resolved")| == 8;
  }

  // ----- gates that nobody can answer

  /**
   An opened gate without an answer can be given one, by the daemon with any of the three options and
   by an app surface with any text, exactly if its id is valid.
   */
  lemma AnswerableExactly(w: World, r: Request, option: string)
    requires Inv(w) && Opened(w, r.gate) && r.gate !in w.resolved && r.option.Some? && option != ""
    ensures ResolvePlan(w, None, r).outcome.Answered? <==> ValidGateId(r.gate)
    ensures AppPlan(w, r.gate, option).0.Answered? <==> ValidGateId(r.gate)
  {
    hide ValidGateId;
    OpenedResolves(w, r, r.option.value);
  }

  // ----- other processes

  /** Who may answer a gate while the daemon waits: another process with the same resolver, or an app surface. */
  datatype Caller = OtherDaemon(request: Request) | App(gate: GateId, option: string)

  /** `cut` is the number of disk steps after which the other process dies, None when it finishes. */
  datatype Visit = Visit(caller: Caller, cut: Option<nat>)

  function CallerPlan(w: World, caller: Caller): seq<Op> {
    match caller
    case OtherDaemon(request) => ResolvePlan(w, None, request).ops
    case App(g, option) => AppPlan(w, g, option).1
  }

  function VisitPlan(w: World, v: Visit): seq<Op> {
    Cut(CallerPlan(w, v.caller), v.cut)
  }

  lemma CallerOrderly(w: World, caller: Caller)
    requires Inv(w)
    ensures Orderly(w, CallerPlan(w, caller))
  {
    hide Inv, Orderly, ResolvePlan, AppPlan, Run;
    match caller
    case OtherDaemon(request) => ResolveAllowed(w, None, request);
    case App(g, option) => AppOrderly(w, g, option);
  }

  lemma VisitOrderly(w: World, v: Visit)
    requires Inv(w)
    ensures Orderly(w, VisitPlan(w, v))
  {
    CallerOrderly(w, v.caller);
    OrderlyCut(w, CallerPlan(w, v.caller), v.cut);
  }

  // ----- opening a gate

  datatype Opening = Opening(gate: GateId, isNew: bool, ops: seq<Op>)

  /** `listing` is a directory listing, in whatever order, of the pending proposal files. */
  predicate Lists(listing: seq<GateId>, w: World) {
    && (forall g :: g in listing ==> g in w.pending && IsProposal(g))
    && (forall g :: g in w.pending && IsProposal(g) ==> g in listing)
  }

  predicate Matches(w: World, g: GateId, role: string, subject: string) {
    OpenFor(w, g, role, subject) && w.pending[g].doc.status == Open
  }

  /** The gate id found in the first matching pending file, "" when there is none. */
  function FindExisting(w: World, listing: seq<GateId>, role: string, subject: string): GateId {
    if listing == [] then ""
    else if Matches(w, listing[0], role, subject) then w.pending[listing[0]].doc.gateId
    else FindExisting(w, listing[1..], role, subject)
  }

  function NewGateId(role: string, hex: string): GateId {
    "proposal_" + role + "_" + hex
  }

  function OpenOps(g: GateId, role: string, subject: string): seq<Op> {
    [TearPending(g), FillPending(g, PendingDoc(g, role, subject)), Append(GateOpened(g, role))]
  }

  function OpenPlan(w: World, listing: seq<GateId>, role: string, subject: string, hex: string): Opening {
    var existing := FindExisting(w, listing, role, subject);
    if existing != "" then Opening(existing, false, [])
    else
      var g := NewGateId(role, hex);
      Opening(g, true, OpenOps(g, role, subject))
  }

  predicate IdChars(s: string) {
    forall c :: c in s ==> IsGateIdChar(c)
  }

  /** The id of a new gate is valid exactly if the role's own characters may occur in ids. */
  lemma NewGateIdValid(role: string, hex: string)
    requires IdChars(hex)
    ensures ValidGateId(NewGateId(role, hex)) <==> IdChars(role)
  {
    var prefix := "proposal_";
    var g := NewGateId(role, hex);
    assert g == prefix + role + "_" + hex;
    assert forall i :: 0 <= i < |prefix| ==> IsGateIdChar(prefix[i]);
    assert forall c :: c in g <==> c in prefix || c in role || c == '_' || c in hex;
    assert g[0] == prefix[0];
  }

  /** A role whose gates nobody can answer. */
  lemma SpacedRole(hex: string)
    ensures !ValidGateId(NewGateId("chief of staff", hex))
  {
    var role := "chief of staff";
    assert role[5] == ' ';
    assert NewGateId(role, hex)[14] == ' ';
    assert ' ' in NewGateId(role, hex) && !IsGateIdChar(' ');
  }

  /** No file of the gate directory carries the id. */
  predicate Unused(w: World, g: GateId) {
    g !in w.pending && g !in w.handled && g !in w.resolved
  }

  lemma {:induction false} FindExistingFinds(w: World, listing: seq<GateId>, role: string, subject: string)
    requires Inv(w) && forall g :: g in listing ==> g in w.pending
    ensures var e := FindExisting(w, listing, role, subject);
            if e == "" then forall g :: g in listing ==> !OpenFor(w, g, role, subject)
            else e in listing && OpenFor(w, e, role, subject)
  {
    if listing != [] && !Matches(w, listing[0], role, subject) {
      FindExistingFinds(w, listing[1..], role, subject);
    }
  }

  lemma NewGateIsProposal(role: string, hex: string)
    ensures IsProposal(NewGateId(role, hex)) && NewGateId(role, hex) != ""
  {}

  lemma OpenSteps(w: World, g: GateId, role: string, subject: string)
    ensures var ops := OpenOps(g, role, subject);
            var torn := w.(pending := w.pending[g := Torn]);
            var filled := w.(pending := w.pending[g := Doc(PendingDoc(g, role, subject))]);
            && Run(w, ops[..0]) == w && Run(w, ops[..1]) == torn && Run(w, ops[..2]) == filled
            && Run(w, ops) == filled.(log := w.log + [GateOpened(g, role)])
  {
    var ops := OpenOps(g, role, subject);
    assert ops[..1] == [] + [ops[0]] && ops[..2] == ops[..1] + [ops[1]] && ops == ops[..2] + [ops[2]];
    RunSnoc(w, [], ops[0]);
    RunSnoc(w, ops[..1], ops[1]);
    RunSnoc(w, ops[..2], ops[2]);
    assert w.pending[g := Torn][g := Doc(PendingDoc(g, role, subject))]
      == w.pending[g := Doc(PendingDoc(g, role, subject))];
  }

  lemma NewGateAllowed(w: World, g: GateId, role: string, subject: string)
    requires Inv(w) && Unused(w, g) && IsProposal(g) && g != ""
    requires forall h :: !OpenFor(w, h, role, subject)
    ensures var ops := OpenOps(g, role, subject);
            AllowedAll(w, ops) && OpenFor(Run(w, ops), g, role, subject)
  {
    var ops := OpenOps(g, role, subject);
    OpenSteps(w, g, role, subject);
    var torn := w.(pending := w.pending[g := Torn]);
    forall h | h in torn.pending ensures !OpenFor(torn, h, role, subject) {
      assert !OpenFor(w, h, role, subject);
    }
    assert Allowed(w, ops[0]) && Allowed(torn, ops[1]) && Allowed(Run(w, ops[..2]), ops[2]);
  }

  /** Opening reuses the one open question about the matter, or opens it; either way it is open then. */
  lemma OpenAllowed(w: World, listing: seq<GateId>, role: string, subject: string, hex: string)
    requires Inv(w) && Lists(listing, w) && Unused(w, NewGateId(role, hex))
    ensures var o := OpenPlan(w, listing, role, subject, hex);
            && Orderly(w, o.ops)
            && OpenFor(Run(w, o.ops), o.gate, role, subject)
            && (o.isNew <==> forall g :: !OpenFor(w, g, role, subject))
            && (o.isNew ==> Unused(w, o.gate))
  {
    FindExistingFinds(w, listing, role, subject);
    NewGateIsProposal(role, hex);
    var o := OpenPlan(w, listing, role, subject, hex);
    if o.isNew {
      forall g ensures !OpenFor(w, g, role, subject) {
        if g in w.pending { assert g in listing; }
      }
      NewGateAllowed(w, o.gate, role, subject);
    }
  }

  // ----- waiting for an answer

  /** One pass of the wait loop: how long it takes beyond its sleep, and what arrives during it. */
  datatype Round = Round(delay: nat, others: seq<Visit>, telegram: bool, messages: seq<Message>)

  const SLEEP := 5_000
  const PROPOSAL_TIMEOUT := 1_800_000

  datatype WaitResult = Chosen(option: Verdict) | TimedOut | WaitRaised

  datatype Waited = Waited(ops: seq<Op>, cache: Cache, result: WaitResult)
  {
    /** The same wait with steps in front of it. */
    function After(done: seq<Op>): Waited {
      this.(ops := done + ops)
    }
  }

  /** Other processes answer gates one after the other; each may die on the way. */
  function OthersPlan(w: World, others: seq<Visit>): seq<Op>
    decreases |others|
  {
    if others == [] then []
    else
      var ops := VisitPlan(w, others[0]);
      ops + OthersPlan(Run(w, ops), others[1..])
  }

  /** The daemon's own reaction to a polled batch while it waits on `g`. */
  function PollPlan(w: World, cache: Cache, g: GateId, role: string, round: Round): Effect {
    if !round.telegram then Effect(AlreadyResolved, [], cache)
    else
      match FirstDecision(round.messages, g)
      case None => Effect(AlreadyResolved, [], cache)
      case Some(option) => ResolvePlan(w, cache, Request(g, Some(option), "telegram", role))
  }

  /**
   Polling takes the whole batch off the inbox, so a press of a button of gate `h` that comes while
   the daemon waits on `g` either answers `g`, or is lost: it counts exactly if `g` ends in the short
   form of `h` and no earlier message of the batch decides.
   */
  lemma PressCountsExactly(w: World, cache: Cache, g: GateId, role: string, round: Round, i: nat, action: Verdict,
          h: GateId)
    requires round.telegram && i < |round.messages| && ValidGateId(h)
    requires round.messages[i] == ParseCallback(CallbackData(action, h))
    ensures PollPlan(w, cache, g, role, round) ==
            if EndsWith(g, Short(h)) && forall j :: 0 <= j < i ==> Decision(round.messages[j], g).None?
            then ResolvePlan(w, cache, Request(g, Some(action), "telegram", role))
            else PollPlan(w, cache, g, role, round.(messages := Without(round.messages, i)))
  {
    hide ResolvePlan, FirstDecision, EndsWith, Decision, ParseCallback, CallbackData, ValidGateId;
    DecidesOrLost(round.messages, g, i);
    PressDecidesExactly(round.messages, i, action, h, g);
  }

  /** The loop of the wait; `env` tells what happens in the pass that begins at a given time. */
  function WaitPlan(w: World, cache: Cache, g: GateId, role: string, env: int -> Round, clock: int,
          deadline: int): Waited
    decreases deadline - clock
  {
    if clock >= deadline then Waited([], cache, TimedOut)
    else
      var before := OthersPlan(w, env(clock).others);
      var w1 := Run(w, before);
      match ReadResolved(w1, g)
      case Some(option) => Waited(before, cache, Chosen(option))
      case None =>
        var e := PollPlan(w1, cache, g, role, env(clock));
        if e.outcome.Raises() then Waited(before + e.ops, e.cache, WaitRaised)
        else
          var rest := WaitPlan(Run(w1, e.ops), e.cache, g, role, env, clock + SLEEP + env(clock).delay, deadline);
          Waited(before + e.ops + rest.ops, rest.cache, rest.result)
  }

  lemma {:induction false} OthersOrderly(w: World, others: seq<Visit>)
    requires Inv(w)
    ensures Orderly(w, OthersPlan(w, others))
    decreases |others|
  {
    hide Inv, Orderly, VisitPlan, Run;
    OrderlyNothing(w);
    if others != [] {
      var ops := VisitPlan(w, others[0]);
      VisitOrderly(w, others[0]);
      OrderlyKeepsInv(w, ops);
      OthersOrderly(Run(w, ops), others[1..]);
      OrderlyConcat(w, ops, OthersPlan(Run(w, ops), others[1..]));
    }
  }

  /** Visits act one after the other, each on what the earlier ones left. */
  lemma {:induction false} OthersConcat(w: World, a: seq<Visit>, b: seq<Visit>)
    ensures OthersPlan(w, a + b) == OthersPlan(w, a) + OthersPlan(Run(w, OthersPlan(w, a)), b)
    decreases |a|
  {
    hide VisitPlan, Run;
    if a == [] {
      assert a + b == b && Run(w, []) == w by { RunNone(w); }
    } else {
      var ops := VisitPlan(w, a[0]);
      assert (a + b)[1..] == a[1..] + b;
      OthersConcat(Run(w, ops), a[1..], b);
      RunConcat(w, ops, OthersPlan(Run(w, ops), a[1..]));
    }
  }

  /** One visit takes the steps of its caller, up to where it dies. */
  lemma OneVisit(w: World, v: Visit)
    ensures OthersPlan(w, [v])
            == Cut(if v.caller.OtherDaemon? then ResolvePlan(w, None, v.caller.request).ops
                   else AppPlan(w, v.caller.gate, v.caller.option).1, v.cut)
  {
    hide ResolvePlan, AppPlan, Run;
    assert [v][1..] == [];
  }

  lemma PollOrderly(w: World, cache: Cache, g: GateId, role: string, round: Round)
    requires Inv(w)
    ensures Orderly(w, PollPlan(w, cache, g, role, round).ops)
  {
    hide Inv, Orderly, FirstDecision, ResolvePlan;
    OrderlyNothing(w);
    match FirstDecision(round.messages, g)
    case None =>
    case Some(option) => ResolveAllowed(w, cache, Request(g, Some(option), "telegram", role));
  }

  /** What happens during one pass of the wait loop that finds no answer. */
  lemma RoundOrderly(w: World, cache: Cache, g: GateId, role: string, round: Round)
    requires Inv(w)
    ensures var before := OthersPlan(w, round.others);
            var e := PollPlan(Run(w, before), cache, g, role, round);
            && Orderly(w, before) && Inv(Run(w, before))
            && Orderly(w, before + e.ops) && Inv(Run(w, before + e.ops))
            && Run(w, before + e.ops) == Run(Run(w, before), e.ops)
  {
    hide Inv, Orderly, OthersPlan, PollPlan, Run;
    var before := OthersPlan(w, round.others);
    OthersOrderly(w, round.others);
    OrderlyKeepsInv(w, before);
    var w1 := Run(w, before);
    var ops := PollPlan(w1, cache, g, role, round).ops;
    PollOrderly(w1, cache, g, role, round);
    OrderlyConcat(w, before, ops);
    RunConcat(w, before, ops);
    OrderlyKeepsInv(w, before + ops);
  }

  /** The wait keeps the discipline, and an option it reports is the one on disk. */
  lemma {:induction false} WaitOrderly(w: World, cache: Cache, g: GateId, role: string, env: int -> Round,
          clock: int, deadline: int)
    requires Inv(w)
    ensures var wt := WaitPlan(w, cache, g, role, env, clock, deadline);
            && Orderly(w, wt.ops)
            && (wt.result.Chosen? ==> ReadResolved(Run(w, wt.ops), g) == Some(wt.result.option))
    decreases deadline - clock
  {
    hide Inv, Orderly, OthersPlan, PollPlan, ReadResolved, Run;
    OrderlyNothing(w);
    if clock < deadline {
      RoundOrderly(w, cache, g, role, env(clock));
      var before := OthersPlan(w, env(clock).others);
      var w1 := Run(w, before);
      var e := PollPlan(w1, cache, g, role, env(clock));
      if ReadResolved(w1, g).None? && !e.outcome.Raises() {
        var w2 := Run(w1, e.ops);
        var later := clock + SLEEP + env(clock).delay;
        WaitOrderly(w2, e.cache, g, role, env, later, deadline);
        var rest := WaitPlan(w2, e.cache, g, role, env, later, deadline);
        OrderlyConcat(w, before + e.ops, rest.ops);
        RunConcat(w, before + e.ops, rest.ops);
      }
    }
  }

  // ----- an answer nobody can read

  /** The gate has an answer that its readers reject. */
  predicate Unreadable(w: World, g: GateId) {
    g in w.resolved && ReadResolved(w, g).None?
  }

  lemma UnreadableStays(w: World, ops: seq<Op>, g: GateId)
    requires Inv(w) && Orderly(w, ops) && Unreadable(w, g)
    ensures Inv(Run(w, ops)) && Unreadable(Run(w, ops), g)
  {
    hide Inv, Run, AllowedAll;
    OrderlyKeepsInv(w, ops);
    RunGrows(w, ops);
  }

  lemma UnreadablePoll(w: World, cache: Cache, g: GateId, role: string, round: Round)
    requires Unreadable(w, g) && ValidGateId(g)
    ensures var e := PollPlan(w, cache, g, role, round); e.ops == [] && !e.outcome.Raises()
  {
    hide FirstDecision, ReadResolved;
  }

  /** Waiting on a gate with an unreadable answer always takes the whole half hour, whatever replies arrive. */
  lemma {:induction false} UnreadableTimesOut(w: World, cache: Cache, g: GateId, role: string, env: int -> Round,
          clock: int, deadline: int)
    requires Inv(w) && Unreadable(w, g) && ValidGateId(g)
    ensures WaitPlan(w, cache, g, role, env, clock, deadline).result == TimedOut
    decreases deadline - clock
  {
    hide Inv, Orderly, OthersPlan, PollPlan, ReadResolved, Run;
    if clock < deadline {
      var before := OthersPlan(w, env(clock).others);
      OthersOrderly(w, env(clock).others);
      UnreadableStays(w, before, g);
      var w1 := Run(w, before);
      UnreadablePoll(w1, cache, g, role, env(clock));
      RoundOrderly(w, cache, g, role, env(clock));
      var e := PollPlan(w1, cache, g, role, env(clock));
      OrderlyNothing(w1);
      UnreadableStays(w1, [], g);
      UnreadableTimesOut(Run(w1, e.ops), e.cache, g, role, env, clock + SLEEP + env(clock).delay, deadline);
    }
  }

  // ----- waiting on a gate that nobody can answer

  /** The first reply that decides makes the wait on a gate with an invalid id raise. */
  lemma InvalidPoll(w: World, cache: Cache, g: GateId, role: string, round: Round)
    requires !ValidGateId(g)
    ensures var e := PollPlan(w, cache, g, role, round);
            e.ops == [] && (e.outcome.Raises() <==> round.telegram && FirstDecision(round.messages, g).Some?)
  {
    hide FirstDecision, ValidGateId;
  }

  /** Such a wait never ends with an option. */
  lemma InvalidNeverChosen(w: World, cache: Cache, g: GateId, role: string, env: int -> Round, clock: int,
    deadline: int)
    requires Inv(w) && !ValidGateId(g)
    ensures !WaitPlan(w, cache, g, role, env, clock, deadline).result.Chosen?
  {
    hide WaitPlan, Run, AllowedAll, Paired, NoExecute, ValidGateId;
    WaitOrderly(w, cache, g, role, env, clock, deadline);
    var wt := WaitPlan(w, cache, g, role, env, clock, deadline);
    OrderlyKeepsInv(w, wt.ops);
    InvalidUnread(Run(w, wt.ops), g);
  }

  lemma InvalidUnread(w: World, g: GateId)
    requires Inv(w) && !ValidGateId(g)
    ensures g !in w.resolved && ReadResolved(w, g).None?
  {}
}
