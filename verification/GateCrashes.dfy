/**
 What the death of a process between two disk steps leaves behind: exactly the stale gates whose
 answer was published but not yet renamed, and the unreported answers of those and of the renamed.
 */
module GateCrashes {
  import opened Text
  import opened GateFiles

  /** What is left of a sequence of steps when the process dies after the first `cut` of them. */
  function Cut(ops: seq<Op>, cut: Option<nat>): seq<Op> {
    match cut
    case None => ops
    case Some(k) => (if k < |ops| then ops[..k] else ops) + [Perish]
  }

  predicate AnswerLogged(w: World, g: GateId) {
    exists i :: 0 <= i < |w.log| && w.log[i].GateResolved? && w.log[i].gate == g
  }

  /** The gate has an answer that the log does not report. */
  predicate Unlogged(w: World, g: GateId) {
    g in w.resolved && !AnswerLogged(w, g)
  }

  predicate Reports(op: Op, g: GateId) {
    op.Append? && op.entry.GateResolved? && op.entry.gate == g
  }

  /** Publishing, renaming and reporting an answer follow each other at once, unless the process dies in between. */
  predicate PairedAt(ops: seq<Op>, k: nat)
    requires k < |ops|
  {
    match ops[k]
    case PublishTmp(g) => k + 1 < |ops| && (ops[k + 1] == RetirePending(g) || ops[k + 1] == Perish)
    case RetirePending(g) => k + 1 < |ops| && (Reports(ops[k + 1], g) || ops[k + 1] == Perish)
    case Append(GateResolved(g, _, _, _)) => k > 0 && ops[k - 1] == RetirePending(g)
    case _ => true
  }

  predicate Paired(ops: seq<Op>) {
    forall k :: 0 <= k < |ops| ==> PairedAt(ops, k)
  }

  predicate DiesAt(ops: seq<Op>, k: int, op: Op) {
    0 <= k < |ops| - 1 && ops[k] == op && ops[k + 1] == Perish
  }

  /** A process died right after this step. */
  ghost predicate DiedAfter(ops: seq<Op>, op: Op) {
    exists k :: DiesAt(ops, k, op)
  }

  /** No operation is under way. */
  predicate Idle(w: World) {
    w.publishing.None?
  }

  lemma PairedConcat(a: seq<Op>, b: seq<Op>)
    requires Paired(a) && Paired(b)
    ensures Paired(a + b)
  {
    var ops := a + b;
    forall k | 0 <= k < |ops| ensures PairedAt(ops, k) {
      if k < |a| {
        assert PairedAt(a, k);
        assert ops[k] == a[k] && (k + 1 < |a| ==> ops[k + 1] == a[k + 1]) && (k > 0 ==> ops[k - 1] == a[k - 1]);
      } else {
        var i := k - |a|;
        assert PairedAt(b, i);
        assert ops[k] == b[i] && (i + 1 < |b| ==> ops[k + 1] == b[i + 1]) && (i > 0 ==> ops[k - 1] == b[i - 1]);
      }
    }
  }

  lemma PairedCut(ops: seq<Op>, cut: Option<nat>)
    requires Paired(ops)
    ensures Paired(Cut(ops, cut))
  {
    var kept := Cut(ops, cut);
    forall k | 0 <= k < |kept| ensures PairedAt(kept, k) {
      if k < |ops| {
        assert PairedAt(ops, k);
      }
    }
  }

  lemma PerishAllowed(w: World)
    ensures AllowedAll(w, [Perish])
  {}

  lemma CutAllowed(w: World, ops: seq<Op>, cut: Option<nat>)
    requires AllowedAll(w, ops)
    ensures AllowedAll(w, Cut(ops, cut))
  {
    hide Run, AllowedAll;
    if cut.Some? {
      var kept := if cut.value < |ops| then ops[..cut.value] else ops;
      if cut.value < |ops| {
        AllowedPrefix(w, ops, cut.value);
      }
      PerishAllowed(Run(w, kept));
      AllowedConcat(w, kept, [Perish]);
    }
  }

  lemma NothingDied(w: World, ops: seq<Op>, g: GateId)
    ensures Run(w, ops[..0]) == w && !DiedAfter(ops[..0], PublishTmp(g)) && !DiedAfter(ops[..0], RetirePending(g))
  {}

  lemma AllowedAt(w: World, ops: seq<Op>, n: nat)
    requires AllowedAll(w, ops) && n < |ops|
    ensures Allowed(Run(w, ops[..n]), ops[n])
  {}

  lemma DiesInPrefix(ops: seq<Op>, n: nat, k: int, op: Op)
    requires n <= |ops|
    ensures DiesAt(ops[..n], k, op) <==> k < n - 1 && DiesAt(ops, k, op)
  {}

  lemma DiedAfterSnoc(ops: seq<Op>, n: nat, op: Op)
    requires 0 < n <= |ops|
    ensures DiedAfter(ops[..n], op) <==> DiedAfter(ops[..n - 1], op) || DiesAt(ops, n - 2, op)
  {
    hide DiesAt;
    var a, b := ops[..n], ops[..n - 1];
    if k :| DiesAt(a, k, op) {
      DiesInPrefix(ops, n, k, op);
      DiesInPrefix(ops, n - 1, k, op);
    }
    if k :| DiesAt(b, k, op) {
      DiesInPrefix(ops, n - 1, k, op);
      DiesInPrefix(ops, n, k, op);
    }
    DiesInPrefix(ops, n, n - 2, op);
  }

  /** The effect of one step on what is being published and on the stale gates. */
  lemma StepStale(w: World, op: Op, g: GateId)
    requires Inv(w) && Allowed(w, op)
    requires w.publishing.Some? ==> op == RetirePending(w.publishing.value) || op == Perish
    ensures var w' := Apply(w, op);
            && (w'.publishing == Some(g) <==> op == PublishTmp(g))
            && (StuckStale(w', g) <==> StuckStale(w, g) || (op == Perish && w.publishing == Some(g) && Stale(w, g)))
            && (op == PublishTmp(g) ==> Stale(w', g))
            && (Stale(w', g) <== w'.publishing == Some(g))
  {}

  lemma {:induction false} StaleInProgress(w: World, ops: seq<Op>, n: nat, g: GateId)
    requires Inv(w) && Idle(w) && AllowedAll(w, ops) && Paired(ops) && n <= |ops|
    ensures var w' := Run(w, ops[..n]);
            && (w'.publishing == Some(g) <==> n > 0 && ops[n - 1] == PublishTmp(g))
            && (w'.publishing == Some(g) ==> Stale(w', g))
            && (StuckStale(w', g) <==> StuckStale(w, g) || DiedAfter(ops[..n], PublishTmp(g)))
  {
    hide Inv, Allowed, Run, AllowedAll, StuckStale, Stale, DiedAfter;
    NothingDied(w, ops, g);
    if n > 0 {
      var w1, op := Run(w, ops[..n - 1]), ops[n - 1];
      StaleInProgress(w, ops, n - 1, g);
      if w1.publishing.Some? {
        StaleInProgress(w, ops, n - 1, w1.publishing.value);
      }
      PrefixKeepsInv(w, ops, n - 1);
      AllowedAt(w, ops, n - 1);
      assert ops[..n] == ops[..n - 1] + [op];
      RunSnoc(w, ops[..n - 1], op);
      DiedAfterSnoc(ops, n, PublishTmp(g));
      if n > 1 {
        assert PairedAt(ops, n - 2);
      }
      StepStale(w1, op, g);
    }
  }

  /**
   The stale gates after a sequence of allowed steps are exactly those from before and those whose
   answer was published by a process that died before it renamed the question.
   */
  lemma StaleExactly(w: World, ops: seq<Op>, g: GateId)
    requires Inv(w) && Idle(w) && AllowedAll(w, ops) && Paired(ops)
    ensures Stale(Run(w, ops), g) <==> Stale(w, g) || DiedAfter(ops, PublishTmp(g))
    ensures Idle(Run(w, ops))
  {
    hide Inv, AllowedAll, Run, Stale, DiedAfter;
    assert ops[..|ops|] == ops;
    assert |ops| > 0 ==> PairedAt(ops, |ops| - 1);
    StaleInProgress(w, ops, |ops|, g);
    var p := Run(w, ops).publishing;
    if p.Some? {
      StaleInProgress(w, ops, |ops|, p.value);
    }
  }

  lemma StepKeepsResolved(w: World, op: Op, g: GateId)
    ensures g in w.resolved ==> g in Apply(w, op).resolved
  {}

  lemma {:induction false} ResolvedStays(w: World, ops: seq<Op>, i: nat, j: nat, g: GateId)
    requires i <= j <= |ops| && g in Run(w, ops[..i]).resolved
    ensures g in Run(w, ops[..j]).resolved
  {
    hide Run, Apply;
    if i < j {
      ResolvedStays(w, ops, i, j - 1, g);
      assert ops[..j] == ops[..j - 1] + [ops[j - 1]];
      RunSnoc(w, ops[..j - 1], ops[j - 1]);
      StepKeepsResolved(Run(w, ops[..j - 1]), ops[j - 1], g);
    }
  }

  /** An answer is published once, for a gate that has none. */
  lemma PublishedOnce(w: World, ops: seq<Op>, i: nat, g: GateId)
    requires AllowedAll(w, ops) && i < |ops| && ops[i] == PublishTmp(g)
    ensures g !in w.resolved && forall j :: 0 <= j < |ops| && ops[j] == PublishTmp(g) ==> j == i
  {
    assert ops[..0] == [];
    assert Allowed(Run(w, ops[..i]), ops[i]);
    if g in w.resolved {
      ResolvedStays(w, ops, 0, i, g);
    }
    forall j | 0 <= j < |ops| && ops[j] == PublishTmp(g) ensures j == i {
      assert Allowed(Run(w, ops[..j]), ops[j]);
      PublishedBy(w, ops, i, g);
      PublishedBy(w, ops, j, g);
      if i < j {
        ResolvedStays(w, ops, i + 1, j, g);
      } else if j < i {
        ResolvedStays(w, ops, j + 1, i, g);
      }
    }
  }

  lemma PublishedBy(w: World, ops: seq<Op>, i: nat, g: GateId)
    requires AllowedAll(w, ops) && i < |ops| && ops[i] == PublishTmp(g)
    ensures g in Run(w, ops[..i + 1]).resolved && g !in Run(w, ops[..i]).resolved
  {
    assert Allowed(Run(w, ops[..i]), ops[i]);
    assert ops[..i + 1] == ops[..i] + [ops[i]];
    RunSnoc(w, ops[..i], ops[i]);
  }

  /** A question is renamed right after its answer was published. */
  lemma RetiredAfterPublish(w: World, ops: seq<Op>, i: nat, g: GateId)
    requires Inv(w) && Idle(w) && AllowedAll(w, ops) && Paired(ops) && i < |ops| && ops[i] == RetirePending(g)
    ensures i > 0 && ops[i - 1] == PublishTmp(g)
  {
    assert Allowed(Run(w, ops[..i]), ops[i]);
    hide Inv, Run, AllowedAll, Paired, DiedAfter;
    StaleInProgress(w, ops, i, g);
  }

  /** Once an answer is reported, nobody died between publishing and reporting it. */
  lemma ReportedWhole(w: World, ops: seq<Op>, n: nat, g: GateId)
    requires Inv(w) && Idle(w) && AllowedAll(w, ops) && Paired(ops) && n < |ops| && Reports(ops[n], g)
    ensures !DiedAfter(ops, PublishTmp(g)) && !DiedAfter(ops, RetirePending(g)) && g !in w.resolved
  {
    hide Inv, Run, AllowedAll;
    assert PairedAt(ops, n);
    RetiredAfterPublish(w, ops, n - 1, g);
    PublishedOnce(w, ops, n - 2, g);
    forall k ensures !DiesAt(ops, k, RetirePending(g)) {
      if 0 <= k < |ops| && ops[k] == RetirePending(g) {
        RetiredAfterPublish(w, ops, k, g);
        assert k == n - 1;
      }
    }
    assert forall k :: DiesAt(ops, k, PublishTmp(g)) ==> k == n - 2;
  }

  lemma EntryLogs(w: World, entry: Entry, g: GateId)
    ensures var w' := w.(log := w.log + [entry]);
            AnswerLogged(w', g) <==> AnswerLogged(w, g) || (entry.GateResolved? && entry.gate == g)
  {
    var w' := w.(log := w.log + [entry]);
    assert w'.log[|w.log|] == entry && forall i :: 0 <= i < |w.log| ==> w'.log[i] == w.log[i];
    if AnswerLogged(w, g) {
      var i :| 0 <= i < |w.log| && w.log[i].GateResolved? && w.log[i].gate == g;
      assert w'.log[i].gate == g;
    }
  }

  lemma PublishUnlogged(w: World, g: GateId)
    requires LogInv(w) && g !in w.resolved
    ensures !AnswerLogged(w, g)
  {}

  lemma StepUnlogged(w: World, op: Op, g: GateId)
    requires Inv(w) && Allowed(w, op)
    ensures Unlogged(Apply(w, op), g) <==> op == PublishTmp(g) || (Unlogged(w, g) && !Reports(op, g))
  {
    if op.Append? {
      hide Inv, AnswerLogged, Allowed;
      EntryLogs(w, op.entry, g);
    } else {
      assert Apply(w, op).log == w.log;
      assert AnswerLogged(Apply(w, op), g) == AnswerLogged(w, g);
      if g !in w.resolved {
        PublishUnlogged(w, g);
      }
      hide Inv, AnswerLogged;
    }
  }

  lemma {:induction false} UnloggedInProgress(w: World, ops: seq<Op>, n: nat, g: GateId)
    requires Inv(w) && Idle(w) && AllowedAll(w, ops) && Paired(ops) && n <= |ops|
    ensures Unlogged(Run(w, ops[..n]), g)
            <==> || Unlogged(w, g) || DiedAfter(ops[..n], PublishTmp(g)) || DiedAfter(ops[..n], RetirePending(g))
                 || (n > 0 && (ops[n - 1] == PublishTmp(g) || ops[n - 1] == RetirePending(g)))
  {
    hide Inv, Allowed, Unlogged, Run, AllowedAll, DiedAfter;
    NothingDied(w, ops, g);
    if n > 0 {
      var op := ops[n - 1];
      UnloggedInProgress(w, ops, n - 1, g);
      if n > 1 {
        assert PairedAt(ops, n - 2);
      }
      PrefixKeepsInv(w, ops, n - 1);
      AllowedAt(w, ops, n - 1);
      assert ops[..n] == ops[..n - 1] + [op];
      RunSnoc(w, ops[..n - 1], op);
      StepUnlogged(Run(w, ops[..n - 1]), op, g);
      DiedAfterSnoc(ops, n, PublishTmp(g));
      DiedAfterSnoc(ops, n, RetirePending(g));
      if op == RetirePending(g) {
        RetiredAfterPublish(w, ops, n - 1, g);
      } else if Reports(op, g) {
        ReportedWhole(w, ops, n - 1, g);
        DiedEarlier(ops, n, PublishTmp(g));
        DiedEarlier(ops, n, RetirePending(g));
        UnloggedIsAnswered(w, g);
      }
    }
  }

  lemma DiedEarlier(ops: seq<Op>, n: nat, op: Op)
    requires n <= |ops|
    ensures DiedAfter(ops[..n], op) ==> DiedAfter(ops, op)
  {
    if k :| DiesAt(ops[..n], k, op) {
      DiesInPrefix(ops, n, k, op);
    }
  }

  lemma UnloggedIsAnswered(w: World, g: GateId)
    ensures Unlogged(w, g) ==> g in w.resolved
  {}

  /** The unreported answers are exactly those from before and those whose resolver died before it reported them. */
  lemma UnloggedExactly(w: World, ops: seq<Op>, g: GateId)
    requires Inv(w) && Idle(w) && AllowedAll(w, ops) && Paired(ops)
    ensures Unlogged(Run(w, ops), g)
            <==> Unlogged(w, g) || DiedAfter(ops, PublishTmp(g)) || DiedAfter(ops, RetirePending(g))
  {
    hide Inv, AllowedAll, Run, Unlogged, DiedAfter;
    assert ops[..|ops|] == ops;
    assert |ops| > 0 ==> PairedAt(ops, |ops| - 1);
    UnloggedInProgress(w, ops, |ops|, g);
  }
}
