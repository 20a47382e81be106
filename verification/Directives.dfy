/** Directives left for the roles of the organisation as files, each to be read once. */
module Directives {
  import opened Text

  /** A file that is not a JSON object counts as unreadable, as does a directory. */
  datatype Content = Unreadable | Message(text: string, consumed: bool)

  datatype File = File(name: string, content: Content)

  /** A file is addressed to every role whose id occurs in its name. */
  predicate AddressedTo(name: string, role: string) {
    HasJsonSuffix(name) && Contains(name, role)
  }

  predicate Due(f: File, role: string) {
    AddressedTo(f.name, role) && f.content.Message? && !f.content.consumed
  }

  /** The directives that wait for a role, in the order of the listing. */
  function Waiting(files: seq<File>, role: string): seq<File> {
    if files == [] then []
    else (if Due(files[0], role) then [files[0]] else []) + Waiting(files[1..], role)
  }

  function Texts(files: seq<File>): seq<string> {
    seq(|files|, i requires 0 <= i < |files| => if files[i].content.Message? then files[i].content.text else "")
  }

  function Consumed(f: File): File {
    if f.content.Message? then f.(content := f.content.(consumed := true)) else f
  }

  /** The files after a consuming read; `stuck` names the files that cannot be written. */
  function Taken(files: seq<File>, role: string, stuck: set<string>): (after: seq<File>)
    ensures |after| == |files|
    ensures forall i :: 0 <= i < |files| ==> after[i].name == files[i].name
  {
    seq(|files|, i requires 0 <= i < |files| =>
      if Due(files[i], role) && files[i].name !in stuck then Consumed(files[i]) else files[i])
  }

  class Box {
    /** The directory listing, in the order in which the names sort. */
    var files: seq<File>

    /** A read returns what waits for the role; only a consuming read changes anything. */
    method ReadDirectives(role: string, consume: bool, stuck: set<string>) returns (results: seq<string>)
      modifies this
      ensures results == Texts(Waiting(old(files), role))
      ensures files == if consume then Taken(old(files), role, stuck) else old(files)
    {
      hide AddressedTo, Waiting, Texts, Taken;
      results := [];
      ghost var before := files;
      Nothing(role, stuck);
      for i := 0 to |files|
        invariant |files| == |before|
        invariant results == Texts(Waiting(before[..i], role))
        invariant files == (if consume then Taken(before[..i], role, stuck) else before[..i]) + before[i..]
      {
        var f := files[i];
        WaitingNext(before, i, role);
        TakenNext(before, i, role, stuck);
        if AddressedTo(f.name, role) {
          match f.content
          case Unreadable =>
          case Message(text, consumed) =>
            if !consumed {
              results := results + [text];
              if consume && f.name !in stuck {
                files := files[i := f.(content := Message(text, true))];
              }
            }
        }
      }
      assert before[..|before|] == before && before[|before|..] == [];
    }
  }

  /**
   A consuming read changes nothing in a file but its mark, and marks exactly the messages whose name has
   the role in it and that can be written.
   */
  lemma TakenExactly(files: seq<File>, role: string, stuck: set<string>, i: nat)
    requires i < |files|
    ensures var name := files[i].name;
            Taken(files, role, stuck)[i] ==
            match files[i].content
            case Unreadable => files[i]
            case Message(text, consumed) =>
              var marked := consumed || (HasJsonSuffix(name) && Contains(name, role) && name !in stuck);
              File(name, Message(text, marked))
  {
    hide HasJsonSuffix, Contains;
  }

  lemma WaitingUnfold(files: seq<File>, role: string)
    requires files != []
    ensures Waiting(files, role) == (if Due(files[0], role) then [files[0]] else []) + Waiting(files[1..], role)
  {}

  lemma {:induction false} WaitingAppend(a: seq<File>, b: seq<File>, role: string)
    ensures Waiting(a + b, role) == Waiting(a, role) + Waiting(b, role)
  {
    if a == [] {
      assert a + b == b;
    } else {
      hide Due, Waiting;
      assert (a + b)[1..] == a[1..] + b;
      WaitingUnfold(a, role);
      WaitingUnfold(a + b, role);
      WaitingAppend(a[1..], b, role);
    }
  }

  lemma Nothing(role: string, stuck: set<string>)
    ensures Texts(Waiting([], role)) == [] && Taken([], role, stuck) == []
  {}

  lemma WaitingNext(files: seq<File>, i: nat, role: string)
    requires i < |files|
    ensures Texts(Waiting(files[..i + 1], role))
            == Texts(Waiting(files[..i], role)) + if Due(files[i], role) then [files[i].content.text] else []
  {
    assert files[..i + 1] == files[..i] + [files[i]];
    WaitingAppend(files[..i], [files[i]], role);
    assert [files[i]][1..] == [];
  }

  lemma TakenNext(files: seq<File>, i: nat, role: string, stuck: set<string>)
    requires i < |files|
    ensures var f := files[i];
            var f' := if Due(f, role) && f.name !in stuck then Consumed(f) else f;
            && (Taken(files[..i], role, stuck) + files[i..])[i] == f
            && (Taken(files[..i], role, stuck) + files[i..])[i := f']
              == Taken(files[..i + 1], role, stuck) + files[i + 1..]
            && files[..i] + files[i..] == files[..i + 1] + files[i + 1..]
            && (files[..i] + files[i..])[i] == f
  {
    hide Due;
  }

  lemma {:induction false} WaitingExactly(files: seq<File>, role: string)
    ensures forall f :: f in Waiting(files, role) <==> f in files && Due(f, role)
  {
    if files != [] {
      WaitingExactly(files[1..], role);
      assert files == [files[0]] + files[1..];
    }
  }

  // ----- reading again, and reading under another role

  lemma AtWithin(s: string, p: string, q: string, i: int, j: int)
    requires At(s, p, i) && At(p, q, j)
    ensures At(s, q, i + j)
  {
    var sp, pq := s[i..i + |p|], p[j..j + |q|];
    forall k | 0 <= k < |q| ensures q[k] == s[i + j + k] {
      assert pq[k] == q[k] == p[j + k];
      assert sp[j + k] == p[j + k];
    }
    assert s[i + j..i + j + |q|] == q;
  }

  lemma ContainsTransitive(s: string, p: string, q: string)
    requires Contains(s, p) && Contains(p, q)
    ensures Contains(s, q)
  {
    hide At;
    var i :| 0 <= i <= |s| - |p| && At(s, p, i);
    var j :| 0 <= j <= |p| - |q| && At(p, q, j);
    AtWithin(s, p, q, i, j);
  }

  /**
   After a consuming read for a role, exactly those directives still wait for another one that the
   read did not take.
   */
  lemma WaitingAfterTake(files: seq<File>, role: string, other: string, stuck: set<string>)
    ensures forall f :: f in Waiting(Taken(files, role, stuck), other)
                        <==> f in Waiting(files, other) && (!Contains(f.name, role) || f.name in stuck)
  {
    hide Contains, HasJsonSuffix;
    var after := Taken(files, role, stuck);
    WaitingExactly(after, other);
    WaitingExactly(files, other);
    forall f | f in after && Due(f, other) ensures f in files && (!Contains(f.name, role) || f.name in stuck) {
      var i :| 0 <= i < |after| && after[i] == f;
      assert f == files[i];
    }
    forall f | f in files && Due(f, other) && (!Contains(f.name, role) || f.name in stuck) ensures f in after {
      var i :| 0 <= i < |files| && files[i] == f;
      assert after[i] == f;
    }
  }

  lemma {:induction false} UntakenStay(files: seq<File>, role: string, other: string, stuck: set<string>)
    requires forall f :: f in Waiting(files, other) ==> !Contains(f.name, role) || f.name in stuck
    ensures Waiting(Taken(files, role, stuck), other) == Waiting(files, other)
  {
    hide Contains, HasJsonSuffix;
    if files != [] {
      var after := Taken(files, role, stuck);
      assert after[1..] == Taken(files[1..], role, stuck);
      assert forall f :: f in Waiting(files[1..], other) ==> f in Waiting(files, other);
      UntakenStay(files[1..], role, other, stuck);
      if Due(files[0], other) {
        assert files[0] in Waiting(files, other);
      }
    }
  }

  /**
   A consuming read leaves another role's directives alone exactly if its role id occurs in the file
   name of none of them, files that cannot be written aside.
   */
  lemma LeavesOthersExactly(files: seq<File>, role: string, other: string, stuck: set<string>)
    ensures Waiting(Taken(files, role, stuck), other) == Waiting(files, other)
            <==> forall f :: f in Waiting(files, other) ==> !Contains(f.name, role) || f.name in stuck
  {
    hide Contains, Due;
    WaitingAfterTake(files, role, other, stuck);
    if forall f :: f in Waiting(files, other) ==> !Contains(f.name, role) || f.name in stuck {
      UntakenStay(files, role, other, stuck);
    }
  }

  /**
   After a consuming read for a role, only directives that could not be written wait for that role
   or for any role whose id contains its id: the shorter id empties the longer one's box as well.
   */
  lemma ReadEmptiesLongerRoles(files: seq<File>, role: string, longer: string, stuck: set<string>)
    requires Contains(longer, role)
    ensures forall f ::
              f in Waiting(Taken(files, role, stuck), longer) <==> f in Waiting(files, longer) && f.name in stuck
  {
    WaitingAfterTake(files, role, longer, stuck);
    WaitingExactly(files, longer);
    forall f | f in Waiting(files, longer) ensures Contains(f.name, role) {
      ContainsTransitive(f.name, longer, role);
    }
  }

  /** A role called like the files' suffix takes every directive there is. */
  lemma JsonRoleTakesAll(files: seq<File>, other: string)
    ensures Waiting(Taken(files, "json", {}), other) == []
  {
    WaitingAfterTake(files, "json", other, {});
    WaitingExactly(files, other);
    forall f | f in Waiting(files, other) ensures Contains(f.name, "json") {
      var n := |f.name|;
      assert f.name[n - 5..] == ".json";
      assert f.name[n - 4..n] == f.name[n - 5..][1..] == "json";
      assert At(f.name, "json", n - 4);
    }
    NoneWaiting(Taken(files, "json", {}), other);
  }

  lemma NoneWaiting(files: seq<File>, role: string)
    requires forall f :: f !in Waiting(files, role)
    ensures Waiting(files, role) == []
  {
    WaitingExactly(files, role);
    forall i | 0 <= i < |files| ensures !Due(files[i], role) {
      assert files[i] !in Waiting(files, role);
    }
    NothingDue(files, role);
  }

  lemma {:induction false} NothingDue(files: seq<File>, role: string)
    requires forall i :: 0 <= i < |files| ==> !Due(files[i], role)
    ensures Waiting(files, role) == []
  {
    if files != [] {
      NothingDue(files[1..], role);
    }
  }

  /** A second consuming read with no arrivals in between returns nothing. */
  lemma RepeatedReadIsEmpty(files: seq<File>, role: string)
    ensures Waiting(Taken(files, role, {}), role) == []
  {
    NothingDue(Taken(files, role, {}), role);
  }

  // ----- whole histories

  datatype Event =
    | Arrive(file: File, at: nat)
    | Peek(role: string)
    | Take(role: string, stuck: set<string>)

  predicate Distinct(files: seq<File>) {
    forall i, j :: 0 <= i < j < |files| ==> files[i].name != files[j].name
  }

  function Step(files: seq<File>, e: Event): seq<File> {
    match e
    case Arrive(file, at) => if at <= |files| then files[..at] + [file] + files[at..] else files + [file]
    case Peek(role) => files
    case Take(role, stuck) => Taken(files, role, stuck)
  }

  /** Directives arrive under names not used before. */
  predicate Possible(files: seq<File>, events: seq<Event>)
    decreases |events|
  {
    events != [] ==>
      && (events[0].Arrive? ==> forall i :: 0 <= i < |files| ==> files[i].name != events[0].file.name)
      && Possible(Step(files, events[0]), events[1..])
  }

  predicate Delivers(files: seq<File>, e: Event, name: string) {
    e.Take? && exists i :: 0 <= i < |files| && files[i].name == name && Due(files[i], e.role)
  }

  /** In how many consuming reads the directive called `name` is delivered. */
  function Deliveries(files: seq<File>, events: seq<Event>, name: string): nat
    decreases |events|
  {
    if events == [] then 0
    else (if Delivers(files, events[0], name) then 1 else 0) + Deliveries(Step(files, events[0]), events[1..], name)
  }

  /** How many of those reads could not mark it as consumed. */
  function FailedMarks(files: seq<File>, events: seq<Event>, name: string): nat
    decreases |events|
  {
    if events == [] then 0
    else
      (if Delivers(files, events[0], name) && name in events[0].stuck then 1 else 0)
      + FailedMarks(Step(files, events[0]), events[1..], name)
  }

  predicate Spent(files: seq<File>, name: string) {
    exists i :: 0 <= i < |files| && files[i].name == name && files[i].content.Message? && files[i].content.consumed
  }

  lemma StepKeepsDistinct(files: seq<File>, e: Event)
    requires Distinct(files)
    requires e.Arrive? ==> forall i :: 0 <= i < |files| ==> files[i].name != e.file.name
    ensures Distinct(Step(files, e))
  {}

  lemma SpentStays(files: seq<File>, e: Event, name: string)
    requires Spent(files, name)
    ensures Spent(Step(files, e), name)
  {
    var i :| 0 <= i < |files| && files[i].name == name && files[i].content.Message? && files[i].content.consumed;
    var k := if e.Arrive? && e.at <= i then i + 1 else i;
    assert Step(files, e)[k] == files[i];
  }

  lemma SpentIsSilent(files: seq<File>, e: Event, name: string)
    requires Distinct(files) && Spent(files, name)
    ensures !Delivers(files, e, name)
  {}

  lemma MarkedOrStuck(files: seq<File>, e: Event, name: string)
    requires Delivers(files, e, name)
    ensures e.Take? && (name in e.stuck || Spent(Step(files, e), name))
  {
    var i :| 0 <= i < |files| && files[i].name == name && Due(files[i], e.role);
    assert name !in e.stuck ==> Step(files, e)[i] == Consumed(files[i]);
  }

  /**
   Over every history of arrivals and reads by any roles, a directive is delivered at most once more
   than its marking failed; if every write succeeds, at most once.
   */
  lemma {:induction false} DeliveredAtMostOnce(files: seq<File>, events: seq<Event>, name: string)
    requires Distinct(files) && Possible(files, events)
    ensures Deliveries(files, events, name) <= FailedMarks(files, events, name) + if Spent(files, name) then 0 else 1
    decreases |events|
  {
    hide Due, Distinct, Spent, Delivers, Step;
    if events != [] {
      var e := events[0];
      StepKeepsDistinct(files, e);
      if Spent(files, name) {
        SpentStays(files, e, name);
        SpentIsSilent(files, e, name);
      } else if Delivers(files, e, name) {
        MarkedOrStuck(files, e, name);
      }
      DeliveredAtMostOnce(Step(files, e), events[1..], name);
    }
  }

  /** If every write succeeds, the first consuming read of an addressed role is the one that delivers. */
  lemma {:induction false} FirstReadDelivers(files: seq<File>, events: seq<Event>, f: File, role: string)
    requires Distinct(files) && Possible(files, events) && f in files && Due(f, role)
    requires exists k :: 0 <= k < |events| && events[k] == Take(role, {})
    requires forall k :: 0 <= k < |events| && events[k].Take? ==> events[k].stuck == {}
    ensures Deliveries(files, events, f.name) == 1
    decreases |events|
  {
    hide Due, Distinct, Delivers, Step, Spent;
    DeliveredAtMostOnce(files, events, f.name);
    NothingFails(files, events, f.name);
    var e := events[0];
    if !Delivers(files, e, f.name) {
      StepKeepsDistinct(files, e);
      UndeliveredStays(files, e, f, role);
      var n :| 0 <= n < |events| && events[n] == Take(role, {});
      assert events[1..][n - 1] == events[n];
      assert forall k :: 0 <= k < |events[1..]| ==> events[1..][k] == events[k + 1];
      FirstReadDelivers(Step(files, e), events[1..], f, role);
    }
  }

  lemma UndeliveredStays(files: seq<File>, e: Event, f: File, role: string)
    requires f in files && Due(f, role) && !Delivers(files, e, f.name)
    ensures f in Step(files, e) && e != Take(role, {})
  {
    hide AddressedTo;
    var i :| 0 <= i < |files| && files[i] == f;
    var k := if e.Arrive? && e.at <= i then i + 1 else i;
    assert Step(files, e)[k] == f;
  }

  lemma {:induction false} NothingFails(files: seq<File>, events: seq<Event>, name: string)
    requires forall k :: 0 <= k < |events| && events[k].Take? ==> events[k].stuck == {}
    ensures FailedMarks(files, events, name) == 0
    decreases |events|
  {
    if events != [] {
      assert events[0].Take? ==> events[0].stuck == {};
      NothingFails(Step(files, events[0]), events[1..], name);
    }
  }

  function AfterEvents(files: seq<File>, events: seq<Event>): seq<File>
    decreases |events|
  {
    if events == [] then files else AfterEvents(Step(files, events[0]), events[1..])
  }

  lemma {:induction false} SpentIsDone(files: seq<File>, events: seq<Event>, name: string)
    requires Distinct(files) && Possible(files, events) && Spent(files, name)
    ensures Deliveries(files, events, name) == FailedMarks(files, events, name) == 0
    ensures Spent(AfterEvents(files, events), name)
    decreases |events|
  {
    hide Due, Distinct, Spent, Delivers, Step;
    if events != [] {
      StepKeepsDistinct(files, events[0]);
      SpentStays(files, events[0], name);
      SpentIsSilent(files, events[0], name);
      SpentIsDone(Step(files, events[0]), events[1..], name);
    }
  }

  /** A waiting directive is spent by a read that delivers and marks it, and stays as it is otherwise. */
  lemma SpentOnce(files: seq<File>, e: Event, f: File)
    requires Distinct(files) && f in files && f.content.Message? && !f.content.consumed
    requires e.Arrive? ==> forall i :: 0 <= i < |files| ==> files[i].name != e.file.name
    ensures if e.Take? && Delivers(files, e, f.name) && f.name !in e.stuck then Spent(Step(files, e), f.name)
            else f in Step(files, e)
  {
    hide AddressedTo;
    var i :| 0 <= i < |files| && files[i] == f;
    var k := if e.Arrive? && e.at <= i then i + 1 else i;
    if Delivers(files, e, f.name) && f.name !in e.stuck {
      MarkedOrStuck(files, e, f.name);
    } else {
      assert Step(files, e)[k] == f;
    }
  }

  lemma WaitingIsUnspent(files: seq<File>, f: File)
    requires Distinct(files) && f in files && f.content.Message? && !f.content.consumed
    ensures !Spent(files, f.name)
  {}

  /**
   Over every history a waiting directive is delivered exactly as often as its marking failed, and once
   more if it is spent in the end.
   */
  lemma {:induction false} DeliveriesExactly(files: seq<File>, events: seq<Event>, f: File)
    requires Distinct(files) && Possible(files, events)
    requires f in files && f.content.Message? && !f.content.consumed
    ensures Deliveries(files, events, f.name)
            == FailedMarks(files, events, f.name) + if Spent(AfterEvents(files, events), f.name) then 1 else 0
    decreases |events|
  {
    hide Due, Distinct, Spent, Delivers, Step;
    WaitingIsUnspent(files, f);
    if events != [] {
      var e := events[0];
      StepKeepsDistinct(files, e);
      SpentOnce(files, e, f);
      if Delivers(files, e, f.name) {
        MarkedOrStuck(files, e, f.name);
      }
      if e.Take? && Delivers(files, e, f.name) && f.name !in e.stuck {
        SpentIsDone(Step(files, e), events[1..], f.name);
      } else {
        DeliveriesExactly(Step(files, e), events[1..], f);
      }
    }
  }
}
