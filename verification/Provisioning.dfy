/** Applying a directory plan to the actor-identity and actor-membership records. */
module Provisioning {
  import opened Text

  datatype Actor = Actor(
    actorId: string, kind: string, displayName: string, authSubject: string, provider: string,
    roles: seq<string>, tenants: seq<string>)

  datatype Identity = Identity(actor: Actor, createdAt: string)

  datatype Grant = Grant(
    actorId: string, roleId: string, grantedBy: string, basis: string,
    tenant: Option<string>, project: Option<string>, expires: Option<string>)

  /** `starts` is None for the memberships a plan creates. */
  datatype Membership = Membership(
    assignmentId: string, grant: Grant, starts: Option<string>, active: bool, createdAt: string)

  datatype Plan = Plan(actors: seq<Actor>, memberships: seq<Grant>)

  predicate Blank(s: string) {
    Strip(s) == ""
  }

  // ----- the record stores

  /** Registration refuses blank ids or names and unknown kinds. */
  predicate Registrable(a: Actor) {
    !Blank(a.actorId) && !Blank(a.displayName) && (a.kind == "human" || a.kind == "agent" || a.kind == "service")
  }

  predicate Known(ids: seq<Identity>, actorId: string) {
    exists i :: 0 <= i < |ids| && ids[i].actor.actorId == actorId
  }

  /** Registration replaces the rows of the same actor. */
  function Without(ids: seq<Identity>, actorId: string): seq<Identity> {
    if ids == [] then []
    else (if ids[0].actor.actorId == actorId then [] else [ids[0]]) + Without(ids[1..], actorId)
  }

  lemma {:induction false} WithoutUnknown(ids: seq<Identity>, actorId: string)
    requires !Known(ids, actorId)
    ensures Without(ids, actorId) == ids
  {
    if ids != [] {
      assert ids[0].actor.actorId != actorId;
      assert forall i :: 0 <= i < |ids[1..]| ==> ids[1..][i] == ids[i + 1];
      WithoutUnknown(ids[1..], actorId);
      assert [ids[0]] + ids[1..] == ids;
    }
  }

  /** Exactly the rows of other actors remain. */
  lemma {:induction false} WithoutExactly(ids: seq<Identity>, actorId: string, x: Identity)
    ensures x in Without(ids, actorId) <==> x in ids && x.actor.actorId != actorId
  {
    if ids != [] {
      assert x in ids <==> x == ids[0] || x in ids[1..];
      WithoutExactly(ids[1..], actorId, x);
    }
  }

  predicate Grantable(g: Grant) {
    !Blank(g.actorId) && !Blank(g.roleId) && !Blank(g.grantedBy) && !Blank(g.basis)
  }

  /** A record without a scope, or a lookup without one, fits every scope. */
  predicate ScopeFits(held: Option<string>, asked: Option<string>) {
    asked.None? || held.None? || held == asked
  }

  /** What the lookup of active memberships finds for a grant; expiry plays no part in it. */
  predicate Matches(m: Membership, g: Grant) {
    && m.active && m.grant.actorId == g.actorId && m.grant.roleId == g.roleId
    && ScopeFits(m.grant.tenant, g.tenant) && ScopeFits(m.grant.project, g.project)
  }

  function FirstMatch(ms: seq<Membership>, g: Grant): Option<Membership> {
    if ms == [] then None else if Matches(ms[0], g) then Some(ms[0]) else FirstMatch(ms[1..], g)
  }

  lemma {:induction false} FirstMatchFinds(ms: seq<Membership>, g: Grant)
    ensures FirstMatch(ms, g).Some? <==> exists i :: 0 <= i < |ms| && Matches(ms[i], g)
  {
    if ms != [] && !Matches(ms[0], g) {
      FirstMatchFinds(ms[1..], g);
      assert forall i :: 0 < i < |ms| ==> ms[i] == ms[1..][i - 1];
      if FirstMatch(ms, g).Some? {
        var j :| 0 <= j < |ms[1..]| && Matches(ms[1..][j], g);
        assert Matches(ms[j + 1], g);
      }
    }
  }

  lemma {:induction false} FirstMatchStays(ms: seq<Membership>, more: seq<Membership>, g: Grant)
    ensures FirstMatch(ms, g).Some? ==> FirstMatch(ms + more, g) == FirstMatch(ms, g)
  {
    if ms != [] {
      assert (ms + more)[1..] == ms[1..] + more;
      FirstMatchStays(ms[1..], more, g);
    }
  }

  // ----- applying a plan

  datatype ActorsOutcome = ActorsOutcome(
    ids: seq<Identity>, created: seq<Identity>, existing: seq<string>, raised: bool)

  function ApplyActors(ids: seq<Identity>, actors: seq<Actor>, now: string): ActorsOutcome
    decreases |actors|
  {
    if actors == [] then ActorsOutcome(ids, [], [], false)
    else
      var a := actors[0];
      if Known(ids, a.actorId) then
        var rest := ApplyActors(ids, actors[1..], now);
        rest.(existing := [a.actorId] + rest.existing)
      else if !Registrable(a) then ActorsOutcome(ids, [], [], true)
      else
        var identity := Identity(a, now);
        var rest := ApplyActors(Without(ids, a.actorId) + [identity], actors[1..], now);
        rest.(created := [identity] + rest.created)
  }

  datatype GrantsOutcome = GrantsOutcome(
    ms: seq<Membership>, created: seq<Membership>, existing: seq<string>, raised: bool)

  /** `newId` yields the assignment id drawn when the store has a given number of records. */
  function ApplyGrants(ms: seq<Membership>, grants: seq<Grant>, newId: nat -> string, now: string): GrantsOutcome
    decreases |grants|
  {
    if grants == [] then GrantsOutcome(ms, [], [], false)
    else
      var g := grants[0];
      match FirstMatch(ms, g)
      case Some(m) =>
        var rest := ApplyGrants(ms, grants[1..], newId, now);
        rest.(existing := [m.assignmentId] + rest.existing)
      case None =>
        if !Grantable(g) then GrantsOutcome(ms, [], [], true)
        else
          var m := Membership(newId(|ms|), g, None, true, now);
          var rest := ApplyGrants(ms + [m], grants[1..], newId, now);
          rest.(created := [m] + rest.created)
  }

  // ----- conservation

  lemma KnownStays(ids: seq<Identity>, more: seq<Identity>, actorId: string)
    requires Known(ids, actorId)
    ensures Known(ids + more, actorId)
  {
    var i :| 0 <= i < |ids| && ids[i].actor.actorId == actorId;
    assert (ids + more)[i] == ids[i];
  }

  lemma KnownOnceAdded(ids: seq<Identity>, identity: Identity)
    ensures Known(ids + [identity], identity.actor.actorId)
  {
    assert (ids + [identity])[|ids|] == identity;
  }

  /** Actors are only added: prior records stay as a prefix, and created plus existing add up to the plan. */
  lemma {:induction false} ActorsConserved(ids: seq<Identity>, actors: seq<Actor>, now: string)
    ensures var o := ApplyActors(ids, actors, now);
            && o.ids == ids + o.created
            && (if o.raised then |o.created| + |o.existing| < |actors| else |o.created| + |o.existing| == |actors|)
    decreases |actors|
  {
    hide Known, Registrable, Without;
    if actors == [] {
      assert ids + [] == ids;
    } else if Known(ids, actors[0].actorId) {
      ActorsConserved(ids, actors[1..], now);
    } else if Registrable(actors[0]) {
      var identity := Identity(actors[0], now);
      WithoutUnknown(ids, actors[0].actorId);
      ActorsConserved(ids + [identity], actors[1..], now);
      var rest := ApplyActors(ids + [identity], actors[1..], now);
      assert ids + [identity] + rest.created == ids + ([identity] + rest.created);
    }
  }

  /** When nothing is refused, every planned actor is on record afterwards. */
  lemma {:induction false} ActorsCovered(ids: seq<Identity>, actors: seq<Actor>, now: string, i: nat)
    requires i < |actors| && !ApplyActors(ids, actors, now).raised
    ensures Known(ApplyActors(ids, actors, now).ids, actors[i].actorId)
    decreases |actors|
  {
    hide Known, Registrable, Without;
    var a := actors[0];
    var ids' := if Known(ids, a.actorId) then ids else Without(ids, a.actorId) + [Identity(a, now)];
    if i == 0 {
      if !Known(ids, a.actorId) {
        KnownOnceAdded(Without(ids, a.actorId), Identity(a, now));
      }
      ActorsConserved(ids', actors[1..], now);
      KnownStays(ids', ApplyActors(ids', actors[1..], now).created, a.actorId);
    } else {
      assert actors[i] == actors[1..][i - 1];
      ActorsCovered(ids', actors[1..], now, i - 1);
    }
  }

  /** A record is created only for an actor on no earlier record, so a duplicate in a plan creates one record. */
  lemma {:induction false} CreatedActorsAreNew(ids: seq<Identity>, actors: seq<Actor>, now: string, i: nat)
    requires i < |ApplyActors(ids, actors, now).created|
    ensures var created := ApplyActors(ids, actors, now).created;
            && created[i].actor in actors && created[i].createdAt == now
            && !Known(ids + created[..i], created[i].actor.actorId)
    decreases |actors|
  {
    hide Known, Registrable, Without;
    var created := ApplyActors(ids, actors, now).created;
    var a := actors[0];
    if Known(ids, a.actorId) {
      CreatedActorsAreNew(ids, actors[1..], now, i);
    } else {
      var identity := Identity(a, now);
      WithoutUnknown(ids, a.actorId);
      var rest := ApplyActors(ids + [identity], actors[1..], now);
      if i == 0 {
        assert ids + created[..0] == ids;
      } else {
        CreatedActorsAreNew(ids + [identity], actors[1..], now, i - 1);
        assert created[i] == rest.created[i - 1];
        assert ids + created[..i] == ids + [identity] + rest.created[..i - 1];
      }
    }
  }

  lemma GrantCoversItself(ms: seq<Membership>, m: Membership)
    requires m.active
    ensures FirstMatch(ms + [m], m.grant).Some?
  {
    FirstMatchFinds(ms + [m], m.grant);
    assert Matches((ms + [m])[|ms|], m.grant);
  }

  /** Memberships are only added too, and created plus existing add up to the plan. */
  lemma {:induction false} GrantsConserved(ms: seq<Membership>, grants: seq<Grant>, newId: nat -> string, now: string)
    ensures var o := ApplyGrants(ms, grants, newId, now);
            && o.ms == ms + o.created
            && (if o.raised then |o.created| + |o.existing| < |grants| else |o.created| + |o.existing| == |grants|)
    decreases |grants|
  {
    hide FirstMatch, Grantable;
    if grants == [] {
      assert ms + [] == ms;
    } else if FirstMatch(ms, grants[0]).Some? {
      GrantsConserved(ms, grants[1..], newId, now);
    } else if Grantable(grants[0]) {
      var m := Membership(newId(|ms|), grants[0], None, true, now);
      GrantsConserved(ms + [m], grants[1..], newId, now);
      var rest := ApplyGrants(ms + [m], grants[1..], newId, now);
      assert ms + [m] + rest.created == ms + ([m] + rest.created);
    }
  }

  /** When nothing is refused, an active record fits every planned membership afterwards. */
  lemma {:induction false} GrantsCovered(ms: seq<Membership>, grants: seq<Grant>, newId: nat -> string, now: string,
          i: nat)
    requires i < |grants| && !ApplyGrants(ms, grants, newId, now).raised
    ensures FirstMatch(ApplyGrants(ms, grants, newId, now).ms, grants[i]).Some?
    decreases |grants|
  {
    hide FirstMatch, Grantable;
    var g := grants[0];
    var m := Membership(newId(|ms|), g, None, true, now);
    var ms' := if FirstMatch(ms, g).Some? then ms else ms + [m];
    if i == 0 {
      GrantCoversItself(ms, m);
      GrantsConserved(ms', grants[1..], newId, now);
      FirstMatchStays(ms', ApplyGrants(ms', grants[1..], newId, now).created, g);
    } else {
      assert grants[i] == grants[1..][i - 1];
      GrantsCovered(ms', grants[1..], newId, now, i - 1);
    }
  }

  /** A membership is created only for a planned grant that no earlier record fits. */
  lemma {:induction false} CreatedGrantsAreNew(ms: seq<Membership>, grants: seq<Grant>, newId: nat -> string,
          now: string, i: nat)
    requires i < |ApplyGrants(ms, grants, newId, now).created|
    ensures var created := ApplyGrants(ms, grants, newId, now).created;
            && created[i].grant in grants
            && created[i] == Membership(newId(|ms| + i), created[i].grant, None, true, now)
            && FirstMatch(ms + created[..i], created[i].grant).None?
    decreases |grants|
  {
    hide FirstMatch, Grantable;
    var created := ApplyGrants(ms, grants, newId, now).created;
    var g := grants[0];
    if FirstMatch(ms, g).Some? {
      CreatedGrantsAreNew(ms, grants[1..], newId, now, i);
    } else {
      var m := Membership(newId(|ms|), g, None, true, now);
      var rest := ApplyGrants(ms + [m], grants[1..], newId, now);
      if i == 0 {
        assert ms + created[..0] == ms;
      } else {
        CreatedGrantsAreNew(ms + [m], grants[1..], newId, now, i - 1);
        assert created[i] == rest.created[i - 1];
        assert ms + created[..i] == ms + [m] + rest.created[..i - 1];
      }
    }
  }

  // ----- one entry more

  /** A plan with one more actor does what the plan does, and then deals with that actor. */
  lemma {:induction false} OneMoreActor(ids: seq<Identity>, actors: seq<Actor>, a: Actor, now: string)
    ensures var o := ApplyActors(ids, actors, now);
            ApplyActors(ids, actors + [a], now) ==
              if o.raised then o
              else if Known(o.ids, a.actorId) then o.(existing := o.existing + [a.actorId])
              else if !Registrable(a) then o.(raised := true)
              else o.(ids := o.ids + [Identity(a, now)], created := o.created + [Identity(a, now)])
    decreases |actors|
  {
    hide Known, Registrable, Without;
    if actors == [] {
      assert actors + [a] == [a] && [a][1..] == [];
      if !Known(ids, a.actorId) {
        WithoutUnknown(ids, a.actorId);
      }
    } else {
      var first := actors[0];
      assert (actors + [a])[1..] == actors[1..] + [a] && (actors + [a])[0] == first;
      if Known(ids, first.actorId) {
        OneMoreActor(ids, actors[1..], a, now);
      } else if Registrable(first) {
        OneMoreActor(Without(ids, first.actorId) + [Identity(first, now)], actors[1..], a, now);
      }
    }
  }

  /** The same for memberships: the record found is reported, or a new one is made, or the plan is refused. */
  lemma {:induction false} OneMoreGrant(ms: seq<Membership>, grants: seq<Grant>, g: Grant, newId: nat -> string,
                                        now: string)
    ensures var o := ApplyGrants(ms, grants, newId, now);
            var found, m := FirstMatch(o.ms, g), Membership(newId(|o.ms|), g, None, true, now);
            ApplyGrants(ms, grants + [g], newId, now) ==
              if o.raised then o
              else if found.Some? then o.(existing := o.existing + [found.value.assignmentId])
              else if !Grantable(g) then o.(raised := true)
              else o.(ms := o.ms + [m], created := o.created + [m])
    decreases |grants|
  {
    hide FirstMatch, Grantable;
    if grants == [] {
      assert grants + [g] == [g] && [g][1..] == [];
    } else {
      var first := grants[0];
      assert (grants + [g])[1..] == grants[1..] + [g] && (grants + [g])[0] == first;
      if FirstMatch(ms, first).Some? {
        OneMoreGrant(ms, grants[1..], g, newId, now);
      } else if Grantable(first) {
        OneMoreGrant(ms + [Membership(newId(|ms|), first, None, true, now)], grants[1..], g, newId, now);
      }
    }
  }

  // ----- idempotence

  /** Applying the same actors again, at any later time, creates nothing and ends the same way. */
  lemma {:induction false} ActorsAgain(ids: seq<Identity>, actors: seq<Actor>, now: string, later: string)
    ensures var o := ApplyActors(ids, actors, now);
            var again := ApplyActors(o.ids, actors, later);
            again.ids == o.ids && again.created == [] && again.raised == o.raised
    decreases |actors|
  {
    hide Known, Registrable, Without;
    if actors != [] {
      var a := actors[0];
      if Known(ids, a.actorId) {
        ActorsConserved(ids, actors[1..], now);
        KnownStays(ids, ApplyActors(ids, actors[1..], now).created, a.actorId);
        ActorsAgain(ids, actors[1..], now, later);
      } else if Registrable(a) {
        var ids' := Without(ids, a.actorId) + [Identity(a, now)];
        KnownOnceAdded(Without(ids, a.actorId), Identity(a, now));
        ActorsConserved(ids', actors[1..], now);
        KnownStays(ids', ApplyActors(ids', actors[1..], now).created, a.actorId);
        ActorsAgain(ids', actors[1..], now, later);
      }
    }
  }

  /** Applying the same memberships again creates nothing, even after a run that raised half-way. */
  lemma {:induction false} GrantsAgain(ms: seq<Membership>, grants: seq<Grant>, newId: nat -> string, now: string,
          newId': nat -> string, later: string)
    ensures var o := ApplyGrants(ms, grants, newId, now);
            var again := ApplyGrants(o.ms, grants, newId', later);
            again.ms == o.ms && again.created == [] && again.raised == o.raised
    decreases |grants|
  {
    hide FirstMatch, Grantable;
    if grants != [] {
      var g := grants[0];
      if FirstMatch(ms, g).Some? {
        GrantsConserved(ms, grants[1..], newId, now);
        FirstMatchStays(ms, ApplyGrants(ms, grants[1..], newId, now).created, g);
        GrantsAgain(ms, grants[1..], newId, now, newId', later);
      } else if Grantable(g) {
        var m := Membership(newId(|ms|), g, None, true, now);
        GrantCoversItself(ms, m);
        GrantsConserved(ms + [m], grants[1..], newId, now);
        FirstMatchStays(ms + [m], ApplyGrants(ms + [m], grants[1..], newId, now).created, g);
        GrantsAgain(ms + [m], grants[1..], newId, now, newId', later);
      }
    }
  }

  // ----- membership at a time

  /** The time a text stands for; `parse` is the host's conversion, None for texts it rejects. */
  type Clock = string -> Option<int>

  /** A time bound in a record: absent, blank and unreadable texts bound nothing. */
  function Bound(text: Option<string>, parse: Clock): Option<int> {
    if text.None? || text.value == "" then None else parse(text.value)
  }

  /** From the start on and before the expiry. */
  predicate InForce(starts: Option<string>, expires: Option<string>, parse: Clock, t: int) {
    && (Bound(starts, parse).Some? ==> Bound(starts, parse).value <= t)
    && (Bound(expires, parse).Some? ==> t < Bound(expires, parse).value)
  }

  /** The membership check for the grant's actor and role in its scope, at a time. */
  predicate MemberAt(ms: seq<Membership>, g: Grant, parse: Clock, t: int) {
    exists i :: 0 <= i < |ms| && Matches(ms[i], g) && InForce(ms[i].starts, ms[i].grant.expires, parse, t)
  }

  lemma MemberAtSnoc(ms: seq<Membership>, m: Membership, g: Grant, parse: Clock, t: int)
    ensures MemberAt(ms + [m], g, parse, t)
            <==> MemberAt(ms, g, parse, t) || (Matches(m, g) && InForce(m.starts, m.grant.expires, parse, t))
  {
    hide Matches, InForce;
    var all := ms + [m];
    assert all[|ms|] == m && forall i :: 0 <= i < |ms| ==> all[i] == ms[i];
    if MemberAt(ms, g, parse, t) {
      var i :| 0 <= i < |ms| && Matches(ms[i], g) && InForce(ms[i].starts, ms[i].grant.expires, parse, t);
      assert Matches(all[i], g);
    }
    if Matches(m, g) && InForce(m.starts, m.grant.expires, parse, t) {
      assert Matches(all[|ms|], g);
    }
  }

  /** A new record of `g` would answer the question `asked`, as far as actor, role and scope go. */
  predicate Gives(g: Grant, asked: Grant) {
    && g.actorId == asked.actorId && g.roleId == asked.roleId
    && ScopeFits(g.tenant, asked.tenant) && ScopeFits(g.project, asked.project)
  }

  /** The `i`-th grant of the plan is put on record, answers the question, and has not expired. */
  predicate Adds(ms: seq<Membership>, grants: seq<Grant>, newId: nat -> string, now: string, i: nat, asked: Grant,
                 parse: Clock, t: int)
    requires i < |grants|
  {
    && FirstMatch(ApplyGrants(ms, grants[..i], newId, now).ms, grants[i]).None?
    && Gives(grants[i], asked) && InForce(None, grants[i].expires, parse, t)
  }

  /** The records that meet the rest of a plan, once its first grant is dealt with. */
  function AfterFirst(ms: seq<Membership>, g: Grant, newId: nat -> string, now: string): seq<Membership> {
    if FirstMatch(ms, g).Some? then ms else ms + [Membership(newId(|ms|), g, None, true, now)]
  }

  lemma PlanUnfold(ms: seq<Membership>, grants: seq<Grant>, newId: nat -> string, now: string)
    requires grants != [] && !ApplyGrants(ms, grants, newId, now).raised
    ensures var rest := ApplyGrants(AfterFirst(ms, grants[0], newId, now), grants[1..], newId, now);
            !rest.raised && ApplyGrants(ms, grants, newId, now).ms == rest.ms
    ensures FirstMatch(ms, grants[0]).Some? || Grantable(grants[0])
  {
    hide FirstMatch, Grantable;
  }

  lemma PrefixUnfold(ms: seq<Membership>, grants: seq<Grant>, newId: nat -> string, now: string, i: nat)
    requires i < |grants| && (FirstMatch(ms, grants[0]).Some? || Grantable(grants[0]))
    ensures ApplyGrants(ms, grants[..i + 1], newId, now).ms
            == ApplyGrants(AfterFirst(ms, grants[0], newId, now), grants[1..][..i], newId, now).ms
  {
    hide FirstMatch, Grantable;
    assert grants[..i + 1][0] == grants[0] && grants[..i + 1][1..] == grants[1..][..i];
  }

  lemma FirstAdds(ms: seq<Membership>, grants: seq<Grant>, newId: nat -> string, now: string, asked: Grant,
                  parse: Clock, t: int)
    requires grants != []
    ensures MemberAt(AfterFirst(ms, grants[0], newId, now), asked, parse, t)
            <==> MemberAt(ms, asked, parse, t) || Adds(ms, grants, newId, now, 0, asked, parse, t)
  {
    hide MemberAt, FirstMatch, InForce;
    assert ApplyGrants(ms, grants[..0], newId, now).ms == ms;
    MemberAtSnoc(ms, Membership(newId(|ms|), grants[0], None, true, now), asked, parse, t);
  }

  lemma LaterAdds(ms: seq<Membership>, grants: seq<Grant>, newId: nat -> string, now: string, i: nat, asked: Grant,
                  parse: Clock, t: int)
    requires i + 1 < |grants| && (FirstMatch(ms, grants[0]).Some? || Grantable(grants[0]))
    ensures Adds(ms, grants, newId, now, i + 1, asked, parse, t)
            <==> Adds(AfterFirst(ms, grants[0], newId, now), grants[1..], newId, now, i, asked, parse, t)
  {
    hide FirstMatch, Grantable, InForce, Gives, AfterFirst, ApplyGrants;
    PrefixUnfold(ms, grants, newId, now, i);
  }

  /**
   What a plan that is not refused brings about in a scope at a time: the actor is a member there
   afterwards exactly if he was before, or if some grant of the plan found no active record fitting it
   among the records before its turn, reaches the scope, and has not expired.
   */
  lemma {:induction false} PlanReaches(ms: seq<Membership>, grants: seq<Grant>, newId: nat -> string, now: string,
                                       asked: Grant, parse: Clock, t: int)
    requires !ApplyGrants(ms, grants, newId, now).raised
    ensures MemberAt(ApplyGrants(ms, grants, newId, now).ms, asked, parse, t)
            <==> || MemberAt(ms, asked, parse, t)
                 || exists i :: 0 <= i < |grants| && Adds(ms, grants, newId, now, i, asked, parse, t)
    decreases |grants|
  {
    if grants != [] {
      hide MemberAt, FirstMatch, Grantable, Adds, AfterFirst, ApplyGrants;
      var next, rest := AfterFirst(ms, grants[0], newId, now), grants[1..];
      PlanUnfold(ms, grants, newId, now);
      FirstAdds(ms, grants, newId, now, asked, parse, t);
      PlanReaches(next, rest, newId, now, asked, parse, t);
      if i :| 0 <= i < |grants| && Adds(ms, grants, newId, now, i, asked, parse, t) {
        if i > 0 {
          LaterAdds(ms, grants, newId, now, i - 1, asked, parse, t);
        }
      }
      if i :| 0 <= i < |rest| && Adds(next, rest, newId, now, i, asked, parse, t) {
        LaterAdds(ms, grants, newId, now, i, asked, parse, t);
      }
    }
  }

  /** The same for a single grant, in any scope. */
  lemma GrantReaches(ms: seq<Membership>, g: Grant, newId: nat -> string, now: string,
                     tenant: Option<string>, project: Option<string>, parse: Clock, t: int)
    requires Grantable(g)
    ensures var asked := g.(tenant := tenant, project := project);
            MemberAt(ApplyGrants(ms, [g], newId, now).ms, asked, parse, t)
            <==> || MemberAt(ms, asked, parse, t)
                 || (FirstMatch(ms, g).None? && ScopeFits(g.tenant, tenant) && ScopeFits(g.project, project)
                     && InForce(None, g.expires, parse, t))
  {
    hide MemberAt, FirstMatch, InForce, Grantable;
    var asked := g.(tenant := tenant, project := project);
    assert [g][1..] == [] && [g][..0] == [];
    PlanReaches(ms, [g], newId, now, asked, parse, t);
    assert Adds(ms, [g], newId, now, 0, asked, parse, t)
           <==> FirstMatch(ms, g).None? && Gives(g, asked) && InForce(None, g.expires, parse, t);
  }

  /**
   When a grant is renewed: in its own scope the actor is a member afterwards exactly if he was
   before, or if no active record fitted the grant, expired or not, and the grant itself has not expired.
   */
  lemma RenewedExactly(ms: seq<Membership>, g: Grant, newId: nat -> string, now: string, parse: Clock, t: int)
    requires Grantable(g)
    ensures MemberAt(ApplyGrants(ms, [g], newId, now).ms, g, parse, t)
            <==> MemberAt(ms, g, parse, t) || (FirstMatch(ms, g).None? && InForce(None, g.expires, parse, t))
  {
    hide MemberAt, FirstMatch, InForce, Grantable;
    GrantReaches(ms, g, newId, now, g.tenant, g.project, parse, t);
  }

  /** All records of the actor that fit the grant have expired. */
  predicate AllExpired(ms: seq<Membership>, g: Grant, parse: Clock, t: int) {
    forall i :: 0 <= i < |ms| && Matches(ms[i], g) ==>
      Bound(ms[i].grant.expires, parse).Some? && Bound(ms[i].grant.expires, parse).value <= t
  }

  /**
   The family where it is not: some active record fits the grant, so nothing is created, whatever the
   expiry times; if all such records have expired, the actor stays out.
   */
  lemma ExpiredIsNotRenewed(ms: seq<Membership>, i: nat, g: Grant, newId: nat -> string, now: string, parse: Clock,
    t: int)
    requires i < |ms| && Matches(ms[i], g)
    ensures var o := ApplyGrants(ms, [g], newId, now);
            && !o.raised && o.created == [] && o.ms == ms
            && (AllExpired(ms, g, parse, t) ==> !MemberAt(o.ms, g, parse, t))
  {
    FirstMatchFinds(ms, g);
    assert [g][1..] == [];
  }

  /**
   A grant without scope is skipped when the actor already holds the role in some one scope: at a time
   it then reaches a tenant and project exactly if an earlier record did.
   */
  lemma UnscopedGrantReaches(ms: seq<Membership>, g: Grant, newId: nat -> string, now: string,
                             tenant: Option<string>, project: Option<string>, parse: Clock, t: int)
    requires g.tenant.None? && g.project.None? && Grantable(g)
    ensures var asked := g.(tenant := tenant, project := project);
            MemberAt(ApplyGrants(ms, [g], newId, now).ms, asked, parse, t)
            <==> MemberAt(ms, asked, parse, t) || (FirstMatch(ms, g).None? && InForce(None, g.expires, parse, t))
  {
    hide MemberAt, FirstMatch, InForce, Grantable;
    GrantReaches(ms, g, newId, now, tenant, project, parse, t);
  }

  /** Such a skipped grant: the actor holds the role in one tenant, and after the plan at no time in another. */
  lemma UnscopedGrantSkipped(g: Grant, held: string, other: string, newId: nat -> string, now: string,
                             parse: Clock, t: int)
    requires g.tenant.None? && g.project.None? && held != other
    ensures var ms := [Membership(newId(0), g.(tenant := Some(held)), None, true, now)];
            var o := ApplyGrants(ms, [g], newId, now);
            !o.raised && o.existing == [newId(0)] && !MemberAt(o.ms, g.(tenant := Some(other)), parse, t)
  {
    assert [g][1..] == [];
  }

  // ----- which records count, and which plans are refused

  /**
   A grant finds a record exactly if some active record has its actor and role, and in each half of the
   scope the two agree or one of them is silent.
   */
  lemma FirstMatchExactly(ms: seq<Membership>, g: Grant)
    ensures FirstMatch(ms, g).Some? <==>
            exists i ::
              && 0 <= i < |ms| && ms[i].active
              && ms[i].grant.actorId == g.actorId && ms[i].grant.roleId == g.roleId
              && (ms[i].grant.tenant == g.tenant || ms[i].grant.tenant == None || g.tenant == None)
              && (ms[i].grant.project == g.project || ms[i].grant.project == None || g.project == None)
  {
    FirstMatchFinds(ms, g);
    if i :| 0 <= i < |ms| && Matches(ms[i], g) {
      assert ms[i].active;
    }
    if i :| && 0 <= i < |ms| && ms[i].active
            && ms[i].grant.actorId == g.actorId && ms[i].grant.roleId == g.roleId
            && (ms[i].grant.tenant == g.tenant || ms[i].grant.tenant == None || g.tenant == None)
            && (ms[i].grant.project == g.project || ms[i].grant.project == None || g.project == None)
    {
      assert Matches(ms[i], g);
    }
  }

  /** Of the records that fit, the first is found. */
  lemma {:induction false} FirstMatchIsFirst(ms: seq<Membership>, g: Grant, i: nat)
    requires i < |ms| && FirstMatch(ms[..i], g).None? && FirstMatch([ms[i]], g).Some?
    ensures FirstMatch(ms, g) == Some(ms[i])
  {
    if i > 0 {
      assert ms[..i][1..] == ms[1..][..i - 1] && ms[..i][0] == ms[0];
      FirstMatchIsFirst(ms[1..], g, i - 1);
    }
  }

  /** The records that have not been revoked. */
  function ActiveOnly(ms: seq<Membership>): seq<Membership> {
    if ms == [] then [] else (if ms[0].active then [ms[0]] else []) + ActiveOnly(ms[1..])
  }

  lemma {:induction false} InactiveNotFound(ms: seq<Membership>, g: Grant)
    ensures FirstMatch(ActiveOnly(ms), g) == FirstMatch(ms, g)
  {
    if ms != [] {
      InactiveNotFound(ms[1..], g);
      if ms[0].active {
        assert ([ms[0]] + ActiveOnly(ms[1..]))[1..] == ActiveOnly(ms[1..]);
      } else {
        assert [] + ActiveOnly(ms[1..]) == ActiveOnly(ms[1..]);
      }
    }
  }

  lemma {:induction false} ActiveOnlySnoc(ms: seq<Membership>, m: Membership)
    requires m.active
    ensures ActiveOnly(ms + [m]) == ActiveOnly(ms) + [m]
  {
    if ms == [] {
      assert ms + [m] == [m] && [m][1..] == [];
    } else {
      assert (ms + [m])[1..] == ms[1..] + [m] && (ms + [m])[0] == ms[0];
      ActiveOnlySnoc(ms[1..], m);
      var first := if ms[0].active then [ms[0]] else [];
      assert ActiveOnly(ms + [m]) == first + (ActiveOnly(ms[1..]) + [m]) == ActiveOnly(ms) + [m];
    }
  }

  lemma {:induction false} ActiveOnlyHas(ms: seq<Membership>, m: Membership)
    ensures m in ActiveOnly(ms) <==> m in ms && m.active
  {
    if ms != [] {
      assert m in ms <==> m == ms[0] || m in ms[1..];
      ActiveOnlyHas(ms[1..], m);
    }
  }

  /** The actor is a member exactly if some active record of the role, with a fitting scope, is in its time. */
  lemma MemberAtExactly(ms: seq<Membership>, g: Grant, parse: Clock, t: int)
    ensures MemberAt(ms, g, parse, t) <==>
            exists m ::
              && m in ms && m.active && m.grant.actorId == g.actorId && m.grant.roleId == g.roleId
              && (m.grant.tenant == g.tenant || m.grant.tenant == None || g.tenant == None)
              && (m.grant.project == g.project || m.grant.project == None || g.project == None)
              && (m.starts == None || m.starts == Some("") || parse(m.starts.value) == None
                  || parse(m.starts.value).value <= t)
              && (m.grant.expires == None || m.grant.expires == Some("") || parse(m.grant.expires.value) == None
                  || t < parse(m.grant.expires.value).value)
  {
    if MemberAt(ms, g, parse, t) {
      var i :| 0 <= i < |ms| && Matches(ms[i], g) && InForce(ms[i].starts, ms[i].grant.expires, parse, t);
      assert ms[i] in ms && ms[i].active;
    }
    if m :|
      && m in ms && m.active && m.grant.actorId == g.actorId && m.grant.roleId == g.roleId
      && (m.grant.tenant == g.tenant || m.grant.tenant == None || g.tenant == None)
      && (m.grant.project == g.project || m.grant.project == None || g.project == None)
      && (m.starts == None || m.starts == Some("") || parse(m.starts.value) == None
          || parse(m.starts.value).value <= t)
      && (m.grant.expires == None || m.grant.expires == Some("") || parse(m.grant.expires.value) == None
          || t < parse(m.grant.expires.value).value)
    {
      var i :| 0 <= i < |ms| && ms[i] == m;
      assert Matches(ms[i], g) && InForce(ms[i].starts, ms[i].grant.expires, parse, t);
    }
  }

  /**
   Revoked records play no part: a plan creates and finds the same on a store without them, given that the
   same ids are drawn, and is refused there exactly when it is refused here.
   */
  lemma {:induction false} RevokedPlayNoPart(ms: seq<Membership>, grants: seq<Grant>, newId: nat -> string,
                                             newId': nat -> string, now: string)
    requires |ActiveOnly(ms)| <= |ms| && forall k: nat :: newId'(k) == newId(k + |ms| - |ActiveOnly(ms)|)
    ensures var o := ApplyGrants(ms, grants, newId, now);
            ApplyGrants(ActiveOnly(ms), grants, newId', now) == o.(ms := ActiveOnly(o.ms))
    decreases |grants|
  {
    hide FirstMatch, Grantable, ActiveOnly;
    if grants != [] {
      InactiveNotFound(ms, grants[0]);
      if FirstMatch(ms, grants[0]).Some? {
        RevokedPlayNoPart(ms, grants[1..], newId, newId', now);
      } else if Grantable(grants[0]) {
        var m := Membership(newId(|ms|), grants[0], None, true, now);
        ActiveOnlySnoc(ms, m);
        RevokedPlayNoPart(ms + [m], grants[1..], newId, newId', now);
      }
    }
  }

  lemma {:induction false} ActiveOnlyShorter(ms: seq<Membership>)
    ensures |ActiveOnly(ms)| <= |ms|
  {
    if ms != [] {
      ActiveOnlyShorter(ms[1..]);
    }
  }

  lemma InactiveNotMember(ms: seq<Membership>, g: Grant, parse: Clock, t: int)
    ensures MemberAt(ActiveOnly(ms), g, parse, t) <==> MemberAt(ms, g, parse, t)
  {
    hide MemberAt;
    MemberAtExactly(ms, g, parse, t);
    MemberAtExactly(ActiveOnly(ms), g, parse, t);
    forall m ensures m in ActiveOnly(ms) <==> m in ms && m.active {
      ActiveOnlyHas(ms, m);
    }
  }

  /** Somebody whose records for the role have all been revoked is granted it again, by one new record. */
  lemma RevokedIsGrantedAgain(ms: seq<Membership>, g: Grant, newId: nat -> string, now: string)
    requires forall i :: 0 <= i < |ms| && ms[i].grant.actorId == g.actorId && ms[i].grant.roleId == g.roleId ==>
               !ms[i].active
    requires Strip(g.actorId) != "" && Strip(g.roleId) != "" && Strip(g.grantedBy) != "" && Strip(g.basis) != ""
    ensures var m := Membership(newId(|ms|), g, None, true, now);
            ApplyGrants(ms, [g], newId, now) == GrantsOutcome(ms + [m], [m], [], false)
  {
    hide FirstMatch;
    FirstMatchFinds(ms, g);
    assert [g][1..] == [];
  }

  /** A plan is refused exactly when a grant with a blank field comes up that no record fits by then. */
  lemma {:induction false} GrantsRefusedExactly(ms: seq<Membership>, grants: seq<Grant>, newId: nat -> string,
                                                now: string)
    ensures ApplyGrants(ms, grants, newId, now).raised <==>
            exists i :: 0 <= i < |grants| && Refuses(ms, grants, newId, now, i)
    decreases |grants|
  {
    if grants != [] {
      hide FirstMatch, Refuses, ApplyGrants;
      assert grants[..0] == [];
      var next, rest := AfterFirst(ms, grants[0], newId, now), grants[1..];
      RefusesFirst(ms, grants, newId, now);
      if FirstMatch(ms, grants[0]).Some? || Grantable(grants[0]) {
        GrantsRefusedExactly(next, rest, newId, now);
        forall i | 0 <= i < |rest|
          ensures Refuses(ms, grants, newId, now, i + 1) <==> Refuses(next, rest, newId, now, i)
        {
          RefusesLater(ms, grants, newId, now, i);
        }
        if i :| 0 <= i < |rest| && Refuses(next, rest, newId, now, i) {
          assert Refuses(ms, grants, newId, now, i + 1);
        }
        if i :| 0 <= i < |grants| && Refuses(ms, grants, newId, now, i) {
          assert i > 0 && Refuses(next, rest, newId, now, i - 1);
        }
      }
    } else {
      assert ApplyGrants(ms, grants, newId, now) == GrantsOutcome(ms, [], [], false);
    }
  }

  /** The `i`-th grant has a blank field, and none of the records before its turn fits it. */
  predicate Refuses(ms: seq<Membership>, grants: seq<Grant>, newId: nat -> string, now: string, i: nat)
    requires i < |grants|
  {
    var g := grants[i];
    && (Strip(g.actorId) == "" || Strip(g.roleId) == "" || Strip(g.grantedBy) == "" || Strip(g.basis) == "")
    && FirstMatch(ApplyGrants(ms, grants[..i], newId, now).ms, g).None?
  }

  lemma RefusesFirst(ms: seq<Membership>, grants: seq<Grant>, newId: nat -> string, now: string)
    requires grants != []
    ensures Refuses(ms, grants, newId, now, 0) <==> FirstMatch(ms, grants[0]).None? && !Grantable(grants[0])
    ensures ApplyGrants(ms, grants, newId, now).raised
            <==> || Refuses(ms, grants, newId, now, 0)
                 || ApplyGrants(AfterFirst(ms, grants[0], newId, now), grants[1..], newId, now).raised
  {
    hide FirstMatch;
    assert ApplyGrants(ms, grants[..0], newId, now).ms == ms;
  }

  lemma RefusesLater(ms: seq<Membership>, grants: seq<Grant>, newId: nat -> string, now: string, i: nat)
    requires i + 1 < |grants| && (FirstMatch(ms, grants[0]).Some? || Grantable(grants[0]))
    ensures Refuses(ms, grants, newId, now, i + 1)
            <==> Refuses(AfterFirst(ms, grants[0], newId, now), grants[1..], newId, now, i)
  {
    hide FirstMatch, Grantable, AfterFirst, ApplyGrants;
    PrefixUnfold(ms, grants, newId, now, i);
  }

  /** The record of the actor is refused when it is his first and a field is blank or the kind unknown. */
  predicate Unfit(a: Actor) {
    || Strip(a.actorId) == "" || Strip(a.displayName) == ""
    || (a.kind != "human" && a.kind != "agent" && a.kind != "service")
  }

  /** An unfit actor comes up who is neither on record nor earlier in the plan. */
  predicate RefusesActor(ids: seq<Identity>, actors: seq<Actor>, i: nat)
    requires i < |actors|
  {
    && Unfit(actors[i]) && (forall k :: 0 <= k < |ids| ==> ids[k].actor.actorId != actors[i].actorId)
    && forall j :: 0 <= j < i ==> actors[j].actorId != actors[i].actorId
  }

  lemma {:induction false} ActorsRefusedExactly(ids: seq<Identity>, actors: seq<Actor>, now: string)
    ensures ApplyActors(ids, actors, now).raised <==> exists i :: 0 <= i < |actors| && RefusesActor(ids, actors, i)
    decreases |actors|
  {
    if actors != [] {
      var a, rest := actors[0], actors[1..];
      if Known(ids, a.actorId) || Registrable(a) {
        var next := if Known(ids, a.actorId) then ids else ids + [Identity(a, now)];
        if !Known(ids, a.actorId) {
          WithoutUnknown(ids, a.actorId);
        }
        assert ApplyActors(ids, actors, now).raised == ApplyActors(next, rest, now).raised;
        hide ApplyActors, RefusesActor, Registrable;
        ActorsRefusedExactly(next, rest, now);
        RefusesActorFirst(ids, actors);
        forall i | 0 <= i < |rest| ensures RefusesActor(ids, actors, i + 1) <==> RefusesActor(next, rest, i) {
          RefusesActorLater(ids, actors, now, i);
        }
        if i :| 0 <= i < |rest| && RefusesActor(next, rest, i) {
          assert RefusesActor(ids, actors, i + 1);
        }
        if i :| 0 <= i < |actors| && RefusesActor(ids, actors, i) {
          assert i > 0 && RefusesActor(next, rest, i - 1);
        }
      } else {
        assert RefusesActor(ids, actors, 0);
      }
    }
  }

  lemma RefusesActorFirst(ids: seq<Identity>, actors: seq<Actor>)
    requires actors != [] && (Known(ids, actors[0].actorId) || Registrable(actors[0]))
    ensures !RefusesActor(ids, actors, 0)
  {}

  lemma RefusesActorLater(ids: seq<Identity>, actors: seq<Actor>, now: string, i: nat)
    requires i + 1 < |actors|
    ensures var next := if Known(ids, actors[0].actorId) then ids else ids + [Identity(actors[0], now)];
            RefusesActor(ids, actors, i + 1) <==> RefusesActor(next, actors[1..], i)
  {
    var next := if Known(ids, actors[0].actorId) then ids else ids + [Identity(actors[0], now)];
    assert forall j :: 0 <= j < i ==> actors[1..][j] == actors[j + 1];
    assert forall k :: 0 <= k < |ids| ==> next[k] == ids[k];
    if RefusesActor(next, actors[1..], i) {
      forall j | 0 <= j < i + 1 ensures actors[j].actorId != actors[i + 1].actorId {
        if j > 0 {
          assert actors[1..][j - 1] == actors[j];
        } else if !Known(ids, actors[0].actorId) {
          assert next[|ids|].actor == actors[0];
        }
      }
    }
  }

  /** What a plan reports as existing are the ids of the records its grants found when their turn came. */
  lemma {:induction false} ExistingWereFound(ms: seq<Membership>, grants: seq<Grant>, newId: nat -> string,
                                             now: string, k: nat)
    requires k < |ApplyGrants(ms, grants, newId, now).existing|
    ensures exists i ::
              0 <= i < |grants| && FoundAs(ms, grants, newId, now, i, ApplyGrants(ms, grants, newId, now).existing[k])
    decreases |grants|
  {
    assert grants != [];
    hide FirstMatch, Grantable, AfterFirst, ApplyGrants, FoundAs;
    var next, rest := AfterFirst(ms, grants[0], newId, now), grants[1..];
    var existing := ApplyGrants(ms, grants, newId, now).existing;
    ExistingUnfold(ms, grants, newId, now);
    if FirstMatch(ms, grants[0]).Some? && k == 0 {
      FoundFirst(ms, grants, newId, now);
      assert existing[k] == FirstMatch(ms, grants[0]).value.assignmentId;
      assert FoundAs(ms, grants, newId, now, 0, existing[k]);
    } else {
      var k' := if FirstMatch(ms, grants[0]).Some? then k - 1 else k;
      var later := ApplyGrants(next, rest, newId, now).existing;
      assert existing[k] == later[k'];
      ExistingWereFound(next, rest, newId, now, k');
      var i :| 0 <= i < |rest| && FoundAs(next, rest, newId, now, i, existing[k]);
      FoundLater(ms, grants, newId, now, i, existing[k]);
    }
  }

  lemma FoundFirst(ms: seq<Membership>, grants: seq<Grant>, newId: nat -> string, now: string)
    requires grants != [] && FirstMatch(ms, grants[0]).Some?
    ensures FoundAs(ms, grants, newId, now, 0, FirstMatch(ms, grants[0]).value.assignmentId)
  {
    hide FirstMatch;
    assert ApplyGrants(ms, grants[..0], newId, now).ms == ms;
  }

  lemma FoundLater(ms: seq<Membership>, grants: seq<Grant>, newId: nat -> string, now: string, i: nat, id: string)
    requires i + 1 < |grants| && (FirstMatch(ms, grants[0]).Some? || Grantable(grants[0]))
    requires FoundAs(AfterFirst(ms, grants[0], newId, now), grants[1..], newId, now, i, id)
    ensures FoundAs(ms, grants, newId, now, i + 1, id)
  {
    hide FirstMatch, Grantable, AfterFirst, ApplyGrants;
    PrefixUnfold(ms, grants, newId, now, i);
  }

  lemma ExistingUnfold(ms: seq<Membership>, grants: seq<Grant>, newId: nat -> string, now: string)
    requires grants != []
    ensures var rest := ApplyGrants(AfterFirst(ms, grants[0], newId, now), grants[1..], newId, now);
            ApplyGrants(ms, grants, newId, now).existing ==
            match FirstMatch(ms, grants[0])
            case Some(m) => [m.assignmentId] + rest.existing
            case None => if Grantable(grants[0]) then rest.existing else []
  {
    hide FirstMatch, Grantable;
  }

  predicate FoundAs(ms: seq<Membership>, grants: seq<Grant>, newId: nat -> string, now: string, i: nat, id: string)
    requires i < |grants|
  {
    var m := FirstMatch(ApplyGrants(ms, grants[..i], newId, now).ms, grants[i]);
    m.Some? && m.value.assignmentId == id
  }

  // ----- the method

  datatype Report =
    | Applied(actorsCreated: seq<Identity>, actorsExisting: seq<string>,
              membershipsCreated: seq<Membership>, membershipsExisting: seq<string>)
    | PlanRaised

  class Directory {
    var identities: seq<Identity>
    var memberships: seq<Membership>

    method ApplyProvisioningPlan(plan: Plan, newId: nat -> string, now: string) returns (report: Report)
      modifies this
      ensures var a := ApplyActors(old(identities), plan.actors, now);
              && identities == a.ids
              && if a.raised then memberships == old(memberships) && report == PlanRaised
                 else
                   var g := ApplyGrants(old(memberships), plan.memberships, newId, now);
                   && memberships == g.ms
                   && report == if g.raised then PlanRaised else Applied(a.created, a.existing, g.created, g.existing)
    {
      hide Registrable, Known, Without, FirstMatch, Grantable;
      ghost var a := ApplyActors(identities, plan.actors, now);
      var actorsCreated: seq<Identity>, actorsExisting: seq<string> := [], [];
      for i := 0 to |plan.actors|
        invariant memberships == old(memberships)
        invariant var rest := ApplyActors(identities, plan.actors[i..], now);
                  a == ActorsOutcome(
                    rest.ids, actorsCreated + rest.created, actorsExisting + rest.existing, rest.raised)
      {
        var actor := plan.actors[i];
        assert plan.actors[i..][0] == actor && plan.actors[i..][1..] == plan.actors[i + 1..];
        if Known(identities, actor.actorId) {
          actorsExisting := actorsExisting + [actor.actorId];
        } else if !Registrable(actor) {
          return PlanRaised;
        } else {
          var identity := Identity(actor, now);
          identities := Without(identities, actor.actorId) + [identity];
          actorsCreated := actorsCreated + [identity];
        }
      }
      report := GrantAll(plan, newId, now, actorsCreated, actorsExisting);
    }

    method GrantAll(plan: Plan, newId: nat -> string, now: string, actorsCreated: seq<Identity>,
            actorsExisting: seq<string>)
      returns (report: Report)
      modifies this`memberships
      ensures var g := ApplyGrants(old(memberships), plan.memberships, newId, now);
              && memberships == g.ms
              && report == if g.raised then PlanRaised
                else Applied(actorsCreated, actorsExisting, g.created, g.existing)
    {
      hide FirstMatch, Grantable;
      ghost var g := ApplyGrants(memberships, plan.memberships, newId, now);
      var membershipsCreated: seq<Membership>, membershipsExisting: seq<string> := [], [];
      for i := 0 to |plan.memberships|
        invariant var rest := ApplyGrants(memberships, plan.memberships[i..], newId, now);
                  g == GrantsOutcome(
                    rest.ms, membershipsCreated + rest.created, membershipsExisting + rest.existing, rest.raised)
      {
        var grant := plan.memberships[i];
        assert plan.memberships[i..][0] == grant && plan.memberships[i..][1..] == plan.memberships[i + 1..];
        var existing := FirstMatch(memberships, grant);
        if existing.Some? {
          membershipsExisting := membershipsExisting + [existing.value.assignmentId];
        } else if !Grantable(grant) {
          return PlanRaised;
        } else {
          var m := Membership(newId(|memberships|), grant, None, true, now);
          memberships := memberships + [m];
          membershipsCreated := membershipsCreated + [m];
        }
      }
      return Applied(actorsCreated, actorsExisting, membershipsCreated, membershipsExisting);
    }
  }
}
