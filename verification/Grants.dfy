/** Reconciling role memberships and replication slots. */
module Grants {
  import opened Options
  import opened Catalog
  import opened Desired
  import opened Progress
  import opened Statements
  import opened Servers
  import opened Obstacles
  import Roles

  /** The grant can make this membership: neither it nor its roles are Absent. */
  predicate Makes(g: Grant, e: Edge) {
    EdgeOf(g) == e && g.state != Absent && g.granted.state != Absent && g.grantee.state != Absent
  }

  /** The membership was there, or one of the first grants of the list can make it. */
  predicate Backed(grants: seq<Grant>, start: set<Edge>, e: Edge, upto: nat) {
    e in start || exists j :: 0 <= j < upto && j < |grants| && Makes(grants[j], e)
  }

  /** Every grant that is not Absent is of a membership that was there or can be made by then. */
  predicate AllBacked(grants: seq<Grant>, start: set<Edge>, upto: nat) {
    forall i :: 0 <= i < upto && i < |grants| && grants[i].state != Absent ==>
        Backed(grants, start, EdgeOf(grants[i]), i + 1)
  }

  /** The membership and both its roles are there. */
  ghost predicate GrantHeld(w: World, d: Spec, c: Catalog, g: Grant) {
    && Held(w, d, c, Member(EdgeOf(g)))
    && Held(w, d, c, RoleExists(g.granted.name))
    && Held(w, d, c, RoleExists(g.grantee.name))
  }

  lemma GrantHeldStable(w: World, d: Spec, a: Catalog, b: Catalog)
    requires Between(w, d, a, b, true)
    ensures forall g :: GrantHeld(w, d, a, g) ==> GrantHeld(w, d, b, g)
  {
    HeldStable(w, d, a, b);
  }

  /** A granted role must not be Absent; it is created if it is missing. */
  method EnsureRole(s: Server, ghost d: Spec, r: Role) returns (ok: bool)
    requires Wf(s.w, s.cat) && NamesRole(d, r.name)
    modifies s`cat, s`trace
    ensures Advance(s.w, d, old(s.State()), s.State(), ok)
    ensures Roles.OnlyRoles(old(s.cat), s.cat)
    ensures ok ==> r.state != Absent && r.name in s.cat.roles && r.name != ""
    ensures s.reliable && !ok ==> r.state == Absent || r.name == ""
  {
    if r.state == Absent {
      AdvanceRefl(s.w, d, s.State(), false);
      return false;
    }
    ok := Roles.Create(s, r.name, r.state);
    Roles.CreateAdvances(s.w, d, true, r.name, old(s.State()), s.State(), ok);
  }

  method GrantMembership(s: Server, ghost d: Spec, g: Grant) returns (ok: bool)
    requires Wf(s.w, s.cat) && g in d.grants
    modifies s`cat, s`trace
    ensures Advance(s.w, d, old(s.State()), s.State(), ok)
    ensures ok && g.state != Absent ==> GrantHeld(s.w, d, s.cat, g)
    ensures ok && g.state != Absent ==> EdgeOf(g) in s.cat.members
    ensures forall e :: e in s.cat.members ==> e in old(s.cat).members || Makes(g, e)
    ensures s.cat.dbs == old(s.cat).dbs && s.cat.slots == old(s.cat).slots
    ensures ok ==> s.cat.members == old(s.cat).members + if g.state == Absent then {} else {EdgeOf(g)}
    ensures ok ==> !GrantBlocked(g, old(s.cat).members)
    ensures s.reliable && !ok ==> GrantBlocked(g, old(s.cat).members)
  {
    hide Wf, Between, Legal;
    AdvanceRefl(s.w, d, s.State(), true);
    if g.state == Absent {
      return true;
    }
    var e := EdgeOf(g);
    GrantIsDemanded(d, g);
    var asked, exists_ := s.Ask(e in s.cat.members);
    if !asked {
      AdvanceRefl(s.w, d, s.State(), false);
      return false;
    }
    if exists_ {
      GrantThere(s.w, d, s.cat, g);
      return true;
    }
    ok := EnsureRole(s, d, g.granted);
    if !ok {
      return;
    }
    ghost var first := s.State();
    ok := EnsureRole(s, d, g.grantee);
    AdvanceTrans(s.w, d, old(s.State()), first, s.State(), ok);
    if !ok {
      return;
    }
    ExistenceStays(s.w, d, first.cat, s.cat, true);
    ghost var second := s.State();
    // the source checks the granted role once more and ignores the outcome
    var ignored := Roles.Create(s, g.granted.name, g.granted.state);
    assert s.State() == second;
    ok := s.Exec(GrantRole(g.granted.name, g.grantee.name));
    GrantSound(s.w, d, second.cat, g.granted.name, g.grantee.name);
    AttemptAdvances(s.w, d, true, GrantRole(g.granted.name, g.grantee.name), second, s.State(), ok);
    AdvanceTrans(s.w, d, old(s.State()), second, s.State(), ok);
    if ok {
      GrantThere(s.w, d, s.cat, g);
    }
  }

  lemma GrantThere(w: World, d: Spec, c: Catalog, g: Grant)
    requires Wf(w, c) && g in d.grants && g.state != Absent && EdgeOf(g) in c.members
    ensures GrantHeld(w, d, c, g)
  {
    GrantIsDemanded(d, g);
  }

  lemma GrantIsDemanded(d: Spec, g: Grant)
    requires g in d.grants && g.state != Absent
    ensures GrantDemanded(d, EdgeOf(g)) && NamesRole(d, g.granted.name) && NamesRole(d, g.grantee.name)
  {
    var i :| 0 <= i < |d.grants| && d.grants[i] == g;
    assert GrantDemanded(d, EdgeOf(g));
    assert GrantNames(d, g.granted.name) && GrantNames(d, g.grantee.name);
  }

  /** The memberships that are there after the first grants of the list. */
  ghost predicate BackedUpto(grants: seq<Grant>, start: set<Edge>, now: set<Edge>, upto: nat) {
    AllBacked(grants, start, upto) && forall e :: e in now ==> Backed(grants, start, e, upto)
  }

  lemma NoneNeedBacking(grants: seq<Grant>, start: set<Edge>)
    ensures BackedUpto(grants, start, start, 0)
  {
  }

  lemma BackedNext(grants: seq<Grant>, start: set<Edge>, before: set<Edge>, after: set<Edge>, i: nat)
    requires i < |grants| && BackedUpto(grants, start, before, i)
    requires forall e :: e in after ==> e in before || Makes(grants[i], e)
    requires grants[i].state != Absent ==> EdgeOf(grants[i]) in after
    ensures BackedUpto(grants, start, after, i + 1)
  {
    hide Makes;
    forall e | e in after ensures Backed(grants, start, e, i + 1) {
      if e in before { assert Backed(grants, start, e, i); }
    }
    hide Backed;
    forall j | 0 <= j < i + 1 && j < |grants| && grants[j].state != Absent
      ensures Backed(grants, start, EdgeOf(grants[j]), j + 1)
    {
      assert j == i ==> EdgeOf(grants[j]) in after;
    }
  }

  lemma MembersNext(ms: set<Edge>, grants: seq<Grant>, i: nat)
    requires i < |grants|
    ensures MembersUpto(ms, grants, i + 1)
        == MembersUpto(ms, grants, i) + if grants[i].state == Absent then {} else {EdgeOf(grants[i])}
    ensures MembersUpto(ms, grants, 0) == ms
  {
    assert grants[..i + 1] == grants[..i] + [grants[i]];
  }

  /**
   The grants, in list order, stopping at the first error: exactly at one that is blocked by then, if the
   server is reliable.
   */
  method ReconcileAll(s: Server, ghost d: Spec, grants: seq<Grant>) returns (ok: bool)
    requires Wf(s.w, s.cat) && grants == d.grants
    modifies s`cat, s`trace
    ensures Advance(s.w, d, old(s.State()), s.State(), ok)
    ensures s.cat.dbs == old(s.cat).dbs && s.cat.slots == old(s.cat).slots
    ensures ok ==> forall i :: 0 <= i < |grants| && grants[i].state != Absent ==> GrantHeld(s.w, d, s.cat, grants[i])
    ensures ok ==> AllBacked(grants, old(s.cat).members, |grants|)
    ensures ok ==> !SomeGrantBlocked(old(s.cat).members, grants)
    ensures ok ==> s.cat.members == MembersUpto(old(s.cat).members, grants, |grants|)
    ensures s.reliable && !ok ==> SomeGrantBlocked(old(s.cat).members, grants)
  {
    hide Wf, Between, Legal, GrantHeld, Makes, Backed, AllBacked, BackedUpto, MembersUpto, GrantBlocked;
    AdvanceRefl(s.w, d, s.State(), true);
    NoneNeedBacking(grants, s.cat.members);
    if grants != [] { MembersNext(s.cat.members, grants, 0); } else { NoGrants(s.cat.members); }
    for i := 0 to |grants|
      invariant Advance(s.w, d, old(s.State()), s.State(), true)
      invariant s.cat.dbs == old(s.cat).dbs && s.cat.slots == old(s.cat).slots
      invariant forall j :: 0 <= j < i && grants[j].state != Absent ==> GrantHeld(s.w, d, s.cat, grants[j])
      invariant BackedUpto(grants, old(s.cat).members, s.cat.members, i)
      invariant s.cat.members == MembersUpto(old(s.cat).members, grants, i)
      invariant forall j :: 0 <= j < i ==> !GrantBlocked(grants[j], MembersUpto(old(s.cat).members, grants, j))
    {
      ghost var before := s.State();
      ok := GrantMembership(s, d, grants[i]);
      AdvanceTrans(s.w, d, old(s.State()), before, s.State(), ok);
      if !ok {
        return;
      }
      GrantHeldStable(s.w, d, before.cat, s.cat);
      BackedNext(grants, old(s.cat).members, before.cat.members, s.cat.members, i);
      MembersNext(old(s.cat).members, grants, i);
    }
    BackedAll(grants, old(s.cat).members, s.cat.members);
    return true;
  }

  lemma NoGrants(ms: set<Edge>)
    ensures MembersUpto(ms, [], 0) == ms
  {
  }

  lemma BackedAll(grants: seq<Grant>, start: set<Edge>, now: set<Edge>)
    requires BackedUpto(grants, start, now, |grants|)
    ensures AllBacked(grants, start, |grants|)
  {
  }

  method CreateSlotIfMissing(s: Server, ghost d: Spec, n: Name, state: State) returns (ok: bool)
    requires Wf(s.w, s.cat) && n in d.slots && d.slots[n] == state
    modifies s`cat, s`trace
    ensures Advance(s.w, d, old(s.State()), s.State(), ok)
    ensures ok ==> Held(s.w, d, s.cat, SlotExists(n))
    ensures forall x :: x != n ==> (x in s.cat.slots <==> x in old(s.cat).slots)
    ensures ok ==> !SlotBlocked(d, old(s.cat), n)
    ensures s.reliable && !ok ==> SlotBlocked(d, old(s.cat), n)
  {
    if state == Absent {
      AdvanceRefl(s.w, d, s.State(), true);
      return true;
    }
    var asked, exists_ := s.Ask(n in s.cat.slots);
    ok := asked;
    if asked && !exists_ {
      ok := s.Exec(CreateSlot(n));
    }
    CreateSlotSound(s.w, d, old(s.cat), n);
    AttemptAdvances(s.w, d, n !in old(s.cat).slots, CreateSlot(n), old(s.State()), s.State(), ok);
  }

  method ReconcileSlots(s: Server, ghost d: Spec, slots: map<Name, State>) returns (ok: bool)
    requires Wf(s.w, s.cat) && slots == d.slots
    modifies s`cat, s`trace
    ensures Advance(s.w, d, old(s.State()), s.State(), ok)
    ensures ok ==> forall n :: n in slots ==> Held(s.w, d, s.cat, SlotExists(n))
    ensures ok ==> forall n :: !SlotBlocked(d, old(s.cat), n)
    ensures s.reliable && !ok ==> exists n :: SlotBlocked(d, old(s.cat), n)
  {
    hide Wf, Between, Legal, Held;
    var order := InSomeOrder(slots.Keys);
    AdvanceRefl(s.w, d, s.State(), true);
    for i := 0 to |order|
      invariant Advance(s.w, d, old(s.State()), s.State(), true)
      invariant forall j :: 0 <= j < i ==> Held(s.w, d, s.cat, SlotExists(order[j]))
      invariant forall j :: 0 <= j < i ==> !SlotBlocked(d, old(s.cat), order[j])
      invariant forall j :: i <= j < |order| ==> (order[j] in s.cat.slots <==> order[j] in old(s.cat).slots)
    {
      ghost var before := s.State();
      assert order[i] in slots;
      ok := CreateSlotIfMissing(s, d, order[i], slots[order[i]]);
      assert SlotBlocked(d, before.cat, order[i]) <==> SlotBlocked(d, old(s.cat), order[i]);
      AdvanceTrans(s.w, d, old(s.State()), before, s.State(), ok);
      if !ok {
        return;
      }
      HeldStable(s.w, d, before.cat, s.cat);
    }
    return true;
  }
}
