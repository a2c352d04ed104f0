/** What a configuration contributes to the tables of roles and grants. */
module Plans {
  import opened Options
  import opened Catalog
  import opened Desired
  import opened Servers
  import opened Handlers
  import opened OptionMaps

  datatype UserConfig = UserConfig(
    auth: string,
    baseDN: string,
    filter: string,
    memberOf: seq<Name>,
    options: seq<string>,
    expiry: Option<int>,
    password: string,
    state: State)
  datatype RoleConfig = RoleConfig(options: seq<string>, memberOf: seq<Name>, state: State)
  datatype Config = Config(roles: map<Name, RoleConfig>, users: map<Name, UserConfig>, databases: map<Name, Database>)

  /** What an LDAP search gave: the base group's name, and the members its membership tree lists. */
  datatype Group = Group(name: Name, members: set<Name>)

  // ----- what a plan says, without its bookkeeping -----

  datatype Plan = Plan(names: set<Name>, keys: set<(Name, RoleOption)>, edges: set<Edge>)

  const NOTHING := Plan({}, {}, {})

  function Join(a: Plan, b: Plan): Plan { Plan(a.names + b.names, a.keys + b.keys, a.edges + b.edges) }

  function PlanOf(roles: map<Name, Role>, grants: seq<Grant>): Plan {
    Plan(roles.Keys,
         set n, o | n in roles && o in roles[n].options :: (n, o),
         set g | g in grants && g.state == Present :: EdgeOf(g))
  }

  function Keyed(n: Name, options: set<RoleOption>): set<(Name, RoleOption)> { set o | o in options :: (n, o) }

  function Granted(n: Name, memberOf: seq<Name>): Plan {
    Plan((set g | g in memberOf) + (if memberOf == [] then {} else {n}), {}, set g | g in memberOf :: Edge(n, g))
  }

  /** Every role is Present, with valid options stripped of NO and neither password nor expiry. */
  ghost predicate Clean(roles: map<Name, Role>) { forall n :: n in roles ==> CleanRole(roles[n]) }

  ghost predicate CleanRole(r: Role) { r.state == Present && Normal(r.options) && r.password == "" && r.expiry == None }

  /** Every role is stored under its own name. */
  ghost predicate Named(roles: map<Name, Role>) { forall n :: n in roles ==> roles[n].name == n }

  // ----- tables that are being filled -----

  datatype Draft = Draft(roles: map<Name, Role>, grants: seq<Grant>)

  /** Every role is stored under its own name or under none. */
  ghost predicate NamedOrNot(roles: map<Name, Role>) {
    forall n :: n in roles ==> roles[n].name == n || roles[n].name == ""
  }

  function Unnamed(roles: map<Name, Role>): set<Name> { set n | n in roles && roles[n].name != n }

  /** A grant of or to a role without a name. */
  ghost predicate Nameless(grants: seq<Grant>) {
    exists g :: g in grants && g.state == Present && (g.grantee.name == "" || g.granted.name == "")
  }

  /** No run can succeed: some role would have to be created, or granted, under the empty name. */
  ghost predicate Spoiled(a: Draft) { "" in a.roles || Nameless(a.grants) }

  /**
   From a to b these roles were stored without a name, these names were looked up, and this was planned.
   Looking up a role without a name spoils the tables, and nothing else does but the empty name.
   */
  ghost predicate Extends(a: Draft, b: Draft, stored: set<Name>, looked: set<Name>, p: Plan) {
    NamedOrNot(a.roles) ==>
      && NamedOrNot(b.roles) && Unnamed(b.roles) == Unnamed(a.roles) + stored
      && b.roles.Keys + {""} == a.roles.Keys + p.names + {""}
      && (looked !! Unnamed(b.roles) ==> PlanOf(b.roles, b.grants) == Join(PlanOf(a.roles, a.grants), p))
      && (Spoiled(b) <==> Spoiled(a) || !(looked !! Unnamed(b.roles) + {""}))
  }

  lemma ExtendsNot(a: Draft)
    ensures Extends(a, a, {}, {}, NOTHING)
  {
  }

  lemma ExtendsTrans(a: Draft, b: Draft, c: Draft, stored: set<Name>, looked: set<Name>, p: Plan,
                     looked': set<Name>, p': Plan)
    requires Extends(a, b, stored, looked, p) && Extends(b, c, {}, looked', p')
    ensures Extends(a, c, stored, looked + looked', Join(p, p'))
  {
    hide PlanOf, Spoiled, Unnamed;
    if NamedOrNot(a.roles) {
      assert Unnamed(c.roles) == Unnamed(b.roles);
      JoinAssoc(PlanOf(a.roles, a.grants), p, p');
    }
  }

  /** The same for steps that store nothing and look up all they name. */
  lemma ExtendsNext(a: Draft, b: Draft, c: Draft, p: Plan, p': Plan, q: Plan)
    requires Extends(a, b, {}, p.names, p) && Extends(b, c, {}, p'.names, p') && Join(p, p') == q
    ensures Extends(a, c, {}, q.names, q)
  {
    hide Extends;
    ExtendsTrans(a, b, c, {}, p.names, p, p'.names, p');
  }

  /** Where no role is nameless, none becomes so, and the plan grows by exactly this. */
  lemma NamedExtends(a: Draft, b: Draft, looked: set<Name>, p: Plan)
    requires Named(a.roles) && Extends(a, b, {}, looked, p)
    ensures Named(b.roles) && PlanOf(b.roles, b.grants) == Join(PlanOf(a.roles, a.grants), p)
    ensures Spoiled(b) <==> Spoiled(a) || "" in looked
  {
    hide PlanOf, Join, Spoiled, Named;
    NamedIff(a.roles);
    NamedIff(b.roles);
  }

  lemma NamedIff(roles: map<Name, Role>)
    ensures Named(roles) <==> Unnamed(roles) == {}
    ensures Named(roles) ==> NamedOrNot(roles)
  {
    if Unnamed(roles) == {} {
      forall n | n in roles ensures roles[n].name == n { assert n !in Unnamed(roles); }
    }
  }

  lemma SpoiledNext(a: Draft, g: Grant)
    requires g.state == Present
    ensures Nameless(a.grants + [g]) <==> Nameless(a.grants) || g.grantee.name == "" || g.granted.name == ""
  {
    var more := a.grants + [g];
    assert forall x :: x in more <==> x in a.grants || x == g;
    if g.grantee.name == "" || g.granted.name == "" { assert g in more; }
    if Nameless(a.grants) {
      var x :| x in a.grants && x.state == Present && (x.grantee.name == "" || x.granted.name == "");
      assert x in more;
    }
  }

  // ----- what each entry of the configuration contributes -----

  function AbsoluteOf(options: seq<string>): set<RoleOption> { set o | o in options :: Absolute(o) }

  /** The memberships of an entry are planned only if it is Present. */
  function MemberOf(n: Name, memberOf: seq<Name>, state: State): Plan {
    if state == Present then Granted(n, memberOf) else NOTHING
  }

  function RolePlan(n: Name, c: RoleConfig): Plan {
    Join(Plan({n}, Keyed(n, AbsoluteOf(c.options)), {}), MemberOf(n, c.memberOf, c.state))
  }

  function PlainUserPlan(n: Name, c: UserConfig): Plan {
    Join(Plan({n}, Keyed(n, AbsoluteOf(c.options) + {LOGIN}), {}), MemberOf(n, c.memberOf, c.state))
  }

  function MembersPlan(group: Name, members: set<Name>, options: set<RoleOption>): Plan {
    Plan(members, set m, o | m in members && o in options :: (m, o), set m | m in members :: Edge(m, group))
  }

  /** The group under its LDAP name, the memberships of the entry, and every listed member below the group. */
  function GroupPlan(n: Name, c: UserConfig, group: Group): Plan {
    Join(Join(Plan({group.name}, Keyed(group.name, AbsoluteOf(c.options)), {}),
              MemberOf(n, c.memberOf, c.state)),
         MembersPlan(group.name, group.members, AbsoluteOf(c.options) + {LOGIN}))
  }

  function UserPlan(n: Name, c: UserConfig, ldap: map<Name, Group>): Plan {
    if c.auth != "ldap-group" then PlainUserPlan(n, c)
    else if n in ldap then GroupPlan(n, c, ldap[n])
    else NOTHING
  }

  function DatabasePlan(n: Name, d: Database): Plan {
    if d.state == Absent then NOTHING
    else Plan({OwnerName(n, d), n + "_readonly", n + "_readwrite", "opex"}, {(OwnerName(n, d), CREATEDB)},
        {Edge("opex", n + "_readwrite")})
  }

  /** The joined contributions of some entries. */
  ghost function RolePlans(done: set<Name>, roles: map<Name, RoleConfig>): Plan {
    Plan(set r, n | r in done && r in roles && n in RolePlan(r, roles[r]).names :: n,
         set r, k | r in done && r in roles && k in RolePlan(r, roles[r]).keys :: k,
         set r, e | r in done && r in roles && e in RolePlan(r, roles[r]).edges :: e)
  }

  ghost function UserPlans(done: set<Name>, users: map<Name, UserConfig>, ldap: map<Name, Group>): Plan {
    Plan(set r, n | r in done && r in users && n in UserPlan(r, users[r], ldap).names :: n,
         set r, k | r in done && r in users && k in UserPlan(r, users[r], ldap).keys :: k,
         set r, e | r in done && r in users && e in UserPlan(r, users[r], ldap).edges :: e)
  }

  ghost function DatabasePlans(done: set<Name>, databases: map<Name, Database>): Plan {
    Plan(set r, n | r in done && r in databases && n in DatabasePlan(r, databases[r]).names :: n,
         set r, k | r in done && r in databases && k in DatabasePlan(r, databases[r]).keys :: k,
         set r, e | r in done && r in databases && e in DatabasePlan(r, databases[r]).edges :: e)
  }

  lemma JoinAssoc(a: Plan, b: Plan, c: Plan)
    ensures Join(Join(a, b), c) == Join(a, Join(b, c))
  {
  }

  lemma JoinNothing(a: Plan)
    ensures Join(a, NOTHING) == a && Join(NOTHING, a) == a
  {
  }

  lemma RolePlansStep(done: set<Name>, n: Name, roles: map<Name, RoleConfig>)
    requires n in roles
    ensures Join(RolePlans(done, roles), RolePlan(n, roles[n])) == RolePlans(done + {n}, roles)
  {
    hide RolePlan;
  }

  lemma NoRolePlans(roles: map<Name, RoleConfig>)
    ensures RolePlans({}, roles) == NOTHING
  {
  }

  lemma NoDatabasePlans(databases: map<Name, Database>)
    ensures DatabasePlans({}, databases) == NOTHING
  {
  }

  /** The next user entry contributes what its own group gives; earlier contributions do not change. */
  lemma UserPlansStep(done: set<Name>, n: Name, users: map<Name, UserConfig>, ldap: map<Name, Group>, group: Group)
    requires n in users && n !in done
    ensures var more := if users[n].auth == "ldap-group" then ldap[n := group] else ldap;
      Join(UserPlans(done, users, ldap), UserPlan(n, users[n], map[n := group])) == UserPlans(done + {n}, users, more)
  {
    hide UserPlan;
    var more := if users[n].auth == "ldap-group" then ldap[n := group] else ldap;
    UserPlanIs(n, users[n], map[n := group], more);
    forall r | r in done && r in users ensures UserPlan(r, users[r], ldap) == UserPlan(r, users[r], more) {
      UserPlanIs(r, users[r], ldap, more);
    }
  }

  lemma UserPlanIs(n: Name, c: UserConfig, ldap: map<Name, Group>, more: map<Name, Group>)
    requires c.auth == "ldap-group" ==> (n in ldap <==> n in more) && (n in ldap ==> ldap[n] == more[n])
    ensures UserPlan(n, c, ldap) == UserPlan(n, c, more)
  {
    hide GroupPlan, PlainUserPlan;
  }

  lemma DatabasePlansStep(done: set<Name>, n: Name, databases: map<Name, Database>)
    requires n in databases
    ensures Join(DatabasePlans(done, databases), DatabasePlan(n, databases[n])) == DatabasePlans(done + {n}, databases)
  {
    hide DatabasePlan;
  }

  // ----- the moves on the tables -----

  lemma CleanAfterAdd(before: map<Name, Role>, after: map<Name, Role>, r: Role)
    requires Clean(before) && forall o :: o in r.options ==> Validate(o)
    requires after.Keys == before.Keys + {r.name}
    requires IsMergedRole(if r.name in before then before[r.name] else ZERO_ROLE, r, after[r.name])
    requires forall x :: x in before && x != r.name ==> after[x] == before[x]
    ensures Clean(after)
  {
    var stored := if r.name in before then before[r.name] else ZERO_ROLE;
    assert r.name in before ==> CleanRole(before[r.name]);
    MergeIsNormal(stored.options, r.options, after[r.name].options);
  }

  lemma CleanWhenKnown(roles: map<Name, Role>, n: Name)
    requires Clean(roles)
    ensures Clean(roles[n := if n in roles then roles[n] else NewRole(n)])
  {
  }

  /** A role is looked up, changed, and added under the name that was found. */
  lemma MergeExtends(a: Draft, known: map<Name, Role>, after: map<Name, Role>, n: Name, r: Role)
    requires known == a.roles[n := if n in a.roles then a.roles[n] else NewRole(n)] && r.name == known[n].name
    requires after.Keys == known.Keys + {r.name}
    requires IsMergedRole(if r.name in known then known[r.name] else ZERO_ROLE, r, after[r.name])
    requires forall x :: x in known && x != r.name ==> after[x] == known[x]
    ensures Extends(a, Draft(after, a.grants), {}, {n}, Plan({n}, Keyed(n, AbsoluteKeys(r.options.Keys)), {}))
  {
    if NamedOrNot(a.roles) {
      if r.name == n {
        MergeFound(a, known, after, n, r);
      } else {
        MergeNameless(a, known, after, n, r);
      }
    }
  }

  lemma PlanGrows(before: map<Name, Role>, after: map<Name, Role>, grants: seq<Grant>, n: Name, keys: set<RoleOption>)
    requires n in after && after.Keys == before.Keys + {n}
    requires after[n].options.Keys == (if n in before then before[n].options.Keys else {}) + keys
    requires forall x :: x in before && x != n ==> after[x] == before[x]
    ensures PlanOf(after, grants) == Join(PlanOf(before, grants), Plan({n}, Keyed(n, keys), {}))
  {
    var a, b := PlanOf(before, grants), PlanOf(after, grants);
    forall x, o ensures (x, o) in b.keys <==> (x, o) in a.keys || (x, o) in Keyed(n, keys) {
    }
  }

  lemma MergeFound(a: Draft, known: map<Name, Role>, after: map<Name, Role>, n: Name, r: Role)
    requires NamedOrNot(a.roles) && known == a.roles[n := if n in a.roles then a.roles[n] else NewRole(n)]
    requires r.name == n == known[n].name && after.Keys == known.Keys
    requires IsMergedRole(known[n], r, after[n]) && forall x :: x in known && x != n ==> after[x] == known[x]
    ensures Extends(a, Draft(after, a.grants), {}, {n}, Plan({n}, Keyed(n, AbsoluteKeys(r.options.Keys)), {}))
  {
    hide AbsoluteKeys, Nameless, PlanOf, Keyed, Join, Absolute, Enabled;
    PlanGrows(a.roles, after, a.grants, n, AbsoluteKeys(r.options.Keys));
    assert Unnamed(after) == Unnamed(a.roles) && n !in Unnamed(after);
  }

  lemma MergeNameless(a: Draft, known: map<Name, Role>, after: map<Name, Role>, n: Name, r: Role)
    requires NamedOrNot(a.roles) && known == a.roles[n := if n in a.roles then a.roles[n] else NewRole(n)]
    requires r.name == known[n].name != n && after.Keys == known.Keys + {r.name}
    requires after[r.name].name == if r.name in known then known[r.name].name else ""
    requires forall x :: x in known && x != r.name ==> after[x] == known[x]
    ensures forall p: Plan :: p.names == {n} ==> Extends(a, Draft(after, a.grants), {}, {n}, p)
  {
    hide PlanOf, Nameless;
    assert known == a.roles && r.name == "";
    assert Unnamed(after) == Unnamed(a.roles) && n in Unnamed(after);
  }

  lemma GrantExtends(a: Draft, b: Draft, n: Name, granted: Name)
    requires b.roles.Keys == a.roles.Keys + {n, granted}
    requires forall x :: x in b.roles ==> b.roles[x] == if x in a.roles then a.roles[x] else NewRole(x)
    requires b.grants == a.grants + [Desired.Grant(b.roles[n], b.roles[granted], Present)]
    ensures Clean(a.roles) ==> Clean(b.roles)
    ensures Extends(a, b, {}, {n, granted}, Plan({n, granted}, {}, {Edge(n, granted)}))
  {
    hide PlanOf, Join, Nameless;
    var g := Desired.Grant(b.roles[n], b.roles[granted], Present);
    SpoiledNext(a, g);
    GrantPlanned(a, b, {n, granted}, g);
    if NamedOrNot(a.roles) { assert Unnamed(a.roles) == Unnamed(b.roles); }
  }

  lemma GrantPlanned(a: Draft, b: Draft, names: set<Name>, g: Grant)
    requires b.roles.Keys == a.roles.Keys + names && b.grants == a.grants + [g] && g.state == Present
    requires forall x :: x in b.roles ==> b.roles[x] == if x in a.roles then a.roles[x] else NewRole(x)
    ensures PlanOf(b.roles, b.grants) == Join(PlanOf(a.roles, a.grants), Plan(names, {}, {EdgeOf(g)}))
  {
    hide PlanOf;
    PlanKnown(a.roles, b.roles, a.grants, names);
    GrantAppended(b.roles, a.grants, g);
  }

  /** New roles have no options yet. */
  lemma PlanKnown(before: map<Name, Role>, after: map<Name, Role>, grants: seq<Grant>, names: set<Name>)
    requires after.Keys == before.Keys + names
    requires forall x :: x in after ==> after[x] == if x in before then before[x] else NewRole(x)
    ensures PlanOf(after, grants) == Join(PlanOf(before, grants), Plan(names, {}, {}))
  {
    var a, b := PlanOf(before, grants), PlanOf(after, grants);
    forall x, o ensures (x, o) in b.keys <==> (x, o) in a.keys {
    }
  }

  lemma GrantAppended(roles: map<Name, Role>, grants: seq<Grant>, g: Grant)
    requires g.state == Present
    ensures PlanOf(roles, grants + [g]) == Join(PlanOf(roles, grants), Plan({}, {}, {EdgeOf(g)}))
  {
    var more := grants + [g];
    assert forall x :: x in more <==> x in grants || x == g;
    forall e ensures e in PlanOf(roles, more).edges <==> e in PlanOf(roles, grants).edges || e == EdgeOf(g) {
      if e == EdgeOf(g) { assert g in more; }
    }
  }

  /** A member is looked up, merged, and granted the group under the name that was found. */
  lemma MemberExtends(a: Draft, b: Draft, c: Draft, n: Name, options: set<RoleOption>, g: Grant)
    requires Extends(a, b, {}, {n}, Plan({n}, Keyed(n, options), {}))
    requires c == Draft(b.roles, b.grants + [g]) && g.state == Present && g.granted.name != ""
    requires g.grantee.name == if n in a.roles then a.roles[n].name else n
    ensures Extends(a, c, {}, {n}, Plan({n}, Keyed(n, options), {Edge(n, g.granted.name)}))
  {
    SpoiledNext(b, g);
    GrantAppended(b.roles, b.grants, g);
    hide PlanOf, Nameless;
    if NamedOrNot(a.roles) && n !in Unnamed(c.roles) {
      assert g.grantee.name == n;
      assert Join(Join(PlanOf(a.roles, a.grants), Plan({n}, Keyed(n, options), {})), Plan({}, {}, {EdgeOf(g)}))
          == Join(PlanOf(a.roles, a.grants), Plan({n}, Keyed(n, options), {EdgeOf(g)}));
    }
  }

  lemma MembersStep(group: Name, members: set<Name>, options: set<RoleOption>, m: Name)
    ensures Join(MembersPlan(group, members, options), Plan({m}, Keyed(m, options), {Edge(m, group)}))
            == MembersPlan(group, members + {m}, options)
    ensures MembersPlan(group, {}, options) == NOTHING
  {
  }

  lemma NormalStaysNormal(m: OptionMap, opt: RoleOption)
    requires Normal(m) && opt in NORMAL_OPTIONS
    ensures Normal(AddAbsolute(m, opt)) && AddAbsolute(m, opt).Keys == m.Keys + {opt}
    ensures AbsoluteKeys(AddAbsolute(m, opt).Keys) == m.Keys + {opt}
    ensures forall o :: o in AddAbsolute(m, opt) ==> Validate(o)
  {
    NormalOption(opt);
    var keys := m.Keys + {opt};
    forall o | o in keys ensures Absolute(o) == o { NormalOption(o); }
    forall o ensures o in AbsoluteKeys(keys) <==> o in keys {
      if o in keys { assert Absolute(o) == o; }
    }
  }

  // ----- memberships and groups -----

  /** Exactly one Present grant for each, in this order, to the role that is stored for n. */
  ghost predicate Made(before: seq<Grant>, after: seq<Grant>, roles: map<Name, Role>, n: Name, memberOf: seq<Name>) {
    && before <= after && |after| == |before| + |memberOf|
    && forall i :: 0 <= i < |memberOf| ==>
      n in roles && memberOf[i] in roles && after[|before| + i] == Desired.Grant(roles[n], roles[memberOf[i]], Present)
  }

  /** Missing roles are added under their own names; those that are there do not change. */
  ghost predicate OnlyNew(a: map<Name, Role>, b: map<Name, Role>, names: set<Name>) {
    b.Keys == a.Keys + names && forall x :: x in b ==> b[x] == if x in a then a[x] else NewRole(x)
  }

  lemma NoneMade(roles: map<Name, Role>, grants: seq<Grant>, n: Name)
    ensures OnlyNew(roles, roles, Granted(n, []).names) && Made(grants, grants, roles, n, [])
  {
  }

  lemma IsOnlyNew(a: map<Name, Role>, b: map<Name, Role>, names: set<Name>)
    requires b.Keys == a.Keys + names && forall x :: x in b ==> b[x] == if x in a then a[x] else NewRole(x)
    ensures OnlyNew(a, b, names)
  {
  }

  lemma OnlyNewNext(start: map<Name, Role>, roles: map<Name, Role>, roles': map<Name, Role>, n: Name,
                    memberOf: seq<Name>, i: nat)
    requires i < |memberOf| && OnlyNew(start, roles, Granted(n, memberOf[..i]).names)
    requires OnlyNew(roles, roles', {n, memberOf[i]})
    ensures OnlyNew(start, roles', Granted(n, memberOf[..i + 1]).names)
  {
    GrantedStep(n, memberOf, i);
    hide Granted;
  }

  lemma MadeNext(roles: map<Name, Role>, roles': map<Name, Role>, before: seq<Grant>, after: seq<Grant>, n: Name,
                 memberOf: seq<Name>, i: nat)
    requires i < |memberOf| && Made(before, after, roles, n, memberOf[..i])
    requires OnlyNew(roles, roles', {n, memberOf[i]})
    ensures Made(before, after + [Desired.Grant(roles'[n], roles'[memberOf[i]], Present)], roles', n, memberOf[..i + 1])
  {
    var more, part := after + [Desired.Grant(roles'[n], roles'[memberOf[i]], Present)], memberOf[..i + 1];
    forall k | 0 <= k < |part|
      ensures n in roles' && part[k] in roles'
      ensures more[|before| + k] == Desired.Grant(roles'[n], roles'[part[k]], Present)
    {
      if k < i { assert memberOf[..i][k] == part[k]; }
    }
  }

  /** A group is added without being looked up, so one that is not there is stored without a name. */
  lemma GroupExtends(a: Draft, after: map<Name, Role>, r: Role)
    requires r.name != "" && after.Keys == a.roles.Keys + {r.name}
    requires IsMergedRole(if r.name in a.roles then a.roles[r.name] else ZERO_ROLE, r, after[r.name])
    requires forall x :: x in a.roles && x != r.name ==> after[x] == a.roles[x]
    ensures Extends(a, Draft(after, a.grants), {r.name} - a.roles.Keys, {},
                    Plan({r.name}, Keyed(r.name, AbsoluteKeys(r.options.Keys)), {}))
  {
    hide AbsoluteKeys, Nameless, PlanOf, Keyed, Join, Absolute, Enabled;
    PlanGrows(a.roles, after, a.grants, r.name, AbsoluteKeys(r.options.Keys));
    assert NamedOrNot(a.roles) ==> Unnamed(after) == Unnamed(a.roles) + ({r.name} - a.roles.Keys);
  }

  /** Only Present grants are added; and, where all are present, only between roles that are Present. */
  ghost predicate Adds(before: seq<Grant>, after: seq<Grant>, present: bool) {
    && before <= after
    && forall i :: |before| <= i < |after| ==>
      after[i].state == Present && (present ==> after[i].granted.state == Present && after[i].grantee.state == Present)
  }

  lemma AddsNothing(grants: seq<Grant>)
    ensures Adds(grants, grants, true)
  {
  }

  lemma AddsTrans(a: seq<Grant>, b: seq<Grant>, c: seq<Grant>, p: bool, q: bool, r: bool)
    requires Adds(a, b, p) && Adds(b, c, q) && (r ==> p && q)
    ensures Adds(a, c, r)
  {
  }

  /** Roles, users, databases. */
  lemma AddsAll(a: seq<Grant>, b: seq<Grant>, c: seq<Grant>, d: seq<Grant>, groups: bool)
    requires Adds(a, b, true) && Adds(b, c, groups) && Adds(c, d, true)
    ensures Adds(a, d, groups)
  {
    AddsTrans(a, b, c, true, groups, groups);
    AddsTrans(a, c, d, groups, true, groups);
  }

  lemma MadeAdds(before: seq<Grant>, after: seq<Grant>, roles: map<Name, Role>, n: Name, memberOf: seq<Name>)
    requires Made(before, after, roles, n, memberOf) && Clean(roles)
    ensures Adds(before, after, true)
  {
    forall i | |before| <= i < |after|
      ensures after[i].state == Present && after[i].granted.state == Present && after[i].grantee.state == Present
    {
      var k := i - |before|;
      assert memberOf[k] in roles && n in roles;
      assert after[|before| + k] == Desired.Grant(roles[n], roles[memberOf[k]], Present);
      assert CleanRole(roles[n]) && CleanRole(roles[memberOf[k]]);
    }
  }

  lemma InAdds(before: seq<Grant>, after: seq<Grant>, group: Name, state: State)
    requires GrantsIn(after, |before|, group, state) && before <= after
    ensures Adds(before, after, state == Present)
  {
  }

  /** Every LDAP group of the configuration is to be there. */
  predicate GroupsPresent(users: map<Name, UserConfig>) {
    forall n :: n in users && users[n].auth == "ldap-group" ==> users[n].state == Present
  }

  lemma MoreUsers(a: seq<Grant>, b: seq<Grant>, c: seq<Grant>, users: map<Name, UserConfig>, n: Name)
    requires n in users && Adds(a, b, GroupsPresent(users))
    requires Adds(b, c, users[n].auth == "ldap-group" ==> users[n].state == Present)
    ensures Adds(a, c, GroupsPresent(users))
  {
    var p := users[n].auth == "ldap-group" ==> users[n].state == Present;
    AddsTrans(a, b, c, GroupsPresent(users), p, GroupsPresent(users));
  }

  lemma OneCleanGrant(roles: map<Name, Role>, grantee: Name, granted: Name)
    requires Clean(roles) && grantee in roles && granted in roles
    ensures roles[grantee].state == Present && roles[granted].state == Present
  {
    assert CleanRole(roles[grantee]) && CleanRole(roles[granted]);
  }

  lemma GroupPlanParts(n: Name, c: UserConfig, group: Group)
    ensures Join(Join(Plan({group.name}, Keyed(group.name, AbsoluteOf(c.options)), {}),
                      MemberOf(n, c.memberOf, c.state)),
                 MembersPlan(group.name, group.members, AbsoluteOf(c.options) + {LOGIN})) == GroupPlan(n, c, group)
  {
  }

  /** A grant of the group to one of its members, both roles in the state of the entry. */
  predicate GrantIn(g: Grant, group: Name, state: State) {
    g.state == Present && g.granted.name == group && g.granted.state == state && g.grantee.state == state
  }

  /** All grants from here on are of the group to one of its members. */
  predicate GrantsIn(grants: seq<Grant>, from: nat, group: Name, state: State) {
    forall i :: from <= i < |grants| ==> GrantIn(grants[i], group, state)
  }

  lemma NoneIn(grants: seq<Grant>, group: Name, state: State)
    ensures GrantsIn(grants, |grants|, group, state)
  {
  }

  lemma OneMoreIn(grants: seq<Grant>, g: Grant, from: nat, group: Name, state: State)
    requires GrantsIn(grants, from, group, state) && GrantIn(g, group, state)
    ensures GrantsIn(grants + [g], from, group, state)
  {
  }

  lemma SameKeysNormal(m: OptionMap, clone: OptionMap)
    requires Normal(m) && clone.Keys == m.Keys
    ensures Normal(clone) && LOGIN in NORMAL_OPTIONS
  {
  }

  // ----- the closed form -----

  ghost function ClosedForm(start: Plan, c: Config, ldap: map<Name, Group>): Plan {
    Join(Join(Join(start, RolePlans(c.roles.Keys, c.roles)), UserPlans(c.users.Keys, c.users, ldap)),
         DatabasePlans(c.databases.Keys, c.databases))
  }

  lemma NoneGranted(n: Name)
    ensures Granted(n, []) == NOTHING
  {
  }

  lemma GrantedStep(n: Name, memberOf: seq<Name>, i: nat)
    requires i < |memberOf|
    ensures Join(Granted(n, memberOf[..i]), Plan({n, memberOf[i]}, {}, {Edge(n, memberOf[i])}))
        == Granted(n, memberOf[..i + 1])
  {
    assert memberOf[..i + 1] == memberOf[..i] + [memberOf[i]];
  }

  lemma NormalIsValid(m: OptionMap)
    requires Normal(m)
    ensures forall o :: o in m ==> Validate(o) && Absolute(o) == o
  {
    forall o | o in m ensures Validate(o) && Absolute(o) == o { NormalOption(o); }
  }

  lemma NormalAbsolute(m: OptionMap)
    requires Normal(m)
    ensures AbsoluteKeys(m.Keys) == m.Keys
  {
    NormalIsValid(m);
    forall o | o in m ensures o in AbsoluteKeys(m.Keys) { assert Absolute(o) == o; }
  }

  lemma CreateDbAlone()
    ensures CREATEDB in NORMAL_OPTIONS && AbsoluteKeys((map[CREATEDB := true]).Keys) == {CREATEDB}
    ensures forall o :: o in map[CREATEDB := true] ==> Validate(o)
  {
    NormalOption(CREATEDB);
    var m := map[CREATEDB := true];
    assert Absolute(CREATEDB) == CREATEDB;
    assert forall o :: o in m <==> o == CREATEDB;
    assert CREATEDB in m.Keys;
    assert Absolute(CREATEDB) in AbsoluteKeys(m.Keys);
  }

  lemma OwnerOptions(options: OptionMap, merged: OptionMap)
    requires Normal(options) && IsMerge(options, map[CREATEDB := true], merged)
    ensures Normal(merged) && merged.Keys == options.Keys + {CREATEDB} && AbsoluteKeys(merged.Keys) == merged.Keys
    ensures forall o :: o in merged ==> Validate(o)
  {
    hide Validate, AbsoluteKeys, Absolute, Enabled;
    CreateDbAlone();
    assert Normal(merged);
    NormalIsValid(merged);
    NormalAbsolute(merged);
  }

  /** Merging a role's own options again, with or without more, plans only what is new. */
  lemma OnlyMore(a: Draft, b: Draft, n: Name, own: set<RoleOption>, more: set<RoleOption>)
    requires Extends(a, b, {}, {n}, Plan({n}, Keyed(n, own + more), {}))
    requires own == if n in a.roles then a.roles[n].options.Keys else {}
    ensures Extends(a, b, {}, {n}, Plan({n}, Keyed(n, more), {}))
  {
    hide Spoiled;
    var p := PlanOf(a.roles, a.grants);
    forall k ensures k in p.keys + Keyed(n, own + more) <==> k in p.keys + Keyed(n, more) {
    }
    assert Join(p, Plan({n}, Keyed(n, own + more), {})) == Join(p, Plan({n}, Keyed(n, more), {}));
  }

  lemma DatabasePlanParts(n: Name, d: Database)
    requires d.state != Absent
    ensures var owner, ro, rw := OwnerName(n, d), n + "_readonly", n + "_readwrite";
      && Join(Join(Join(Plan({owner}, Keyed(owner, {CREATEDB}), {}), Plan({ro}, Keyed(ro, {}), {})),
                   Plan({rw}, Keyed(rw, {}), {})), Plan({"opex", rw}, {}, {Edge("opex", rw)})) == DatabasePlan(n, d)
      && {owner} + {ro} + {rw} + {"opex", rw} == DatabasePlan(n, d).names
  {
  }

  lemma DatabaseExtends(a: Draft, b: Draft, c: Draft, d: Draft, e: Draft, n: Name, x: Database)
    requires x.state != Absent
    requires var owner := OwnerName(n, x); Extends(a, b, {}, {owner}, Plan({owner}, Keyed(owner, {CREATEDB}), {}))
    requires var ro := n + "_readonly"; Extends(b, c, {}, {ro}, Plan({ro}, Keyed(ro, {}), {}))
    requires var rw := n + "_readwrite";
      && Extends(c, d, {}, {rw}, Plan({rw}, Keyed(rw, {}), {}))
      && Extends(d, e, {}, {"opex", rw}, Plan({"opex", rw}, {}, {Edge("opex", rw)}))
    ensures Extends(a, e, {}, DatabasePlan(n, x).names, DatabasePlan(n, x))
  {
    hide Extends, Join, Keyed;
    var owner, ro, rw := OwnerName(n, x), n + "_readonly", n + "_readwrite";
    var p := Plan({owner}, Keyed(owner, {CREATEDB}), {});
    var q, r := Plan({ro}, Keyed(ro, {}), {}), Plan({rw}, Keyed(rw, {}), {});
    ExtendsNext(a, b, c, p, q, Join(p, q));
    ExtendsNext(a, c, d, Join(p, q), r, Join(Join(p, q), r));
    DatabasePlanParts(n, x);
    ExtendsNext(a, d, e, Join(Join(p, q), r), Plan({"opex", rw}, {}, {Edge("opex", rw)}), DatabasePlan(n, x));
  }

  lemma RoleKeys(c: Config, n: Name, o: RoleOption)
    ensures (n, o) in RolePlans(c.roles.Keys, c.roles).keys <==> n in c.roles && o in AbsoluteOf(c.roles[n].options)
  {
    hide AbsoluteOf;
    if n in c.roles && o in AbsoluteOf(c.roles[n].options) {
      assert (n, o) in RolePlan(n, c.roles[n]).keys;
    }
  }

  /** A user entry gives role n the option o. */
  ghost predicate UserGives(u: Name, c: UserConfig, ldap: map<Name, Group>, n: Name, o: RoleOption) {
    if c.auth != "ldap-group" then n == u && (o in AbsoluteOf(c.options) || o == LOGIN)
    else u in ldap && ((n == ldap[u].name && o in AbsoluteOf(c.options))
                       || (n in ldap[u].members && (o in AbsoluteOf(c.options) || o == LOGIN)))
  }

  lemma UserKey(u: Name, c: UserConfig, ldap: map<Name, Group>, n: Name, o: RoleOption)
    ensures (n, o) in UserPlan(u, c, ldap).keys <==> UserGives(u, c, ldap, n, o)
  {
    hide AbsoluteOf;
  }

  lemma UserKeys(c: Config, ldap: map<Name, Group>, n: Name, o: RoleOption)
    ensures (n, o) in UserPlans(c.users.Keys, c.users, ldap).keys <==>
      exists u :: u in c.users && UserGives(u, c.users[u], ldap, n, o)
  {
    hide AbsoluteOf, UserPlan, UserGives;
    forall u | u in c.users ensures (n, o) in UserPlan(u, c.users[u], ldap).keys <==>
        UserGives(u, c.users[u], ldap, n, o)
    {
      UserKey(u, c.users[u], ldap, n, o);
    }
  }

  ghost predicate OwnsDatabase(c: Config, n: Name) {
    exists db :: db in c.databases && c.databases[db].state != Absent && OwnerName(db, c.databases[db]) == n
  }

  lemma DatabaseKeys(c: Config, n: Name, o: RoleOption)
    ensures (n, o) in DatabasePlans(c.databases.Keys, c.databases).keys <==> o == CREATEDB && OwnsDatabase(c, n)
  {
    if o == CREATEDB && OwnsDatabase(c, n) {
      var db :| db in c.databases && c.databases[db].state != Absent && OwnerName(db, c.databases[db]) == n;
      assert (n, o) in DatabasePlan(db, c.databases[db]).keys;
    }
  }

  /**
   A role's option keys in the closed form: those of its role entry, those its user entries give it,
   CREATEDB if it owns a database.
   */
  lemma ClosedFormKeys(start: Plan, c: Config, ldap: map<Name, Group>, n: Name, o: RoleOption)
    ensures (n, o) in ClosedForm(start, c, ldap).keys <==>
      || (n, o) in start.keys
      || (n in c.roles && o in AbsoluteOf(c.roles[n].options))
      || (exists u :: u in c.users && UserGives(u, c.users[u], ldap, n, o))
      || (o == CREATEDB && OwnsDatabase(c, n))
  {
    hide AbsoluteOf, RolePlans, UserPlans, DatabasePlans, UserGives;
    RoleKeys(c, n, o);
    UserKeys(c, ldap, n, o);
    DatabaseKeys(c, n, o);
  }

  /** A user entry makes m a member of g, or names these roles. */
  ghost predicate UserLinks(u: Name, c: UserConfig, ldap: map<Name, Group>, m: Name, g: Name) {
    (m == u && g in c.memberOf && c.state == Present && (c.auth == "ldap-group" ==> u in ldap))
    || (c.auth == "ldap-group" && u in ldap && m in ldap[u].members && g == ldap[u].name)
  }

  ghost predicate UserNames(u: Name, c: UserConfig, ldap: map<Name, Group>, n: Name) {
    if c.auth != "ldap-group" then n == u || (c.state == Present && n in c.memberOf)
    else u in ldap && (n == ldap[u].name || n in ldap[u].members
                       || (c.state == Present && (n in c.memberOf || (n == u && c.memberOf != []))))
  }

  ghost predicate DatabaseNames(db: Name, d: Database, n: Name) {
    d.state != Absent && n in {if d.owner == "" then db else d.owner, db + "_readonly", db + "_readwrite", "opex"}
  }

  lemma RoleEdges(c: Config, e: Edge)
    ensures e in RolePlans(c.roles.Keys, c.roles).edges <==>
      e.member in c.roles && c.roles[e.member].state == Present && e.granted in c.roles[e.member].memberOf
  {
    if e.member in c.roles && c.roles[e.member].state == Present && e.granted in c.roles[e.member].memberOf {
      assert e in RolePlan(e.member, c.roles[e.member]).edges;
    }
  }

  lemma UserEdge(u: Name, c: UserConfig, ldap: map<Name, Group>, e: Edge)
    ensures e in UserPlan(u, c, ldap).edges <==> UserLinks(u, c, ldap, e.member, e.granted)
  {
  }

  lemma UserEdges(c: Config, ldap: map<Name, Group>, e: Edge)
    ensures e in UserPlans(c.users.Keys, c.users, ldap).edges <==>
      exists u :: u in c.users && UserLinks(u, c.users[u], ldap, e.member, e.granted)
  {
    hide UserPlan, UserLinks;
    forall u | u in c.users ensures e in UserPlan(u, c.users[u], ldap).edges <==>
        UserLinks(u, c.users[u], ldap, e.member, e.granted)
    {
      UserEdge(u, c.users[u], ldap, e);
    }
  }

  lemma DatabaseEdges(c: Config, e: Edge)
    ensures e in DatabasePlans(c.databases.Keys, c.databases).edges <==>
      e.member == "opex" && exists db :: db in c.databases && c.databases[db].state != Absent
                                         && e.granted == db + "_readwrite"
  {
    if e.member == "opex" {
      forall db | db in c.databases && c.databases[db].state != Absent && e.granted == db + "_readwrite"
        ensures e in DatabasePlan(db, c.databases[db]).edges
      {
      }
    }
  }

  /**
   The memberships in the closed form: those of every Present role entry, of every Present user entry of
   any kind, of every member of an LDAP group, and of opex in every database that is not Absent.
   */
  lemma ClosedFormEdges(start: Plan, c: Config, ldap: map<Name, Group>, m: Name, g: Name)
    ensures Edge(m, g) in ClosedForm(start, c, ldap).edges <==>
      || Edge(m, g) in start.edges
      || (m in c.roles && c.roles[m].state == Present && g in c.roles[m].memberOf)
      || (exists u :: u in c.users && UserLinks(u, c.users[u], ldap, m, g))
      || (m == "opex" && exists db :: db in c.databases && c.databases[db].state != Absent && g == db + "_readwrite")
  {
    hide RolePlans, UserPlans, DatabasePlans, UserLinks;
    RoleEdges(c, Edge(m, g));
    UserEdges(c, ldap, Edge(m, g));
    DatabaseEdges(c, Edge(m, g));
  }

  lemma RoleNames(c: Config, n: Name)
    ensures n in RolePlans(c.roles.Keys, c.roles).names <==>
      n in c.roles || exists r :: r in c.roles && c.roles[r].state == Present && n in c.roles[r].memberOf
  {
    if n in c.roles { assert n in RolePlan(n, c.roles[n]).names; }
    forall r | r in c.roles && c.roles[r].state == Present && n in c.roles[r].memberOf
      ensures n in RolePlan(r, c.roles[r]).names
    {
    }
  }

  lemma UserName(u: Name, c: UserConfig, ldap: map<Name, Group>, n: Name)
    ensures n in UserPlan(u, c, ldap).names <==> UserNames(u, c, ldap, n)
  {
  }

  lemma UsersNames(c: Config, ldap: map<Name, Group>, n: Name)
    ensures n in UserPlans(c.users.Keys, c.users, ldap).names <==>
      exists u :: u in c.users && UserNames(u, c.users[u], ldap, n)
  {
    hide UserPlan, UserNames;
    forall u | u in c.users ensures n in UserPlan(u, c.users[u], ldap).names <==> UserNames(u, c.users[u], ldap, n) {
      UserName(u, c.users[u], ldap, n);
    }
  }

  lemma DatabasesNames(c: Config, n: Name)
    ensures n in DatabasePlans(c.databases.Keys, c.databases).names <==>
      exists db :: db in c.databases && DatabaseNames(db, c.databases[db], n)
  {
    forall db | db in c.databases
      ensures n in DatabasePlan(db, c.databases[db]).names <==> DatabaseNames(db, c.databases[db], n)
    {
    }
  }

  /**
   The roles in the closed form: every role entry, every plain user, every LDAP group under its LDAP name
   with its members, whatever a Present entry is a member of, and owner, table roles and opex of every
   database that is not Absent.
   */
  lemma ClosedFormNames(start: Plan, c: Config, ldap: map<Name, Group>, n: Name)
    ensures n in ClosedForm(start, c, ldap).names <==>
      || n in start.names
      || n in c.roles
      || (exists r :: r in c.roles && c.roles[r].state == Present && n in c.roles[r].memberOf)
      || (exists u :: u in c.users && UserNames(u, c.users[u], ldap, n))
      || (exists db :: db in c.databases && DatabaseNames(db, c.databases[db], n))
  {
    hide RolePlans, UserPlans, DatabasePlans, UserNames, DatabaseNames;
    RoleNames(c, n);
    UsersNames(c, ldap, n);
    DatabasesNames(c, n);
  }

  /** Nothing a plan says is contradictory. */
  lemma CleanPlansAreCoherent(d: Spec)
    requires Clean(d.roles)
    ensures Coherent(d)
  {
    forall r, col | Listed(d, r) ensures !ContestedColumn(d.roles[r].options, col) {
      assert CleanRole(d.roles[r]);
      NormalDemands(d.roles[r].options, col);
    }
  }
}
