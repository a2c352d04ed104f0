/** Folding the configuration into the handler's tables of roles and grants. */
module Planners {
  import opened Options
  import opened Catalog
  import opened Desired
  import opened Servers
  import opened Progress
  import opened TableGrants
  import opened Obstacles
  import opened Handlers
  import opened OptionMaps
  import opened Plans
  import opened Visits
  import opened Ldap
  import opened LdapTree
  import LdapText
  import Theorems

  // ----- the planner -----

  class Planner {
    const h: Handler
    const config: Config
    /** The index that all LDAP searches of a run share. */
    const dir: Directory
    /** What the LDAP server answers for a user entry. */
    const answers: Answers
    /** How many nested calls the run time has room for. */
    const stack: nat

    constructor (h: Handler, config: Config, dir: Directory, answers: Answers, stack: nat)
      ensures this.h == h && this.config == config && this.dir == dir && this.answers == answers && this.stack == stack
    {
      this.h, this.config, this.dir, this.answers, this.stack := h, config, dir, answers, stack;
    }

    ghost function Planned(): Plan
      reads h
    {
      PlanOf(h.roles, h.grants)
    }

    ghost function Tables(): Draft
      reads h
    {
      Draft(h.roles, h.grants)
    }

    /** for _, granted := range MemberOf */
    method GrantAll(n: Name, memberOf: seq<Name>)
      modifies h`roles, h`grants
      ensures old(Clean(h.roles)) ==> Clean(h.roles)
      ensures Extends(old(Tables()), Tables(), {}, Granted(n, memberOf).names, Granted(n, memberOf))
      ensures OnlyNew(old(h.roles), h.roles, Granted(n, memberOf).names)
      ensures Made(old(h.grants), h.grants, h.roles, n, memberOf)
      ensures old(Clean(h.roles)) ==> Adds(old(h.grants), h.grants, true)
    {
      hide Extends, Join, Clean, Made, OnlyNew, Adds;
      ExtendsNot(Tables());
      NoneMade(h.roles, h.grants, n);
      NoneGranted(n);
      assert memberOf[..0] == [];
      for i := 0 to |memberOf|
        invariant old(Clean(h.roles)) ==> Clean(h.roles)
        invariant Extends(old(Tables()), Tables(), {}, Granted(n, memberOf[..i]).names, Granted(n, memberOf[..i]))
        invariant OnlyNew(old(h.roles), h.roles, Granted(n, memberOf[..i]).names)
        invariant Made(old(h.grants), h.grants, h.roles, n, memberOf[..i])
      {
        hide Granted;
        ghost var before := Tables();
        h.Grant(n, memberOf[i]);
        IsOnlyNew(before.roles, h.roles, {n, memberOf[i]});
        GrantExtends(before, Tables(), n, memberOf[i]);
        GrantedStep(n, memberOf, i);
        ExtendsNext(old(Tables()), before, Tables(), Granted(n, memberOf[..i]),
                    Plan({n, memberOf[i]}, {}, {Edge(n, memberOf[i])}), Granted(n, memberOf[..i + 1]));
        OnlyNewNext(old(h.roles), before.roles, h.roles, n, memberOf, i);
        MadeNext(before.roles, h.roles, old(h.grants), before.grants, n, memberOf, i);
      }
      assert memberOf[..|memberOf|] == memberOf;
      if Clean(h.roles) { MadeAdds(old(h.grants), h.grants, h.roles, n, memberOf); }
    }

    /** GetRole, replace options and state, AddRole. */
    method MergeOptions(n: Name, options: OptionMap, state: State)
      requires Clean(h.roles) && forall o :: o in options ==> Validate(o)
      modifies h`roles
      ensures Clean(h.roles)
      ensures Extends(old(Tables()), Tables(), {}, {n}, Plan({n}, Keyed(n, AbsoluteKeys(options.Keys)), {}))
    {
      hide Extends, Clean, Validate, IsMergedRole, Keyed, AbsoluteKeys;
      var role := h.GetRole(n);
      CleanWhenKnown(old(h.roles), n);
      role := role.(options := options, state := state);
      ghost var known := h.roles;
      h.AddRole(role);
      CleanAfterAdd(known, h.roles, role);
      MergeExtends(old(Tables()), known, h.roles, n, role);
    }

    // ----- roles -----

    /** The option names of a role entry: each must be valid; NO is kept here. */
    method ParseRoleOptions(names: seq<string>) returns (ok: bool, options: OptionMap)
      ensures ok <==> forall o :: o in names ==> Validate(o)
      ensures ok ==> (forall o :: o in options ==> Validate(o)) && AbsoluteKeys(options.Keys) == AbsoluteOf(names)
    {
      hide Validate;
      options := map[];
      for i := 0 to |names|
        invariant options.Keys == (set o | o in names[..i]) && forall o :: o in options ==> Validate(o)
      {
        if !Validate(names[i]) {
          return false, options;
        }
        assert names[..i + 1] == names[..i] + [names[i]];
        options := options[names[i] := Enabled(names[i])];
      }
      assert names[..|names|] == names;
      return true, options;
    }

    method HandleRole(n: Name, c: RoleConfig) returns (ok: bool)
      requires Clean(h.roles)
      modifies h`roles, h`grants
      ensures Clean(h.roles) && (ok <==> RoleFine(c))
      ensures ok ==> Extends(old(Tables()), Tables(), {}, RolePlan(n, c).names, RolePlan(n, c))
      ensures Adds(old(h.grants), h.grants, true)
    {
      hide Adds, Extends, Granted, Clean, Validate, Keyed, AbsoluteKeys, AbsoluteOf;
      var options;
      AddsNothing(h.grants);
      ok, options := ParseRoleOptions(c.options);
      if !ok {
        return;
      }
      MergeOptions(n, options, c.state);
      ghost var merged, own := Tables(), Plan({n}, Keyed(n, AbsoluteOf(c.options)), {});
      JoinNothing(own);
      if c.state == Present {
        GrantAll(n, c.memberOf);
        ExtendsNext(old(Tables()), merged, Tables(), own, Granted(n, c.memberOf), RolePlan(n, c));
      }
    }

    method HandleRoles() returns (ok: bool)
      requires Clean(h.roles)
      modifies h`roles, h`grants
      ensures Clean(h.roles) && (ok <==> RolesFine(config))
      ensures var plan := RolePlans(config.roles.Keys, config.roles);
        ok ==> Extends(old(Tables()), Tables(), {}, plan.names, plan)
      ensures Adds(old(h.grants), h.grants, true)
    {
      hide Adds, Extends, Join, Clean, RolePlan, RolePlans, RoleFine;
      AddsNothing(h.grants);
      var order := InSomeOrder(config.roles.Keys);
      ghost var done := {};
      ExtendsNot(Tables());
      NoRolePlans(config.roles);
      for i := 0 to |order|
        invariant done == (set x | x in order[..i])
        invariant Clean(h.roles) && forall n :: n in done ==> RoleFine(config.roles[n])
        invariant Adds(old(h.grants), h.grants, true)
        invariant Extends(old(Tables()), Tables(), {}, RolePlans(done, config.roles).names,
                          RolePlans(done, config.roles))
      {
        assert order[i] in config.roles;
        ghost var before := Tables();
        ok := HandleRole(order[i], config.roles[order[i]]);
        AddsTrans(old(h.grants), before.grants, h.grants, true, true, true);
        if !ok {
          return;
        }
        RolePlansStep(done, order[i], config.roles);
        ExtendsNext(old(Tables()), before, Tables(), RolePlans(done, config.roles),
                    RolePlan(order[i], config.roles[order[i]]), RolePlans(done + {order[i]}, config.roles));
        assert order[..i + 1] == order[..i] + [order[i]];
        done := done + {order[i]};
      }
      assert order[..|order|] == order;
      assert done == config.roles.Keys;
      return true;
    }

    // ----- users -----

    /** The option names of a user entry: each must be valid and is stripped of NO. */
    method ParseUserOptions(names: seq<string>) returns (ok: bool, options: OptionMap)
      ensures ok <==> forall o :: o in names ==> Validate(o)
      ensures ok ==> options.Keys == AbsoluteOf(names) && Normal(options)
    {
      hide Validate;
      options := map[];
      for i := 0 to |names|
        invariant options.Keys == AbsoluteOf(names[..i]) && Normal(options)
        invariant forall o :: o in names[..i] ==> Validate(o)
      {
        if !Validate(names[i]) {
          return false, options;
        }
        ValidOptions(names[i]);
        assert names[..i + 1] == names[..i] + [names[i]];
        options := AddAbsolute(options, names[i]);
      }
      assert names[..|names|] == names;
      return true, options;
    }

    /** ldap-user, clientcert, password and md5 users: options plus LOGIN. */
    method HandlePlainUser(n: Name, c: UserConfig, options: OptionMap)
      requires Clean(h.roles) && options.Keys == AbsoluteOf(c.options) && Normal(options)
      modifies h`roles, h`grants
      ensures Clean(h.roles) && Adds(old(h.grants), h.grants, true)
      ensures Extends(old(Tables()), Tables(), {}, PlainUserPlan(n, c).names, PlainUserPlan(n, c))
    {
      hide Adds, Extends, Granted, Clean, Keyed, AbsoluteOf, AbsoluteKeys, Validate;
      AddsNothing(h.grants);
      var withLogin := AddAbsolute(options, LOGIN);
      NormalStaysNormal(options, LOGIN);
      MergeOptions(n, withLogin, c.state);
      ghost var merged, own := Tables(), Plan({n}, Keyed(n, AbsoluteOf(c.options) + {LOGIN}), {});
      JoinNothing(own);
      if c.state == Present {
        // a password user's password and expiry are set on a copy of the role that is not added again
        GrantAll(n, c.memberOf);
        ExtendsNext(old(Tables()), merged, Tables(), own, Granted(n, c.memberOf), PlainUserPlan(n, c));
      }
    }

    /** One member of an LDAP group: options plus LOGIN merged in, and a grant of the group appended. */
    method HandleMember(n: Name, userOptions: OptionMap, state: State, group: Role)
      requires Clean(h.roles) && Normal(userOptions) && group.name != ""
      modifies h`roles, h`grants
      ensures Clean(h.roles)
      ensures |h.grants| == |old(h.grants)| + 1 && old(h.grants) <= h.grants
      ensures var g := h.grants[|old(h.grants)|];
        g.granted == group && g.grantee.state == state && g.state == Present
        && g.grantee.name == if n in old(h.roles) then old(h.roles)[n].name else n
      ensures Extends(old(Tables()), Tables(), {}, {n}, Plan({n}, Keyed(n, userOptions.Keys), {Edge(n, group.name)}))
    {
      hide Clean, Normal, IsMergedRole, Extends, Keyed, AbsoluteKeys;
      var user := h.GetRole(n);
      CleanWhenKnown(old(h.roles), n);
      user := user.(options := userOptions, state := state);
      ghost var known := h.roles;
      h.AddRole(user);
      NormalIsValid(userOptions);
      NormalAbsolute(userOptions);
      CleanAfterAdd(known, h.roles, user);
      MergeExtends(old(Tables()), known, h.roles, n, user);
      ghost var merged := Tables();
      h.grants := h.grants + [Desired.Grant(user, group, Present)];
      MemberExtends(old(Tables()), merged, Tables(), n, userOptions.Keys, Desired.Grant(user, group, Present));
    }

    /**
     An LDAP group: the group is added under its LDAP name without being looked up first; every member
     of its tree gets the options plus LOGIN and a grant of the group, both in the state of the entry.
     */
    method HandleLdapGroup(groupName: Name, c: UserConfig, options: OptionMap) returns (ok: bool)
      requires Clean(h.roles) && Normal(options) && options.Keys == AbsoluteOf(c.options)
      requires dir.Valid() && IsLdapGroup(c)
      modifies h`roles, h`grants, dir, dir.pool
      ensures Clean(h.roles) && old(h.grants) <= h.grants && dir.Valid() && dir.Kept()
      ensures ok <==> Visited(old(dir.index), groupName, c, answers, stack).Some?
      ensures ok ==> dir.index == Visited(old(dir.index), groupName, c, answers, stack).value
      ensures ok ==>
        UserPlanned(old(Tables()), Tables(), groupName, c, GroupListed(old(dir.index), groupName, c, answers))
      ensures ok ==> GrantsIn(h.grants, |old(h.grants)| + (if c.state == Present then |c.memberOf| else 0),
                              GroupListed(old(dir.index), groupName, c, answers).name, c.state)
      ensures Adds(old(h.grants), h.grants, c.state == Present)
    {
      hide Adds, Clean, Normal, Extends, GroupPlan, Directory.Valid, LdapText.LeafName, Searched, Deep, MembersPlan,
        AbsoluteOf, Descendants, UserPlanned, GrantsIn, Known, Granted, Keyed, Join, PlanOf;
      AddsNothing(h.grants);
      AddsTrans(h.grants, h.grants, h.grants, true, true, c.state == Present);
      if !Askable(groupName, c, answers) {
        return false;
      }
      var baseGroup;
      ok, baseGroup := dir.GetMembers(c.baseDN, answers[groupName]);
      if !ok {
        return;
      }
      assert baseGroup.name != "" by { LdapText.LeafNameIsPlain(c.baseDN); }
      AddGroup(groupName, c, options, baseGroup.name);
      ghost var added := Tables();
      ok := HandleTree(baseGroup, Role(baseGroup.name, options, c.state, "", None));
      InAdds(added.grants, h.grants, baseGroup.name, c.state);
      AddsTrans(old(h.grants), added.grants, h.grants, true, c.state == Present, c.state == Present);
      if ok {
        GroupIsPlanned(old(Tables()), added, Tables(), groupName, c,
                       GroupListed(old(dir.index), groupName, c, answers));
      }
    }

    /** The members a group's tree lists, if the listing ends: the group's options and LOGIN. */
    method HandleTree(baseGroup: Member, role: Role) returns (ok: bool)
      requires Clean(h.roles) && Normal(role.options) && dir.Valid() && baseGroup in dir.pool
      requires role.name == baseGroup.name != ""
      modifies h`roles, h`grants
      ensures Clean(h.roles) && old(h.grants) <= h.grants
      ensures ok <==> !Deep(dir.index.links, role.name, stack)
      ensures var members := Descendants(dir.index.links, role.name);
        ok ==> Extends(old(Tables()), Tables(), {}, members,
                       MembersPlan(role.name, members, role.options.Keys + {LOGIN}))
      ensures GrantsIn(h.grants, |old(h.grants)|, role.name, role.state)
    {
      hide Clean, Normal, Extends, Directory.Valid, Deep, Exact, MembersPlan, Descendants, Children, GrantsIn;
      NoneIn(h.grants, role.name, role.state);
      var cloned := OptionMaps.Clone(role.options);
      SameKeysNormal(role.options, cloned);
      var userOptions := AddAbsolute(cloned, LOGIN);
      NormalStaysNormal(cloned, LOGIN);
      var mss;
      ghost var listed, paths;
      ok, mss, listed, paths := MembershipTree(dir, baseGroup, stack);
      if ok {
        ListedAreDescendants(dir.index.links, role.name, listed, paths);
        HandleMembers(mss, listed, userOptions, role.state, role);
      }
    }

    /** The group itself and what it is a member of. */
    method AddGroup(groupName: Name, c: UserConfig, options: OptionMap, group: Name)
      requires Clean(h.roles) && Normal(options) && options.Keys == AbsoluteOf(c.options) && group != ""
      modifies h`roles, h`grants
      ensures Clean(h.roles) && old(h.grants) <= h.grants && Adds(old(h.grants), h.grants, true)
      ensures |h.grants| == |old(h.grants)| + if c.state == Present then |c.memberOf| else 0
      ensures var member := MemberOf(groupName, c.memberOf, c.state);
        Extends(old(Tables()), Tables(), {group} - old(h.roles).Keys, member.names,
                Join(Plan({group}, Keyed(group, AbsoluteOf(c.options)), {}), member))
    {
      hide Adds, Clean, Normal, IsMerge, Validate, AbsoluteKeys, AbsoluteOf, Extends, Join, Granted, Keyed;
      AddsNothing(h.grants);
      var role := Role(group, options, c.state, "", None);
      NormalIsValid(options);
      NormalAbsolute(options);
      h.AddRole(role);
      CleanAfterAdd(old(h.roles), h.roles, role);
      GroupExtends(old(Tables()), h.roles, role);
      ghost var added, own := Tables(), Plan({group}, Keyed(group, AbsoluteOf(c.options)), {});
      JoinNothing(own);
      if c.state == Present {
        GrantAll(groupName, c.memberOf);
        ExtendsTrans(old(Tables()), added, Tables(), {group} - old(h.roles).Keys, {}, own,
                     Granted(groupName, c.memberOf).names, Granted(groupName, c.memberOf));
        assert {} + Granted(groupName, c.memberOf).names == Granted(groupName, c.memberOf).names;
      }
    }

    method HandleMembers(mss: seq<Membership>, ghost listed: seq<Link>, userOptions: OptionMap, state: State,
                         role: Role)
      requires Clean(h.roles) && Normal(userOptions) && role.name != "" && role.state == state
      requires Spelled(dir, mss, listed)
      modifies h`roles, h`grants
      ensures Clean(h.roles) && old(h.grants) <= h.grants
      ensures var members := set l | l in listed :: l.child;
        Extends(old(Tables()), Tables(), {}, members, MembersPlan(role.name, members, userOptions.Keys))
      ensures GrantsIn(h.grants, |old(h.grants)|, role.name, state)
    {
      hide Clean, Normal, Extends, RealLink, Keyed, GrantsIn;
      ghost var done: set<Name> := {};
      ExtendsNot(Tables());
      NoneIn(h.grants, role.name, state);
      MembersStep(role.name, {}, userOptions.Keys, "");
      for i := 0 to |mss|
        invariant done == (set l | l in listed[..i] :: l.child)
        invariant Clean(h.roles) && old(h.grants) <= h.grants
        invariant Extends(old(Tables()), Tables(), {}, done, MembersPlan(role.name, done, userOptions.Keys))
        invariant GrantsIn(h.grants, |old(h.grants)|, role.name, state)
      {
        ghost var before, m := Tables(), listed[i].child;
        HandleMember(mss[i].member.name, userOptions, state, role);
        assert h.grants == before.grants + [h.grants[|before.grants|]];
        OneMoreIn(before.grants, h.grants[|before.grants|], |old(h.grants)|, role.name, state);
        MembersStep(role.name, done, userOptions.Keys, m);
        ExtendsNext(old(Tables()), before, Tables(), MembersPlan(role.name, done, userOptions.Keys),
                    Plan({m}, Keyed(m, userOptions.Keys), {Edge(m, role.name)}),
                    MembersPlan(role.name, done + {m}, userOptions.Keys));
        assert listed[..i + 1] == listed[..i] + [listed[i]];
        done := done + {m};
      }
      assert listed[..|mss|] == listed;
    }

    /** Each user entry by its kind; an unknown kind ends the program. */
    method HandleUser(n: Name, c: UserConfig) returns (ok: bool)
      requires Clean(h.roles) && dir.Valid()
      modifies h`roles, h`grants, dir, dir.pool
      ensures Clean(h.roles) && old(h.grants) <= h.grants && dir.Valid() && dir.Kept()
      ensures ok <==> UserFine(c) && Visited(old(dir.index), n, c, answers, stack).Some?
      ensures ok ==> dir.index == Visited(old(dir.index), n, c, answers, stack).value
      ensures ok ==> UserPlanned(old(Tables()), Tables(), n, c, GroupListed(old(dir.index), n, c, answers))
      ensures Adds(old(h.grants), h.grants, c.auth == "ldap-group" ==> c.state == Present)
    {
      hide Extends, Clean, PlainUserPlan, GroupPlan, Directory.Valid, GroupListed;
      var options;
      ok, options := ParseUserOptions(c.options);
      if !ok {
        return;
      }
      if c.auth == "ldap-group" {
        ok := HandleLdapGroup(n, c, options);
      } else if c.auth == "ldap-user" || c.auth == "clientcert" || c.auth == "password" || c.auth == "md5" {
        HandlePlainUser(n, c, options);
      } else {
        return false;
      }
    }

    /** The user entries visited so far, in this order, on tables and an index that were like this. */
    ghost predicate Midway(visit: seq<Name>, i: nat, first: Draft, start: Index)
      requires i <= |visit| && forall n :: n in visit ==> n in config.users
      reads h, dir
    {
      && Adds(first.grants, h.grants, GroupsPresent(config.users))
      && VisitedAll(start, visit[..i], config.users, answers, stack) == Some(dir.index)
      && (forall n :: n in visit[..i] ==> UserFine(config.users[n]))
      && (Named(first.roles) ==> UsersPlanned(first, Tables(), visit[..i], config.users,
                                              Listings(start, visit[..i], config.users, answers, stack)))
    }

    /** The next user entry. */
    method HandleNext(visit: seq<Name>, i: nat, ghost first: Draft, ghost start: Index) returns (ok: bool)
      requires Clean(h.roles) && dir.Valid() && Arranged(visit, config.users) && i < |visit|
      requires Midway(visit, i, first, start)
      modifies h`roles, h`grants, dir, dir.pool
      ensures Clean(h.roles) && dir.Valid() && dir.Kept() && Adds(first.grants, h.grants, GroupsPresent(config.users))
      ensures ok ==> Midway(visit, i + 1, first, start)
      ensures !ok ==> !UserFine(config.users[visit[i]])
                      || VisitedAll(start, visit[..i + 1], config.users, answers, stack).None?
    {
      hide Adds, GroupsPresent, Named, Clean, UserPlanned, UsersPlanned, Directory.Valid, UserFine, Visited,
        VisitedAll, Listings, GroupListed;
      ghost var n, before, ix := visit[i], Tables(), dir.index;
      assert n !in visit[..i] && visit[..i + 1] == visit[..i] + [n];
      VisitNext(start, visit, config.users, answers, stack, i);
      ok := HandleUser(visit[i], config.users[visit[i]]);
      MoreUsers(first.grants, before.grants, h.grants, config.users, n);
      if ok && Named(first.roles) {
        ghost var c, ldap := config.users[n], Listings(start, visit[..i], config.users, answers, stack);
        if IsLdapGroup(c) { AskedName(ix, n, c, answers, stack); }
        UsersPlannedNext(first, before, Tables(), visit[..i], n, config.users, ldap, GroupListed(ix, n, c, answers));
      }
    }

    /** All user entries, in whatever order the map yields them; they share one LDAP index. */
    method HandleUsers() returns (ok: bool, ghost order: seq<Name>)
      requires Clean(h.roles) && dir.Valid()
      modifies h`roles, h`grants, dir, dir.pool
      ensures Clean(h.roles) && dir.Valid() && dir.Kept() && Arranged(order, config.users)
      ensures Adds(old(h.grants), h.grants, GroupsPresent(config.users))
      ensures ok <==> UsersFine(config) && VisitedAll(old(dir.index), order, config.users, answers, stack).Some?
      ensures ok ==> dir.index == VisitedAll(old(dir.index), order, config.users, answers, stack).value
      ensures ok && old(Named(h.roles)) ==>
        UsersPlanned(old(Tables()), Tables(), order, config.users,
                     Listings(old(dir.index), order, config.users, answers, stack))
    {
      hide Adds, GroupsPresent, Named, Clean, UsersPlanned, Directory.Valid, UserFine, VisitedAll, Listings;
      AddsNothing(h.grants);
      AddsTrans(h.grants, h.grants, h.grants, true, true, GroupsPresent(config.users));
      var visit := InSomeOrder(config.users.Keys);
      order := visit;
      ghost var start := dir.index;
      NoVisits(start, config.users, answers, stack);
      if Named(h.roles) { NoUsersPlanned(Tables(), config.users); }
      assert visit[..0] == [];
      for i := 0 to |visit|
        invariant Clean(h.roles) && dir.Valid() && dir.Kept()
        invariant Midway(visit, i, old(Tables()), start)
      {
        ok := HandleNext(visit, i, old(Tables()), start);
        if !ok {
          if UserFine(config.users[visit[i]]) { VisitFails(start, visit, config.users, answers, stack, i + 1); }
          return;
        }
      }
      assert visit[..|visit|] == visit;
      return true, order;
    }

    // ----- database roles -----

    /** The owner gets CREATEDB; the two table roles are made known; opex is granted the read-write one. */
    method HandleDbRole(n: Name, d: Database)
      requires Clean(h.roles)
      modifies h`roles, h`grants
      ensures Clean(h.roles) && Adds(old(h.grants), h.grants, true)
      ensures Extends(old(Tables()), Tables(), {}, DatabasePlan(n, d).names, DatabasePlan(n, d))
    {
      hide Extends, Join, Clean, Keyed;
      if d.state == Absent {
        ExtendsNot(Tables());
        return;
      }
      var owner := OwnerName(n, d);
      AddOwner(owner);
      ghost var owned := Tables();
      AddKindRole(n + "_readonly");
      ghost var readable := Tables();
      AddKindRole(n + "_readwrite");
      ghost var writable := Tables();
      h.Grant("opex", n + "_readwrite");
      GrantExtends(writable, Tables(), "opex", n + "_readwrite");
      OneCleanGrant(h.roles, "opex", n + "_readwrite");
      DatabaseExtends(old(Tables()), owned, readable, writable, Tables(), n, d);
    }

    method AddOwner(owner: Name)
      requires Clean(h.roles)
      modifies h`roles
      ensures Clean(h.roles)
      ensures Extends(old(Tables()), Tables(), {}, {owner}, Plan({owner}, Keyed(owner, {CREATEDB}), {}))
    {
      hide Extends, IsMerge, Keyed, AbsoluteKeys, Validate, Normal;
      var role := h.GetRole(owner);
      CleanWhenKnown(old(h.roles), owner);
      assert CleanRole(h.roles[owner]);
      var merged := OptionMaps.Merge(role.options, map[CREATEDB := true]);
      OwnerOptions(role.options, merged);
      ghost var known, own := h.roles, role.options.Keys;
      role := role.(options := merged);
      h.AddRole(role);
      CleanAfterAdd(known, h.roles, role);
      MergeExtends(old(Tables()), known, h.roles, owner, role);
      OnlyMore(old(Tables()), Tables(), owner, own, {CREATEDB});
    }

    method AddKindRole(n: Name)
      requires Clean(h.roles)
      modifies h`roles
      ensures Clean(h.roles)
      ensures Extends(old(Tables()), Tables(), {}, {n}, Plan({n}, Keyed(n, {}), {}))
    {
      hide Extends, IsMerge, Keyed, AbsoluteKeys, Validate, Normal;
      var role := h.GetRole(n);
      CleanWhenKnown(old(h.roles), n);
      assert CleanRole(h.roles[n]);
      ghost var known, own := h.roles, role.options.Keys;
      h.AddRole(role);
      NormalIsValid(role.options);
      NormalAbsolute(role.options);
      CleanAfterAdd(known, h.roles, role);
      MergeExtends(old(Tables()), known, h.roles, n, role);
      assert own + {} == own;
      OnlyMore(old(Tables()), Tables(), n, own, {});
    }

    method HandleDbRoles() returns (ok: bool)
      requires Clean(h.roles)
      modifies h`roles, h`grants
      ensures Clean(h.roles) && ok && Adds(old(h.grants), h.grants, true)
      ensures var plan := DatabasePlans(config.databases.Keys, config.databases);
        Extends(old(Tables()), Tables(), {}, plan.names, plan)
    {
      hide Adds, Extends, Join, Clean, DatabasePlan, DatabasePlans;
      AddsNothing(h.grants);
      var order := InSomeOrder(config.databases.Keys);
      ghost var done := {};
      ExtendsNot(Tables());
      NoDatabasePlans(config.databases);
      for i := 0 to |order|
        invariant done == (set x | x in order[..i])
        invariant Clean(h.roles) && Adds(old(h.grants), h.grants, true)
        invariant Extends(old(Tables()), Tables(), {}, DatabasePlans(done, config.databases).names,
                          DatabasePlans(done, config.databases))
      {
        assert order[i] in config.databases;
        ghost var before := Tables();
        HandleDbRole(order[i], config.databases[order[i]]);
        AddsTrans(old(h.grants), before.grants, h.grants, true, true, true);
        DatabasePlansStep(done, order[i], config.databases);
        ExtendsNext(old(Tables()), before, Tables(), DatabasePlans(done, config.databases),
                    DatabasePlan(order[i], config.databases[order[i]]),
                    DatabasePlans(done + {order[i]}, config.databases));
        assert order[..i + 1] == order[..i] + [order[i]];
        done := done + {order[i]};
      }
      assert order[..|order|] == order;
      assert done == config.databases.Keys;
      return true;
    }

    // ----- the whole plan -----

    /** Roles, users, databases, database roles; the first error ends the program. */
    method PlanAll() returns (ok: bool, ghost order: seq<Name>)
      requires Clean(h.roles) && dir.Valid()
      modifies h`roles, h`grants, h`databases, dir, dir.pool
      ensures Clean(h.roles) && dir.Valid() && dir.Kept() && Arranged(order, config.users)
      ensures ok <==> ConfigFine(config) && VisitedAll(old(dir.index), order, config.users, answers, stack).Some?
      ensures ok ==> h.databases == config.databases
      ensures ok && old(Named(h.roles)) ==>
        ConfigPlanned(old(Tables()), Tables(), config, order,
                      Listings(old(dir.index), order, config.users, answers, stack))
      ensures ok ==> Adds(old(h.grants), h.grants, GroupsPresent(config.users))
    {
      hide Adds, GroupsPresent, Extends, Named, NamedOrNot, Clean, RolePlans, DatabasePlans, PlanOf, Join,
        Directory.Valid, RolesFine, UsersFine, VisitedAll, Listings, UsersPlanned, ConfigPlanned, Spoiled;
      order := SomeOrder(config.users.Keys);
      ok := HandleRoles();
      if !ok {
        return;
      }
      ghost var first := Tables();
      if old(Named(h.roles)) {
        NamedExtends(old(Tables()), first, RolePlans(config.roles.Keys, config.roles).names,
                     RolePlans(config.roles.Keys, config.roles));
      }
      ok, order := HandleUsers();
      if !ok {
        return;
      }
      h.databases := config.databases;
      ghost var second := Tables();
      ok := HandleDbRoles();
      AddsAll(old(h.grants), first.grants, second.grants, h.grants, GroupsPresent(config.users));
      if old(Named(h.roles)) {
        AllPlanned(old(Tables()), first, second, Tables(), config, order,
                   Listings(old(dir.index), order, config.users, answers, stack));
      }
    }

    /**
     The program: plan, then reconcile. It never finalizes. A plan that fails sends nothing, and neither
     does it succeed once a group without a name was looked up; a success had the closed form for its plan.
     */
    method Handle() returns (ok: bool, ghost order: seq<Name>)
      requires Clean(h.roles) && dir.Valid() && Wf(h.server.w, h.server.cat)
      modifies h`roles, h`grants, h`databases, dir, dir.pool, h.server`cat, h.server`trace, h.server`tables
      ensures Clean(h.roles) && dir.Valid() && Arranged(order, config.users)
      ensures Reconciled(h.server.w, h.Wanted(), old(h.server.State()), h.server.State(), ok)
      ensures TablesAdded(h.Wanted(), old(h.server.tables), h.server.tables, ok)
      ensures !(ConfigFine(config) && VisitedAll(old(dir.index), order, config.users, answers, stack).Some?) ==>
        !ok && h.server.State() == old(h.server.State()) && h.server.tables == old(h.server.tables)
      ensures ConfigFine(config) && VisitedAll(old(dir.index), order, config.users, answers, stack).Some? ==>
        h.databases == config.databases && Adds(old(h.grants), h.grants, GroupsPresent(config.users))
      ensures var ldap := Listings(old(dir.index), order, config.users, answers, stack);
        ok && old(Named(h.roles)) ==>
          && VisitedAll(old(dir.index), order, config.users, answers, stack).Some?
          && !LooksUpStranger(config, KnownNames(old(h.roles), config), order, ldap)
          && (Named(h.roles) <==> Strangers(KnownNames(old(h.roles), config), order, config.users, ldap) == {})
          && Planned() == ClosedForm(old(Planned()), config, ldap)
      ensures ConfigFine(config) && VisitedAll(old(dir.index), order, config.users, answers, stack).Some? ==>
        && Explained(h.server.w, h.Wanted(), old(h.server.cat), old(h.server.tables), h.server.reliable, ok)
        && (old(Named(h.roles)) ==>
              ConfigPlanned(old(Tables()), Tables(), config, order,
                            Listings(old(dir.index), order, config.users, answers, stack)))
    {
      hide Adds, GroupsPresent, Explained, Clean, Named, Wf, Between, Legal, PlanOf, ClosedForm, AllHeld, TablesAdded,
        Directory.Valid, Spoiled, LooksUpStranger, Strangers, KnownNames, ConfigFine, Sane, Listings, VisitedAll;
      ok, order := PlanAll();
      if ok {
        ok := h.Reconcile();
        if ok && Spoiled(Tables()) {
          SpoiledFails(h.server.w, h.Wanted(), old(h.server.State()), h.server.State());
        }
      } else {
        AdvanceRefl(h.server.w, h.Wanted(), h.server.State(), false);
        NothingAdded(h.Wanted(), h.server.tables);
      }
    }
  }

  /** Reconciling fails if a role is listed under the empty name, or a grant is of or to a role without a name. */
  lemma SpoiledFails(w: World, d: Spec, a: Log, b: Log)
    requires Clean(d.roles) && Spoiled(Draft(d.roles, d.grants))
    ensures !Reconciled(w, d, a, b, true)
  {
    if Reconciled(w, d, a, b, true) {
      if "" in d.roles {
        ListedIsThere(w, d, b.cat, "");
      } else {
        var g :| g in d.grants && g.state == Present && (g.grantee.name == "" || g.granted.name == "");
        Theorems.GrantedRolesAreNamed(w, d, a, b, g);
      }
    }
  }

  lemma ListedIsThere(w: World, d: Spec, c: Catalog, n: Name)
    requires AllHeld(w, d, c) && Clean(d.roles) && n in d.roles
    ensures n in c.roles
  {
    assert CleanRole(d.roles[n]);
    assert Held(w, d, c, RoleExists(n));
  }
}
