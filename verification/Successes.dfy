/** When the program succeeds, on a server on which nothing fails without a reason. */
module Successes {
  import opened Options
  import opened Catalog
  import opened Desired
  import opened Progress
  import opened Obstacles
  import opened Handlers
  import opened Plans
  import opened Visits
  import opened Planners
  import opened Ldap
  import opened Memberships
  import Tables

  // ----- what can stop a plan -----

  /** The database is not there and cannot be created, or something stops it from inside. */
  ghost predicate DatabaseStops(w: World, c: Catalog, n: Name, x: Database) {
    (n !in c.dbs && (n == "" || TEMPLATE !in c.dbs)) || ContentBlocked(w, n, x, DbAt(w, c, n), true)
  }

  predicate IsPresent(databases: map<Name, Database>, n: Name) { n in databases && databases[n].state == Present }

  /** Nothing about a database depends on what was visited before. */
  ghost predicate DatabasesDecided(w: World, c: Catalog, databases: map<Name, Database>) {
    forall n :: IsPresent(databases, n) ==>
      ExtensionsDecided(w, databases[n]) && (n in c.dbs || !IsPresent(databases, TEMPLATE))
  }

  lemma PlannedRolesPass(d: Spec, c: Catalog)
    requires Clean(d.roles) && "" !in d.roles
    ensures OptionsDecided(d) && forall n, sure :: !RoleBlocked(d, c, n, sure)
  {
    hide Checked, Altered, Clean;
    forall n, o | Listed(d, n) && o in d.roles[n].options ensures Checked(o).Some? && Altered(o).Some? {
      PlannedOption(d, n, o);
    }
  }

  lemma PlannedOption(d: Spec, n: Name, o: RoleOption)
    requires Clean(d.roles) && n in d.roles && o in d.roles[n].options
    ensures Checked(o).Some? && Altered(o).Some?
  {
    hide Checked, Altered;
    assert CleanRole(d.roles[n]);
    NormalOption(o);
  }

  /** The roles a managed database needs are planned. */
  lemma PlannedTableRolesPass(d: Spec, c: Catalog, tables: map<Name, Tables.Privileges>, config: Config,
                              start: Plan, ldap: map<Name, Group>, n: Name)
    requires Clean(d.roles) && PlanOf(d.roles, d.grants) == ClosedForm(start, config, ldap)
    requires d.databases == config.databases && Managed(d, n)
    ensures OwnerName(n, d.databases[n]) in d.roles
    ensures RoleThere(d, c, n + "_readonly", true) && RoleThere(d, c, n + "_readwrite", true)
    ensures TableRoleDecided(d, c, Tables.TablesIn(tables, n), n + "_readonly")
    ensures TableRoleDecided(d, c, Tables.TablesIn(tables, n), n + "_readwrite")
  {
    hide ClosedForm;
    var owner := OwnerName(n, d.databases[n]);
    forall x | x in {owner, n + "_readonly", n + "_readwrite"} ensures x in d.roles && Listed(d, x) {
      assert DatabaseNames(n, d.databases[n], x);
      ClosedFormNames(start, config, ldap, x);
      assert x in PlanOf(d.roles, d.grants).names;
      assert CleanRole(d.roles[x]);
    }
  }

  lemma PlannedDatabase(w: World, d: Spec, c: Catalog, tables: map<Name, Tables.Privileges>, config: Config,
                        start: Plan, ldap: map<Name, Group>, n: Name)
    requires Clean(d.roles) && "" !in d.roles && PlanOf(d.roles, d.grants) == ClosedForm(start, config, ldap)
    requires d.databases == config.databases && Managed(d, n) && DatabasesDecided(w, c, config.databases)
    ensures DatabaseDecided(w, d, c, tables, n)
    ensures DatabaseBlocked(w, d, c, tables, n, true) <==> DatabaseStops(w, c, n, d.databases[n])
  {
    hide Clean, PlanOf, ClosedForm, TableRoleDecided, RoleThere, ContentBlocked, ExtensionsDecided, DatabaseBlocked;
    PlannedTableRolesPass(d, c, tables, config, start, ldap, n);
    assert IsPresent(config.databases, n);
    DatabaseBlockedIff(w, d, c, tables, n, true);
  }

  /** Grants of a plan are wanted memberships, between roles that are there. */
  lemma PlannedGrants(d: Spec, ms: set<Edge>)
    requires Adds([], d.grants, true) && !Nameless(d.grants) && Acyclic(ms)
    ensures SomeGrantBlocked(ms, d.grants) <==> !Acyclic(ms + PlanOf(d.roles, d.grants).edges)
  {
    hide Acyclic;
    forall g | g in d.grants ensures g.state == Present && !GrantUnfit(g) {
      var i :| 0 <= i < |d.grants| && d.grants[i] == g;
    }
    AllWanted(d, true);
    GrantsBlockedIff(d, ms);
  }

  /**
   What stops a plan: memberships that would close a cycle, a database, a slot without a name. Nothing
   else, and in no order of the maps.
   */
  lemma PlanObstacles(w: World, d: Spec, c: Catalog, tables: map<Name, Tables.Privileges>, config: Config, start: Plan,
                      ldap: map<Name, Group>)
    requires Clean(d.roles) && !Spoiled(Draft(d.roles, d.grants)) && Adds([], d.grants, true)
    requires PlanOf(d.roles, d.grants) == ClosedForm(start, config, ldap) && d.databases == config.databases
    requires Acyclic(c.members) && DatabasesDecided(w, c, config.databases)
    ensures Decided(w, d, c, tables)
    ensures Obstacle(w, d, c, tables, true) <==>
      || !Acyclic(c.members + ClosedForm(start, config, ldap).edges)
      || (exists n :: IsPresent(config.databases, n) && DatabaseStops(w, c, n, config.databases[n]))
      || SlotBlocked(d, c, "")
  {
    hide Clean, ClosedForm, Acyclic, PlanOf, Adds, Nameless, RoleBlocked, SomeGrantBlocked, DatabaseDecided,
      DatabaseBlocked, DatabaseStops, OptionsDecided, DatabasesDecided;
    PlannedRolesPass(d, c);
    PlannedGrants(d, c.members);
    forall n | Managed(d, n)
      ensures DatabaseDecided(w, d, c, tables, n)
      ensures DatabaseBlocked(w, d, c, tables, n, true) <==> DatabaseStops(w, c, n, d.databases[n])
    {
      PlannedDatabase(w, d, c, tables, config, start, ldap, n);
    }
    assert forall n :: Managed(d, n) <==> IsPresent(config.databases, n);
  }

  // ----- the program -----

  /**
   The program succeeds exactly if option names and user kinds are valid, every search can be made and
   every listing ends, no group without a name is looked up, no name is empty, the memberships of the
   configuration close no cycle with those that are there, and no database is in its own way.
   */
  method Run(planner: Planner) returns (ok: bool, ghost order: seq<Name>)
    requires planner.dir.Valid() && Wf(planner.h.server.w, planner.h.server.cat) && planner.h.server.reliable
    requires Clean(planner.h.roles) && Plans.Named(planner.h.roles) && "" !in planner.h.roles && planner.h.grants == []
    requires "" !in planner.h.slots && GroupsPresent(planner.config.users) && Acyclic(planner.h.server.cat.members)
    requires DatabasesDecided(planner.h.server.w, planner.h.server.cat, planner.config.databases)
    requires Fits(planner.h.server.cat, planner.h.server.tables)
    modifies planner.h`roles, planner.h`grants, planner.h`databases, planner.dir, planner.dir.pool
    modifies planner.h.server`cat, planner.h.server`trace, planner.h.server`tables
    ensures Arranged(order, planner.config.users)
    ensures var config, w, c := planner.config, planner.h.server.w, old(planner.h.server.cat);
      var ldap := Listings(old(planner.dir.index), order, config.users, planner.answers, planner.stack);
      var form := ClosedForm(old(planner.Planned()), config, ldap);
      ok <==>
        && ConfigFine(config)
        && VisitedAll(old(planner.dir.index), order, config.users, planner.answers, planner.stack).Some?
        && !LooksUpStranger(config, KnownNames(old(planner.h.roles), config), order, ldap) && "" !in form.names
        && Acyclic(c.members + form.edges)
        && forall n :: IsPresent(config.databases, n) ==> !DatabaseStops(w, c, n, config.databases[n])
  {
    hide Clean, Plans.Named, Wf, Advance, AllHeld, Sane, Directory.Valid, ClosedForm, PlanOf, VisitedAll, Listings,
      Adds, ConfigFine, LooksUpStranger, Strangers, KnownNames, Acyclic, DatabaseStops, Spoiled, DatabasesDecided,
      Fits, GroupsPresent, Obstacle, Decided;
    ghost var config, start := planner.config, planner.Planned();
    ghost var s := planner.h.server;
    ghost var c, tables := s.cat, s.tables;
    StartIsUnspoiled(planner.h.roles);
    ok, order := planner.Handle();
    ghost var ldap := Listings(old(planner.dir.index), order, config.users, planner.answers, planner.stack);
    if ConfigFine(config)
        && VisitedAll(old(planner.dir.index), order, config.users, planner.answers, planner.stack).Some?
    {
      if Spoiled(planner.Tables()) {
        if ok { SpoiledFails(s.w, planner.h.Wanted(), old(s.State()), s.State()); }
      } else {
        PlanObstacles(s.w, planner.h.Wanted(), c, tables, config, start, ldap);
      }
    }
  }

  lemma StartIsUnspoiled(roles: map<Name, Role>)
    requires "" !in roles
    ensures !Spoiled(Draft(roles, []))
  {
  }

  // ----- which memberships a success leaves -----

  /**
   A success leaves exactly the memberships that were there and those of the configuration: of Present
   role entries, of Present user entries of any kind, of the members of LDAP groups, and of opex.
   */
  lemma MembershipsAreMet(w: World, d: Spec, a: Log, b: Log, roles: map<Name, Role>, config: Config,
                          ldap: map<Name, Group>, groups: bool, m: Name, g: Name)
    requires Reconciled(w, d, a, b, true) && Adds([], d.grants, groups)
    requires PlanOf(d.roles, d.grants) == ClosedForm(PlanOf(roles, []), config, ldap)
    ensures Edge(m, g) in b.cat.members <==>
      || Edge(m, g) in a.cat.members
      || (m in config.roles && config.roles[m].state == Present && g in config.roles[m].memberOf)
      || (exists u :: u in config.users && UserLinks(u, config.users[u], ldap, m, g))
      || (m == "opex" && exists db :: db in config.databases && config.databases[db].state != Absent
                                      && g == db + "_readwrite")
  {
    hide Reconciled, ClosedForm, UserLinks, Adds;
    AllWanted(d, groups);
    SuccessIsUnion(w, d, a, b);
    ClosedFormEdges(PlanOf(roles, []), config, ldap, m, g);
  }

  lemma AllWanted(d: Spec, groups: bool)
    requires Adds([], d.grants, groups)
    ensures WantedEdges(d) == PlanOf(d.roles, d.grants).edges
  {
    forall g | g in d.grants ensures g.state == Present {
      var i :| 0 <= i < |d.grants| && d.grants[i] == g;
    }
  }
}
