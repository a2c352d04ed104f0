/**
 Why a run on a reliable server fails, read off the specification and the catalog it starts from. What is
 `sure` stops every run; the rest may stop a run, depending on the order in which maps are visited.
 */
module Obstacles {
  import opened Options
  import opened Catalog
  import opened Desired
  import Tables

  // ----- roles -----

  /** The server does not understand the check; or it understands the check alone, and the option is not on yet. */
  ghost predicate OptionBlocked(row: RoleRow, options: OptionMap, o: RoleOption, sure: bool) {
    || Checked(o).None?
    || (!sure && Altered(o).None?
        && (!HasOption(row, Checked(o).value) || ContestedColumn(options, Checked(o).value.column)))
  }

  /** A role without a name, or with an option that is not understood. */
  ghost predicate RoleBlocked(d: Spec, c: Catalog, n: Name, sure: bool) {
    Listed(d, n) && (n == "" || exists o :: o in d.roles[n].options
                                        && OptionBlocked(RowAt(c, n), d.roles[n].options, o, sure))
  }

  // ----- grants -----

  /** One of the roles is Absent or has no name. */
  predicate GrantUnfit(g: Grant) {
    && g.state != Absent
    && (g.granted.state == Absent || g.grantee.state == Absent || g.granted.name == "" || g.grantee.name == "")
  }

  /** The membership is not there, and its roles are not fit to be granted, or it would close a cycle. */
  predicate GrantBlocked(g: Grant, ms: set<Edge>) {
    && g.state != Absent && EdgeOf(g) !in ms
    && (GrantUnfit(g) || Reach(ms, g.granted.name, g.grantee.name))
  }

  /** The memberships when it is the turn of the i-th grant. */
  function MembersUpto(ms: set<Edge>, grants: seq<Grant>, i: nat): set<Edge>
    requires i <= |grants|
  {
    ms + set g | g in grants[..i] && g.state != Absent :: EdgeOf(g)
  }

  predicate SomeGrantBlocked(ms: set<Edge>, grants: seq<Grant>) {
    exists i :: 0 <= i < |grants| && GrantBlocked(grants[i], MembersUpto(ms, grants, i))
  }

  // ----- one database -----

  /**
   A Present extension that is not available, or not in its version, or that is missing and has no schema
   to live in, unless another extension may bring that schema; an Absent one without a name.
   */
  predicate ExtensionBlocked(w: World, x: Database, db: Db, e: Name, sure: bool)
    requires e in x.extensions
  {
    var y := x.extensions[e];
    match y.state
    case Present =>
      || e !in w.available || (y.version != "" && (e, y.version) !in w.versions)
      || (e !in db.exts && y.schema == "" && w.extSchema(e) !in db.schemas && (sure ==> !Demanded(x, w.extSchema(e))))
    case Absent => e == ""
    case Allowed => false
  }

  /** Something lives in the schema once the extensions are settled. */
  ghost predicate SchemaInUse(w: World, n: Name, x: Database, db: Db, sc: Name) {
    || (exists o :: o in db.objects && db.objects[o].schema == sc)
    || (exists e {:trigger ExtExists(e)} ::
          WantDb(w, n, x, db, ExtExists(e)) == Flag(true) && WantDb(w, n, x, db, ExtSchema(e)) == Text(sc))
  }

  /** A schema without a name; one that is to go and is in use; an Allowed one with an owner. */
  predicate SchemaBlocked(s: Schema, db: Db, sc: Name, inUse: bool) {
    || (sc == "" && s.state != Absent && sc !in db.schemas)
    || (s.state != Present && inUse)
    || (s.state == Allowed && s.owner != "")
  }

  ghost predicate ContentBlocked(w: World, n: Name, x: Database, db: Db, sure: bool) {
    || (exists e :: e in x.extensions && ExtensionBlocked(w, x, db, e, sure))
    || (exists sc :: sc in x.schemas && SchemaBlocked(x.schemas[sc], db, sc, SchemaInUse(w, n, x, db, sc)))
  }

  /** There is a table, and the role that is to get something on it does not exist. */
  predicate TableRoleBlocked(ps: Tables.Privileges, role: Name, there: bool, sure: bool) {
    && !there && (exists t :: t in ps && Tables.UserSchema(t.schema))
    && (sure ==> forall t :: t in ps ==> Tables.Held(ps, t, role) == {})
  }

  // ----- the whole specification -----

  /** The role is there when databases are visited; surely, or at most. */
  ghost predicate RoleThere(d: Spec, c: Catalog, r: Name, sure: bool) {
    r in c.roles || (if sure then Listed(d, r) || GrantNames(d, r) else NamesRole(d, r))
  }

  /** What the template may be when a database is copied from it. */
  ghost predicate TemplateMayBe(w: World, d: Spec, c: Catalog, t: Db) {
    TEMPLATE in c.dbs && forall k: DbKey ::
      || GetDb(w, t, k) == GetDb(w, c.dbs[TEMPLATE], k)
      || (Managed(d, TEMPLATE) && GetDb(w, t, k) == WantDb(w, TEMPLATE, d.databases[TEMPLATE], c.dbs[TEMPLATE], k))
  }

  /** What the database holds when it is visited: what it held before, or a copy of the template. */
  ghost predicate MayHold(w: World, d: Spec, c: Catalog, n: Name, db: Db) {
    if n in c.dbs then db == c.dbs[n] else exists t :: TemplateMayBe(w, d, c, t) && db == t.(owner := w.me)
  }

  /** What stops the connection to a database that holds this, when these are the roles. */
  ghost predicate InsideBlocked(w: World, n: Name, x: Database, db: Db, ps: Tables.Privileges, roles: set<Name>,
                                sure: bool) {
    || TableRoleBlocked(ps, n + "_readonly", n + "_readonly" in roles, sure)
    || TableRoleBlocked(ps, n + "_readwrite", n + "_readwrite" in roles, sure)
    || ContentBlocked(w, n, x, db, sure)
  }

  /** What stops the visit of a database in this catalog. */
  ghost predicate VisitBlocked(w: World, n: Name, x: Database, c: Catalog, ps: Tables.Privileges, roles: set<Name>,
                               sure: bool) {
    || OwnerName(n, x) == ""
    || (n !in c.dbs && (n == "" || TEMPLATE !in c.dbs))
    || InsideBlocked(w, n, x, DbAt(w, c, n), ps, roles, sure)
  }

  ghost predicate DatabaseBlocked(w: World, d: Spec, c: Catalog, tables: map<Name, Tables.Privileges>, n: Name,
                                  sure: bool)
    requires Managed(d, n)
  {
    var x, ps := d.databases[n], Tables.TablesIn(tables, n);
    || OwnerName(n, x) == ""
    || (n !in c.dbs && (n == "" || TEMPLATE !in c.dbs))
    || TableRoleBlocked(ps, n + "_readonly", RoleThere(d, c, n + "_readonly", !sure), sure)
    || TableRoleBlocked(ps, n + "_readwrite", RoleThere(d, c, n + "_readwrite", !sure), sure)
    || (if sure then forall db :: MayHold(w, d, c, n, db) ==> ContentBlocked(w, n, x, db, true)
        else exists db :: MayHold(w, d, c, n, db) && ContentBlocked(w, n, x, db, false))
  }

  /** A slot without a name. */
  predicate SlotBlocked(d: Spec, c: Catalog, n: Name) {
    n in d.slots && d.slots[n] != Absent && n == "" && n !in c.slots
  }

  /** Something stops a run; surely, or in some order. */
  ghost predicate Obstacle(w: World, d: Spec, c: Catalog, tables: map<Name, Tables.Privileges>, sure: bool) {
    || (exists n :: RoleBlocked(d, c, n, sure))
    || SomeGrantBlocked(c.members, d.grants)
    || (exists n :: Managed(d, n) && DatabaseBlocked(w, d, c, tables, n, sure))
    || (exists n :: SlotBlocked(d, c, n))
  }

  /** Every table of a user schema is an object of its database. */
  predicate DbFits(db: Db, ps: Tables.Privileges) {
    forall t :: t in ps && Tables.UserSchema(t.schema) ==>
      exists o :: o in db.objects && db.objects[o].schema == t.schema
  }

  ghost predicate Fits(c: Catalog, tables: map<Name, Tables.Privileges>) {
    forall n :: n in tables && tables[n] != map[] ==> n in c.dbs && DbFits(c.dbs[n], tables[n])
  }

  // ----- when the order does not matter -----

  /** Whatever the server understands in a check, it understands in ALTER ROLE. */
  ghost predicate OptionsDecided(d: Spec) {
    forall n, o :: Listed(d, n) && o in d.roles[n].options && Checked(o).Some? ==> Altered(o).Some?
  }

  /** This role of a database exists when the databases are visited; or it does not, and holds nothing. */
  ghost predicate TableRoleDecided(d: Spec, c: Catalog, ps: Tables.Privileges, role: Name) {
    || RoleThere(d, c, role, true)
    || (!RoleThere(d, c, role, false) && forall t :: t in ps ==> Tables.Held(ps, t, role) == {})
  }

  /** No extension comes without a schema into one that is created for another. */
  ghost predicate ExtensionsDecided(w: World, x: Database) {
    forall e :: e in x.extensions && x.extensions[e].state == Present && x.extensions[e].schema == "" ==>
      !Demanded(x, w.extSchema(e))
  }

  ghost predicate DatabaseDecided(w: World, d: Spec, c: Catalog, tables: map<Name, Tables.Privileges>, n: Name)
    requires Managed(d, n)
  {
    && ExtensionsDecided(w, d.databases[n])
    && (n in c.dbs || !Managed(d, TEMPLATE))
    && TableRoleDecided(d, c, Tables.TablesIn(tables, n), n + "_readonly")
    && TableRoleDecided(d, c, Tables.TablesIn(tables, n), n + "_readwrite")
  }

  /** Whether anything stops a run does not depend on the order in which maps are visited. */
  ghost predicate Decided(w: World, d: Spec, c: Catalog, tables: map<Name, Tables.Privileges>) {
    OptionsDecided(d) && forall n :: Managed(d, n) ==> DatabaseDecided(w, d, c, tables, n)
  }

  lemma ContentDecided(w: World, n: Name, x: Database, db: Db)
    requires ExtensionsDecided(w, x)
    ensures ContentBlocked(w, n, x, db, false) <==> ContentBlocked(w, n, x, db, true)
  {
    hide SchemaInUse, SchemaBlocked, Demanded;
  }

  lemma HoldsDecided(w: World, d: Spec, c: Catalog, n: Name, db: Db)
    requires (n in c.dbs || !Managed(d, TEMPLATE)) && (n in c.dbs || TEMPLATE in c.dbs)
    ensures MayHold(w, d, c, n, db) <==> db == DbAt(w, c, n)
  {
    if n !in c.dbs {
      var t := c.dbs[TEMPLATE];
      assert TemplateMayBe(w, d, c, t);
      forall u | TemplateMayBe(w, d, c, u) ensures u == t {
        forall k ensures GetDb(w, u, k) == GetDb(w, t, k) { }
        DbsEqual(w, u, t);
      }
    }
  }

  lemma TableRolesDecided(d: Spec, c: Catalog, ps: Tables.Privileges, role: Name)
    requires TableRoleDecided(d, c, ps, role)
    ensures TableRoleBlocked(ps, role, RoleThere(d, c, role, true), false) <==>
      TableRoleBlocked(ps, role, RoleThere(d, c, role, false), true)
  {
  }

  /** What stops the visit of a database, then: a role, or what it holds, or that there is nothing to copy. */
  lemma DatabaseBlockedIff(w: World, d: Spec, c: Catalog, tables: map<Name, Tables.Privileges>, n: Name, sure: bool)
    requires Managed(d, n) && DatabaseDecided(w, d, c, tables, n)
    ensures DatabaseBlocked(w, d, c, tables, n, sure) <==>
      || OwnerName(n, d.databases[n]) == ""
      || (n !in c.dbs && (n == "" || TEMPLATE !in c.dbs))
      || TableRoleBlocked(Tables.TablesIn(tables, n), n + "_readonly", RoleThere(d, c, n + "_readonly", true), false)
      || TableRoleBlocked(Tables.TablesIn(tables, n), n + "_readwrite", RoleThere(d, c, n + "_readwrite", true), false)
      || ContentBlocked(w, n, d.databases[n], DbAt(w, c, n), true)
  {
    hide TableRoleBlocked, ContentBlocked, TableRoleDecided, RoleThere, MayHold, ExtensionsDecided;
    var ps := Tables.TablesIn(tables, n);
    TableRolesDecided(d, c, ps, n + "_readonly");
    TableRolesDecided(d, c, ps, n + "_readwrite");
    ContentDecided(w, n, d.databases[n], DbAt(w, c, n));
    if n in c.dbs || TEMPLATE in c.dbs {
      forall db ensures MayHold(w, d, c, n, db) <==> db == DbAt(w, c, n) { HoldsDecided(w, d, c, n, db); }
    }
  }

  /** Then what may stop a run stops every run. */
  lemma ObstacleDecided(w: World, d: Spec, c: Catalog, tables: map<Name, Tables.Privileges>)
    requires Decided(w, d, c, tables)
    ensures Obstacle(w, d, c, tables, false) <==> Obstacle(w, d, c, tables, true)
  {
    forall n ensures RoleBlocked(d, c, n, false) <==> RoleBlocked(d, c, n, true) { }
    hide RoleBlocked, DatabaseBlocked, DatabaseDecided, OptionsDecided, SomeGrantBlocked;
    forall n | Managed(d, n)
      ensures DatabaseBlocked(w, d, c, tables, n, false) <==> DatabaseBlocked(w, d, c, tables, n, true)
    {
      DatabaseBlockedIff(w, d, c, tables, n, false);
      DatabaseBlockedIff(w, d, c, tables, n, true);
    }
  }

  /**
   A success shows that nothing was in the way; on a reliable server a failure that something was; and so,
   if the order of maps does not decide it, a run succeeds exactly if nothing is in the way.
   */
  ghost predicate Explained(w: World, d: Spec, c: Catalog, tables: map<Name, Tables.Privileges>, reliable: bool,
                            ok: bool) {
    && (ok ==> !Obstacle(w, d, c, tables, true))
    && (reliable && !ok && Fits(c, tables) ==> Obstacle(w, d, c, tables, false))
    && (reliable && Fits(c, tables) && Decided(w, d, c, tables) ==> (ok <==> !Obstacle(w, d, c, tables, true)))
  }

  lemma ExplainedIs(w: World, d: Spec, c: Catalog, tables: map<Name, Tables.Privileges>, reliable: bool)
    ensures !reliable || (exists n :: RoleBlocked(d, c, n, false)) || SomeGrantBlocked(c.members, d.grants)
            || !Fits(c, tables) || (exists n :: Managed(d, n) && DatabaseBlocked(w, d, c, tables, n, false))
            || (exists n :: SlotBlocked(d, c, n)) ==>
              Explained(w, d, c, tables, reliable, false)
    ensures !SomeGrantBlocked(c.members, d.grants) && (forall n :: !RoleBlocked(d, c, n, true) && !SlotBlocked(d, c, n))
            && (forall n :: Managed(d, n) ==> !DatabaseBlocked(w, d, c, tables, n, true)) ==>
              Explained(w, d, c, tables, reliable, true)
  {
    hide Decided, Fits, DatabaseBlocked, RoleBlocked, SlotBlocked, SomeGrantBlocked;
    if Decided(w, d, c, tables) { ObstacleDecided(w, d, c, tables); }
  }
}
