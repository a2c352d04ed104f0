/** The handler: its tables of roles, grants, databases and slots, and the order of the phases. */
module Handlers {
  import opened Options
  import opened Catalog
  import opened Desired
  import opened Progress
  import opened Statements
  import opened Servers
  import Roles
  import Grants
  import Databases
  import Tables
  import opened TableGrants
  import opened Finalizing
  import opened Obstacles
  import opened OptionMaps

  // ----- one database -----

  /** Everything about the database holds. */
  ghost predicate DatabaseHeld(w: World, d: Spec, c: Catalog, n: Name) {
    && Held(w, d, c, DbExists(n))
    && (Managed(d, n) ==> Held(w, d, c, RoleExists(OwnerName(n, d.databases[n]))))
    && (forall k :: Held(w, d, c, OfDb(n, k)))
    && (forall sc :: Databases.NamesOwner(d, n, sc) ==> Held(w, d, c, RoleExists(d.databases[n].schemas[sc].owner)))
    && (forall sc :: !SchemaConflict(d, n, sc))
  }

  lemma DatabaseHeldStable(w: World, d: Spec, a: Catalog, b: Catalog)
    requires Between(w, d, a, b, true)
    ensures forall n :: Managed(d, n) && DatabaseHeld(w, d, a, n) ==> DatabaseHeld(w, d, b, n)
  {
    HeldStable(w, d, a, b);
  }

  lemma DatabaseHeldAfter(w: World, d: Spec, a: Log, b: Log)
    requires Advance(w, d, a, b, true)
    ensures forall n :: Managed(d, n) && DatabaseHeld(w, d, a.cat, n) ==> DatabaseHeld(w, d, b.cat, n)
    ensures Wf(w, b.cat)
  {
    hide Between, Legal, Wf, DatabaseHeld;
    DatabaseHeldStable(w, d, a.cat, b.cat);
  }

  lemma DatabaseKeyHeld(w: World, d: Spec, c: Catalog, n: Name, k: DbKey)
    requires Wf(w, c) && n in c.dbs && Databases.ExtensionsHeld(w, d, c, n)
    requires forall sc :: sc in d.databases[n].schemas ==> Databases.SchemaHeld(w, d, c, n, sc)
    requires Held(w, d, c, OfDb(n, DbOwner))
    ensures Held(w, d, c, OfDb(n, k))
  {
    hide Wf;
    match k
    case SchemaExists(sc) =>
      if sc in d.databases[n].schemas {
        assert Databases.SchemaHeld(w, d, c, n, sc);
      } else if Demanded(d.databases[n], sc) {
        Databases.DemandedSchemaInUse(w, d, c, n, sc);
      }
    case SchemaOwner(sc) =>
      if sc in d.databases[n].schemas { assert Databases.SchemaHeld(w, d, c, n, sc); }
    case ExtExists(e) => assert e in d.databases[n].extensions ==> Databases.ExtensionHeld(w, d, c, n, e);
    case ExtSchema(e) => assert e in d.databases[n].extensions ==> Databases.ExtensionHeld(w, d, c, n, e);
    case ExtVersion(e) => assert e in d.databases[n].extensions ==> Databases.ExtensionHeld(w, d, c, n, e);
    case _ =>
  }

  lemma DatabaseSettled(w: World, d: Spec, c: Catalog, n: Name)
    requires Wf(w, c) && n in c.dbs && Databases.ExtensionsHeld(w, d, c, n)
    requires forall sc :: sc in d.databases[n].schemas ==> Databases.SchemaHeld(w, d, c, n, sc)
    requires Held(w, d, c, OfDb(n, DbOwner)) && Held(w, d, c, RoleExists(OwnerName(n, d.databases[n])))
    ensures DatabaseHeld(w, d, c, n)
  {
    forall k { DatabaseKeyHeld(w, d, c, n, k); }
    hide Wf, Databases.ExtensionsHeld;
    forall sc ensures !SchemaConflict(d, n, sc)
              ensures Databases.NamesOwner(d, n, sc) ==> Held(w, d, c, RoleExists(d.databases[n].schemas[sc].owner))
    {
      if sc in d.databases[n].schemas { assert Databases.SchemaHeld(w, d, c, n, sc); }
    }
    assert Held(w, d, c, DbExists(n));
  }

  method CreateDatabaseIfMissing(s: Server, ghost d: Spec, n: Name) returns (ok: bool)
    requires Wf(s.w, s.cat) && Managed(d, n)
    modifies s`cat, s`trace
    ensures Advance(s.w, d, old(s.State()), s.State(), ok)
    ensures ok ==> n in s.cat.dbs
    ensures ok ==> s.cat.dbs == old(s.cat).dbs[n := DbAt(s.w, old(s.cat), n)]
    ensures !ok ==> s.cat.dbs == old(s.cat).dbs
    ensures s.cat.slots == old(s.cat).slots && s.cat.roles == old(s.cat).roles
    ensures ok ==> n in old(s.cat).dbs || (n != "" && TEMPLATE in old(s.cat).dbs)
    ensures s.reliable && !ok ==> n !in old(s.cat).dbs && (n == "" || TEMPLATE !in old(s.cat).dbs)
  {
    hide Wf, Between, Legal;
    var asked, exists_ := s.Ask(n in s.cat.dbs);
    ok := asked;
    if asked && !exists_ {
      ok := s.Exec(CreateDatabase(n));
    }
    CreateDatabaseSound(s.w, d, old(s.cat), n);
    AttemptAdvances(s.w, d, n !in old(s.cat).dbs, CreateDatabase(n), old(s.State()), s.State(), ok);
  }

  method ReconcileOwner(s: Server, ghost d: Spec, n: Name, x: Database) returns (ok: bool)
    requires Wf(s.w, s.cat) && n in s.cat.dbs && Managed(d, n) && d.databases[n] == x
    modifies s`cat, s`trace
    ensures Advance(s.w, d, old(s.State()), s.State(), ok)
    ensures ok ==> Held(s.w, d, s.cat, OfDb(n, DbOwner))
    ensures Databases.Elsewhere(old(s.cat), s.cat, n) && s.cat.roles == old(s.cat).roles
    ensures s.cat.dbs[n] == old(s.cat).dbs[n].(owner := s.cat.dbs[n].owner)
    ensures s.reliable && !ok ==> OwnerName(n, x) !in s.cat.roles
  {
    hide Wf, Between, Legal, Held;
    AdvanceRefl(s.w, d, s.State(), true);
    AdvanceRefl(s.w, d, s.State(), false);
    var owner := OwnerName(n, x);
    var asked, proper := s.Ask(s.cat.dbs[n].owner == owner);
    if !asked || proper {
      OwnerHeld(s.w, d, s.cat, n);
      return asked;
    }
    var known, exists_ := s.Ask(owner in s.cat.roles);
    if !known || !exists_ {
      return false;
    }
    ok := s.Exec(InDatabase(n, AlterOwner(owner)));
    AlterOwnerSound(s.w, d, old(s.cat), n);
    AttemptAdvances(s.w, d, true, InDatabase(n, AlterOwner(owner)), old(s.State()), s.State(), ok);
    OwnerHeld(s.w, d, s.cat, n);
  }

  lemma OwnerHeld(w: World, d: Spec, c: Catalog, n: Name)
    requires Managed(d, n) && n in c.dbs
    ensures c.dbs[n].owner == OwnerName(n, d.databases[n]) ==> Held(w, d, c, OfDb(n, DbOwner))
  {
  }

  /** What runs on the database's own connection: table grants, extensions, schemas. */
  method ReconcileDbCon(s: Server, ghost d: Spec, n: Name, x: Database) returns (ok: bool)
    requires Wf(s.w, s.cat) && n in s.cat.dbs && Managed(d, n) && d.databases[n] == x
    modifies s`cat, s`trace, s`tables
    ensures Advance(s.w, d, old(s.State()), s.State(), ok)
    ensures ok ==> n in s.cat.dbs && Databases.ExtensionsHeld(s.w, d, s.cat, n)
    ensures ok ==> forall sc :: sc in x.schemas ==> Databases.SchemaHeld(s.w, d, s.cat, n, sc)
    ensures DbAdded(n, Tables.TablesIn(old(s.tables), n), Tables.TablesIn(s.tables, n))
    ensures forall y :: y != n ==> Tables.TablesIn(s.tables, y) == Tables.TablesIn(old(s.tables), y)
    ensures ok ==> DbCovered(n, Tables.TablesIn(old(s.tables), n), Tables.TablesIn(s.tables, n))
    ensures Databases.Elsewhere(old(s.cat), s.cat, n)
    ensures var w, db, ps := s.w, old(s.cat).dbs[n], Tables.TablesIn(old(s.tables), n);
      && (ok ==> !InsideBlocked(w, n, x, db, ps, old(s.cat).roles.Keys, true))
      && (s.reliable && !ok && DbFits(db, ps) ==> InsideBlocked(w, n, x, db, ps, old(s.cat).roles.Keys, false))
  {
    hide Wf, Between, Legal, Databases.ExtensionHeld, Databases.SchemaHeld, GrantsAdded, DbAdded, DbCovered,
      Tables.Unambiguous, Tables.CoverStep, ContentBlocked, TableRoleBlocked, DbFits, ExtensionBlocked, SchemaBlocked,
      Databases.SchemaStops, Databases.ExtensionsStep, Databases.SchemasStep, Databases.Elsewhere;
    StillElsewhere(s.cat, n);
    ok := ReconcileReadOnlyGrants(s, d, n);
    OneLoop(n, old(s.tables), s.tables);
    ghost var readTables := s.tables;
    if !ok {
      return;
    }
    ghost var readable := s.State();
    OtherRoleBlocked(n, old(s.tables), readTables, s.cat.roles.Keys);
    SameTablesFit(s.cat.dbs[n], Tables.TablesIn(old(s.tables), n), Tables.TablesIn(readTables, n));
    ok := ReconcileReadWriteGrants(s, d, n);
    BothLoops(n, old(s.tables), readTables, s.tables, ok);
    AdvanceTrans(s.w, d, old(s.State()), readable, s.State(), ok);
    if !ok {
      return;
    }
    ghost var writable := s.State();
    ok := Databases.ReconcileExtensions(s, d, n, x.extensions);
    AdvanceTrans(s.w, d, old(s.State()), writable, s.State(), ok);
    ExtensionsElsewhere(d, n, x.extensions.Keys, old(s.cat), s.cat);
    if !ok {
      ContentIsBlocked(s.w, n, x, old(s.cat).dbs[n], false);
      return;
    }
    ghost var extended := s.State();
    StopsAreBlocked(s.w, d, n, x, old(s.cat), extended.cat);
    ok := Databases.ReconcileSchemas(s, d, n, x.schemas);
    AdvanceTrans(s.w, d, old(s.State()), extended, s.State(), ok);
    SchemasElsewhere(n, x.schemas.Keys, old(s.cat), extended.cat, s.cat);
    ContentIsBlocked(s.w, n, x, old(s.cat).dbs[n], false);
    ContentIsBlocked(s.w, n, x, old(s.cat).dbs[n], true);
  }

  lemma StillElsewhere(c: Catalog, n: Name)
    requires n in c.dbs
    ensures Databases.Elsewhere(c, c, n)
  {
  }

  lemma ExtensionsElsewhere(d: Spec, n: Name, done: set<Name>, a: Catalog, b: Catalog)
    requires n in d.databases && Databases.ExtensionsStep(d, n, done, a, b)
    ensures Databases.Elsewhere(a, b, n) && n in b.dbs
  {
  }

  lemma SchemasElsewhere(n: Name, done: set<Name>, a: Catalog, b: Catalog, c: Catalog)
    requires Databases.Elsewhere(a, b, n) && Databases.SchemasStep(n, done, b, c)
    ensures Databases.Elsewhere(a, c, n) && n in c.dbs
  {
  }

  /** The first loop changes nothing for the role of the second. */
  lemma OtherRoleBlocked(n: Name, a: map<Name, Tables.Privileges>, b: map<Name, Tables.Privileges>, roles: set<Name>)
    requires GrantsAdded(n, a, b, ReadOnlyRole(n), Tables.READ_ONLY)
    ensures forall sure ::
      TableRoleBlocked(Tables.TablesIn(b, n), n + "_readwrite", n + "_readwrite" in roles, sure) <==>
      TableRoleBlocked(Tables.TablesIn(a, n), n + "_readwrite", n + "_readwrite" in roles, sure)
    ensures Tables.TablesIn(b, n).Keys == Tables.TablesIn(a, n).Keys
  {
    TableRolesDiffer(n);
    assert Tables.TablesIn(b, n).Keys == Tables.TablesIn(a, n).Keys;
  }

  lemma SameTablesFit(db: Db, a: Tables.Privileges, b: Tables.Privileges)
    requires b.Keys == a.Keys
    ensures DbFits(db, b) <==> DbFits(db, a)
  {
    forall t ensures t in b <==> t in a { assert t in b.Keys <==> t in a.Keys; }
  }

  lemma ContentIsBlocked(w: World, n: Name, x: Database, db: Db, sure: bool)
    ensures ContentBlocked(w, n, x, db, sure) <==>
      || (exists e :: e in x.extensions && ExtensionBlocked(w, x, db, e, sure))
      || (exists sc :: sc in x.schemas && SchemaBlocked(x.schemas[sc], db, sc, SchemaInUse(w, n, x, db, sc)))
  {
  }

  /** Once the extensions are settled, a schema is in use exactly if that could be read off before. */
  lemma InUseBefore(w: World, d: Spec, n: Name, a: Catalog, b: Catalog, sc: Name)
    requires Between(w, d, a, b, true) && Managed(d, n) && Databases.ExtensionsHeld(w, d, b, n)
    requires n in a.dbs && n in b.dbs && b.dbs[n].objects == a.dbs[n].objects
    ensures !SchemaEmpty(b.dbs[n], sc) <==> SchemaInUse(w, n, d.databases[n], a.dbs[n], sc)
  {
    var x, db := d.databases[n], b.dbs[n];
    forall e
      ensures GetDb(w, db, ExtExists(e)) == WantDb(w, n, x, a.dbs[n], ExtExists(e))
      ensures GetDb(w, db, ExtSchema(e)) == WantDb(w, n, x, a.dbs[n], ExtSchema(e))
    {
      ExtensionIsWanted(w, d, n, a, b, e);
    }
    if !SchemaEmpty(db, sc) {
      if e :| e in db.exts && db.exts[e].schema == sc {
        assert GetDb(w, db, ExtExists(e)) == Flag(true) && GetDb(w, db, ExtSchema(e)) == Text(sc);
      }
    }
    if e :| WantDb(w, n, x, a.dbs[n], ExtExists(e)) == Flag(true)
            && WantDb(w, n, x, a.dbs[n], ExtSchema(e)) == Text(sc)
    {
      assert e in db.exts && db.exts[e].schema == sc;
    }
  }

  lemma ExtensionIsWanted(w: World, d: Spec, n: Name, a: Catalog, b: Catalog, e: Name)
    requires Between(w, d, a, b, true) && Managed(d, n) && Databases.ExtensionsHeld(w, d, b, n)
    requires n in a.dbs && n in b.dbs
    ensures GetDb(w, b.dbs[n], ExtExists(e)) == WantDb(w, n, d.databases[n], a.dbs[n], ExtExists(e))
    ensures GetDb(w, b.dbs[n], ExtSchema(e)) == WantDb(w, n, d.databases[n], a.dbs[n], ExtSchema(e))
  {
    hide Between, WantDb, GetDb;
    if e in d.databases[n].extensions { assert Databases.ExtensionHeld(w, d, b, n, e); }
    UnlistedIsUnwanted(w, n, d.databases[n], a.dbs[n], e);
    DbKeyIsWanted(w, d, n, a, b, ExtExists(e));
    DbKeyIsWanted(w, d, n, a, b, ExtSchema(e));
  }

  lemma UnlistedIsUnwanted(w: World, n: Name, x: Database, db: Db, e: Name)
    ensures e !in x.extensions ==> WantDb(w, n, x, db, ExtExists(e)) == GetDb(w, db, ExtExists(e))
    ensures e !in x.extensions ==> WantDb(w, n, x, db, ExtSchema(e)) == GetDb(w, db, ExtSchema(e))
  {
  }

  lemma DbKeyIsWanted(w: World, d: Spec, n: Name, a: Catalog, b: Catalog, k: DbKey)
    requires Between(w, d, a, b, true) && Managed(d, n) && n in a.dbs && n in b.dbs
    requires Held(w, d, b, OfDb(n, k)) || WantDb(w, n, d.databases[n], a.dbs[n], k) == GetDb(w, a.dbs[n], k)
    ensures GetDb(w, b.dbs[n], k) == WantDb(w, n, d.databases[n], a.dbs[n], k)
  {
    var key := OfDb(n, k);
    assert Loose(w, d, a, key, true) || Get(w, b, key) == Get(w, a, key) || Get(w, b, key) == Want(w, d, a, key);
    WantStable(w, d, a, b, true, key);
  }

  lemma StopsAreBlocked(w: World, d: Spec, n: Name, x: Database, a: Catalog, b: Catalog)
    requires Between(w, d, a, b, true) && Managed(d, n) && d.databases[n] == x && Databases.ExtensionsHeld(w, d, b, n)
    requires Databases.ExtensionsStep(d, n, x.extensions.Keys, a, b)
    ensures forall sc :: sc in x.schemas ==>
      (Databases.SchemaStops(x.schemas[sc], b.dbs[n], sc) <==>
       SchemaBlocked(x.schemas[sc], a.dbs[n], sc, SchemaInUse(w, n, x, a.dbs[n], sc)))
  {
    hide Between, Databases.ExtensionHeld, SchemaInUse, SchemaEmpty;
    forall sc | sc in x.schemas
      ensures Databases.SchemaStops(x.schemas[sc], b.dbs[n], sc) <==>
              SchemaBlocked(x.schemas[sc], a.dbs[n], sc, SchemaInUse(w, n, x, a.dbs[n], sc))
    {
      InUseBefore(w, d, n, a, b, sc);
    }
  }

  /** Owner role, database, owner, then the database's own connection. Only Present databases are looked at. */
  method ReconcileDatabase(s: Server, ghost d: Spec, n: Name, x: Database) returns (ok: bool)
    requires Wf(s.w, s.cat) && n in d.databases && d.databases[n] == x
    modifies s`cat, s`trace, s`tables
    ensures Advance(s.w, d, old(s.State()), s.State(), ok)
    ensures ok && Managed(d, n) ==> DatabaseHeld(s.w, d, s.cat, n)
    ensures DbAdded(n, Tables.TablesIn(old(s.tables), n), Tables.TablesIn(s.tables, n))
    ensures forall y :: y != n ==> Tables.TablesIn(s.tables, y) == Tables.TablesIn(old(s.tables), y)
    ensures !Managed(d, n) ==> s.tables == old(s.tables)
    ensures ok && Managed(d, n) ==> DbCovered(n, Tables.TablesIn(old(s.tables), n), Tables.TablesIn(s.tables, n))
    ensures ElsewhereOrNew(old(s.cat), s.cat, n)
    ensures var w, c, ps := s.w, old(s.cat), Tables.TablesIn(old(s.tables), n);
      && (ok && Managed(d, n) ==> !VisitBlocked(w, n, x, c, ps, s.cat.roles.Keys, true))
      && (s.reliable && !ok && DbFits(DbAt(w, c, n), ps) ==>
            Managed(d, n) && VisitBlocked(w, n, x, c, ps, c.roles.Keys, false))
  {
    hide Wf, Between, Legal, Databases.ExtensionHeld, Databases.SchemaHeld, DatabaseHeld, Held, DbCovered,
      InsideBlocked, DbFits, Databases.Elsewhere, ElsewhereOrNew;
    AdvanceRefl(s.w, d, s.State(), true);
    AnywhereElse(s.cat, n);
    if x.state != Present {
      return true;
    }
    assert OwnerNames(d, OwnerName(n, x));
    ok := Roles.Create(s, OwnerName(n, x), Present);
    Roles.CreateAdvances(s.w, d, true, OwnerName(n, x), old(s.State()), s.State(), ok);
    if !ok {
      return;
    }
    ghost var owned := s.State();
    OwnerThere(s.w, d, s.cat, OwnerName(n, x));
    NamedRole(s.w, s.cat, OwnerName(n, x));
    ok := CreateDatabaseIfMissing(s, d, n);
    AdvanceTrans(s.w, d, old(s.State()), owned, s.State(), ok);
    AnywhereNew(s.w, old(s.cat), owned.cat, s.cat, n);
    if !ok {
      return;
    }
    HeldStable(s.w, d, owned.cat, s.cat);
    ghost var created := s.State();
    ok := ReconcileOwner(s, d, n, x);
    AdvanceTrans(s.w, d, old(s.State()), created, s.State(), ok);
    AnywhereThen(old(s.cat), created.cat, s.cat, n);
    if !ok {
      return;
    }
    HeldStable(s.w, d, created.cat, s.cat);
    ExistenceStays(s.w, d, created.cat, s.cat, true);
    ghost var given := s.State();
    InsideWithoutOwner(s.w, n, x, DbAt(s.w, old(s.cat), n), s.cat.dbs[n], Tables.TablesIn(s.tables, n));
    ok := ReconcileDbCon(s, d, n, x);
    AdvanceTrans(s.w, d, old(s.State()), given, s.State(), ok);
    AnywhereThen(old(s.cat), given.cat, s.cat, n);
    ExistenceStays(s.w, d, old(s.cat), given.cat, true);
    ExistenceStays(s.w, d, given.cat, s.cat, ok);
    FewerRoles(s.w, n, x, DbAt(s.w, old(s.cat), n), Tables.TablesIn(old(s.tables), n), old(s.cat), given.cat, s.cat);
    if ok {
      HeldStable(s.w, d, given.cat, s.cat);
      DatabaseSettled(s.w, d, s.cat, n);
    }
  }

  /** Other databases are as they were; this one is there if it was, and may be new. */
  ghost predicate ElsewhereOrNew(a: Catalog, b: Catalog, n: Name) {
    && b.slots == a.slots && a.dbs.Keys <= b.dbs.Keys
    && forall x :: x != n ==> (x in b.dbs <==> x in a.dbs) && (x in a.dbs ==> b.dbs[x] == a.dbs[x])
  }

  lemma AnywhereElse(a: Catalog, n: Name)
    ensures forall b: Catalog :: b.dbs == a.dbs && b.slots == a.slots ==> ElsewhereOrNew(a, b, n)
  {
  }

  lemma AnywhereNew(w: World, a: Catalog, b: Catalog, c: Catalog, n: Name)
    requires b.dbs == a.dbs && c.slots == b.slots == a.slots
    requires c.dbs == b.dbs || c.dbs == b.dbs[n := DbAt(w, b, n)]
    ensures ElsewhereOrNew(a, c, n)
  {
  }

  lemma AnywhereThen(a: Catalog, b: Catalog, c: Catalog, n: Name)
    requires ElsewhereOrNew(a, b, n) && Databases.Elsewhere(b, c, n)
    ensures ElsewhereOrNew(a, c, n) && n in c.dbs
  {
  }

  lemma NamedRole(w: World, c: Catalog, r: Name)
    requires Wf(w, c) && r in c.roles
    ensures r != ""
  {
  }

  /** What stops a run in a database does not depend on its owner. */
  lemma InsideWithoutOwner(w: World, n: Name, x: Database, a: Db, b: Db, ps: Tables.Privileges)
    requires b == a.(owner := b.owner)
    ensures forall roles, sure ::
      InsideBlocked(w, n, x, b, ps, roles, sure) <==> InsideBlocked(w, n, x, a, ps, roles, sure)
    ensures DbFits(b, ps) <==> DbFits(a, ps)
  {
    forall sc ensures SchemaInUse(w, n, x, b, sc) <==> SchemaInUse(w, n, x, a, sc) {
      InUseWithoutOwner(w, n, x, a, b, sc);
    }
    hide SchemaInUse, TableRoleBlocked;
    forall sure, e | e in x.extensions
      ensures ExtensionBlocked(w, x, b, e, sure) <==> ExtensionBlocked(w, x, a, e, sure)
    {
    }
    forall sure ensures ContentBlocked(w, n, x, b, sure) <==> ContentBlocked(w, n, x, a, sure) {
    }
  }

  lemma InUseWithoutOwner(w: World, n: Name, x: Database, a: Db, b: Db, sc: Name)
    requires b == a.(owner := b.owner)
    ensures SchemaInUse(w, n, x, b, sc) <==> SchemaInUse(w, n, x, a, sc)
  {
    forall e
      ensures WantDb(w, n, x, b, ExtExists(e)) == WantDb(w, n, x, a, ExtExists(e))
      ensures WantDb(w, n, x, b, ExtSchema(e)) == WantDb(w, n, x, a, ExtSchema(e))
    {
    }
  }

  /** The more roles there are, the less is in the way. */
  lemma FewerRoles(w: World, n: Name, x: Database, db: Db, ps: Tables.Privileges, a: Catalog, b: Catalog, c: Catalog)
    requires a.roles.Keys <= b.roles.Keys <= c.roles.Keys
    ensures InsideBlocked(w, n, x, db, ps, b.roles.Keys, false) ==> InsideBlocked(w, n, x, db, ps, a.roles.Keys, false)
    ensures InsideBlocked(w, n, x, db, ps, c.roles.Keys, true) ==> InsideBlocked(w, n, x, db, ps, b.roles.Keys, true)
  {
    hide ContentBlocked;
  }

  lemma OwnerThere(w: World, d: Spec, c: Catalog, r: Name)
    requires r in c.roles
    ensures Held(w, d, c, RoleExists(r))
  {
  }

  /** A database that was not visited yet is as it was. */
  ghost predicate Unvisited(a: Catalog, b: Catalog, n: Name) {
    (n in b.dbs <==> n in a.dbs) && (n in a.dbs ==> b.dbs[n] == a.dbs[n])
  }

  lemma NoneVisited(a: Catalog, order: seq<Name>)
    ensures forall j :: 0 <= j < |order| ==> Unvisited(a, a, order[j])
  {
  }

  lemma OthersUnvisited(a: Catalog, b: Catalog, c: Catalog, order: seq<Name>, i: nat)
    requires i < |order| && forall j, k :: 0 <= j < k < |order| ==> order[j] != order[k]
    requires (forall j :: i <= j < |order| ==> Unvisited(a, b, order[j])) && ElsewhereOrNew(b, c, order[i])
    ensures c.slots == b.slots && forall j :: i + 1 <= j < |order| ==> Unvisited(a, c, order[j])
  {
  }

  lemma SameTables(d: Spec, a: map<Name, Tables.Privileges>, b: map<Name, Tables.Privileges>, order: seq<Name>, i: nat)
    requires VisitedTables(d, a, b, order, i) && i < |order|
    ensures Tables.TablesIn(b, order[i]) == Tables.TablesIn(a, order[i])
  {
  }

  lemma FitsAt(w: World, a: Catalog, tables: map<Name, Tables.Privileges>, b: Catalog, n: Name)
    requires Unvisited(a, b, n)
    ensures Fits(a, tables) ==> DbFits(DbAt(w, b, n), Tables.TablesIn(tables, n))
  {
  }

  /** Every role that is listed or granted is there: roles and grants come before databases. */
  ghost predicate NamesThere(d: Spec, c: Catalog) { forall r :: Listed(d, r) || GrantNames(d, r) ==> r in c.roles }

  lemma MayHoldThis(w: World, d: Spec, a: Catalog, b: Catalog, n: Name)
    requires Between(w, d, a, b, true) && Unvisited(a, b, n) && (n in a.dbs || TEMPLATE in a.dbs)
    ensures MayHold(w, d, a, n, DbAt(w, b, n))
  {
    if n !in a.dbs {
      ExistenceStays(w, d, a, b, true);
      var t := b.dbs[TEMPLATE];
      forall k ensures GetDb(w, t, k) == GetDb(w, a.dbs[TEMPLATE], k)
        || (Managed(d, TEMPLATE) && GetDb(w, t, k) == WantDb(w, TEMPLATE, d.databases[TEMPLATE], a.dbs[TEMPLATE], k)) {
        var key := OfDb(TEMPLATE, k);
        assert Loose(w, d, a, key, true) || Get(w, b, key) == Get(w, a, key) || Get(w, b, key) == Want(w, d, a, key);
      }
      assert TemplateMayBe(w, d, a, t);
    }
  }

  /** What stops the visit could be told when the databases were begun with. */
  lemma BlockedBefore(w: World, d: Spec, a: Catalog, b: Catalog, tables: map<Name, Tables.Privileges>, n: Name)
    requires Between(w, d, a, b, true) && Unvisited(a, b, n) && Managed(d, n) && NamesThere(d, a)
    requires VisitBlocked(w, n, d.databases[n], b, Tables.TablesIn(tables, n), b.roles.Keys, false)
    ensures DatabaseBlocked(w, d, a, tables, n, false)
  {
    hide Between, ContentBlocked, MayHold, NamesRole;
    ExistenceStays(w, d, a, b, true);
    if n in a.dbs || TEMPLATE in a.dbs { MayHoldThis(w, d, a, b, n); }
  }

  /** And what is sure to stop a run does stop the visit. */
  lemma SureBefore(w: World, d: Spec, a: Log, b: Log, c: Log, tables: map<Name, Tables.Privileges>, n: Name)
    requires Between(w, d, a.cat, b.cat, true) && Legal(w, a, b) && Between(w, d, a.cat, c.cat, true)
    requires Unvisited(a.cat, b.cat, n) && Managed(d, n)
    requires !VisitBlocked(w, n, d.databases[n], b.cat, Tables.TablesIn(tables, n), c.cat.roles.Keys, true)
    ensures !DatabaseBlocked(w, d, a.cat, tables, n, true)
  {
    hide Between, Legal, ContentBlocked, MayHold, NamesRole;
    if TEMPLATE !in a.cat.dbs { NoneCreated(w, a, b); }
    if n in a.cat.dbs || TEMPLATE in a.cat.dbs { MayHoldThis(w, d, a.cat, b.cat, n); }
    RolesAreNamed(w, d, a.cat, c.cat);
  }

  lemma VisitTells(w: World, d: Spec, a: Log, b: Log, c: Log, tables: map<Name, Tables.Privileges>, n: Name, ok: bool)
    requires Advance(w, d, a, b, true) && Advance(w, d, a, c, ok) && Unvisited(a.cat, b.cat, n) && Managed(d, n)
    ensures var x, ps := d.databases[n], Tables.TablesIn(tables, n);
      && (NamesThere(d, a.cat) && VisitBlocked(w, n, x, b.cat, ps, b.cat.roles.Keys, false) ==>
            DatabaseBlocked(w, d, a.cat, tables, n, false))
      && (ok && !VisitBlocked(w, n, x, b.cat, ps, c.cat.roles.Keys, true) ==>
            !DatabaseBlocked(w, d, a.cat, tables, n, true))
  {
    hide VisitBlocked, DatabaseBlocked, Between, Legal, Wf, AllHeld, NamesThere;
    var x, ps := d.databases[n], Tables.TablesIn(tables, n);
    if NamesThere(d, a.cat) && VisitBlocked(w, n, x, b.cat, ps, b.cat.roles.Keys, false) {
      BlockedBefore(w, d, a.cat, b.cat, tables, n);
    }
    if ok && !VisitBlocked(w, n, x, b.cat, ps, c.cat.roles.Keys, true) { SureBefore(w, d, a, b, c, tables, n); }
  }

  lemma RolesAreNamed(w: World, d: Spec, a: Catalog, b: Catalog)
    requires Between(w, d, a, b, true)
    ensures forall r :: r in b.roles ==> r in a.roles || NamesRole(d, r)
  {
    forall r | r in b.roles ensures r in a.roles || NamesRole(d, r) {
      assert Get(w, b, RoleExists(r)) == Get(w, a, RoleExists(r))
          || Get(w, b, RoleExists(r)) == Want(w, d, a, RoleExists(r));
    }
  }

  /** All databases, in whatever order the map yields them. */
  method ReconcileDatabases(s: Server, ghost d: Spec, databases: map<Name, Database>) returns (ok: bool)
    requires Wf(s.w, s.cat) && databases == d.databases
    modifies s`cat, s`trace, s`tables
    ensures Advance(s.w, d, old(s.State()), s.State(), ok)
    ensures ok ==> forall n :: Managed(d, n) ==> DatabaseHeld(s.w, d, s.cat, n)
    ensures TablesAdded(d, old(s.tables), s.tables, ok)
    ensures s.cat.slots == old(s.cat).slots
    ensures ok ==> forall n :: Managed(d, n) ==> !DatabaseBlocked(s.w, d, old(s.cat), old(s.tables), n, true)
    ensures s.reliable && !ok && Fits(old(s.cat), old(s.tables)) && NamesThere(d, old(s.cat)) ==>
      exists n :: Managed(d, n) && DatabaseBlocked(s.w, d, old(s.cat), old(s.tables), n, false)
  {
    hide Wf, Between, Legal, DatabaseHeld, DbAdded, DbCovered, Tables.TablesIn, TablesAdded, VisitedTables,
      DatabaseBlocked, VisitBlocked, Fits, DbFits, ElsewhereOrNew, NamesThere, Unvisited, Advance;
    var order := InSomeOrder(databases.Keys);
    AdvanceRefl(s.w, d, s.State(), true);
    NoneVisited(s.cat, order);
    NothingVisited(d, s.tables, order);
    for i := 0 to |order|
      invariant Wf(s.w, s.cat) && Advance(s.w, d, old(s.State()), s.State(), true)
      invariant forall j :: 0 <= j < i && Managed(d, order[j]) ==> DatabaseHeld(s.w, d, s.cat, order[j])
      invariant VisitedTables(d, old(s.tables), s.tables, order, i)
      invariant s.cat.slots == old(s.cat).slots
      invariant forall j :: i <= j < |order| ==> Unvisited(old(s.cat), s.cat, order[j])
      invariant forall j :: 0 <= j < i && Managed(d, order[j]) ==>
        !DatabaseBlocked(s.w, d, old(s.cat), old(s.tables), order[j], true)
    {
      ghost var before, tables := s.State(), s.tables;
      assert order[i] in databases;
      ok := ReconcileDatabase(s, d, order[i], databases[order[i]]);
      AdvanceTrans(s.w, d, old(s.State()), before, s.State(), ok);
      OthersUnvisited(old(s.cat), before.cat, s.cat, order, i);
      SameTables(d, old(s.tables), tables, order, i);
      FitsAt(s.w, old(s.cat), old(s.tables), before.cat, order[i]);
      if Managed(d, order[i]) {
        VisitTells(s.w, d, old(s.State()), before, s.State(), old(s.tables), order[i], ok);
      }
      VisitTables(d, old(s.tables), tables, s.tables, order, i, ok);
      if !ok {
        return;
      }
      DatabaseHeldAfter(s.w, d, before, s.State());
    }
    AllVisited(d, old(s.tables), s.tables, order);
    return true;
  }

  // ----- the phases together -----

  ghost predicate PhasesHeld(w: World, d: Spec, c: Catalog) {
    && (forall n :: Listed(d, n) ==> Roles.RoleHeld(w, d, c, n))
    && (forall i :: 0 <= i < |d.grants| && d.grants[i].state != Absent ==> Grants.GrantHeld(w, d, c, d.grants[i]))
    && (forall n :: Managed(d, n) ==> DatabaseHeld(w, d, c, n))
    && (forall n :: n in d.slots ==> Held(w, d, c, SlotExists(n)))
  }

  /** Between them, the phases look at everything that is wanted to be different. */
  lemma PhasesCoverAll(w: World, d: Spec, c: Catalog)
    requires PhasesHeld(w, d, c)
    ensures AllHeld(w, d, c) && (forall n, sc :: !SchemaConflict(d, n, sc)) && forall n :: Listed(d, n) ==>
      Roles.Legible(d.roles[n].options)
  {
    forall n | Listed(d, n) ensures Roles.Legible(d.roles[n].options) { assert Roles.RoleHeld(w, d, c, n); }
    forall n, sc ensures !SchemaConflict(d, n, sc) {
      assert Managed(d, n) ==> DatabaseHeld(w, d, c, n);
    }
    forall k ensures Held(w, d, c, k) {
      match k
      case RoleExists(r) => NamedRoleHeld(w, d, c, r);
      case OfRole(r, rk) => assert Listed(d, r) ==> Roles.RoleHeld(w, d, c, r);
      case Member(e) =>
        if GrantDemanded(d, e) {
          var i :| 0 <= i < |d.grants| && d.grants[i].state != Absent
                   && e == Edge(d.grants[i].grantee.name, d.grants[i].granted.name);
          assert Grants.GrantHeld(w, d, c, d.grants[i]);
        }
      case DbExists(n) => assert Managed(d, n) ==> DatabaseHeld(w, d, c, n);
      case OfDb(n, dk) => assert Managed(d, n) ==> DatabaseHeld(w, d, c, n);
      case SlotExists(n) =>
    }
  }

  lemma NamedRoleHeld(w: World, d: Spec, c: Catalog, r: Name)
    requires PhasesHeld(w, d, c)
    ensures Held(w, d, c, RoleExists(r))
  {
    if Listed(d, r) {
      assert Roles.RoleHeld(w, d, c, r);
    } else if GrantNames(d, r) {
      var i :| 0 <= i < |d.grants| && d.grants[i].state != Absent
               && (r == d.grants[i].grantee.name || r == d.grants[i].granted.name);
      assert Grants.GrantHeld(w, d, c, d.grants[i]);
    } else if OwnerNames(d, r) {
      var n :| Managed(d, n) && r == OwnerName(n, d.databases[n]);
      assert DatabaseHeld(w, d, c, n);
    } else if SchemaOwnerNames(d, r) {
      var n :| Managed(d, n) && OwnsSchemaIn(d.databases[n], r);
      var sc :| sc in d.databases[n].schemas && d.databases[n].schemas[sc].state != Absent
                && d.databases[n].schemas[sc].owner == r && r != "";
      assert DatabaseHeld(w, d, c, n) && Databases.NamesOwner(d, n, sc);
    }
  }

  /**
   What a success shows about the specification: no schema is wanted gone and needed, options are
   understood, Absent roles are granted nothing new.
   */
  ghost predicate Sane(d: Spec, start: Catalog) {
    && (forall n, sc :: !SchemaConflict(d, n, sc))
    && (forall n :: Listed(d, n) ==> Roles.Legible(d.roles[n].options))
    && Grants.AllBacked(d.grants, start.members, |d.grants|)
  }

  /** What a call of Reconcile establishes, for every catalog and however far it gets. */
  ghost predicate Reconciled(w: World, d: Spec, a: Log, b: Log, ok: bool) {
    && Advance(w, d, a, b, ok)
    && (ok ==> AllHeld(w, d, b.cat) && Sane(d, a.cat))
  }

  // ----- what stands in the way of a success -----

  /** A success shows that no role was in the way. */
  lemma RolesUnblocked(w: World, d: Spec, a: Catalog, b: Catalog)
    requires Wf(w, b) && forall n :: Listed(d, n) ==> Roles.RoleHeld(w, d, b, n)
    ensures forall n :: !RoleBlocked(d, a, n, true)
  {
    forall n ensures !RoleBlocked(d, a, n, true) {
      if Listed(d, n) {
        assert Roles.RoleHeld(w, d, b, n) && Held(w, d, b, RoleExists(n));
      }
    }
  }

  /** Before databases are visited, roles and grants have made the roles they name. */
  lemma NamesAreThere(w: World, d: Spec, c: Catalog)
    requires forall n :: Listed(d, n) ==> Roles.RoleHeld(w, d, c, n)
    requires forall i :: 0 <= i < |d.grants| && d.grants[i].state != Absent ==> Grants.GrantHeld(w, d, c, d.grants[i])
    ensures NamesThere(d, c)
  {
    forall r | Listed(d, r) || GrantNames(d, r) ensures r in c.roles {
      if Listed(d, r) {
        assert Roles.RoleHeld(w, d, c, r) && Held(w, d, c, RoleExists(r));
      } else {
        var i :| 0 <= i < |d.grants| && d.grants[i].state != Absent
                 && (r == d.grants[i].grantee.name || r == d.grants[i].granted.name);
        assert Grants.GrantHeld(w, d, c, d.grants[i]);
      }
    }
  }

  /** What is in the way of the databases could be told at the start of the run. */
  lemma BlockedFromStart(w: World, d: Spec, a: Catalog, b: Catalog, tables: map<Name, Tables.Privileges>)
    requires Between(w, d, a, b, true) && b.dbs == a.dbs
    ensures forall n :: Managed(d, n) && DatabaseBlocked(w, d, b, tables, n, false) ==>
      DatabaseBlocked(w, d, a, tables, n, false)
    ensures forall n :: Managed(d, n) && DatabaseBlocked(w, d, a, tables, n, true) ==>
      DatabaseBlocked(w, d, b, tables, n, true)
  {
    hide Between, ContentBlocked, NamesRole, TableRoleBlocked;
    ExistenceStays(w, d, a, b, true);
    RolesAreNamed(w, d, a, b);
    forall n, db ensures MayHold(w, d, b, n, db) <==> MayHold(w, d, a, n, db) { SameTemplate(w, d, a, b, n, db); }
    hide MayHold;
    forall r ensures RoleThere(d, a, r, true) ==> RoleThere(d, b, r, true)
             ensures RoleThere(d, b, r, false) ==> RoleThere(d, a, r, false)
    {
    }
    MoreRolesBlockLess();
  }

  lemma SameTemplate(w: World, d: Spec, a: Catalog, b: Catalog, n: Name, db: Db)
    requires b.dbs == a.dbs
    ensures MayHold(w, d, b, n, db) <==> MayHold(w, d, a, n, db)
  {
    forall t ensures TemplateMayBe(w, d, b, t) <==> TemplateMayBe(w, d, a, t) { }
  }

  lemma SameFits(a: Catalog, b: Catalog, tables: map<Name, Tables.Privileges>)
    requires b.dbs == a.dbs
    ensures Fits(b, tables) <==> Fits(a, tables)
  {
  }

  lemma SameSlots(d: Spec, a: Catalog, b: Catalog)
    requires b.slots == a.slots
    ensures forall n :: SlotBlocked(d, b, n) <==> SlotBlocked(d, a, n)
  {
  }

  lemma MoreRolesBlockLess()
    ensures forall ps, role, sure :: !TableRoleBlocked(ps, role, true, sure)
  {
  }

  class Handler {
    const server: Server
    var roles: map<Name, Role>
    var grants: seq<Grant>
    var databases: map<Name, Database>
    var slots: map<Name, State>

    /** One role is known from the start; every listed slot is Present. */
    constructor (server: Server, databases: map<Name, Database>, slots: seq<Name>)
      ensures this.server == server && this.databases == databases && grants == []
      ensures roles == map["opex" := NewRole("opex")]
      ensures this.slots == map n | n in slots :: Present
    {
      this.server, this.databases, grants := server, databases, [];
      roles := map["opex" := NewRole("opex")];
      this.slots := map n | n in slots :: Present;
    }

    function Wanted(): Spec
      reads this
    {
      Spec(roles, grants, databases, slots)
    }

    /** The role of this name; it is added if the table does not have it. */
    method GetRole(n: Name) returns (r: Role)
      modifies `roles
      ensures r == if n in old(roles) then old(roles)[n] else NewRole(n)
      ensures roles == old(roles)[n := r]
    {
      if n in roles {
        r := roles[n];
        assert roles[n := r] == roles;
        return;
      }
      r := NewRole(n);
      roles := roles[n := r];
    }

    /** Merges into the entry under r's name; a missing entry counts as the zero role. */
    method AddRole(r: Role)
      modifies `roles
      ensures r.name in roles && roles.Keys == old(roles).Keys + {r.name}
      ensures IsMergedRole(if r.name in old(roles) then old(roles)[r.name] else ZERO_ROLE, r, roles[r.name])
      ensures forall n :: n in old(roles) && n != r.name ==> roles[n] == old(roles)[n]
    {
      var role := if r.name in roles then roles[r.name] else ZERO_ROLE;
      var merged := MergeRole(role, r);
      roles := roles[r.name := merged];
    }

    /** Adds both roles if they are missing, and a Present grant between them. */
    method Grant(grantee: Name, granted: Name)
      modifies `roles, `grants
      ensures roles.Keys == old(roles).Keys + {grantee, granted}
      ensures forall n :: n in roles ==> roles[n] == if n in old(roles) then old(roles)[n] else NewRole(n)
      ensures grants == old(grants) + [Desired.Grant(roles[grantee], roles[granted], Present)]
    {
      var grantedRole := GetRole(granted);
      var granteeRole := GetRole(grantee);
      grants := grants + [Desired.Grant(granteeRole, grantedRole, Present)];
    }

    /** Roles, grants, databases, slots, stopping at the first error. */
    method Reconcile() returns (ok: bool)
      requires Wf(server.w, server.cat)
      modifies server`cat, server`trace, server`tables
      ensures Reconciled(server.w, Wanted(), old(server.State()), server.State(), ok)
      ensures TablesAdded(Wanted(), old(server.tables), server.tables, ok)
      ensures Explained(server.w, Wanted(), old(server.cat), old(server.tables), server.reliable, ok)
    {
      hide Explained, Wf, Between, Legal, TablesAdded, Grants.AllBacked, Roles.RoleHeld, Grants.GrantHeld,
        DatabaseHeld, Held, AllHeld, RoleBlocked, SomeGrantBlocked, DatabaseBlocked, SlotBlocked, Fits, NamesThere;
      ghost var d := Wanted();
      var s := server;
      ExplainedIs(s.w, d, s.cat, s.tables, s.reliable);
      ok := Roles.ReconcileAll(s, d, roles);
      NothingAdded(d, s.tables);
      if !ok {
        return;
      }
      ghost var rolesDone := s.State();
      ok := Grants.ReconcileAll(s, d, grants);
      AdvanceTrans(s.w, d, old(s.State()), rolesDone, s.State(), ok);
      if !ok {
        return;
      }
      Roles.RoleHeldStable(s.w, d, rolesDone.cat, s.cat);
      ghost var grantsDone := s.State();
      RolesUnblocked(s.w, d, old(s.cat), s.cat);
      NamesAreThere(s.w, d, s.cat);
      BlockedFromStart(s.w, d, old(s.cat), s.cat, s.tables);
      SameFits(old(s.cat), s.cat, s.tables);
      ok := ReconcileDatabases(s, d, databases);
      AdvanceTrans(s.w, d, old(s.State()), grantsDone, s.State(), ok);
      if !ok {
        return;
      }
      Roles.RoleHeldStable(s.w, d, grantsDone.cat, s.cat);
      Grants.GrantHeldStable(s.w, d, grantsDone.cat, s.cat);
      ghost var databasesDone := s.State();
      AddedOnly(d, old(s.tables), s.tables);
      SameSlots(d, old(s.cat), s.cat);
      ok := Grants.ReconcileSlots(s, d, slots);
      AdvanceTrans(s.w, d, old(s.State()), databasesDone, s.State(), ok);
      if ok {
        Roles.RoleHeldStable(s.w, d, databasesDone.cat, s.cat);
        Grants.GrantHeldStable(s.w, d, databasesDone.cat, s.cat);
        DatabaseHeldStable(s.w, d, databasesDone.cat, s.cat);
        PhasesCoverAll(s.w, d, s.cat);
      }
    }

    /** Databases, grants, roles, slots, stopping at the first error. */
    method Finalize() returns (ok: bool)
      requires Wf(server.w, server.cat)
      modifies server`cat, server`trace
      ensures Trimmed(server.w, Wanted(), old(server.cat), server.cat)
      ensures ok ==> Gone(server.w, Wanted(), server.cat) && !TemplateToGo(Wanted(), old(server.cat))
      ensures server.reliable && !ok ==>
        TemplateToGo(Wanted(), old(server.cat)) || DroppableOwns(server.w, Wanted(), old(server.cat))
    {
      hide Wf, DbTrimmed, DatabasesGone, GrantsGone, RolesGone, SlotsGone, TemplateToGo, DroppableOwns, Owns,
        Droppable;
      ghost var d := Wanted();
      var s := server;
      ok := FinalizeDatabases(s, d, databases);
      if !ok {
        return;
      }
      ghost var first := s.cat;
      ok := FinalizeGrants(s, d, grants);
      TrimmedTrans(s.w, d, old(s.cat), first, s.cat);
      GoneStable(s.w, d, first, s.cat);
      if !ok {
        return;
      }
      ghost var second := s.cat;
      ok := FinalizeRoles(s, d, roles);
      TrimmedTrans(s.w, d, old(s.cat), second, s.cat);
      GoneStable(s.w, d, second, s.cat);
      if !ok {
        if s.reliable {
          ghost var r :| Droppable(s.w, d, r) && r in s.cat.roles && Owns(s.cat, r);
          OwnedBefore(s.w, d, old(s.cat), s.cat, r);
        }
        return;
      }
      ghost var third := s.cat;
      ok := FinalizeSlots(s, d, slots);
      TrimmedTrans(s.w, d, old(s.cat), third, s.cat);
      GoneStable(s.w, d, third, s.cat);
    }
  }
}
