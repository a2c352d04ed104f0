/**
 Each check-then-alter pair of the reconciler is sound: the alteration puts an observable where it is
 wanted, and the check lets nothing through once it is there.
 */
module Statements {
  import opened Options
  import opened Catalog
  import opened Desired
  import opened Progress

  // ----- lifting a change of one row or one database to the catalog -----

  lemma RowMoves(w: World, d: Spec, c: Catalog, r: Name, row: RoleRow)
    requires r in c.roles && Listed(d, r)
    requires forall k :: ContestedRow(d.roles[r], k) || GetRow(row, k) == GetRow(c.roles[r], k)
                         || GetRow(row, k) == WantRow(w, r, d.roles[r], c.roles[r], k)
    ensures Between(w, d, c, WithRole(c, r, row), true)
  {
    var c' := WithRole(c, r, row);
    forall k | !Loose(w, d, c, k, true) ensures Get(w, c', k) == Get(w, c, k) || Get(w, c', k) == Want(w, d, c, k) {
      match k
      case OfRole(x, rk) =>
        if x == r {
          assert ContestedRow(d.roles[r], rk) || GetRow(row, rk) == GetRow(c.roles[r], rk)
                 || GetRow(row, rk) == WantRow(w, r, d.roles[r], c.roles[r], rk);
        }
      case OfDb(_, _) => assert FreshDb(w, c') == FreshDb(w, c);
      case _ =>
    }
  }

  ghost predicate DbBetween(w: World, n: Name, d: Database, a: Db, b: Db) {
    forall k :: GetDb(w, b, k) == GetDb(w, a, k) || GetDb(w, b, k) == WantDb(w, n, d, a, k)
  }

  /** What a missing database would hold does not change, unless the template changes there. */
  lemma UncopiedStays(w: World, d: Spec, c: Catalog, n: Name, db: Db, k: Key)
    requires n in c.dbs && Managed(d, n) && k.OfDb? && k.db !in c.dbs && !Copied(w, d, c, k)
    requires GetDb(w, db, k.dbKey) == GetDb(w, c.dbs[n], k.dbKey)
             || GetDb(w, db, k.dbKey) == WantDb(w, n, d.databases[n], c.dbs[n], k.dbKey) || n != TEMPLATE
    ensures Get(w, WithDb(c, n, db), k) == Get(w, c, k)
  {
    var made := FreshDb(w, WithDb(c, n, db));
    if n == TEMPLATE && k.dbKey != DbOwner {
      assert GetDb(w, made, k.dbKey) == GetDb(w, db, k.dbKey) == GetDb(w, c.dbs[n], k.dbKey);
    }
  }

  lemma DbMoves(w: World, d: Spec, c: Catalog, n: Name, db: Db)
    requires n in c.dbs && Managed(d, n)
    requires DbBetween(w, n, d.databases[n], c.dbs[n], db)
    ensures Between(w, d, c, WithDb(c, n, db), true)
  {
    var c' := WithDb(c, n, db);
    forall k | !Loose(w, d, c, k, true) ensures Get(w, c', k) == Get(w, c, k) || Get(w, c', k) == Want(w, d, c, k) {
      match k
      case OfDb(x, dk) =>
        if x !in c.dbs {
          UncopiedStays(w, d, c, n, db, k);
        } else if x == n {
          assert GetDb(w, db, dk) == GetDb(w, c.dbs[n], dk)
              || GetDb(w, db, dk) == WantDb(w, n, d.databases[n], c.dbs[n], dk);
        }
      case _ =>
    }
  }

  /** A failing run may leave a transient observable of a database anywhere. */
  lemma DbMovesLoosely(w: World, d: Spec, c: Catalog, n: Name, db: Db)
    requires n in c.dbs && Managed(d, n)
    requires forall k :: TransientDb(d.databases[n], k) || GetDb(w, db, k) == GetDb(w, c.dbs[n], k)
                         || GetDb(w, db, k) == WantDb(w, n, d.databases[n], c.dbs[n], k)
    ensures Between(w, d, c, WithDb(c, n, db), false)
  {
    var c' := WithDb(c, n, db);
    forall k | !Loose(w, d, c, k, false) ensures Get(w, c', k) == Get(w, c, k) || Get(w, c', k) == Want(w, d, c, k) {
      match k
      case OfDb(x, dk) =>
        if x !in c.dbs {
          UncopiedStays(w, d, c, n, db, k);
        } else if x == n {
          assert TransientDb(d.databases[n], dk) || GetDb(w, db, dk) == GetDb(w, c.dbs[n], dk)
                 || GetDb(w, db, dk) == WantDb(w, n, d.databases[n], c.dbs[n], dk);
        }
      case _ =>
    }
  }

  // ----- roles -----

  lemma CreateRoleSound(w: World, d: Spec, c: Catalog, r: Name)
    requires NamesRole(d, r)
    ensures Sound(w, d, c, r !in c.roles, CreateRole(r))
  {
    var k := RoleExists(r);
    assert r !in c.roles ==> !Held(w, d, c, k);
    if r !in c.roles && r != "" {
      var c' := WithRole(c, r, FRESH_ROLE);
      forall k | !Loose(w, d, c, k, true) ensures Get(w, c', k) == Get(w, c, k) || Get(w, c', k) == Want(w, d, c, k) {
        match k
        case OfDb(_, _) => assert FreshDb(w, c') == FreshDb(w, c);
        case _ =>
      }
    }
  }

  /** An option in the map, read by the check, is what its column is wanted as, unless contested. */
  lemma DemandMet(role: Role, row: RoleRow, opt: RoleOption)
    requires opt in role.options && Checked(opt).Some?
    ensures var m := Checked(opt).value;
      ContestedColumn(role.options, m.column) || WantColumn(role, row, m.column) == m.on
  {
    var m := Checked(opt).value;
    assert Demands(role.options, m);
    assert m == Meaning(m.column, true) || m == Meaning(m.column, false);
  }

  lemma SetOptionSound(w: World, d: Spec, c: Catalog, r: Name, opt: RoleOption)
    requires r in c.roles && Listed(d, r) && opt in d.roles[r].options && Checked(opt).Some?
    ensures Sound(w, d, c, !HasOption(c.roles[r], Checked(opt).value), AlterRole(r, SetOption(opt)))
  {
    hide Checked, Altered, Demands;
    var role, row, m := d.roles[r], c.roles[r], Checked(opt).value;
    DemandMet(role, row, opt);
    if !HasOption(row, m) {
      var k := OfRole(r, HasColumn(m.column));
      assert !Contested(d, k) ==> !Held(w, d, c, k);
      if AllHeld(w, d, c) && Quiet(w, d) {
        CoherentContestsNothing(d, k);
      }
      if Altered(opt).Some? {
        AlterSatisfiesCheck(opt);
        RowMoves(w, d, c, r, AlterRow(SetOption(opt), row).value);
      }
    }
  }

  /** The effect on a row of checking one option and altering it if need be; None is an error. */
  function ApplyOption(row: RoleRow, opt: RoleOption): Option<RoleRow> {
    match Checked(opt)
    case None => None
    case Some(m) => if HasOption(row, m) then Some(row) else AlterRow(SetOption(opt), row)
  }

  /** The options taken one by one in this order. */
  function ApplyOptions(row: RoleRow, order: seq<RoleOption>): Option<RoleRow> {
    if order == [] then Some(row)
    else
      match ApplyOptions(row, order[..|order| - 1])
      case None => None
      case Some(r) => ApplyOption(r, order[|order| - 1])
  }

  /** The order yields every key once. */
  ghost predicate Enumerates(order: seq<RoleOption>, options: OptionMap) {
    (forall o :: o in order <==> o in options) && |order| == |options|
  }

  lemma SetValidUntilSound(w: World, d: Spec, c: Catalog, r: Name)
    requires r in c.roles && Listed(d, r) && d.roles[r].expiry.Some?
    ensures var until := Formatted(d.roles[r].expiry.value);
      Sound(w, d, c, c.roles[r].until != until, AlterRole(r, SetValidUntil(until)))
  {
    var row, until := c.roles[r], Formatted(d.roles[r].expiry.value);
    var k := OfRole(r, ValidUntil);
    assert row.until != until ==> !Held(w, d, c, k);
    RowMoves(w, d, c, r, row.(until := until));
  }

  lemma ResetValidUntilSound(w: World, d: Spec, c: Catalog, r: Name)
    requires r in c.roles && Listed(d, r) && d.roles[r].expiry.None?
    ensures Sound(w, d, c, c.roles[r].until.At?, AlterRole(r, SetValidUntil(Infinity)))
  {
    var row := c.roles[r];
    var k := OfRole(r, ValidUntil);
    assert row.until.At? ==> !Held(w, d, c, k);
    if row.until.At? {
      RowMoves(w, d, c, r, row.(until := Infinity));
    }
  }

  /** The check of reconcileSetPassword: the role is not in pg_shadow with this text. */
  predicate LacksPassword(row: RoleRow, hash: string) {
    !(CanLogin in row.attrs && row.password.Some? && SecretText(row.password.value) == hash)
  }

  /** The check of reconcileResetPassword: the role is in pg_shadow with a password, and is not CURRENT_USER. */
  predicate HasPassword(w: World, r: Name, row: RoleRow) {
    CanLogin in row.attrs && row.password.Some? && r != w.me
  }

  lemma LoginDemanded(role: Role)
    requires SetsPassword(role)
    ensures Demands(role.options, Meaning(CanLogin, true))
  {
    ValidOptions(LOGIN);
    NormalSpelling(LOGIN);
    CheckedEnabled(LOGIN);
    assert Checked(LOGIN) == Some(Meaning(CanLogin, true));
  }

  lemma SetPasswordSound(w: World, d: Spec, c: Catalog, r: Name)
    requires r in c.roles && Listed(d, r) && SetsPassword(d.roles[r])
    ensures var hash := HashedPassword(w, d.roles[r], r);
      Sound(w, d, c, LacksPassword(c.roles[r], hash), AlterRole(r, SetPassword(hash)))
  {
    hide Demands, HashedPassword, IsHex;
    var role, row := d.roles[r], c.roles[r];
    var hash := HashedPassword(w, role, r);
    RowMoves(w, d, c, r, row.(password := Some(Stored(hash))));
    if AllHeld(w, d, c) && Quiet(w, d) {
      LoginDemanded(role);
      var login, pw := OfRole(r, HasColumn(CanLogin)), OfRole(r, Password);
      CoherentContestsNothing(d, login);
      assert Held(w, d, c, login) && Held(w, d, c, pw);
    }
  }

  lemma ResetPasswordSound(w: World, d: Spec, c: Catalog, r: Name)
    requires r in c.roles && Listed(d, r) && !SetsPassword(d.roles[r])
    requires Held(w, d, c, OfRole(r, HasColumn(CanLogin)))
    ensures Sound(w, d, c, HasPassword(w, r, c.roles[r]), AlterRole(r, ResetPassword))
  {
    hide Demands, HashedPassword, IsHex, Stored;
    var row := c.roles[r];
    var pw := OfRole(r, Password);
    if HasPassword(w, r, row) {
      assert !Contested(d, pw) ==> !Held(w, d, c, pw);
      RowMoves(w, d, c, r, row.(password := None));
      if AllHeld(w, d, c) && Quiet(w, d) {
        CoherentContestsNothing(d, pw);
      }
    }
  }

  // ----- memberships and slots -----

  lemma GrantSound(w: World, d: Spec, c: Catalog, granted: Name, grantee: Name)
    requires GrantDemanded(d, Edge(grantee, granted))
    ensures Sound(w, d, c, Edge(grantee, granted) !in c.members, GrantRole(granted, grantee))
  {
    var e := Edge(grantee, granted);
    assert e !in c.members ==> !Held(w, d, c, Member(e));
    var c' := c.(members := c.members + {e});
    assert FreshDb(w, c') == FreshDb(w, c);
  }

  lemma CreateSlotSound(w: World, d: Spec, c: Catalog, s: Name)
    requires s in d.slots && d.slots[s] != Absent
    ensures Sound(w, d, c, s !in c.slots, CreateSlot(s))
  {
    assert s !in c.slots ==> !Held(w, d, c, SlotExists(s));
    var c' := c.(slots := c.slots + {s});
    assert FreshDb(w, c') == FreshDb(w, c);
  }

  // ----- databases -----

  lemma CreateDatabaseSound(w: World, d: Spec, c: Catalog, n: Name)
    requires Managed(d, n)
    ensures Sound(w, d, c, n !in c.dbs, CreateDatabase(n))
  {
    assert n !in c.dbs ==> !Held(w, d, c, DbExists(n));
    if n !in c.dbs && TEMPLATE in c.dbs {
      var c' := WithDb(c, n, FreshDb(w, c));
      assert FreshDb(w, c') == FreshDb(w, c);
      forall k | !Loose(w, d, c, k, true) ensures Get(w, c', k) == Get(w, c, k) || Get(w, c', k) == Want(w, d, c, k) {
      }
    }
  }

  /** Soundness of a statement inside a managed database, from its effect on that database alone. */
  lemma DbStmtSound(w: World, d: Spec, c: Catalog, n: Name, need: bool, s: DbStmt, k: DbKey)
    requires Wf(w, c) && n in c.dbs && Managed(d, n)
    requires need ==> (match DbStep(w, s, c.roles.Keys, c.dbs[n])
                       case None => true
                       case Some(db) => DbBetween(w, n, d.databases[n], c.dbs[n], db))
    requires need ==> Refresh(InDatabase(n, s)) || GetDb(w, c.dbs[n], k) != WantDb(w, n, d.databases[n], c.dbs[n], k)
    ensures Sound(w, d, c, need, InDatabase(n, s))
  {
    hide DbBetween, DbStep, WantDb, GetDb, Wf, Quiet, Between, Refresh;
    var key := OfDb(n, k);
    if need && AllHeld(w, d, c) && Quiet(w, d) {
      assert Held(w, d, c, key);
    }
    if need && DbStep(w, s, c.roles.Keys, c.dbs[n]).Some? {
      DbMoves(w, d, c, n, DbStep(w, s, c.roles.Keys, c.dbs[n]).value);
    }
  }

  lemma AlterOwnerSound(w: World, d: Spec, c: Catalog, n: Name)
    requires Wf(w, c) && n in c.dbs && Managed(d, n)
    ensures var owner := OwnerName(n, d.databases[n]);
      Sound(w, d, c, c.dbs[n].owner != owner, InDatabase(n, AlterOwner(owner)))
  {
    hide Sound, Wf;
    DbStmtSound(w, d, c, n, c.dbs[n].owner != OwnerName(n, d.databases[n]), AlterOwner(OwnerName(n, d.databases[n])),
                DbOwner);
  }

  lemma CreateSchemaSound(w: World, d: Spec, c: Catalog, n: Name, s: Name)
    requires Wf(w, c) && n in c.dbs && Managed(d, n)
    requires Demanded(d.databases[n], s) || (s in d.databases[n].schemas && d.databases[n].schemas[s].state == Present)
    ensures Sound(w, d, c, s !in c.dbs[n].schemas, InDatabase(n, CreateSchema(s)))
  {
    hide Sound, Wf;
    DbStmtSound(w, d, c, n, s !in c.dbs[n].schemas, CreateSchema(s), SchemaExists(s));
  }

  lemma DropSchemaSound(w: World, d: Spec, c: Catalog, n: Name, s: Name)
    requires Wf(w, c) && n in c.dbs && Managed(d, n)
    requires s in d.databases[n].schemas && d.databases[n].schemas[s].state != Present
    requires Demanded(d.databases[n], s) ==> !SchemaEmpty(c.dbs[n], s)
    ensures Sound(w, d, c, s in c.dbs[n].schemas, InDatabase(n, DropSchema(s)))
  {
    hide Sound, Wf, Demanded, SchemaEmpty;
    if Demanded(d.databases[n], s) {
      DropRefused(w, d, c, n, s);
    } else {
      DbStmtSound(w, d, c, n, s in c.dbs[n].schemas, DropSchema(s), SchemaExists(s));
    }
  }

  /** A schema in use is not dropped, and a catalog where everything holds has none that should be. */
  lemma DropRefused(w: World, d: Spec, c: Catalog, n: Name, s: Name)
    requires n in c.dbs && Managed(d, n) && s in d.databases[n].schemas && d.databases[n].schemas[s].state != Present
    requires Demanded(d.databases[n], s) && !SchemaEmpty(c.dbs[n], s)
    ensures Sound(w, d, c, s in c.dbs[n].schemas, InDatabase(n, DropSchema(s)))
  {
    hide Between, AllHeld, Demanded, SchemaEmpty;
  }

  lemma AlterSchemaOwnerSound(w: World, d: Spec, c: Catalog, n: Name, s: Name)
    requires Wf(w, c) && n in c.dbs && Managed(d, n) && s in c.dbs[n].schemas
    requires s in d.databases[n].schemas && d.databases[n].schemas[s].state == Present
    requires d.databases[n].schemas[s].owner != ""
    ensures var owner := d.databases[n].schemas[s].owner;
      Sound(w, d, c, c.dbs[n].schemas[s] != owner, InDatabase(n, AlterSchemaOwner(s, owner)))
  {
    hide Sound, Wf;
    var owner := d.databases[n].schemas[s].owner;
    DbStmtSound(w, d, c, n, c.dbs[n].schemas[s] != owner, AlterSchemaOwner(s, owner), SchemaOwner(s));
  }

  lemma CreateExtensionSound(w: World, d: Spec, c: Catalog, n: Name, e: Name)
    requires Wf(w, c) && n in c.dbs && Managed(d, n)
    requires e in d.databases[n].extensions && d.databases[n].extensions[e].state == Present
    ensures var x := d.databases[n].extensions[e];
      Sound(w, d, c, e !in c.dbs[n].exts, InDatabase(n, CreateExtension(e, x.schema, x.version)))
  {
    hide Sound, Wf;
    var x := d.databases[n].extensions[e];
    DbStmtSound(w, d, c, n, e !in c.dbs[n].exts, CreateExtension(e, x.schema, x.version), ExtExists(e));
  }

  lemma DropExtensionSound(w: World, d: Spec, c: Catalog, n: Name, e: Name)
    requires Wf(w, c) && n in c.dbs && Managed(d, n)
    requires e in d.databases[n].extensions && d.databases[n].extensions[e].state == Absent
    ensures Sound(w, d, c, true, InDatabase(n, DropExtension(e)))
  {
    hide Sound, Wf;
    DbStmtSound(w, d, c, n, true, DropExtension(e), ExtExists(e));
  }

  lemma AlterExtensionSchemaSound(w: World, d: Spec, c: Catalog, n: Name, e: Name)
    requires Wf(w, c) && n in c.dbs && Managed(d, n) && e in c.dbs[n].exts
    requires e in d.databases[n].extensions && d.databases[n].extensions[e].state == Present
    requires d.databases[n].extensions[e].schema != ""
    ensures var s := d.databases[n].extensions[e].schema;
      Sound(w, d, c, c.dbs[n].exts[e].schema != s, InDatabase(n, AlterExtensionSchema(e, s)))
  {
    hide Sound, Wf;
    var s := d.databases[n].extensions[e].schema;
    DbStmtSound(w, d, c, n, c.dbs[n].exts[e].schema != s, AlterExtensionSchema(e, s), ExtSchema(e));
  }

  lemma AlterExtensionVersionSound(w: World, d: Spec, c: Catalog, n: Name, e: Name)
    requires Wf(w, c) && n in c.dbs && Managed(d, n) && e in c.dbs[n].exts
    requires e in d.databases[n].extensions && d.databases[n].extensions[e].state == Present
    requires d.databases[n].extensions[e].version != ""
    ensures var v := d.databases[n].extensions[e].version;
      Sound(w, d, c, c.dbs[n].exts[e].version != v, InDatabase(n, AlterExtensionVersion(e, v)))
  {
    hide Sound, Wf;
    var v := d.databases[n].extensions[e].version;
    DbStmtSound(w, d, c, n, c.dbs[n].exts[e].version != v, AlterExtensionVersion(e, v), ExtVersion(e));
  }

  lemma GrantTablesSound(w: World, d: Spec, c: Catalog, n: Name, s: Name, grantee: Name, ps: set<Privilege>)
    requires Wf(w, c) && n in c.dbs && Managed(d, n)
    ensures Sound(w, d, c, true, InDatabase(n, GrantTables(s, grantee, ps)))
  {
    hide Sound, Wf;
    DbStmtSound(w, d, c, n, true, GrantTables(s, grantee, ps), DbOwner);
  }
}
