/**
 What the reconciler is asked for, and the observable value each part of the catalog should end with.
 `Want` is a closure operator on catalogs, given one observable at a time.
 */
module Desired {
  import opened Options
  import opened Catalog

  datatype State = Present | Absent | Allowed

  type OptionMap = map<RoleOption, bool>

  /** `expiry` is in nanoseconds; None is Go's zero time. */
  datatype Role = Role(name: Name, options: OptionMap, state: State, password: string, expiry: Option<int>)
  datatype Grant = Grant(grantee: Role, granted: Role, state: State)
  datatype Extension = Extension(schema: Name, version: string, state: State)
  datatype Schema = Schema(owner: Name, state: State)
  datatype Database = Database(owner: Name, extensions: map<Name, Extension>, schemas: map<Name, Schema>, state: State)
  datatype Spec = Spec(
    roles: map<Name, Role>,
    grants: seq<Grant>,
    databases: map<Name, Database>,
    slots: map<Name, State>)

  function EdgeOf(g: Grant): Edge { Edge(g.grantee.name, g.granted.name) }

  function NewRole(name: Name): Role { Role(name, map[], Present, "", None) }

  // ----- reading the specification -----

  function OwnerName(name: Name, d: Database): Name { if d.owner == "" then name else d.owner }

  predicate IsEnabled(options: OptionMap, opt: RoleOption) { opt in options && options[opt] }

  predicate SetsPassword(r: Role) { r.password != "" && IsEnabled(r.options, LOGIN) }

  function HashedPassword(w: World, r: Role, name: Name): string {
    if |r.password| == 35 && "md5" <= r.password then r.password else "md5" + w.md5(r.password + name)
  }

  /** RFC 3339 keeps whole seconds. */
  function Formatted(nanos: int): Expiry { At(nanos / 1_000_000_000 * 1_000_000) }

  /** The last whole second that is not after this moment, in microseconds. */
  predicate IsSecondOf(e: Expiry, nanos: int) {
    e.At? && e.micros % 1_000_000 == 0 && e.micros * 1_000 <= nanos < e.micros * 1_000 + 1_000_000_000
  }

  lemma FormattedIsSecond(nanos: int)
    ensures forall e :: IsSecondOf(e, nanos) <==> e == Formatted(nanos)
  {
  }

  /** The password itself if it looks hashed, or else its salted digest; as the server stores it. */
  predicate IsPasswordOf(w: World, secret: Option<Secret>, password: string, name: Name) {
    && (|password| == 35 && "md5" <= password ==> secret == Some(Stored(password)))
    && (!(|password| == 35 && "md5" <= password) ==> secret == Some(Stored("md5" + w.md5(password + name))))
  }

  ghost predicate Demands(options: OptionMap, m: Meaning) {
    exists o :: o in options && Checked(o) == Some(m)
  }

  predicate Listed(d: Spec, r: Name) { r in d.roles && d.roles[r].state != Absent }

  predicate Managed(d: Spec, db: Name) { db in d.databases && d.databases[db].state == Present }

  ghost predicate GrantDemanded(d: Spec, e: Edge) {
    exists i :: 0 <= i < |d.grants| && d.grants[i].state != Absent
                && e == Edge(d.grants[i].grantee.name, d.grants[i].granted.name)
  }

  ghost predicate GrantNames(d: Spec, r: Name) {
    exists i :: 0 <= i < |d.grants| && d.grants[i].state != Absent
                && (r == d.grants[i].grantee.name || r == d.grants[i].granted.name)
  }

  ghost predicate OwnerNames(d: Spec, r: Name) {
    exists db :: Managed(d, db) && r == OwnerName(db, d.databases[db])
  }

  predicate OwnsSchemaIn(db: Database, r: Name) {
    exists s :: s in db.schemas && db.schemas[s].state != Absent && db.schemas[s].owner == r && r != ""
  }

  ghost predicate SchemaOwnerNames(d: Spec, r: Name) {
    exists db :: Managed(d, db) && OwnsSchemaIn(d.databases[db], r)
  }

  /** The roles a run may have to create. */
  ghost predicate NamesRole(d: Spec, r: Name) {
    Listed(d, r) || GrantNames(d, r) || OwnerNames(d, r) || SchemaOwnerNames(d, r)
  }

  /** A Present extension is to live in this schema. */
  predicate Demanded(d: Database, s: Name) {
    s != "" && exists e :: e in d.extensions && d.extensions[e].state == Present && d.extensions[e].schema == s
  }

  /** This schema is to be dropped although an extension is to live in it. */
  predicate SchemaConflict(d: Spec, n: Name, s: Name) {
    && Managed(d, n) && s in d.databases[n].schemas
    && d.databases[n].schemas[s].state != Present && Demanded(d.databases[n], s)
  }

  // ----- observables -----

  datatype RowKey = HasColumn(column: Column) | Password | ValidUntil
  datatype DbKey =
    | DbOwner
    | SchemaExists(schema: Name)
    | SchemaOwner(schema: Name)
    | ExtExists(ext: Name)
    | ExtSchema(ext: Name)
    | ExtVersion(ext: Name)
    | Objects
  datatype Key =
    | RoleExists(role: Name)
    | OfRole(role: Name, rowKey: RowKey)
    | Member(edge: Edge)
    | DbExists(db: Name)
    | OfDb(db: Name, dbKey: DbKey)
    | SlotExists(slot: Name)
  datatype Val =
    | Flag(on: bool)
    | Text(text: string)
    | Pw(secret: Option<Secret>)
    | Until(expiry: Expiry)
    | Objs(objects: map<Name, Obj>)

  function GetRow(row: RoleRow, k: RowKey): Val {
    match k
    case HasColumn(col) => Flag(col in row.attrs)
    case Password => Pw(row.password)
    case ValidUntil => Until(row.until)
  }

  /** Something that is not there reads as it would be created. */
  function GetDb(w: World, db: Db, k: DbKey): Val {
    match k
    case DbOwner => Text(db.owner)
    case SchemaExists(s) => Flag(s in db.schemas)
    case SchemaOwner(s) => Text(if s in db.schemas then db.schemas[s] else w.me)
    case ExtExists(e) => Flag(e in db.exts)
    case ExtSchema(e) => Text(if e in db.exts then db.exts[e].schema else w.extSchema(e))
    case ExtVersion(e) => Text(if e in db.exts then db.exts[e].version else w.extVersion(e))
    case Objects => Objs(db.objects)
  }

  function RowAt(c: Catalog, r: Name): RoleRow { if r in c.roles then c.roles[r] else FRESH_ROLE }
  function DbAt(w: World, c: Catalog, d: Name): Db { if d in c.dbs then c.dbs[d] else FreshDb(w, c) }

  function Get(w: World, c: Catalog, k: Key): Val {
    match k
    case RoleExists(r) => Flag(r in c.roles)
    case OfRole(r, rk) => GetRow(RowAt(c, r), rk)
    case Member(e) => Flag(e in c.members)
    case DbExists(d) => Flag(d in c.dbs)
    case OfDb(d, dk) => GetDb(w, DbAt(w, c, d), dk)
    case SlotExists(s) => Flag(s in c.slots)
  }

  lemma RowsEqual(a: RoleRow, b: RoleRow)
    requires forall k :: GetRow(a, k) == GetRow(b, k)
    ensures a == b
  {
    assert GetRow(a, Password) == GetRow(b, Password) && GetRow(a, ValidUntil) == GetRow(b, ValidUntil);
    forall col ensures col in a.attrs <==> col in b.attrs {
      assert GetRow(a, HasColumn(col)) == GetRow(b, HasColumn(col));
    }
  }

  lemma DbsEqual(w: World, a: Db, b: Db)
    requires forall k :: GetDb(w, a, k) == GetDb(w, b, k)
    ensures a == b
  {
    assert GetDb(w, a, DbOwner) == GetDb(w, b, DbOwner) && GetDb(w, a, Objects) == GetDb(w, b, Objects);
    forall s ensures s in a.schemas <==> s in b.schemas ensures s in a.schemas ==> a.schemas[s] == b.schemas[s] {
      assert GetDb(w, a, SchemaExists(s)) == GetDb(w, b, SchemaExists(s));
      assert GetDb(w, a, SchemaOwner(s)) == GetDb(w, b, SchemaOwner(s));
    }
    assert a.schemas == b.schemas;
    forall e ensures e in a.exts <==> e in b.exts ensures e in a.exts ==> a.exts[e] == b.exts[e] {
      assert GetDb(w, a, ExtExists(e)) == GetDb(w, b, ExtExists(e));
      assert GetDb(w, a, ExtSchema(e)) == GetDb(w, b, ExtSchema(e));
      assert GetDb(w, a, ExtVersion(e)) == GetDb(w, b, ExtVersion(e));
    }
    assert a.exts == b.exts;
  }

  /** The observables leave nothing out: catalogs that agree on all but what missing databases would hold are equal. */
  lemma CatalogsEqual(w: World, a: Catalog, b: Catalog)
    requires forall k :: Get(w, a, k) == Get(w, b, k) || (k.OfDb? && k.db !in a.dbs)
    ensures a == b
  {
    forall r ensures r in a.roles <==> r in b.roles ensures r in a.roles ==> a.roles[r] == b.roles[r] {
      assert Get(w, a, RoleExists(r)) == Get(w, b, RoleExists(r));
      forall k ensures GetRow(RowAt(a, r), k) == GetRow(RowAt(b, r), k) {
        assert Get(w, a, OfRole(r, k)) == Get(w, b, OfRole(r, k));
      }
      RowsEqual(RowAt(a, r), RowAt(b, r));
    }
    assert a.roles == b.roles;
    forall e ensures e in a.members <==> e in b.members {
      assert Get(w, a, Member(e)) == Get(w, b, Member(e));
    }
    assert a.members == b.members;
    forall d ensures d in a.dbs <==> d in b.dbs ensures d in a.dbs ==> a.dbs[d] == b.dbs[d] {
      assert Get(w, a, DbExists(d)) == Get(w, b, DbExists(d));
      if d in a.dbs {
        forall k ensures GetDb(w, DbAt(w, a, d), k) == GetDb(w, DbAt(w, b, d), k) {
          assert Get(w, a, OfDb(d, k)) == Get(w, b, OfDb(d, k));
        }
        DbsEqual(w, DbAt(w, a, d), DbAt(w, b, d));
      }
    }
    assert a.dbs == b.dbs;
    forall s ensures s in a.slots <==> s in b.slots {
      assert Get(w, a, SlotExists(s)) == Get(w, b, SlotExists(s));
    }
    assert a.slots == b.slots;
  }

  // ----- the closure operator -----

  ghost function WantColumn(role: Role, row: RoleRow, col: Column): bool {
    if Demands(role.options, Meaning(col, true)) then true
    else if Demands(role.options, Meaning(col, false)) then false
    else col in row.attrs
  }

  ghost function WantRow(w: World, name: Name, role: Role, row: RoleRow, k: RowKey): Val {
    match k
    case HasColumn(col) => Flag(WantColumn(role, row, col))
    case Password =>
      if SetsPassword(role) then Pw(Some(Stored(HashedPassword(w, role, name))))
      else if name != w.me && WantColumn(role, row, CanLogin) then Pw(None)
      else Pw(row.password)
    case ValidUntil =>
      if role.expiry.Some? then Until(Formatted(role.expiry.value))
      else if row.until.At? then Until(Infinity)
      else Until(row.until)
  }

  ghost function WantDb(w: World, name: Name, d: Database, db: Db, k: DbKey): Val {
    match k
    case DbOwner => Text(OwnerName(name, d))
    case SchemaExists(s) =>
      if Demanded(d, s) then Flag(true)
      else if s in d.schemas then Flag(d.schemas[s].state == Present)
      else GetDb(w, db, k)
    case SchemaOwner(s) =>
      if s in d.schemas && d.schemas[s].state == Present && d.schemas[s].owner != "" then Text(d.schemas[s].owner)
      else if s in d.schemas && d.schemas[s].state != Present && !Demanded(d, s) then Text(w.me)
      else GetDb(w, db, k)
    case ExtExists(e) =>
      if e in d.extensions && d.extensions[e].state != Allowed then Flag(d.extensions[e].state == Present)
      else GetDb(w, db, k)
    case ExtSchema(e) =>
      if e in d.extensions && d.extensions[e].state == Absent then Text(w.extSchema(e))
      else if e in d.extensions && d.extensions[e].state == Present && d.extensions[e].schema != "" then
        Text(d.extensions[e].schema)
      else GetDb(w, db, k)
    case ExtVersion(e) =>
      if e in d.extensions && d.extensions[e].state == Absent then Text(w.extVersion(e))
      else if e in d.extensions && d.extensions[e].state == Present && d.extensions[e].version != "" then
        Text(d.extensions[e].version)
      else GetDb(w, db, k)
    case Objects => GetDb(w, db, k)
  }

  /** The value observable k ends with when a run that starts (or resumes) in catalog c succeeds. */
  ghost function Want(w: World, d: Spec, c: Catalog, k: Key): Val {
    match k
    case RoleExists(r) => Flag(r in c.roles || NamesRole(d, r))
    case OfRole(r, rk) => if Listed(d, r) then WantRow(w, r, d.roles[r], RowAt(c, r), rk) else Get(w, c, k)
    case Member(e) => Flag(e in c.members || GrantDemanded(d, e))
    case DbExists(db) => Flag(db in c.dbs || Managed(d, db))
    case OfDb(db, dk) => if Managed(d, db) then WantDb(w, db, d.databases[db], DbAt(w, c, db), dk) else Get(w, c, k)
    case SlotExists(s) => Flag(s in c.slots || (s in d.slots && d.slots[s] != Absent))
  }

  // ----- where the specification contradicts itself -----

  ghost predicate ContestedColumn(options: OptionMap, col: Column) {
    Demands(options, Meaning(col, true)) && Demands(options, Meaning(col, false))
  }

  ghost predicate ContestedRow(role: Role, k: RowKey) {
    match k
    case HasColumn(col) => ContestedColumn(role.options, col)
    case Password => !SetsPassword(role) && ContestedColumn(role.options, CanLogin)
    case ValidUntil => false
  }

  /** An option map that asks for X and for NOX contests that column, and the password if the column is login. */
  ghost predicate Contested(d: Spec, k: Key) {
    k.OfRole? && Listed(d, k.role) && ContestedRow(d.roles[k.role], k.rowKey)
  }

  ghost predicate Coherent(d: Spec) {
    forall r, col :: Listed(d, r) ==> !ContestedColumn(d.roles[r].options, col)
  }

  lemma CoherentContestsNothing(d: Spec, k: Key)
    requires Coherent(d)
    ensures !Contested(d, k)
  {
  }

  /** An Allowed schema is created and dropped again within one step, so a failing run may leave it behind. */
  predicate TransientDb(d: Database, k: DbKey) {
    k.SchemaExists? && k.schema in d.schemas && d.schemas[k.schema].state == Allowed && !Demanded(d, k.schema)
  }

  predicate Transient(d: Spec, k: Key) {
    k.OfDb? && Managed(d, k.db) && TransientDb(d.databases[k.db], k.dbKey)
  }

  // ----- where the template is still on the move -----

  /** This observable of a managed template is where it is wanted. */
  ghost predicate TemplateStill(w: World, d: Spec, c: Catalog, k: DbKey) {
    && TEMPLATE in c.dbs && Managed(d, TEMPLATE)
    && GetDb(w, c.dbs[TEMPLATE], k) == WantDb(w, TEMPLATE, d.databases[TEMPLATE], c.dbs[TEMPLATE], k)
  }

  /**
   CREATE DATABASE copies the template as it then is, all but its owner. What a database that is not
   there would hold still moves while a managed template does.
   */
  ghost predicate Copied(w: World, d: Spec, c: Catalog, k: Key) {
    k.OfDb? && k.db !in c.dbs && k.dbKey != DbOwner && Managed(d, TEMPLATE) && !TemplateStill(w, d, c, k.dbKey)
  }

  /** And it moves for a moment while a schema is created in the template and dropped again. */
  predicate Passing(d: Spec, c: Catalog, k: Key) {
    k.OfDb? && k.db !in c.dbs && Managed(d, TEMPLATE) && TransientDb(d.databases[TEMPLATE], k.dbKey)
  }

  /** The database's own entry says what this observable is to be, whatever it was. */
  predicate Prescribed(d: Database, k: DbKey) {
    match k
    case DbOwner => true
    case SchemaExists(s) => Demanded(d, s) || s in d.schemas
    case SchemaOwner(s) =>
      s in d.schemas && (if d.schemas[s].state == Present then d.schemas[s].owner != "" else !Demanded(d, s))
    case ExtExists(e) => e in d.extensions && d.extensions[e].state != Allowed
    case ExtSchema(e) =>
      e in d.extensions
      && (d.extensions[e].state == Absent || (d.extensions[e].state == Present && d.extensions[e].schema != ""))
    case ExtVersion(e) =>
      e in d.extensions
      && (d.extensions[e].state == Absent || (d.extensions[e].state == Present && d.extensions[e].version != ""))
    case Objects => false
  }

  lemma LongerDiffers(s: string)
    ensures s + "x" != s
  {
    assert |s + "x"| > |s|;
  }

  /** Exactly what is prescribed does not depend on what was there. */
  lemma PrescribedIff(w: World, n: Name, d: Database, k: DbKey)
    ensures Prescribed(d, k) <==> forall a, b :: WantDb(w, n, d, a, k) == WantDb(w, n, d, b, k)
  {
    if !Prescribed(d, k) {
      var none := Db("", map[], map[], map[]);
      var other := match k
        case SchemaExists(s) => none.(schemas := map[s := ""])
        case SchemaOwner(s) => none.(schemas := map[s := w.me + "x"])
        case ExtExists(e) => none.(exts := map[e := Ext("", "")])
        case ExtSchema(e) => none.(exts := map[e := Ext(w.extSchema(e) + "x", "")])
        case ExtVersion(e) => none.(exts := map[e := Ext("", w.extVersion(e) + "x")])
        case _ => none.(objects := map["" := Obj("", "")]);
      LongerDiffers(w.me);
      if k.ExtSchema? { LongerDiffers(w.extSchema(k.ext)); }
      if k.ExtVersion? { LongerDiffers(w.extVersion(k.ext)); }
      assert k.Objects? ==> "" in other.objects;
      assert GetDb(w, other, k) != GetDb(w, none, k);
      assert WantDb(w, n, d, other, k) != WantDb(w, n, d, none, k);
    }
  }

  /**
   A new database would take this over from the template as it then is, and keep it. Only a run that
   fails, or one that follows it, can find the template in a passing state.
   */
  ghost predicate TakenOver(w: World, d: Spec, c: Catalog, k: Key, strict: bool) {
    && (Copied(w, d, c, k) || (!strict && Passing(d, c, k)))
    && !(Managed(d, k.db) && Prescribed(d.databases[k.db], k.dbKey))
  }

  /** No managed database that is still to be created will take over anything that is still to change. */
  ghost predicate TemplateFixed(w: World, d: Spec, c: Catalog, strict: bool) {
    TEMPLATE in c.dbs ==> forall k: Key :: k.OfDb? && Managed(d, k.db) ==> !TakenOver(w, d, c, k, strict)
  }

  /** Every listed schema of a managed database is Present, or Absent and wanted by no extension. */
  ghost predicate SchemasSettle(d: Spec) {
    forall db, s :: Managed(d, db) && s in d.databases[db].schemas ==>
      d.databases[db].schemas[s].state == Present
      || (d.databases[db].schemas[s].state == Absent && !Demanded(d.databases[db], s))
  }
}
