/**
 The part of a PostgreSQL cluster that the reconciler inspects and alters, and what each statement it
 issues does to it. `Step` gives the outcome of a statement the server accepts; None is a rejection.
 */
module Catalog {
  import opened Options

  type Name = string

  /** What pg_shadow.passwd holds: an md5 digest as given, or a salted verifier of anything else. */
  datatype Secret = Digest(text: string) | Verifier(of: string)
  datatype Expiry = Never | Infinity | At(micros: int)
  datatype RoleRow = RoleRow(attrs: set<Column>, password: Option<Secret>, until: Expiry)
  datatype Ext = Ext(schema: Name, version: string)
  datatype Obj = Obj(schema: Name, owner: Name)
  datatype Db = Db(owner: Name, schemas: map<Name, Name>, exts: map<Name, Ext>, objects: map<Name, Obj>)
  /** `member` is a direct member of `granted`. */
  datatype Edge = Edge(member: Name, granted: Name)
  datatype Catalog = Catalog(roles: map<Name, RoleRow>, members: set<Edge>, dbs: map<Name, Db>, slots: set<Name>)

  /** What does not change during a run: the connected role, the extension packages and the hash function. */
  datatype World = World(
    me: Name,
    md5: string -> string,
    extSchema: Name -> Name,
    extVersion: Name -> string,
    available: set<Name>,
    versions: set<(Name, string)>)

  const TEMPLATE: Name := "template1"
  const FRESH_ROLE := RoleRow({Inherits}, None, Never)

  datatype Privilege = Select | Insert | Update | Delete | Truncate

  /** ALTER ROLE. */
  datatype RoleAlter =
    | SetOption(opt: RoleOption)
    | SetValidUntil(until: Expiry)
    | SetPassword(text: string)
    | ResetPassword

  /** Statements that change one database. */
  datatype DbStmt =
    | AlterOwner(owner: Name)
    | CreateSchema(schema: Name)
    | DropSchema(schema: Name)
    | AlterSchemaOwner(schema: Name, owner: Name)
    | CreateExtension(ext: Name, schema: Name, version: string)
    | DropExtension(ext: Name)
    | AlterExtensionSchema(ext: Name, schema: Name)
    | AlterExtensionVersion(ext: Name, version: string)
    | GrantTables(schema: Name, grantee: Name, privileges: set<Privilege>)

  datatype Stmt =
    | CreateRole(role: Name)
    | AlterRole(role: Name, alter: RoleAlter)
    | GrantRole(granted: Name, grantee: Name)
    | CreateDatabase(db: Name)
    | InDatabase(db: Name, stmt: DbStmt)
    | CreateSlot(slot: Name)
    | DropDatabase(db: Name)
    | RevokeRole(granted: Name, grantee: Name)
    | ReassignOwned(db: Name, role: Name, to: Name)
    | DropRole(role: Name)
    | DropSlot(slot: Name)

  // ----- reading the catalog -----

  /** `from` is `to`, or a direct or indirect member of it. */
  predicate Reach(ms: set<Edge>, from: Name, to: Name)
    decreases ms
  {
    from == to || exists e :: e in ms && e.member == from && Reach(ms - {e}, e.granted, to)
  }

  ghost predicate Acyclic(ms: set<Edge>) {
    forall e :: e in ms ==> !Reach(ms, e.granted, e.member)
  }

  predicate IsHex(t: string) {
    forall i :: 0 <= i < |t| ==> '0' <= t[i] <= '9' || 'a' <= t[i] <= 'f'
  }

  /** The shape the server takes for an md5 digest and stores unchanged. */
  predicate IsDigest(t: string) { |t| == 35 && "md5" <= t && IsHex(t[3..]) }

  function Stored(text: string): Secret { if IsDigest(text) then Digest(text) else Verifier(text) }

  /** The text of pg_shadow.passwd. */
  function SecretText(s: Secret): string {
    match s
    case Digest(t) => t
    case Verifier(t) => "SCRAM-SHA-256$" + t
  }

  /** What a database created now is a copy of; it belongs to the connected role. */
  function FreshDb(w: World, c: Catalog): Db {
    if TEMPLATE in c.dbs then c.dbs[TEMPLATE].(owner := w.me) else Db(w.me, map[], map[], map[])
  }

  predicate OwnsIn(db: Db, r: Name) {
    || db.owner == r
    || (exists s :: s in db.schemas && db.schemas[s] == r)
    || (exists o :: o in db.objects && db.objects[o].owner == r)
  }

  predicate Owns(c: Catalog, r: Name) {
    exists d :: d in c.dbs && OwnsIn(c.dbs[d], r)
  }

  predicate SchemaEmpty(db: Db, s: Name) {
    && (forall e :: e in db.exts ==> db.exts[e].schema != s)
    && (forall o :: o in db.objects ==> db.objects[o].schema != s)
  }

  predicate HasOption(row: RoleRow, m: Meaning) { (m.column in row.attrs) == m.on }

  // ----- changing it -----

  function WithRole(c: Catalog, r: Name, row: RoleRow): Catalog { c.(roles := c.roles[r := row]) }
  function WithDb(c: Catalog, d: Name, db: Db): Catalog { c.(dbs := c.dbs[d := db]) }

  function ReassignIn(db: Db, r: Name, to: Name): Db {
    db.(schemas := map s | s in db.schemas :: if db.schemas[s] == r then to else db.schemas[s],
        objects := map o | o in db.objects ::
          if db.objects[o].owner == r then db.objects[o].(owner := to) else db.objects[o])
  }

  function ReassignOwner(db: Db, r: Name, to: Name): Db {
    if db.owner == r then db.(owner := to) else db
  }

  /** REASSIGN OWNED, run in database d: what r owns there, and every database r owns, goes to `to`. */
  function Reassign(c: Catalog, d: Name, r: Name, to: Name): Catalog
    requires d in c.dbs
  {
    c.(dbs := map x | x in c.dbs ::
      ReassignOwner(if x == d then ReassignIn(c.dbs[x], r, to) else c.dbs[x], r, to))
  }

  function WithoutRole(c: Catalog, r: Name): Catalog {
    c.(roles := c.roles - {r}, members := set e | e in c.members && e.member != r && e.granted != r)
  }

  function AlterRow(a: RoleAlter, row: RoleRow): Option<RoleRow> {
    match a
    case SetOption(opt) =>
      (match Altered(opt)
       case None => None
       case Some(m) => Some(row.(attrs := if m.on then row.attrs + {m.column} else row.attrs - {m.column})))
    case SetValidUntil(until) => Some(row.(until := until))
    case SetPassword(text) => Some(row.(password := Some(Stored(text))))
    case ResetPassword => Some(row.(password := None))
  }

  function DbStep(w: World, s: DbStmt, roles: set<Name>, db: Db): Option<Db> {
    match s
    case AlterOwner(owner) =>
      if owner !in roles then None else Some(db.(owner := owner))
    case CreateSchema(sc) =>
      if sc == "" || sc in db.schemas then None else Some(db.(schemas := db.schemas[sc := w.me]))
    case DropSchema(sc) =>
      if sc !in db.schemas || !SchemaEmpty(db, sc) then None else Some(db.(schemas := db.schemas - {sc}))
    case AlterSchemaOwner(sc, owner) =>
      if sc !in db.schemas || owner !in roles then None else Some(db.(schemas := db.schemas[sc := owner]))
    case CreateExtension(e, sc, v) =>
      var ext := Ext(if sc == "" then w.extSchema(e) else sc, if v == "" then w.extVersion(e) else v);
      if e !in w.available || (v != "" && (e, v) !in w.versions) then None
      else if e in db.exts then Some(db)
      else if ext.schema !in db.schemas then None
      else Some(db.(exts := db.exts[e := ext]))
    case DropExtension(e) =>
      if e == "" then None else Some(db.(exts := db.exts - {e}))
    case AlterExtensionSchema(e, sc) =>
      if e !in db.exts || sc !in db.schemas then None
      else Some(db.(exts := db.exts[e := db.exts[e].(schema := sc)]))
    case AlterExtensionVersion(e, v) =>
      if e !in db.exts || (e, v) !in w.versions then None
      else Some(db.(exts := db.exts[e := db.exts[e].(version := v)]))
    case GrantTables(sc, grantee, _) =>
      // table privileges are kept apart from the catalog
      if sc !in db.schemas || grantee !in roles then None else Some(db)
  }

  function Step(w: World, s: Stmt, c: Catalog): Option<Catalog> {
    match s
    case CreateRole(r) =>
      if r == "" || r in c.roles then None else Some(WithRole(c, r, FRESH_ROLE))
    case AlterRole(r, a) =>
      if r !in c.roles || AlterRow(a, c.roles[r]).None? then None
      else Some(WithRole(c, r, AlterRow(a, c.roles[r]).value))
    case GrantRole(granted, grantee) =>
      if granted !in c.roles || grantee !in c.roles || Reach(c.members, granted, grantee) then None
      else Some(c.(members := c.members + {Edge(grantee, granted)}))
    case CreateDatabase(d) =>
      if d == "" || d in c.dbs || TEMPLATE !in c.dbs then None else Some(WithDb(c, d, FreshDb(w, c)))
    case InDatabase(d, ds) =>
      if d !in c.dbs || DbStep(w, ds, c.roles.Keys, c.dbs[d]).None? then None
      else Some(WithDb(c, d, DbStep(w, ds, c.roles.Keys, c.dbs[d]).value))
    case CreateSlot(slot) =>
      if slot == "" || slot in c.slots then None else Some(c.(slots := c.slots + {slot}))
    case DropDatabase(d) =>
      if d !in c.dbs || d == TEMPLATE then None else Some(c.(dbs := c.dbs - {d}))
    case RevokeRole(granted, grantee) =>
      if granted !in c.roles || grantee !in c.roles then None
      else Some(c.(members := c.members - {Edge(grantee, granted)}))
    case ReassignOwned(d, r, to) =>
      if d !in c.dbs || r !in c.roles || to !in c.roles then None else Some(Reassign(c, d, r, to))
    case DropRole(r) =>
      if r !in c.roles || r == w.me || Owns(c, r) then None else Some(WithoutRole(c, r))
    case DropSlot(slot) =>
      if slot !in c.slots then None else Some(c.(slots := c.slots - {slot}))
  }

  // ----- what every catalog satisfies -----

  predicate WfRow(row: RoleRow) {
    row.password.Some? && row.password.value.Digest? ==> IsDigest(row.password.value.text)
  }

  predicate WfDb(roles: set<Name>, db: Db) {
    && db.owner in roles
    && (forall s :: s in db.schemas ==> db.schemas[s] in roles)
    && (forall e :: e in db.exts ==> db.exts[e].schema in db.schemas)
    && (forall o :: o in db.objects ==> db.objects[o].owner in roles && db.objects[o].schema in db.schemas)
  }

  /** References resolve: owners and members exist, extensions and objects sit in existing schemas. */
  ghost predicate Wf(w: World, c: Catalog) {
    && w.me in c.roles && "" !in c.roles
    && (forall r :: r in c.roles ==> WfRow(c.roles[r]))
    && (forall e :: e in c.members ==> e.member in c.roles && e.granted in c.roles)
    && (forall d :: d in c.dbs ==> WfDb(c.roles.Keys, c.dbs[d]))
  }

  lemma DropRoleKeepsDb(roles: set<Name>, db: Db, r: Name)
    requires WfDb(roles, db) && !OwnsIn(db, r)
    ensures WfDb(roles - {r}, db)
  {
  }

  lemma ReassignKeepsDb(roles: set<Name>, db: Db, r: Name, to: Name)
    requires WfDb(roles, db) && to in roles
    ensures WfDb(roles, ReassignIn(db, r, to)) && WfDb(roles, ReassignOwner(db, r, to))
    ensures WfDb(roles, ReassignOwner(ReassignIn(db, r, to), r, to))
  {
  }

  lemma WithDbKeepsWf(w: World, c: Catalog, d: Name, db: Db)
    requires Wf(w, c) && WfDb(c.roles.Keys, db)
    ensures Wf(w, WithDb(c, d, db))
  {
  }

  lemma WithRoleKeepsWf(w: World, c: Catalog, r: Name, row: RoleRow)
    requires Wf(w, c) && WfRow(row) && r != ""
    ensures Wf(w, WithRole(c, r, row))
  {
    var c' := WithRole(c, r, row);
    forall d | d in c'.dbs ensures WfDb(c'.roles.Keys, c'.dbs[d]) {
      assert WfDb(c.roles.Keys, c.dbs[d]);
    }
  }

  lemma DbStepKeepsWf(w: World, s: DbStmt, roles: set<Name>, db: Db)
    requires WfDb(roles, db) && w.me in roles && DbStep(w, s, roles, db).Some?
    ensures WfDb(roles, DbStep(w, s, roles, db).value)
  {
  }

  /** No statement the server accepts leaves a dangling reference. */
  lemma StepKeepsWf(w: World, s: Stmt, c: Catalog)
    requires Wf(w, c) && Step(w, s, c).Some?
    ensures Wf(w, Step(w, s, c).value)
  {
    var c' := Step(w, s, c).value;
    match s
    case CreateRole(r) => WithRoleKeepsWf(w, c, r, FRESH_ROLE);
    case AlterRole(r, a) => WithRoleKeepsWf(w, c, r, c'.roles[r]);
    case GrantRole(_, _) =>
    case CreateDatabase(d) => WithDbKeepsWf(w, c, d, FreshDb(w, c));
    case InDatabase(d, ds) =>
      DbStepKeepsWf(w, ds, c.roles.Keys, c.dbs[d]);
      WithDbKeepsWf(w, c, d, c'.dbs[d]);
    case CreateSlot(_) =>
    case DropDatabase(_) =>
    case RevokeRole(_, _) =>
    case ReassignOwned(d, r, to) =>
      forall x | x in c'.dbs ensures WfDb(c'.roles.Keys, c'.dbs[x]) {
        ReassignKeepsDb(c.roles.Keys, c.dbs[x], r, to);
      }
    case DropRole(r) =>
      forall x | x in c'.dbs ensures WfDb(c'.roles.Keys, c'.dbs[x]) {
        DropRoleKeepsDb(c.roles.Keys, c.dbs[x], r);
        assert c'.roles.Keys == c.roles.Keys - {r};
      }
    case DropSlot(_) =>
  }
}
