/** Reconciling one database: table grants, extensions and schemas. */
module Databases {
  import opened Options
  import opened Catalog
  import opened Desired
  import opened Progress
  import opened Statements
  import opened Servers
  import opened Obstacles
  import Roles

  // ----- what stays as it was -----

  /** Nothing but one database changed, and that is still there. */
  ghost predicate Elsewhere(a: Catalog, b: Catalog, n: Name) {
    && n in a.dbs && n in b.dbs && b.slots == a.slots
    && forall x :: x != n ==> (x in b.dbs <==> x in a.dbs) && (x in a.dbs ==> b.dbs[x] == a.dbs[x])
  }

  /** Of the extensions at most this one came or went; schemas only came, and only those that are asked for. */
  ghost predicate ExtensionMoved(x: Database, a: Db, b: Db, e: Name) {
    && b.objects == a.objects && (forall f :: f != e ==> (f in b.exts <==> f in a.exts))
    && (forall sc :: sc in a.schemas ==> sc in b.schemas)
    && (forall sc :: sc in b.schemas ==> sc in a.schemas || Demanded(x, sc))
  }

  /** Of the schemas at most this one came or went. */
  ghost predicate SchemaMoved(a: Db, b: Db, sc: Name) {
    b.objects == a.objects && b.exts == a.exts && forall t :: t != sc ==> (t in b.schemas <==> t in a.schemas)
  }

  ghost predicate ExtensionStep(d: Spec, n: Name, e: Name, a: Catalog, b: Catalog)
    requires n in d.databases
  {
    Elsewhere(a, b, n) && ExtensionMoved(d.databases[n], a.dbs[n], b.dbs[n], e)
  }

  ghost predicate SchemaStep(n: Name, sc: Name, a: Catalog, b: Catalog) {
    Elsewhere(a, b, n) && SchemaMoved(a.dbs[n], b.dbs[n], sc)
  }

  lemma ExtensionStepNot(d: Spec, n: Name, e: Name, a: Catalog)
    requires n in d.databases && n in a.dbs
    ensures ExtensionStep(d, n, e, a, a)
  {
  }

  /** CREATE EXTENSION, if it is available and missing: refused exactly for want of a schema. */
  lemma ExtensionMade(w: World, d: Spec, n: Name, e: Name, x: Extension, c: Catalog)
    requires n in d.databases && n in c.dbs && e !in c.dbs[n].exts
    requires e in w.available && (x.version != "" ==> (e, x.version) in w.versions)
    ensures var r := Step(w, InDatabase(n, CreateExtension(e, x.schema, x.version)), c);
      && (r.Some? <==> (if x.schema == "" then w.extSchema(e) else x.schema) in c.dbs[n].schemas)
      && (r.Some? ==> ExtensionStep(d, n, e, c, r.value) && e in r.value.dbs[n].exts)
    ensures ExtensionStep(d, n, e, c, c)
  {
  }

  lemma ExtensionStays(d: Spec, n: Name, e: Name, a: Catalog, b: Catalog)
    requires n in d.databases && ExtensionStep(d, n, e, a, b)
    ensures n in a.dbs && n in b.dbs
  {
  }

  lemma ExtensionStepTrans(d: Spec, n: Name, e: Name, a: Catalog, b: Catalog, c: Catalog)
    requires n in d.databases && ExtensionStep(d, n, e, a, b) && ExtensionStep(d, n, e, b, c)
    ensures ExtensionStep(d, n, e, a, c)
  {
    hide Demanded;
  }

  // ----- schemas -----

  method CreateSchemaIfMissing(s: Server, n: Name, sc: Name, state: State) returns (ok: bool)
    requires n in s.cat.dbs
    modifies s`cat, s`trace
    ensures Attempt(s.w, state != Absent && sc !in old(s.cat).dbs[n].schemas, InDatabase(n, CreateSchema(sc)),
                    old(s.State()), s.State(), ok)
    ensures SchemaStep(n, sc, old(s.cat), s.cat)
    ensures ok && state != Absent ==> sc in s.cat.dbs[n].schemas
    ensures ok ==> !(state != Absent && sc == "" && sc !in old(s.cat).dbs[n].schemas)
    ensures s.reliable && !ok ==> state != Absent && sc == "" && sc !in old(s.cat).dbs[n].schemas
  {
    if state == Absent {
      return true;
    }
    var asked, exists_ := s.Ask(sc in s.cat.dbs[n].schemas);
    if !asked {
      return false;
    }
    if !exists_ {
      ok := s.Exec(InDatabase(n, CreateSchema(sc)));
      return;
    }
    return true;
  }

  method DropSchemaIfThere(s: Server, n: Name, sc: Name, state: State) returns (ok: bool)
    requires n in s.cat.dbs
    modifies s`cat, s`trace
    ensures Attempt(s.w, state != Present && sc in old(s.cat).dbs[n].schemas, InDatabase(n, DropSchema(sc)),
                    old(s.State()), s.State(), ok)
    ensures SchemaStep(n, sc, old(s.cat), s.cat)
    ensures s.reliable && !ok ==> state != Present && !SchemaEmpty(old(s.cat).dbs[n], sc)
  {
    if state == Present {
      return true;
    }
    var asked, exists_ := s.Ask(sc in s.cat.dbs[n].schemas);
    if !asked {
      return false;
    }
    if exists_ {
      ok := s.Exec(InDatabase(n, DropSchema(sc)));
      return;
    }
    return true;
  }

  /** The schema is as wanted, and so is the role that is to own it. */
  ghost predicate SchemaHeld(w: World, d: Spec, c: Catalog, n: Name, sc: Name) {
    && Held(w, d, c, OfDb(n, SchemaExists(sc)))
    && Held(w, d, c, OfDb(n, SchemaOwner(sc)))
    && !SchemaConflict(d, n, sc)
    && (NamesOwner(d, n, sc) ==> Held(w, d, c, RoleExists(d.databases[n].schemas[sc].owner)))
  }

  predicate NamesOwner(d: Spec, n: Name, sc: Name) {
    && Managed(d, n) && sc in d.databases[n].schemas
    && d.databases[n].schemas[sc].state != Absent && d.databases[n].schemas[sc].owner != ""
  }

  lemma SchemaHeldStable(w: World, d: Spec, a: Catalog, b: Catalog)
    requires Between(w, d, a, b, true)
    ensures forall n, sc :: n in a.dbs && SchemaHeld(w, d, a, n, sc) ==> SchemaHeld(w, d, b, n, sc)
  {
    HeldStable(w, d, a, b);
  }

  /** ALTER SCHEMA OWNER is accepted, for a schema and a role that are there, and changes that owner alone. */
  lemma OwningIsStep(w: World, n: Name, sc: Name, owner: Name, c: Catalog)
    requires n in c.dbs && sc in c.dbs[n].schemas && owner in c.roles
    ensures var after := Step(w, InDatabase(n, AlterSchemaOwner(sc, owner)), c);
      && after.Some? && SchemaStep(n, sc, c, after.value)
      && after.value.dbs[n].schemas == c.dbs[n].schemas[sc := owner]
  {
  }

  /** The owner is read and, if it is another, created and put in place. */
  method ReconcileSchemaOwner(s: Server, ghost d: Spec, n: Name, sc: Name, x: Schema) returns (ok: bool)
    requires Wf(s.w, s.cat) && n in s.cat.dbs && Managed(d, n)
    requires sc in d.databases[n].schemas && d.databases[n].schemas[sc] == x
    requires sc in s.cat.dbs[n].schemas ==> x.state != Allowed
    modifies s`cat, s`trace
    ensures Advance(s.w, d, old(s.State()), s.State(), ok)
    ensures n in s.cat.dbs && s.cat.dbs[n].schemas.Keys == old(s.cat).dbs[n].schemas.Keys
    ensures SchemaStep(n, sc, old(s.cat), s.cat)
    ensures s.reliable && !ok ==> sc !in old(s.cat).dbs[n].schemas && x.state != Absent && x.owner != ""
    ensures ok && x.state != Absent && x.owner != "" ==>
      sc in s.cat.dbs[n].schemas && s.cat.dbs[n].schemas[sc] == x.owner && x.state == Present
  {
    hide Wf, WfDb, Between, Legal, Step;
    AdvanceRefl(s.w, d, s.State(), true);
    AdvanceRefl(s.w, d, s.State(), false);
    if x.state == Absent || x.owner == "" {
      return true;
    }
    if sc !in s.cat.dbs[n].schemas {
      return false;
    }
    var read, owner := s.Read(s.cat.dbs[n].schemas[sc]);
    if !read || owner == x.owner {
      return read;
    }
    assert OwnsSchemaIn(d.databases[n], x.owner);
    assert SchemaOwnerNames(d, x.owner);
    ok := Roles.Create(s, x.owner, Present);
    Roles.CreateAdvances(s.w, d, true, x.owner, old(s.State()), s.State(), ok);
    if !ok {
      return;
    }
    ghost var mid := s.State();
    OwningIsStep(s.w, n, sc, x.owner, s.cat);
    ok := s.Exec(InDatabase(n, AlterSchemaOwner(sc, x.owner)));
    AlterSchemaOwnerSound(s.w, d, mid.cat, n, sc);
    AttemptAdvances(s.w, d, true, InDatabase(n, AlterSchemaOwner(sc, x.owner)), mid, s.State(), ok);
    AdvanceTrans(s.w, d, old(s.State()), mid, s.State(), ok);
  }

  /** Every extension the database lists is as wanted. */
  ghost predicate ExtensionsHeld(w: World, d: Spec, c: Catalog, n: Name) {
    Managed(d, n) && forall e :: e in d.databases[n].extensions ==> ExtensionHeld(w, d, c, n, e)
  }

  ghost predicate ExtensionHeld(w: World, d: Spec, c: Catalog, n: Name, e: Name) {
    && Held(w, d, c, OfDb(n, ExtExists(e)))
    && Held(w, d, c, OfDb(n, ExtSchema(e)))
    && Held(w, d, c, OfDb(n, ExtVersion(e)))
  }

  lemma ExtensionHeldStable(w: World, d: Spec, a: Catalog, b: Catalog)
    requires Between(w, d, a, b, true)
    ensures forall n, e :: n in a.dbs && ExtensionHeld(w, d, a, n, e) ==> ExtensionHeld(w, d, b, n, e)
  {
    HeldStable(w, d, a, b);
  }

  /** A schema some Present extension asks for is there with that extension in it. */
  lemma DemandedSchemaInUse(w: World, d: Spec, c: Catalog, n: Name, sc: Name)
    requires Wf(w, c) && n in c.dbs && ExtensionsHeld(w, d, c, n) && Demanded(d.databases[n], sc)
    ensures sc in c.dbs[n].schemas && !SchemaEmpty(c.dbs[n], sc)
  {
    hide ExtensionHeld;
    var e :| e in d.databases[n].extensions && d.databases[n].extensions[e].state == Present
        && d.databases[n].extensions[e].schema == sc;
    PresentExtensionThere(w, d, c, n, e);
    assert WfDb(c.roles.Keys, c.dbs[n]);
  }

  lemma PresentExtensionThere(w: World, d: Spec, c: Catalog, n: Name, e: Name)
    requires Managed(d, n) && n in c.dbs && ExtensionHeld(w, d, c, n, e)
    requires e in d.databases[n].extensions && d.databases[n].extensions[e].state == Present
    ensures var x, exts := d.databases[n].extensions[e], c.dbs[n].exts;
      e in exts && (x.schema != "" ==> exts[e].schema == x.schema) && (x.version != "" ==> exts[e].version == x.version)
  {
  }

  /** What create and drop do to one schema, whatever its state. */
  ghost predicate CreatedThenDropped(w: World, n: Name, sc: Name, x: Schema, a: Log, b: Log, c: Log, ok: bool) {
    && n in a.cat.dbs && n in b.cat.dbs
    && Attempt(w, x.state != Absent && sc !in a.cat.dbs[n].schemas, InDatabase(n, CreateSchema(sc)), a, b, true)
    && Attempt(w, x.state != Present && sc in b.cat.dbs[n].schemas, InDatabase(n, DropSchema(sc)), b, c, ok)
  }

  lemma PresentSchemaAdvances(w: World, d: Spec, n: Name, sc: Name, x: Schema, a: Log, b: Log, c: Log, ok: bool)
    requires Wf(w, a.cat) && CreatedThenDropped(w, n, sc, x, a, b, c, ok)
    requires Managed(d, n) && sc in d.databases[n].schemas && d.databases[n].schemas[sc] == x && x.state == Present
    ensures Advance(w, d, a, c, ok) && n in c.cat.dbs && sc in c.cat.dbs[n].schemas
  {
    hide Wf, WfDb, Sound, Between, Legal, AllHeld;
    CreateSchemaSound(w, d, a.cat, n, sc);
    AttemptAdvances(w, d, sc !in a.cat.dbs[n].schemas, InDatabase(n, CreateSchema(sc)), a, b, true);
    AdvanceWeaken(w, d, a, b);
  }

  lemma AbsentSchemaAdvances(w: World, d: Spec, n: Name, sc: Name, x: Schema, a: Log, b: Log, c: Log, ok: bool)
    requires Wf(w, a.cat) && CreatedThenDropped(w, n, sc, x, a, b, c, ok)
    requires Managed(d, n) && sc in d.databases[n].schemas && d.databases[n].schemas[sc] == x && x.state == Absent
    requires ExtensionsHeld(w, d, a.cat, n)
    ensures Advance(w, d, a, c, ok) && (ok ==> n in c.cat.dbs && sc !in c.cat.dbs[n].schemas)
  {
    hide Wf, WfDb, Sound, Between, Legal, AllHeld, ExtensionsHeld;
    if Demanded(d.databases[n], sc) {
      DemandedSchemaInUse(w, d, a.cat, n, sc);
    }
    DropSchemaSound(w, d, a.cat, n, sc);
    AttemptAdvances(w, d, sc in a.cat.dbs[n].schemas, InDatabase(n, DropSchema(sc)), a, c, ok);
  }

  /** An Allowed schema that an extension asks for can be created but not dropped. */
  lemma AllowedInUseAdvances(w: World, d: Spec, n: Name, sc: Name, x: Schema, a: Log, b: Log, c: Log, ok: bool)
    requires Wf(w, a.cat) && CreatedThenDropped(w, n, sc, x, a, b, c, ok)
    requires Managed(d, n) && sc in d.databases[n].schemas && d.databases[n].schemas[sc] == x && x.state == Allowed
    requires Demanded(d.databases[n], sc) && ExtensionsHeld(w, d, a.cat, n)
    ensures Advance(w, d, a, c, ok) && (ok ==> n in c.cat.dbs && sc !in c.cat.dbs[n].schemas)
  {
    hide Wf, WfDb, Sound, Between, Legal, AllHeld, ExtensionHeld;
    CreateSchemaSound(w, d, a.cat, n, sc);
    AttemptAdvances(w, d, sc !in a.cat.dbs[n].schemas, InDatabase(n, CreateSchema(sc)), a, b, true);
    ExtensionHeldStable(w, d, a.cat, b.cat);
    DemandedSchemaInUse(w, d, b.cat, n, sc);
    DropSchemaSound(w, d, b.cat, n, sc);
    AttemptAdvances(w, d, sc in b.cat.dbs[n].schemas, InDatabase(n, DropSchema(sc)), b, c, ok);
    AdvanceTrans(w, d, a, b, c, ok);
  }

  /** Creating an Allowed schema is the one move that a failing run may leave half done. */
  lemma AllowedCreated(w: World, d: Spec, n: Name, sc: Name, c: Catalog)
    requires Wf(w, c) && n in c.dbs && sc !in c.dbs[n].schemas && sc != ""
    requires Managed(d, n) && sc in d.databases[n].schemas && d.databases[n].schemas[sc].state == Allowed
    requires !Demanded(d.databases[n], sc)
    ensures var c' := WithDb(c, n, c.dbs[n].(schemas := c.dbs[n].schemas[sc := w.me]));
      Wf(w, c') && Between(w, d, c, c', false)
  {
    var db := c.dbs[n].(schemas := c.dbs[n].schemas[sc := w.me]);
    DbMovesLoosely(w, d, c, n, db);
    StepKeepsWf(w, InDatabase(n, CreateSchema(sc)), c);
  }

  /** Nobody asks for it: whatever the outcome, a success leaves it gone. */
  lemma AllowedIdleAdvances(w: World, d: Spec, n: Name, sc: Name, x: Schema, a: Log, b: Log, c: Log, ok: bool)
    requires Wf(w, a.cat) && CreatedThenDropped(w, n, sc, x, a, b, c, ok)
    requires Managed(d, n) && sc in d.databases[n].schemas && d.databases[n].schemas[sc] == x && x.state == Allowed
    requires !Demanded(d.databases[n], sc)
    ensures Advance(w, d, a, c, ok) && (ok ==> n in c.cat.dbs && sc !in c.cat.dbs[n].schemas)
  {
    hide Wf, WfDb, Sound, Between, Legal, AllHeld;
    if sc in a.cat.dbs[n].schemas {
      DropSchemaSound(w, d, a.cat, n, sc);
      AttemptAdvances(w, d, true, InDatabase(n, DropSchema(sc)), a, c, ok);
    } else {
      AllowedCreated(w, d, n, sc, a.cat);
      LegalAttempt(w, true, InDatabase(n, CreateSchema(sc)), a, b, true);
      LegalAttempt(w, sc in b.cat.dbs[n].schemas, InDatabase(n, DropSchema(sc)), b, c, ok);
      LegalTrans(w, a, b, c);
      BetweenRefl(w, d, a.cat, ok);
      BetweenRefl(w, d, a.cat, false);
      assert ok ==> c.cat.dbs[n].schemas == a.cat.dbs[n].schemas;
      assert ok ==> c.cat.dbs == a.cat.dbs;
      assert !SchemasSettle(d);
    }
  }

  lemma SchemaAdvances(w: World, d: Spec, n: Name, sc: Name, x: Schema, a: Log, b: Log, c: Log, ok: bool)
    requires Wf(w, a.cat) && CreatedThenDropped(w, n, sc, x, a, b, c, ok)
    requires Managed(d, n) && sc in d.databases[n].schemas && d.databases[n].schemas[sc] == x
    requires ExtensionsHeld(w, d, a.cat, n)
    ensures Advance(w, d, a, c, ok)
    ensures ok ==> n in c.cat.dbs && (sc in c.cat.dbs[n].schemas <==> x.state == Present)
  {
    hide Wf, Between, Legal, AllHeld, ExtensionsHeld, CreatedThenDropped;
    match x.state
    case Present => PresentSchemaAdvances(w, d, n, sc, x, a, b, c, ok);
    case Absent => AbsentSchemaAdvances(w, d, n, sc, x, a, b, c, ok);
    case Allowed =>
      if Demanded(d.databases[n], sc) {
        AllowedInUseAdvances(w, d, n, sc, x, a, b, c, ok);
      } else {
        AllowedIdleAdvances(w, d, n, sc, x, a, b, c, ok);
      }
  }

  lemma SchemaCreateFailed(w: World, d: Spec, n: Name, sc: Name, x: Schema, a: Log, b: Log)
    requires Wf(w, a.cat) && n in a.cat.dbs
    requires Attempt(w, x.state != Absent && sc !in a.cat.dbs[n].schemas, InDatabase(n, CreateSchema(sc)), a, b, false)
    requires Managed(d, n) && sc in d.databases[n].schemas && d.databases[n].schemas[sc] == x
    ensures Advance(w, d, a, b, false)
  {
    hide Wf, WfDb, Between, Legal;
    LegalAttempt(w, x.state != Absent && sc !in a.cat.dbs[n].schemas, InDatabase(n, CreateSchema(sc)), a, b, false);
    BetweenRefl(w, d, a.cat, false);
    if x.state == Present {
      CreateSchemaSound(w, d, a.cat, n, sc);
    } else if x.state == Allowed {
      assert !SchemasSettle(d);
    }
  }

  /** A schema that was created and dropped as its state says is where it is wanted. */
  lemma SchemaSettled(w: World, d: Spec, c: Catalog, n: Name, sc: Name)
    requires Wf(w, c) && Managed(d, n) && n in c.dbs && sc in d.databases[n].schemas && ExtensionsHeld(w, d, c, n)
    requires var x := d.databases[n].schemas[sc];
      && (sc in c.dbs[n].schemas <==> x.state == Present)
      && (x.state != Absent && x.owner != "" ==> sc in c.dbs[n].schemas && c.dbs[n].schemas[sc] == x.owner)
    ensures SchemaHeld(w, d, c, n, sc)
  {
    hide ExtensionsHeld;
    if Demanded(d.databases[n], sc) {
      DemandedSchemaInUse(w, d, c, n, sc);
    }
    assert WfDb(c.roles.Keys, c.dbs[n]);
  }

  lemma SameUse(a: Db, b: Db, sc: Name)
    requires b.exts == a.exts && b.objects == a.objects
    ensures SchemaEmpty(b, sc) <==> SchemaEmpty(a, sc)
  {
  }

  lemma GoneIsEmpty(w: World, c: Catalog, n: Name, sc: Name)
    requires Wf(w, c) && n in c.dbs && sc !in c.dbs[n].schemas
    ensures SchemaEmpty(c.dbs[n], sc)
  {
    assert WfDb(c.roles.Keys, c.dbs[n]);
  }

  /** create, drop, owner, in this order for every state. */
  method ReconcileSchema(s: Server, ghost d: Spec, n: Name, sc: Name, x: Schema) returns (ok: bool)
    requires Wf(s.w, s.cat) && n in s.cat.dbs && ExtensionsHeld(s.w, d, s.cat, n)
    requires Managed(d, n) && sc in d.databases[n].schemas && d.databases[n].schemas[sc] == x
    modifies s`cat, s`trace
    ensures Advance(s.w, d, old(s.State()), s.State(), ok)
    ensures SchemaStep(n, sc, old(s.cat), s.cat)
    ensures ok ==> ExtensionsHeld(s.w, d, s.cat, n) && SchemaHeld(s.w, d, s.cat, n, sc)
    ensures ok ==> !SchemaBlocked(x, old(s.cat).dbs[n], sc, !SchemaEmpty(old(s.cat).dbs[n], sc))
    ensures s.reliable && !ok ==> SchemaBlocked(x, old(s.cat).dbs[n], sc, !SchemaEmpty(old(s.cat).dbs[n], sc))
  {
    hide Wf, Between, Legal, ExtensionHeld, SchemaHeld, SchemaEmpty;
    ok := CreateSchemaIfMissing(s, n, sc, x.state);
    ghost var created := s.State();
    if !ok {
      SchemaCreateFailed(s.w, d, n, sc, x, old(s.State()), created);
      return;
    }
    ok := DropSchemaIfThere(s, n, sc, x.state);
    ghost var dropped := s.State();
    SameUse(old(s.cat).dbs[n], created.cat.dbs[n], sc);
    SchemaAdvances(s.w, d, n, sc, x, old(s.State()), created, dropped, ok);
    if !ok {
      return;
    }
    ExtensionHeldStable(s.w, d, old(s.cat), dropped.cat);
    ok := ReconcileSchemaOwner(s, d, n, sc, x);
    AdvanceTrans(s.w, d, old(s.State()), dropped, s.State(), ok);
    if ok {
      ExtensionHeldStable(s.w, d, dropped.cat, s.cat);
      SchemaSettled(s.w, d, s.cat, n, sc);
      SameUse(old(s.cat).dbs[n], s.cat.dbs[n], sc);
      if x.state != Present { GoneIsEmpty(s.w, s.cat, n, sc); }
    }
  }

  /** The schemas of one database, in whatever order the map yields them. */
  method ReconcileSchemas(s: Server, ghost d: Spec, n: Name, schemas: map<Name, Schema>) returns (ok: bool)
    requires Wf(s.w, s.cat) && n in s.cat.dbs && ExtensionsHeld(s.w, d, s.cat, n) && d.databases[n].schemas == schemas
    modifies s`cat, s`trace
    ensures Advance(s.w, d, old(s.State()), s.State(), ok)
    ensures SchemasStep(n, schemas.Keys, old(s.cat), s.cat)
    ensures ok ==> ExtensionsHeld(s.w, d, s.cat, n)
    ensures ok ==> forall sc :: sc in schemas ==> SchemaHeld(s.w, d, s.cat, n, sc)
    ensures ok ==> forall sc :: sc in schemas ==> !SchemaStops(schemas[sc], old(s.cat).dbs[n], sc)
    ensures s.reliable && !ok ==> exists sc :: sc in schemas && SchemaStops(schemas[sc], old(s.cat).dbs[n], sc)
  {
    hide Wf, Between, Legal, ExtensionHeld, SchemaHeld, SchemasStep, SchemaStep, SchemaEmpty, SchemaStops;
    var order := InSomeOrder(schemas.Keys);
    AdvanceRefl(s.w, d, s.State(), true);
    ghost var done := {};
    SchemasStepNot(n, s.cat);
    for i := 0 to |order|
      invariant done == (set x | x in order[..i]) && done <= schemas.Keys
      invariant Advance(s.w, d, old(s.State()), s.State(), true)
      invariant n in s.cat.dbs && ExtensionsHeld(s.w, d, s.cat, n)
      invariant SchemasStep(n, done, old(s.cat), s.cat)
      invariant forall sc :: sc in done ==> SchemaHeld(s.w, d, s.cat, n, sc)
      invariant forall sc :: sc in done ==> !SchemaStops(schemas[sc], old(s.cat).dbs[n], sc)
    {
      ghost var before := s.State();
      assert order[i] in schemas && order[i] !in order[..i];
      ok := ReconcileSchema(s, d, n, order[i], schemas[order[i]]);
      AdvanceTrans(s.w, d, old(s.State()), before, s.State(), ok);
      SchemasStepNext(n, done, order[i], schemas[order[i]], old(s.cat), before.cat, s.cat);
      assert order[..i + 1] == order[..i] + [order[i]];
      done := done + {order[i]};
      if !ok {
        SchemasStepWider(n, done, schemas.Keys, old(s.cat), s.cat);
        return;
      }
      SchemaHeldStable(s.w, d, before.cat, s.cat);
    }
    assert order[..|order|] == order && done == schemas.Keys;
    return true;
  }

  /** Of the schemas only these came or went. */
  ghost predicate SchemasStep(n: Name, done: set<Name>, a: Catalog, b: Catalog) {
    && Elsewhere(a, b, n) && b.dbs[n].objects == a.dbs[n].objects && b.dbs[n].exts == a.dbs[n].exts
    && forall t :: t !in done ==> (t in b.dbs[n].schemas <==> t in a.dbs[n].schemas)
  }

  /** What stops a run at this schema, once the extensions are settled. */
  predicate SchemaStops(x: Schema, db: Db, sc: Name) { SchemaBlocked(x, db, sc, !SchemaEmpty(db, sc)) }

  lemma SchemasStepNot(n: Name, a: Catalog)
    requires n in a.dbs
    ensures SchemasStep(n, {}, a, a)
  {
  }

  lemma SchemasStepNext(n: Name, done: set<Name>, sc: Name, x: Schema, a: Catalog, b: Catalog, c: Catalog)
    requires SchemasStep(n, done, a, b) && SchemaStep(n, sc, b, c) && sc !in done
    ensures SchemasStep(n, done + {sc}, a, c) && n in c.dbs
    ensures SchemaBlocked(x, b.dbs[n], sc, !SchemaEmpty(b.dbs[n], sc)) <==> SchemaStops(x, a.dbs[n], sc)
  {
  }

  lemma SchemasStepWider(n: Name, done: set<Name>, more: set<Name>, a: Catalog, b: Catalog)
    requires SchemasStep(n, done, a, b) && done <= more
    ensures SchemasStep(n, more, a, b)
  {
  }

  // ----- extensions -----

  /** The schema that a Present extension is to live in. */
  method CreateDemandedSchema(s: Server, ghost d: Spec, n: Name, ghost e: Name, sc: Name) returns (ok: bool)
    requires Wf(s.w, s.cat) && n in s.cat.dbs && Managed(d, n) && Demanded(d.databases[n], sc)
    modifies s`cat, s`trace
    ensures Advance(s.w, d, old(s.State()), s.State(), ok)
    ensures ExtensionStep(d, n, e, old(s.cat), s.cat)
    ensures s.cat.dbs[n].exts == old(s.cat).dbs[n].exts
    ensures ok ==> sc in s.cat.dbs[n].schemas
    ensures s.reliable ==> ok
  {
    hide Wf, WfDb, Between, Legal;
    ok := CreateSchemaIfMissing(s, n, sc, Present);
    CreateSchemaSound(s.w, d, old(s.cat), n, sc);
    AttemptAdvances(s.w, d, sc !in old(s.cat).dbs[n].schemas, InDatabase(n, CreateSchema(sc)), old(s.State()),
                    s.State(), ok);
  }

  /** Present: available, in the wanted version if one is given, created if missing, with its schema. */
  method CreateExtensionIfMissing(s: Server, ghost d: Spec, n: Name, e: Name, x: Extension) returns (ok: bool)
    requires Wf(s.w, s.cat) && n in s.cat.dbs && Managed(d, n)
    requires e in d.databases[n].extensions && d.databases[n].extensions[e] == x
    modifies s`cat, s`trace
    ensures Advance(s.w, d, old(s.State()), s.State(), ok)
    ensures ExtensionStep(d, n, e, old(s.cat), s.cat)
    ensures ok && x.state == Present ==> e in s.cat.dbs[n].exts
    ensures ok && x.state == Present ==> !ExtensionBlocked(s.w, d.databases[n], old(s.cat).dbs[n], e, false)
    ensures s.reliable && !ok ==>
      x.state == Present && ExtensionBlocked(s.w, d.databases[n], old(s.cat).dbs[n], e, false)
  {
    hide Wf, WfDb, Between, Legal;
    AdvanceRefl(s.w, d, s.State(), true);
    AdvanceRefl(s.w, d, s.State(), false);
    if x.state != Present {
      return true;
    }
    var asked, available := s.Ask(e in s.w.available);
    if !asked || !available {
      return false;
    }
    if x.version != "" {
      asked, available := s.Ask((e, x.version) in s.w.versions);
      if !asked || !available {
        return false;
      }
    }
    var known, exists_ := s.Ask(e in s.cat.dbs[n].exts);
    if !known || exists_ {
      return known;
    }
    ok := CreateMissingExtension(s, d, n, e, x);
  }

  /** The schema first, if one is given. */
  method CreateMissingExtension(s: Server, ghost d: Spec, n: Name, e: Name, x: Extension) returns (ok: bool)
    requires Wf(s.w, s.cat) && n in s.cat.dbs && Managed(d, n) && x.state == Present
    requires e in d.databases[n].extensions && d.databases[n].extensions[e] == x
    requires e in s.w.available && (x.version != "" ==> (e, x.version) in s.w.versions) && e !in s.cat.dbs[n].exts
    modifies s`cat, s`trace
    ensures Advance(s.w, d, old(s.State()), s.State(), ok)
    ensures ExtensionStep(d, n, e, old(s.cat), s.cat)
    ensures ok ==> e in s.cat.dbs[n].exts && (x.schema == "" ==> s.w.extSchema(e) in old(s.cat).dbs[n].schemas)
    ensures s.reliable && !ok ==> x.schema == "" && s.w.extSchema(e) !in old(s.cat).dbs[n].schemas
  {
    hide Wf, WfDb, Between, Legal, ExtensionStep, Step;
    AdvanceRefl(s.w, d, s.State(), true);
    ExtensionStepNot(d, n, e, s.cat);
    if x.schema != "" {
      ok := CreateDemandedSchema(s, d, n, e, x.schema);
      if !ok {
        return;
      }
    }
    ghost var mid := s.State();
    ExtensionStays(d, n, e, old(s.cat), mid.cat);
    ok := s.Exec(InDatabase(n, CreateExtension(e, x.schema, x.version)));
    ExtensionMade(s.w, d, n, e, x, mid.cat);
    ExtensionStepTrans(d, n, e, old(s.cat), mid.cat, s.cat);
    CreateExtensionSound(s.w, d, mid.cat, n, e);
    AttemptAdvances(s.w, d, true, InDatabase(n, CreateExtension(e, x.schema, x.version)), mid, s.State(), ok);
    AdvanceTrans(s.w, d, old(s.State()), mid, s.State(), ok);
  }

  /** Absent: the existence check only feeds a log line; the statement is issued regardless. */
  method DropExtensionAlways(s: Server, ghost d: Spec, n: Name, e: Name, x: Extension) returns (ok: bool)
    requires Wf(s.w, s.cat) && n in s.cat.dbs && Managed(d, n)
    requires e in d.databases[n].extensions && d.databases[n].extensions[e] == x
    modifies s`cat, s`trace
    ensures Advance(s.w, d, old(s.State()), s.State(), ok)
    ensures ExtensionStep(d, n, e, old(s.cat), s.cat)
    ensures ok && x.state == Absent ==> e !in s.cat.dbs[n].exts && e != ""
    ensures s.reliable && !ok ==> x.state == Absent && e == ""
    ensures x.state != Absent ==> s.cat == old(s.cat)
  {
    hide Wf, WfDb, Between, Legal;
    AdvanceRefl(s.w, d, s.State(), true);
    AdvanceRefl(s.w, d, s.State(), false);
    if x.state != Absent {
      return true;
    }
    var asked, exists_ := s.Ask(e in s.cat.dbs[n].exts);
    if !asked {
      return false;
    }
    ok := s.Exec(InDatabase(n, DropExtension(e)));
    DropExtensionSound(s.w, d, old(s.cat), n, e);
    AttemptAdvances(s.w, d, true, InDatabase(n, DropExtension(e)), old(s.State()), s.State(), ok);
  }

  /** ALTER EXTENSION SET SCHEMA is accepted, for an extension and a schema that are there, and moves it alone. */
  lemma MovingIsStep(w: World, d: Spec, n: Name, e: Name, sc: Name, c: Catalog)
    requires n in c.dbs && n in d.databases && e in c.dbs[n].exts && sc in c.dbs[n].schemas
    ensures var after := Step(w, InDatabase(n, AlterExtensionSchema(e, sc)), c);
      && after.Some? && ExtensionStep(d, n, e, c, after.value) && n in after.value.dbs
      && after.value.dbs[n].exts.Keys == c.dbs[n].exts.Keys && after.value.dbs[n].exts[e].schema == sc
  {
  }

  lemma StayElsewhere(d: Spec, n: Name, e: Name)
    requires n in d.databases
    ensures forall a, b :: ExtensionStep(d, n, e, a, b) ==> n in a.dbs && n in b.dbs
  {
  }

  method ReconcileExtensionSchema(s: Server, ghost d: Spec, n: Name, e: Name, x: Extension) returns (ok: bool)
    requires Wf(s.w, s.cat) && n in s.cat.dbs && Managed(d, n)
    requires e in d.databases[n].extensions && d.databases[n].extensions[e] == x
    modifies s`cat, s`trace
    ensures Advance(s.w, d, old(s.State()), s.State(), ok)
    ensures ExtensionStep(d, n, e, old(s.cat), s.cat) && s.cat.dbs[n].exts.Keys == old(s.cat).dbs[n].exts.Keys
    ensures s.reliable && !ok ==> x.state == Present && e !in old(s.cat).dbs[n].exts
    ensures ok && x.state == Present && x.schema != "" ==>
      e in s.cat.dbs[n].exts && s.cat.dbs[n].exts[e].schema == x.schema
  {
    hide Wf, WfDb, Between, Legal, Step, ExtensionStep;
    AdvanceRefl(s.w, d, s.State(), true);
    AdvanceRefl(s.w, d, s.State(), false);
    ExtensionStepNot(d, n, e, s.cat);
    StayElsewhere(d, n, e);
    if x.state != Present || x.schema == "" {
      return true;
    }
    if e !in s.cat.dbs[n].exts {
      return false;
    }
    var read, schema := s.Read(s.cat.dbs[n].exts[e].schema);
    if !read || schema == x.schema {
      return read;
    }
    ok := CreateDemandedSchema(s, d, n, e, x.schema);
    if !ok {
      return;
    }
    ghost var mid := s.State();
    ExtensionStepNot(d, n, e, s.cat);
    MovingIsStep(s.w, d, n, e, x.schema, s.cat);
    ok := s.Exec(InDatabase(n, AlterExtensionSchema(e, x.schema)));
    ExtensionStepTrans(d, n, e, old(s.cat), mid.cat, s.cat);
    AlterExtensionSchemaSound(s.w, d, mid.cat, n, e);
    AttemptAdvances(s.w, d, true, InDatabase(n, AlterExtensionSchema(e, x.schema)), mid, s.State(), ok);
    AdvanceTrans(s.w, d, old(s.State()), mid, s.State(), ok);
  }

  method ReconcileExtensionVersion(s: Server, ghost d: Spec, n: Name, e: Name, x: Extension) returns (ok: bool)
    requires Wf(s.w, s.cat) && n in s.cat.dbs && Managed(d, n)
    requires e in d.databases[n].extensions && d.databases[n].extensions[e] == x
    modifies s`cat, s`trace
    ensures Advance(s.w, d, old(s.State()), s.State(), ok)
    ensures ExtensionStep(d, n, e, old(s.cat), s.cat) && s.cat.dbs[n].exts.Keys == old(s.cat).dbs[n].exts.Keys
    ensures s.reliable && !ok ==>
      x.state == Present && x.version != "" && (e !in old(s.cat).dbs[n].exts || (e, x.version) !in s.w.versions)
    ensures forall f :: f in s.cat.dbs[n].exts ==> s.cat.dbs[n].exts[f].schema == old(s.cat).dbs[n].exts[f].schema
    ensures ok && x.state == Present && x.version != "" ==>
      e in s.cat.dbs[n].exts && s.cat.dbs[n].exts[e].version == x.version
  {
    hide Wf, WfDb, Between, Legal;
    AdvanceRefl(s.w, d, s.State(), true);
    AdvanceRefl(s.w, d, s.State(), false);
    if x.state != Present || x.version == "" {
      return true;
    }
    if e !in s.cat.dbs[n].exts {
      return false;
    }
    var read, version := s.Read(s.cat.dbs[n].exts[e].version);
    if !read || version == x.version {
      return read;
    }
    ok := s.Exec(InDatabase(n, AlterExtensionVersion(e, x.version)));
    AlterExtensionVersionSound(s.w, d, old(s.cat), n, e);
    AttemptAdvances(s.w, d, true, InDatabase(n, AlterExtensionVersion(e, x.version)), old(s.State()), s.State(), ok);
  }

  lemma ExtensionSettled(w: World, d: Spec, c: Catalog, n: Name, e: Name)
    requires Managed(d, n) && n in c.dbs && e in d.databases[n].extensions
    requires var x, exts := d.databases[n].extensions[e], c.dbs[n].exts;
      && (x.state == Absent ==> e !in exts)
      && (x.state == Present ==> e in exts && (x.schema != "" ==> exts[e].schema == x.schema)
                                 && (x.version != "" ==> exts[e].version == x.version))
    ensures ExtensionHeld(w, d, c, n, e)
  {
  }

  /** create, drop, schema, version, in this order for every state. */
  method ReconcileExtension(s: Server, ghost d: Spec, n: Name, e: Name, x: Extension) returns (ok: bool)
    requires Wf(s.w, s.cat) && n in s.cat.dbs && Managed(d, n)
    requires e in d.databases[n].extensions && d.databases[n].extensions[e] == x
    modifies s`cat, s`trace
    ensures Advance(s.w, d, old(s.State()), s.State(), ok)
    ensures ExtensionStep(d, n, e, old(s.cat), s.cat)
    ensures ok ==> ExtensionHeld(s.w, d, s.cat, n, e)
    ensures ok ==> !ExtensionBlocked(s.w, d.databases[n], old(s.cat).dbs[n], e, false)
    ensures s.reliable && !ok ==> ExtensionBlocked(s.w, d.databases[n], old(s.cat).dbs[n], e, false)
  {
    hide Wf, WfDb, Between, Legal, ExtensionHeld, ExtensionStep;
    ok := CreateExtensionIfMissing(s, d, n, e, x);
    if !ok {
      return;
    }
    ghost var created := s.State();
    ExtensionStays(d, n, e, old(s.cat), created.cat);
    ok := DropExtensionAlways(s, d, n, e, x);
    AdvanceTrans(s.w, d, old(s.State()), created, s.State(), ok);
    ExtensionStepTrans(d, n, e, old(s.cat), created.cat, s.cat);
    if !ok {
      return;
    }
    ghost var dropped := s.State();
    ExtensionStays(d, n, e, old(s.cat), dropped.cat);
    ok := ReconcileExtensionSchema(s, d, n, e, x);
    AdvanceTrans(s.w, d, old(s.State()), dropped, s.State(), ok);
    ExtensionStepTrans(d, n, e, old(s.cat), dropped.cat, s.cat);
    if !ok {
      return;
    }
    ghost var moved := s.State();
    ExtensionStays(d, n, e, old(s.cat), moved.cat);
    ok := ReconcileExtensionVersion(s, d, n, e, x);
    AdvanceTrans(s.w, d, old(s.State()), moved, s.State(), ok);
    ExtensionStepTrans(d, n, e, old(s.cat), moved.cat, s.cat);
    ExtensionStays(d, n, e, old(s.cat), s.cat);
    if ok {
      ExtensionSettled(s.w, d, s.cat, n, e);
    }
  }

  /** Of the extensions only these came or went; schemas only came, and only those that are asked for. */
  ghost predicate ExtensionsStep(d: Spec, n: Name, done: set<Name>, a: Catalog, b: Catalog)
    requires n in d.databases
  {
    && Elsewhere(a, b, n) && b.dbs[n].objects == a.dbs[n].objects
    && (forall f :: f !in done ==> (f in b.dbs[n].exts <==> f in a.dbs[n].exts))
    && (forall sc :: sc in a.dbs[n].schemas ==> sc in b.dbs[n].schemas)
    && (forall sc :: sc in b.dbs[n].schemas ==> sc in a.dbs[n].schemas || Demanded(d.databases[n], sc))
  }

  lemma ExtensionsStepNot(d: Spec, n: Name, a: Catalog)
    requires n in d.databases && n in a.dbs
    ensures ExtensionsStep(d, n, {}, a, a)
  {
  }

  lemma ExtensionsStepNext(d: Spec, n: Name, done: set<Name>, e: Name, a: Catalog, b: Catalog, c: Catalog)
    requires n in d.databases && ExtensionsStep(d, n, done, a, b) && ExtensionStep(d, n, e, b, c)
    ensures ExtensionsStep(d, n, done + {e}, a, c)
  {
    hide Demanded;
  }

  /** What stops a run at an extension could have stopped it at the start, unless a schema came in between. */
  lemma ExtensionBlockedBefore(w: World, d: Spec, n: Name, done: set<Name>, e: Name, a: Catalog, b: Catalog)
    requires n in d.databases && ExtensionsStep(d, n, done, a, b) && e in d.databases[n].extensions && e !in done
    ensures var x := d.databases[n];
      && (ExtensionBlocked(w, x, b.dbs[n], e, false) ==> ExtensionBlocked(w, x, a.dbs[n], e, false))
      && (ExtensionBlocked(w, x, a.dbs[n], e, true) ==> ExtensionBlocked(w, x, b.dbs[n], e, false))
  {
    hide Demanded;
  }

  lemma ExtensionsStepWider(d: Spec, n: Name, done: set<Name>, more: set<Name>, a: Catalog, b: Catalog)
    requires n in d.databases && ExtensionsStep(d, n, done, a, b) && done <= more
    ensures ExtensionsStep(d, n, more, a, b)
  {
    hide Demanded;
  }

  /** The extensions of one database, in whatever order the map yields them. */
  method ReconcileExtensions(s: Server, ghost d: Spec, n: Name, extensions: map<Name, Extension>) returns (ok: bool)
    requires Wf(s.w, s.cat) && n in s.cat.dbs && Managed(d, n) && d.databases[n].extensions == extensions
    modifies s`cat, s`trace
    ensures Advance(s.w, d, old(s.State()), s.State(), ok)
    ensures ExtensionsStep(d, n, extensions.Keys, old(s.cat), s.cat)
    ensures ok ==> ExtensionsHeld(s.w, d, s.cat, n)
    ensures ok ==> forall e :: e in extensions ==> !ExtensionBlocked(s.w, d.databases[n], old(s.cat).dbs[n], e, true)
    ensures s.reliable && !ok ==>
      exists e :: e in extensions && ExtensionBlocked(s.w, d.databases[n], old(s.cat).dbs[n], e, false)
  {
    hide Wf, Between, Legal, ExtensionHeld, ExtensionsStep, ExtensionStep, ExtensionBlocked;
    var order := InSomeOrder(extensions.Keys);
    AdvanceRefl(s.w, d, s.State(), true);
    ghost var done := {};
    ExtensionsStepNot(d, n, s.cat);
    for i := 0 to |order|
      invariant done == (set x | x in order[..i]) && done <= extensions.Keys
      invariant Advance(s.w, d, old(s.State()), s.State(), true)
      invariant n in s.cat.dbs && ExtensionsStep(d, n, done, old(s.cat), s.cat)
      invariant forall e :: e in done ==> ExtensionHeld(s.w, d, s.cat, n, e)
      invariant forall e :: e in done ==> !ExtensionBlocked(s.w, d.databases[n], old(s.cat).dbs[n], e, true)
    {
      ghost var before := s.State();
      assert order[i] in extensions && order[i] !in order[..i];
      ExtensionBlockedBefore(s.w, d, n, done, order[i], old(s.cat), before.cat);
      ok := ReconcileExtension(s, d, n, order[i], extensions[order[i]]);
      AdvanceTrans(s.w, d, old(s.State()), before, s.State(), ok);
      ExtensionStays(d, n, order[i], before.cat, s.cat);
      ExtensionsStepNext(d, n, done, order[i], old(s.cat), before.cat, s.cat);
      assert order[..i + 1] == order[..i] + [order[i]];
      done := done + {order[i]};
      if !ok {
        ExtensionsStepWider(d, n, done, extensions.Keys, old(s.cat), s.cat);
        return;
      }
      ExtensionHeldStable(s.w, d, before.cat, s.cat);
    }
    assert order[..|order|] == order && done == extensions.Keys;
    return true;
  }
}
