/** What reconciling promises over whole runs, in any order, interrupted and resumed. */
module Theorems {
  import opened Options
  import opened Catalog
  import opened Desired
  import opened Progress
  import opened Statements
  import opened Handlers
  import opened Finalizing
  import Grants
  import Roles

  // ----- restartability and order independence -----

  /** A run, however it ends, wants in the end what was wanted before it; a failing one, also on its way. */
  lemma WantSurvives(w: World, d: Spec, a: Log, b: Log, ok: bool, k: Key)
    requires Reconciled(w, d, a, b, ok) && !Contested(d, k) && !TakenOver(w, d, a.cat, k, ok)
    ensures Want(w, d, b.cat, k) == Want(w, d, a.cat, k) && !TakenOver(w, d, b.cat, k, ok)
    ensures !TakenOver(w, d, a.cat, k, false) ==>
      forall i :: |a.trace| <= i < |b.trace| ==> Want(w, d, b.trace[i].after, k) == Want(w, d, a.cat, k)
  {
    WantStable(w, d, a.cat, b.cat, ok, k);
    if !Copied(w, d, a.cat, k) && (ok || !Passing(d, a.cat, k)) { CopiedStays(w, d, a.cat, b.cat, ok, k); }
    if !TakenOver(w, d, a.cat, k, false) {
      forall i | |a.trace| <= i < |b.trace| ensures Want(w, d, b.trace[i].after, k) == Want(w, d, a.cat, k) {
        WantStable(w, d, a.cat, b.trace[i].after, false, k);
      }
    }
  }

  /** Attempts one after the other, each of which may succeed or fail anywhere. */
  ghost predicate Attempts(w: World, d: Spec, logs: seq<Log>)
    decreases |logs|
  {
    var n := |logs|;
    n > 0 && (n > 1 ==>
      && Attempts(w, d, logs[..n - 1])
      && (Reconciled(w, d, logs[n - 2], logs[n - 1], false) || Reconciled(w, d, logs[n - 2], logs[n - 1], true)))
  }

  lemma AttemptFails(w: World, d: Spec, a: Log, b: Log)
    requires Reconciled(w, d, a, b, true)
    ensures Reconciled(w, d, a, b, false)
  {
    AdvanceWeaken(w, d, a, b);
  }

  lemma {:induction false} WantSurvivesAttempts(w: World, d: Spec, logs: seq<Log>, k: Key)
    requires Attempts(w, d, logs) && !Contested(d, k) && !TakenOver(w, d, logs[0].cat, k, |logs| == 1)
    ensures Want(w, d, logs[|logs| - 1].cat, k) == Want(w, d, logs[0].cat, k)
    ensures !TakenOver(w, d, logs[|logs| - 1].cat, k, |logs| == 1)
    decreases |logs|
  {
    hide Reconciled, Want, Contested, TakenOver;
    var n := |logs|;
    if n > 1 {
      TakenOverLess(w, d, logs[0].cat, k);
      WantSurvivesAttempts(w, d, logs[..n - 1], k);
      if Reconciled(w, d, logs[n - 2], logs[n - 1], true) { AttemptFails(w, d, logs[n - 2], logs[n - 1]); }
      WantSurvives(w, d, logs[n - 2], logs[n - 1], false, k);
    }
  }

  lemma TakenOverLess(w: World, d: Spec, c: Catalog, k: Key)
    requires !TakenOver(w, d, c, k, false)
    ensures !TakenOver(w, d, c, k, true)
  {
  }

  /**
   Success, after any number of failed attempts, puts every observable the specification does not
   contradict itself about where the very first catalog wanted it.
   */
  lemma SuccessDetermines(w: World, d: Spec, logs: seq<Log>, last: Log, k: Key)
    requires Attempts(w, d, logs) && Reconciled(w, d, logs[|logs| - 1], last, true)
    requires !Contested(d, k) && !TakenOver(w, d, logs[0].cat, k, |logs| == 1)
    ensures Get(w, last.cat, k) == Want(w, d, logs[0].cat, k)
  {
    WantSurvivesAttempts(w, d, logs, k);
    if |logs| > 1 { TakenOverLess(w, d, logs[|logs| - 1].cat, k); }
    WantSurvives(w, d, logs[|logs| - 1], last, true, k);
    assert Held(w, d, last.cat, k);
  }

  // ----- without a template -----

  lemma {:induction false} AttemptsCreateNone(w: World, d: Spec, logs: seq<Log>)
    requires Attempts(w, d, logs) && TEMPLATE !in logs[0].cat.dbs
    ensures logs[|logs| - 1].cat.dbs.Keys <= logs[0].cat.dbs.Keys
    decreases |logs|
  {
    hide Between, AllHeld, Sane, Legal;
    var n := |logs|;
    if n > 1 {
      AttemptsCreateNone(w, d, logs[..n - 1]);
      NoneCreated(w, logs[n - 2], logs[n - 1]);
    }
  }

  /** What a successful run leaves in a database was never a matter of when it was created, if the template is fixed. */
  lemma NothingCopied(w: World, d: Spec, logs: seq<Log>, last: Log, k: Key)
    requires Attempts(w, d, logs) && TemplateFixed(w, d, logs[0].cat, |logs| == 1)
    requires Reconciled(w, d, logs[|logs| - 1], last, true)
    requires k.OfDb? ==> k.db in last.cat.dbs
    ensures !TakenOver(w, d, logs[0].cat, k, |logs| == 1)
  {
    hide Between, AllHeld, Sane, Legal, Wf, Get;
    if k.OfDb? && k.db !in logs[0].cat.dbs {
      if TEMPLATE !in logs[0].cat.dbs {
        AttemptsCreateNone(w, d, logs);
        NoneCreated(w, logs[|logs| - 1], last);
      } else {
        CreatedIsManaged(w, d, logs, last, k.db);
      }
    }
  }

  lemma CreatedIsManaged(w: World, d: Spec, logs: seq<Log>, last: Log, n: Name)
    requires Attempts(w, d, logs) && Reconciled(w, d, logs[|logs| - 1], last, true)
    requires n in last.cat.dbs && n !in logs[0].cat.dbs
    ensures Managed(d, n)
  {
    hide Attempts, Reconciled;
    SuccessDetermines(w, d, logs, last, DbExists(n));
  }

  /**
   Interrupted and retried runs reach the catalog an uninterrupted run reaches, whatever orders they
   took, unless a managed template may change while databases are still to be copied from it.
   */
  lemma Restartability(w: World, d: Spec, logs: seq<Log>, last: Log, direct: Log)
    requires Attempts(w, d, logs) && Coherent(d) && TemplateFixed(w, d, logs[0].cat, |logs| == 1)
    requires Reconciled(w, d, logs[|logs| - 1], last, true) && Reconciled(w, d, logs[0], direct, true)
    ensures last.cat == direct.cat
  {
    forall k ensures Get(w, last.cat, k) == Get(w, direct.cat, k) || (k.OfDb? && k.db !in last.cat.dbs) {
      if k.OfDb? ==> k.db in last.cat.dbs {
        CoherentContestsNothing(d, k);
        NothingCopied(w, d, logs, last, k);
        SuccessDetermines(w, d, logs, last, k);
        SuccessDetermines(w, d, [logs[0]], direct, k);
      }
    }
    CatalogsEqual(w, last.cat, direct.cat);
  }

  /** Map iteration order, and which checks and statements a run needed, do not show in its result. */
  lemma OrderIndependence(w: World, d: Spec, a: Log, b1: Log, b2: Log)
    requires Coherent(d) && TemplateFixed(w, d, a.cat, true)
    requires Reconciled(w, d, a, b1, true) && Reconciled(w, d, a, b2, true)
    ensures b1.cat == b2.cat
  {
    Restartability(w, d, [a], b1, b2);
  }

  // ----- idempotence -----

  /** A second success changes nothing. */
  lemma Idempotence(w: World, d: Spec, a: Log, b: Log, c: Log)
    requires Coherent(d) && Reconciled(w, d, a, b, true) && Reconciled(w, d, b, c, true)
    ensures c.cat == b.cat
  {
    ManagedAreThere(w, d, b.cat);
    forall k ensures Get(w, c.cat, k) == Get(w, b.cat, k) || (k.OfDb? && k.db !in c.cat.dbs) {
      if k.OfDb? ==> k.db in c.cat.dbs {
        CoherentContestsNothing(d, k);
        NothingCopied(w, d, [b], c, k);
        SuccessDetermines(w, d, [b], c, k);
        assert Held(w, d, b.cat, k);
      }
    }
    CatalogsEqual(w, c.cat, b.cat);
  }

  lemma ManagedAreThere(w: World, d: Spec, c: Catalog)
    requires AllHeld(w, d, c)
    ensures TemplateFixed(w, d, c, true) && forall n :: Managed(d, n) ==> n in c.dbs
  {
    forall n | Managed(d, n) ensures n in c.dbs { assert Held(w, d, c, DbExists(n)); }
  }

  /** After a success, a further run (even a failing one) issues only DROP EXTENSION IF EXISTS and table grants. */
  lemma SecondRunIsQuiet(w: World, d: Spec, a: Log, b: Log, c: Log, ok: bool)
    requires Quiet(w, d) && Reconciled(w, d, a, b, true) && Reconciled(w, d, b, c, ok)
    ensures OnlyRefresh(c.trace, |b.trace|)
    ensures c.cat == b.cat
  {
    forall k ensures Get(w, c.cat, k) == Get(w, b.cat, k) {
      CoherentContestsNothing(d, k);
      assert Held(w, d, b.cat, k);
      assert !Transient(d, k);
      HeldCopiesNothing(w, d, b.cat, k);
      assert Loose(w, d, b.cat, k, ok) || Get(w, c.cat, k) == Get(w, b.cat, k)
          || Get(w, c.cat, k) == Want(w, d, b.cat, k);
    }
    CatalogsEqual(w, c.cat, b.cat);
  }

  /**
   The password check of a settled role asks for another ALTER ROLE exactly when the wanted text is not
   an md5 digest, although it is 35 characters long and starts with md5.
   */
  lemma PasswordSettlesIff(w: World, n: Name, role: Role, row: RoleRow)
    requires SetsPassword(role) && CanLogin in row.attrs
    requires row.password == Some(Stored(HashedPassword(w, role, n)))
    requires |w.md5(role.password + n)| == 32 && IsHex(w.md5(role.password + n))
    ensures LacksPassword(row, HashedPassword(w, role, n)) <==>
      |role.password| == 35 && "md5" <= role.password && !IsHex(role.password[3..])
  {
    var hash := HashedPassword(w, role, n);
    if |role.password| == 35 && "md5" <= role.password {
      assert hash == role.password;
    } else {
      assert hash[3..] == w.md5(role.password + n);
    }
    if !IsDigest(hash) {
      assert SecretText(Verifier(hash))[0] == 'S';
    }
  }

  // ----- convergence -----

  ghost predicate RoleConverged(w: World, c: Catalog, n: Name, r: Role) {
    && n in c.roles
    && (forall o :: o in r.options ==> Checked(o).Some? && HasOption(c.roles[n], Checked(o).value))
    && (match r.expiry case Some(t) => IsSecondOf(c.roles[n].until, t) case None => !c.roles[n].until.At?)
    && (if r.password != "" && LOGIN in r.options && r.options[LOGIN] then
          IsPasswordOf(w, c.roles[n].password, r.password, n)
        else n != w.me && CanLogin in c.roles[n].attrs ==> c.roles[n].password == None)
  }

  ghost predicate DatabaseConverged(w: World, c: Catalog, n: Name, x: Database) {
    && n in c.dbs && c.dbs[n].owner in c.roles
    && (x.owner != "" ==> c.dbs[n].owner == x.owner)
    && (x.owner == "" ==> c.dbs[n].owner == n)
    && (forall e :: e in x.extensions ==> ExtensionConverged(c.dbs[n], e, x.extensions[e]))
    && (forall s :: s in x.schemas ==> SchemaConverged(c.dbs[n], s, x.schemas[s]))
  }

  predicate ExtensionConverged(db: Db, e: Name, x: Extension) {
    match x.state
    case Present =>
      && e in db.exts
      && (x.schema != "" ==> db.exts[e].schema == x.schema)
      && (x.version != "" ==> db.exts[e].version == x.version)
    case Absent => e !in db.exts
    case Allowed => true
  }

  predicate SchemaConverged(db: Db, s: Name, x: Schema) {
    if x.state == Present then s in db.schemas && (x.owner != "" ==> db.schemas[s] == x.owner)
    else s !in db.schemas
  }

  /** Everything the specification says about what should be there, all at once. */
  ghost predicate Converged(w: World, d: Spec, c: Catalog) {
    && (forall n :: Listed(d, n) ==> RoleConverged(w, c, n, d.roles[n]))
    && (forall g :: g in d.grants && g.state != Absent ==> Edge(g.grantee.name, g.granted.name) in c.members)
    && (forall n :: Managed(d, n) ==> DatabaseConverged(w, c, n, d.databases[n]))
    && (forall s :: s in d.slots && d.slots[s] != Absent ==> s in c.slots)
  }

  lemma RoleConverges(w: World, d: Spec, c: Catalog, n: Name)
    requires Coherent(d) && AllHeld(w, d, c) && Listed(d, n) && Roles.Legible(d.roles[n].options)
    ensures RoleConverged(w, c, n, d.roles[n])
  {
    var r := d.roles[n];
    assert Held(w, d, c, RoleExists(n));
    forall o | o in r.options ensures HasOption(c.roles[n], Checked(o).value) {
      var m := Checked(o).value;
      assert Held(w, d, c, OfRole(n, HasColumn(m.column)));
      DemandMet(r, c.roles[n], o);
    }
    if r.expiry.Some? { FormattedIsSecond(r.expiry.value); }
    assert Held(w, d, c, OfRole(n, ValidUntil)) && Held(w, d, c, OfRole(n, Password))
        && Held(w, d, c, OfRole(n, HasColumn(CanLogin)));
  }

  lemma DatabaseConverges(w: World, d: Spec, c: Catalog, n: Name)
    requires AllHeld(w, d, c) && Managed(d, n) && forall s :: !SchemaConflict(d, n, s)
    ensures DatabaseConverged(w, c, n, d.databases[n])
  {
    var x := d.databases[n];
    assert Held(w, d, c, DbExists(n)) && Held(w, d, c, OfDb(n, DbOwner));
    assert OwnerNames(d, OwnerName(n, x));
    assert Held(w, d, c, RoleExists(OwnerName(n, x)));
    forall e | e in x.extensions ensures ExtensionConverged(c.dbs[n], e, x.extensions[e]) {
      assert Held(w, d, c, OfDb(n, ExtExists(e))) && Held(w, d, c, OfDb(n, ExtSchema(e)))
          && Held(w, d, c, OfDb(n, ExtVersion(e)));
    }
    forall s | s in x.schemas ensures SchemaConverged(c.dbs[n], s, x.schemas[s]) {
      assert !SchemaConflict(d, n, s);
      assert Held(w, d, c, OfDb(n, SchemaExists(s))) && Held(w, d, c, OfDb(n, SchemaOwner(s)));
    }
  }

  /** No phase undoes another: after a success everything that should be there is there at once. */
  lemma Convergence(w: World, d: Spec, a: Log, b: Log)
    requires Coherent(d) && Reconciled(w, d, a, b, true)
    ensures Converged(w, d, b.cat)
  {
    forall n | Listed(d, n) { RoleConverges(w, d, b.cat, n); }
    forall n | Managed(d, n) { DatabaseConverges(w, d, b.cat, n); }
    forall g | g in d.grants && g.state != Absent ensures Edge(g.grantee.name, g.granted.name) in b.cat.members {
      var e := Edge(g.grantee.name, g.granted.name);
      assert GrantDemanded(d, e);
      assert Held(w, d, b.cat, Member(e));
    }
    forall s | s in d.slots && d.slots[s] != Absent ensures s in b.cat.slots {
      assert Held(w, d, b.cat, SlotExists(s));
    }
  }

  // ----- the additive frame -----

  ghost predicate Additive(w: World, d: Spec, a: Catalog, b: Catalog) {
    && a.roles.Keys <= b.roles.Keys && a.members <= b.members && a.dbs.Keys <= b.dbs.Keys && a.slots <= b.slots
    && (forall r :: r in b.roles && r !in a.roles ==> NamesRole(d, r))
    && (forall r :: r in a.roles && !Listed(d, r) ==> b.roles[r] == a.roles[r])
    && (forall r, col :: r in a.roles && Listed(d, r) && !Demands(d.roles[r].options, Meaning(col, true))
                         && !Demands(d.roles[r].options, Meaning(col, false))
                         ==> (col in b.roles[r].attrs <==> col in a.roles[r].attrs))
    && (forall n :: n in a.dbs && !Managed(d, n) ==> b.dbs[n] == a.dbs[n])
    && (forall n :: n in a.dbs && Managed(d, n) ==> DbAdditive(d.databases[n], a.dbs[n], b.dbs[n]))
  }

  /** In a managed database objects stay as they are, and so does every schema and extension no entry is about. */
  ghost predicate DbAdditive(x: Database, a: Db, b: Db) {
    && b.objects == a.objects
    && (forall s :: s in a.schemas && s !in x.schemas ==> s in b.schemas && b.schemas[s] == a.schemas[s])
    && (forall s :: s in b.schemas && s !in a.schemas ==> s in x.schemas || Demanded(x, s))
    && (forall e :: e in a.exts && e !in x.extensions ==> e in b.exts && b.exts[e] == a.exts[e])
    && (forall e :: e in b.exts && e !in a.exts ==> e in x.extensions)
  }

  lemma DbMovedIsAdditive(w: World, n: Name, x: Database, a: Db, b: Db)
    requires forall k ::
               TransientDb(x, k) || GetDb(w, b, k) == GetDb(w, a, k) || GetDb(w, b, k) == WantDb(w, n, x, a, k)
    ensures DbAdditive(x, a, b)
  {
    hide Demanded;
    assert !TransientDb(x, Objects) && GetDb(w, b, Objects) == GetDb(w, a, Objects);
    forall s | s !in x.schemas
      ensures s in a.schemas ==> s in b.schemas && b.schemas[s] == a.schemas[s]
      ensures s in b.schemas && s !in a.schemas ==> Demanded(x, s)
    {
      assert !TransientDb(x, SchemaExists(s)) && !TransientDb(x, SchemaOwner(s));
      assert GetDb(w, b, SchemaOwner(s)) == GetDb(w, a, SchemaOwner(s))
          || GetDb(w, b, SchemaOwner(s)) == WantDb(w, n, x, a, SchemaOwner(s));
    }
    forall e | e !in x.extensions
      ensures e in b.exts <==> e in a.exts
      ensures e in a.exts ==> b.exts[e] == a.exts[e]
    {
      assert !TransientDb(x, ExtExists(e)) && !TransientDb(x, ExtSchema(e)) && !TransientDb(x, ExtVersion(e));
      assert GetDb(w, b, ExtSchema(e)) == GetDb(w, a, ExtSchema(e))
          && GetDb(w, b, ExtVersion(e)) == GetDb(w, a, ExtVersion(e));
    }
  }

  lemma BetweenIsAdditive(w: World, d: Spec, a: Catalog, b: Catalog, strict: bool)
    requires Between(w, d, a, b, strict)
    ensures Additive(w, d, a, b)
  {
    ExistenceStays(w, d, a, b, strict);
    forall k: Key ensures !Loose(w, d, a, k, strict) ==>
        Get(w, b, k) == Get(w, a, k) || Get(w, b, k) == Want(w, d, a, k)
    {
      assert Get(w, b, k) == Get(w, b, k);
    }
    forall e | e in a.members ensures e in b.members { assert !Loose(w, d, a, Member(e), strict); }
    forall s | s in a.slots ensures s in b.slots { assert !Loose(w, d, a, SlotExists(s), strict); }
    forall r | r in b.roles && r !in a.roles ensures NamesRole(d, r) { assert !Loose(w, d, a, RoleExists(r), strict); }
    forall r | r in a.roles && !Listed(d, r) ensures b.roles[r] == a.roles[r] {
      forall k ensures GetRow(b.roles[r], k) == GetRow(a.roles[r], k) { assert !Loose(w, d, a, OfRole(r, k), strict); }
      RowsEqual(b.roles[r], a.roles[r]);
    }
    forall r, col | r in a.roles && Listed(d, r) && !Demands(d.roles[r].options, Meaning(col, true))
                    && !Demands(d.roles[r].options, Meaning(col, false))
      ensures col in b.roles[r].attrs <==> col in a.roles[r].attrs
    {
      assert !Loose(w, d, a, OfRole(r, HasColumn(col)), strict);
    }
    forall n | n in a.dbs && !Managed(d, n) ensures b.dbs[n] == a.dbs[n] {
      forall k ensures GetDb(w, b.dbs[n], k) == GetDb(w, a.dbs[n], k) { assert !Loose(w, d, a, OfDb(n, k), strict); }
      DbsEqual(w, b.dbs[n], a.dbs[n]);
    }
    forall n | n in a.dbs && Managed(d, n) ensures DbAdditive(d.databases[n], a.dbs[n], b.dbs[n]) {
      forall k ensures TransientDb(d.databases[n], k) || GetDb(w, b.dbs[n], k) == GetDb(w, a.dbs[n], k)
                       || GetDb(w, b.dbs[n], k) == WantDb(w, n, d.databases[n], a.dbs[n], k)
      {
        var key := OfDb(n, k);
        assert Loose(w, d, a, key, strict) || Get(w, b, key) == Get(w, a, key) || Get(w, b, key) == Want(w, d, a, key);
      }
      DbMovedIsAdditive(w, n, d.databases[n], a.dbs[n], b.dbs[n]);
    }
  }

  /**
   Nothing is removed that Reconcile is not there to remove, at any statement of any run, successful or
   not; what is not listed keeps its attributes; only named roles are created.
   */
  lemma EveryStepIsAdditive(w: World, d: Spec, a: Log, b: Log, ok: bool)
    requires Reconciled(w, d, a, b, ok)
    ensures Additive(w, d, a.cat, b.cat)
    ensures forall i :: |a.trace| <= i < |b.trace| ==> Additive(w, d, a.cat, b.trace[i].after)
  {
    BetweenIsAdditive(w, d, a.cat, b.cat, ok);
    forall i | |a.trace| <= i < |b.trace| ensures Additive(w, d, a.cat, b.trace[i].after) {
      BetweenIsAdditive(w, d, a.cat, b.trace[i].after, false);
    }
  }

  // ----- Reconcile, then Finalize -----

  /** Nothing that is to go is an owner or a member of something that is to stay. */
  ghost predicate Separated(w: World, d: Spec) {
    && (forall n :: Managed(d, n) ==> !Droppable(w, d, OwnerName(n, d.databases[n])))
    && (forall n, s :: Managed(d, n) && s in d.databases[n].schemas && d.databases[n].schemas[s].state == Present
                       ==> !Droppable(w, d, d.databases[n].schemas[s].owner))
    && (forall g :: g in d.grants && g.state == Present ==>
          && !Droppable(w, d, g.grantee.name) && !Droppable(w, d, g.granted.name)
          && !Revocable(d, Edge(g.grantee.name, g.granted.name)))
  }

  /** Converged, for everything whose state is Present. */
  ghost predicate PresentConverged(w: World, d: Spec, c: Catalog) {
    && (forall n :: n in d.roles && d.roles[n].state == Present ==> RoleConverged(w, c, n, d.roles[n]))
    && (forall g :: g in d.grants && g.state == Present ==> Edge(g.grantee.name, g.granted.name) in c.members)
    && (forall n :: Managed(d, n) ==> DatabaseConverged(w, c, n, d.databases[n]))
    && (forall s :: s in d.slots && d.slots[s] == Present ==> s in c.slots)
  }

  lemma TrimmingKeepsDatabase(w: World, d: Spec, a: Catalog, b: Catalog, n: Name)
    requires Separated(w, d) && Trimmed(w, d, a, b) && Managed(d, n) && DatabaseConverged(w, a, n, d.databases[n])
    ensures DatabaseConverged(w, b, n, d.databases[n])
  {
    var x := d.databases[n];
    assert n in b.dbs && DbTrimmed(w, d, a.dbs[n], b.dbs[n]);
    assert !Droppable(w, d, OwnerName(n, x));
    forall e | e in x.extensions ensures ExtensionConverged(b.dbs[n], e, x.extensions[e]) {
      assert ExtensionConverged(a.dbs[n], e, x.extensions[e]);
    }
    forall s | s in x.schemas ensures SchemaConverged(b.dbs[n], s, x.schemas[s]) {
      assert SchemaConverged(a.dbs[n], s, x.schemas[s]);
    }
  }

  lemma TrimmingKeepsPresent(w: World, d: Spec, a: Catalog, b: Catalog)
    requires Separated(w, d) && Trimmed(w, d, a, b) && PresentConverged(w, d, a)
    ensures PresentConverged(w, d, b)
  {
    forall n | Managed(d, n) { TrimmingKeepsDatabase(w, d, a, b, n); }
    forall n | n in d.roles && d.roles[n].state == Present ensures RoleConverged(w, b, n, d.roles[n]) {
      assert RoleConverged(w, a, n, d.roles[n]) && !Droppable(w, d, n);
    }
    forall g | g in d.grants && g.state == Present ensures Edge(g.grantee.name, g.granted.name) in b.members {
      var e := Edge(g.grantee.name, g.granted.name);
      assert e in a.members && !Revocable(d, e);
    }
  }

  /**
   After a successful Reconcile and a successful Finalize everything Present is there with its
   attributes and everything else that is listed is gone, whatever was reassigned on the way.
   */
  lemma DesiredStateMet(w: World, d: Spec, a: Log, b: Log, c: Catalog)
    requires Coherent(d) && Separated(w, d)
    requires Reconciled(w, d, a, b, true) && Trimmed(w, d, b.cat, c) && Gone(w, d, c)
    ensures PresentConverged(w, d, c)
  {
    Convergence(w, d, a, b);
    TrimmingKeepsPresent(w, d, b.cat, c);
  }

  // ----- what a success rules out -----

  /** Roles granted by a specification that reconciles have names, so one empty name makes every run fail. */
  lemma GrantedRolesAreNamed(w: World, d: Spec, a: Log, b: Log, g: Grant)
    requires Reconciled(w, d, a, b, true) && g in d.grants && g.state != Absent
    ensures g.grantee.name != "" && g.granted.name != "" && g.grantee.name in b.cat.roles
    ensures g.granted.name in b.cat.roles
  {
    var e := Edge(g.grantee.name, g.granted.name);
    var i :| 0 <= i < |d.grants| && d.grants[i] == g;
    assert GrantDemanded(d, e);
    assert Held(w, d, b.cat, Member(e));
    assert e in b.cat.members;
  }

  /**
   A grant of or to an Absent role succeeds only where nothing is to be granted: its membership was
   there before the run, or an earlier grant of the list makes it between roles that are not Absent.
   */
  lemma AbsentGrantsAreBacked(w: World, d: Spec, a: Log, b: Log, i: nat)
    requires Reconciled(w, d, a, b, true) && i < |d.grants| && d.grants[i].state != Absent
    requires d.grants[i].granted.state == Absent || d.grants[i].grantee.state == Absent
    ensures var e := EdgeOf(d.grants[i]);
      e in a.cat.members || exists j :: 0 <= j < i && Grants.Makes(d.grants[j], e)
  {
    var e := EdgeOf(d.grants[i]);
    assert Grants.Backed(d.grants, a.cat.members, e, i + 1);
    if e !in a.cat.members {
      var j :| 0 <= j < i + 1 && j < |d.grants| && Grants.Makes(d.grants[j], e);
      assert j != i;
    }
  }
}
