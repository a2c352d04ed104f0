/**
 How a run moves the catalog. Every statement leaves each observable where it was or puts it where it
 is wanted, so what is wanted never changes and what is done stays done. `Advance` composes over runs.
 */
module Progress {
  import opened Options
  import opened Catalog
  import opened Desired

  /** A statement that was sent to the server, and the catalog right after it. */
  datatype Event = Event(stmt: Stmt, after: Catalog)
  datatype Log = Log(cat: Catalog, trace: seq<Event>)

  /** k may be out of place: contested for good, or (when not strict) transiently. */
  ghost predicate Loose(w: World, d: Spec, a: Catalog, k: Key, strict: bool) {
    Contested(d, k) || Copied(w, d, a, k) || (!strict && (Transient(d, k) || Passing(d, a, k)))
  }

  /** From a, every observable of b is unmoved or where it is wanted. */
  ghost predicate Between(w: World, d: Spec, a: Catalog, b: Catalog, strict: bool) {
    forall k {:trigger Get(w, b, k)} :: Loose(w, d, a, k, strict) || Get(w, b, k) == Get(w, a, k)
        || Get(w, b, k) == Want(w, d, a, k)
  }

  ghost predicate Done(w: World, d: Spec, c: Catalog, k: Key) { Get(w, c, k) == Want(w, d, c, k) }

  /** k is where it is wanted, or the specification contradicts itself about it. */
  ghost predicate Held(w: World, d: Spec, c: Catalog, k: Key) { Contested(d, k) || Done(w, d, c, k) }

  ghost predicate AllHeld(w: World, d: Spec, c: Catalog) { forall k :: Held(w, d, c, k) }

  /** Statements that may be issued although nothing is left to do. */
  predicate Refresh(s: Stmt) { s.InDatabase? && (s.stmt.DropExtension? || s.stmt.GrantTables?) }

  /** Nothing in the specification makes a settled catalog look unsettled. */
  ghost predicate Quiet(w: World, d: Spec) {
    && Coherent(d)
    && SchemasSettle(d)
    && forall r :: Listed(d, r) && SetsPassword(d.roles[r]) ==> IsDigest(HashedPassword(w, d.roles[r], r))
  }

  ghost predicate OnlyRefresh(t: seq<Event>, from: nat) {
    forall i :: from <= i < |t| ==> Refresh(t[i].stmt)
  }

  function Before(a: Log, b: Log, i: nat): Catalog
    requires i <= |b.trace|
  {
    if i <= |a.trace| then a.cat else b.trace[i - 1].after
  }

  /** Statement i of b was accepted with its effect, or had none. */
  predicate LegalAt(w: World, a: Log, b: Log, i: nat)
    requires i < |b.trace|
  {
    b.trace[i].after == Before(a, b, i) || Step(w, b.trace[i].stmt, Before(a, b, i)) == Some(b.trace[i].after)
  }

  /** The statements sent after a lead from a to b. */
  ghost predicate Legal(w: World, a: Log, b: Log) {
    && a.trace <= b.trace
    && (forall i :: |a.trace| <= i < |b.trace| ==> LegalAt(w, a, b, i))
    && b.cat == Before(a, b, |b.trace|)
  }

  lemma LegalTrans(w: World, a: Log, b: Log, c: Log)
    requires Legal(w, a, b) && Legal(w, b, c)
    ensures Legal(w, a, c)
  {
    forall i | |a.trace| <= i < |c.trace| ensures LegalAt(w, a, c, i) {
      if i < |b.trace| {
        assert LegalAt(w, a, b, i);
        assert c.trace[i] == b.trace[i];
        assert i > 0 ==> c.trace[i - 1] == b.trace[i - 1];
      } else {
        assert LegalAt(w, b, c, i);
        assert i == |b.trace| && i > 0 ==> c.trace[i - 1] == b.trace[i - 1];
      }
    }
    assert |c.trace| == |b.trace| ==> c.trace == b.trace;
  }

  lemma LegalAttempt(w: World, need: bool, s: Stmt, a: Log, b: Log, ok: bool)
    requires Attempt(w, need, s, a, b, ok)
    ensures Legal(w, a, b)
  {
    if b != a {
      assert LegalAt(w, a, b, |a.trace|);
    }
  }

  ghost predicate Advance(w: World, d: Spec, a: Log, b: Log, ok: bool) {
    && Wf(w, b.cat)
    && Between(w, d, a.cat, b.cat, ok)
    && Legal(w, a, b)
    && (forall i :: |a.trace| <= i < |b.trace| ==> Between(w, d, a.cat, b.trace[i].after, false))
    && (AllHeld(w, d, a.cat) && Quiet(w, d) ==> OnlyRefresh(b.trace, |a.trace|))
  }

  // ----- what is wanted does not depend on how far the run is -----

  lemma WantRowStable(w: World, n: Name, role: Role, a: RoleRow, b: RoleRow, k: RowKey)
    requires !ContestedRow(role, k)
    requires forall k' ::
               ContestedRow(role, k') || GetRow(b, k') == GetRow(a, k') || GetRow(b, k') == WantRow(w, n, role, a, k')
    ensures WantRow(w, n, role, b, k) == WantRow(w, n, role, a, k)
  {
    assert GetRow(b, k) == GetRow(a, k) || GetRow(b, k) == WantRow(w, n, role, a, k);
    if k.Password? && !SetsPassword(role) {
      var login := HasColumn(CanLogin);
      assert !ContestedRow(role, login);
      assert GetRow(b, login) == GetRow(a, login) || GetRow(b, login) == WantRow(w, n, role, a, login);
    }
  }

  lemma WantDbStable(w: World, n: Name, d: Database, a: Db, b: Db, k: DbKey)
    requires TransientDb(d, k) || GetDb(w, b, k) == GetDb(w, a, k) || GetDb(w, b, k) == WantDb(w, n, d, a, k)
    ensures WantDb(w, n, d, b, k) == WantDb(w, n, d, a, k)
  {
  }

  /** Roles and databases that are there stay there. */
  lemma ExistenceStays(w: World, d: Spec, a: Catalog, b: Catalog, strict: bool)
    requires Between(w, d, a, b, strict)
    ensures a.roles.Keys <= b.roles.Keys && a.dbs.Keys <= b.dbs.Keys
  {
    forall r | r in a.roles ensures r in b.roles {
      assert Get(w, b, RoleExists(r)) == Get(w, a, RoleExists(r))
          || Get(w, b, RoleExists(r)) == Want(w, d, a, RoleExists(r));
    }
    forall n | n in a.dbs ensures n in b.dbs {
      assert Get(w, b, DbExists(n)) == Get(w, a, DbExists(n)) || Get(w, b, DbExists(n)) == Want(w, d, a, DbExists(n));
    }
  }

  /** What is still in the template stays as it is. */
  lemma TemplateStays(w: World, d: Spec, a: Catalog, b: Catalog, strict: bool, k: DbKey)
    requires Between(w, d, a, b, strict) && TemplateStill(w, d, a, k)
    requires strict || !TransientDb(d.databases[TEMPLATE], k)
    ensures TemplateStill(w, d, b, k) && GetDb(w, b.dbs[TEMPLATE], k) == GetDb(w, a.dbs[TEMPLATE], k)
  {
    ExistenceStays(w, d, a, b, strict);
    var key := OfDb(TEMPLATE, k);
    assert Loose(w, d, a, key, strict) || Get(w, b, key) == Get(w, a, key) || Get(w, b, key) == Want(w, d, a, key);
  }

  /** What does not depend on the template's progress never will. */
  lemma CopiedStays(w: World, d: Spec, a: Catalog, b: Catalog, strict: bool, k: Key)
    requires Between(w, d, a, b, strict) && !Copied(w, d, a, k) && (strict || !Passing(d, a, k))
    ensures !Copied(w, d, b, k)
    ensures Passing(d, b, k) ==> Passing(d, a, k)
  {
    ExistenceStays(w, d, a, b, strict);
    if k.OfDb? && k.db !in a.dbs && TemplateStill(w, d, a, k.dbKey) { TemplateStays(w, d, a, b, strict, k.dbKey); }
  }

  /** Once everything holds, no template is on the move. */
  lemma HeldCopiesNothing(w: World, d: Spec, c: Catalog, k: Key)
    requires AllHeld(w, d, c)
    ensures !Copied(w, d, c, k)
  {
    if k.OfDb? && Managed(d, TEMPLATE) {
      assert Held(w, d, c, DbExists(TEMPLATE)) && Held(w, d, c, OfDb(TEMPLATE, k.dbKey));
    }
  }

  lemma WantStable(w: World, d: Spec, a: Catalog, b: Catalog, strict: bool, k: Key)
    requires Between(w, d, a, b, strict) && !Contested(d, k) && !TakenOver(w, d, a, k, strict)
    ensures Want(w, d, b, k) == Want(w, d, a, k)
  {
    assert Loose(w, d, a, k, strict) || Get(w, b, k) == Get(w, a, k) || Get(w, b, k) == Want(w, d, a, k);
    match k
    case OfRole(r, rk) =>
      if Listed(d, r) {
        forall k' ensures ContestedRow(d.roles[r], k') || GetRow(RowAt(b, r), k') == GetRow(RowAt(a, r), k')
                          || GetRow(RowAt(b, r), k') == WantRow(w, r, d.roles[r], RowAt(a, r), k')
        {
          var key := OfRole(r, k');
          assert Loose(w, d, a, key, strict) || Get(w, b, key) == Get(w, a, key)
              || Get(w, b, key) == Want(w, d, a, key);
        }
        WantRowStable(w, r, d.roles[r], RowAt(a, r), RowAt(b, r), rk);
      }
    case OfDb(db, dk) =>
      if Copied(w, d, a, k) || (!strict && Passing(d, a, k)) {
        PrescribedIff(w, db, d.databases[db], dk);
      } else if Managed(d, db) {
        WantDbStable(w, db, d.databases[db], DbAt(w, a, db), DbAt(w, b, db), dk);
      }
    case _ =>
  }

  lemma BetweenTrans(w: World, d: Spec, a: Catalog, b: Catalog, c: Catalog, strict: bool)
    requires Between(w, d, a, b, true) && Between(w, d, b, c, strict)
    ensures Between(w, d, a, c, strict)
  {
    forall k | !Loose(w, d, a, k, strict) ensures Get(w, c, k) == Get(w, a, k) || Get(w, c, k) == Want(w, d, a, k) {
      CopiedStays(w, d, a, b, true, k);
      WantStable(w, d, a, b, true, k);
      assert Get(w, b, k) == Get(w, a, k) || Get(w, b, k) == Want(w, d, a, k);
    }
  }

  /** What is where it is wanted stays there. */
  lemma DoneStable(w: World, d: Spec, a: Catalog, b: Catalog, k: Key)
    requires Between(w, d, a, b, true) && !Contested(d, k) && !Copied(w, d, a, k) && Done(w, d, a, k)
    ensures Done(w, d, b, k)
  {
    WantStable(w, d, a, b, true, k);
    assert Get(w, b, k) == Get(w, a, k) || Get(w, b, k) == Want(w, d, a, k);
  }

  lemma HeldStable(w: World, d: Spec, a: Catalog, b: Catalog)
    requires Between(w, d, a, b, true)
    ensures forall k :: Held(w, d, a, k) && !Copied(w, d, a, k) ==> Held(w, d, b, k)
  {
    forall k | Held(w, d, a, k) && !Copied(w, d, a, k) ensures Held(w, d, b, k) {
      if !Contested(d, k) { DoneStable(w, d, a, b, k); }
    }
  }

  lemma BetweenRefl(w: World, d: Spec, a: Catalog, strict: bool)
    ensures Between(w, d, a, a, strict)
  {
  }

  lemma AdvanceRefl(w: World, d: Spec, a: Log, ok: bool)
    requires Wf(w, a.cat)
    ensures Advance(w, d, a, a, ok)
  {
  }

  /** A run that could have gone on may as well be cut short. */
  lemma AdvanceWeaken(w: World, d: Spec, a: Log, b: Log)
    requires Advance(w, d, a, b, true)
    ensures Advance(w, d, a, b, false)
  {
  }

  lemma AdvanceTrans(w: World, d: Spec, a: Log, b: Log, c: Log, ok: bool)
    requires Advance(w, d, a, b, true) && Advance(w, d, b, c, ok)
    ensures Advance(w, d, a, c, ok)
  {
    LegalTrans(w, a, b, c);
    BetweenTrans(w, d, a.cat, b.cat, c.cat, ok);
    forall i | |a.trace| <= i < |c.trace| ensures Between(w, d, a.cat, c.trace[i].after, false) {
      if i < |b.trace| {
        assert c.trace[i] == b.trace[i];
      } else {
        BetweenTrans(w, d, a.cat, b.cat, c.trace[i].after, false);
      }
    }
    if AllHeld(w, d, a.cat) && Quiet(w, d) {
      HeldStable(w, d, a.cat, b.cat);
      forall k ensures Held(w, d, b.cat, k) { HeldCopiesNothing(w, d, a.cat, k); }
      forall i | |a.trace| <= i < |c.trace| ensures Refresh(c.trace[i].stmt) {
        if i < |b.trace| {
          assert c.trace[i] == b.trace[i];
        }
      }
    }
  }

  // ----- one statement -----

  /**
   The check-then-alter pattern: s is issued only if needed, at most once, and takes effect only if the
   server accepts it. A failing check or a failing statement changes nothing.
   */
  ghost predicate Attempt(w: World, need: bool, s: Stmt, a: Log, b: Log, ok: bool) {
    || (b == a && (ok ==> !need))
    || (need && !ok && b == Log(a.cat, a.trace + [Event(s, a.cat)]))
    || (need && ok && Step(w, s, a.cat) == Some(b.cat) && b.trace == a.trace + [Event(s, b.cat)])
  }

  /** s, issued in c, moves observables only to where they are wanted, and is not issued in vain. */
  ghost predicate Sound(w: World, d: Spec, c: Catalog, need: bool, s: Stmt) {
    && (need && Step(w, s, c).Some? ==> Between(w, d, c, Step(w, s, c).value, true))
    && (need && AllHeld(w, d, c) && Quiet(w, d) ==> Refresh(s))
  }

  lemma AttemptAdvances(w: World, d: Spec, need: bool, s: Stmt, a: Log, b: Log, ok: bool)
    requires Wf(w, a.cat) && Attempt(w, need, s, a, b, ok) && Sound(w, d, a.cat, need, s)
    ensures Advance(w, d, a, b, ok)
  {
    LegalAttempt(w, need, s, a, b, ok);
    BetweenRefl(w, d, a.cat, ok);
    BetweenRefl(w, d, a.cat, false);
    if need && ok && Step(w, s, a.cat) == Some(b.cat) && b.trace == a.trace + [Event(s, b.cat)] {
      StepKeepsWf(w, s, a.cat);
    }
  }

  // ----- without a template -----

  lemma NothingToCopy(w: World, s: Stmt, c: Catalog)
    requires TEMPLATE !in c.dbs && Step(w, s, c).Some?
    ensures Step(w, s, c).value.dbs.Keys <= c.dbs.Keys
  {
  }

  /** Without a template no database is ever created. */
  lemma NoneCreated(w: World, a: Log, b: Log)
    requires Legal(w, a, b) && TEMPLATE !in a.cat.dbs
    ensures b.cat.dbs.Keys <= a.cat.dbs.Keys
  {
    hide Step;
    for i := |a.trace| to |b.trace|
      invariant Before(a, b, i).dbs.Keys <= a.cat.dbs.Keys
    {
      assert LegalAt(w, a, b, i);
      if Step(w, b.trace[i].stmt, Before(a, b, i)).Some? { NothingToCopy(w, b.trace[i].stmt, Before(a, b, i)); }
    }
  }
}
