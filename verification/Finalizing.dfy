/** Removing what is no longer wanted: databases, memberships, roles and slots. */
module Finalizing {
  import opened Options
  import opened Catalog
  import opened Desired
  import opened Servers

  /** Roles that Finalize drops. */
  predicate Droppable(w: World, d: Spec, r: Name) { r in d.roles && d.roles[r].state != Present && r != w.me }

  predicate Revocable(d: Spec, e: Edge) {
    exists g :: g in d.grants && g.state != Present && e == Edge(g.grantee.name, g.granted.name)
  }

  // ----- what may change -----

  /** Ownership moved away from droppable roles; nothing else in the database changed. */
  ghost predicate DbTrimmed(w: World, d: Spec, a: Db, b: Db) {
    && (b.owner == a.owner || Droppable(w, d, a.owner))
    && b.schemas.Keys == a.schemas.Keys && b.exts == a.exts && b.objects.Keys == a.objects.Keys
    && (forall s :: s in a.schemas ==> b.schemas[s] == a.schemas[s] || Droppable(w, d, a.schemas[s]))
    && (forall o :: o in a.objects ==> b.objects[o].schema == a.objects[o].schema
                                       && (b.objects[o].owner == a.objects[o].owner
                                           || Droppable(w, d, a.objects[o].owner)))
  }

  /** Only droppable roles, revocable memberships and databases and slots that are not Present are gone. */
  ghost predicate Trimmed(w: World, d: Spec, a: Catalog, b: Catalog) {
    && Wf(w, b)
    && (forall r :: r in b.roles ==> r in a.roles && b.roles[r] == a.roles[r])
    && (forall r :: r in a.roles && r !in b.roles ==> Droppable(w, d, r))
    && (forall e :: e in b.members ==> e in a.members)
    && (forall e :: e in a.members && e !in b.members ==>
        Revocable(d, e) || Droppable(w, d, e.member) || Droppable(w, d, e.granted))
    && (forall n :: n in b.dbs ==> n in a.dbs && DbTrimmed(w, d, a.dbs[n], b.dbs[n]))
    && (forall n :: n in a.dbs && n !in b.dbs ==> n in d.databases && d.databases[n].state != Present)
    && (forall s :: s in b.slots ==> s in a.slots)
    && (forall s :: s in a.slots && s !in b.slots ==> s in d.slots && d.slots[s] != Present)
  }

  lemma TrimmedRefl(w: World, d: Spec, a: Catalog)
    requires Wf(w, a)
    ensures Trimmed(w, d, a, a)
  {
  }

  lemma TrimmedTrans(w: World, d: Spec, a: Catalog, b: Catalog, c: Catalog)
    requires Trimmed(w, d, a, b) && Trimmed(w, d, b, c)
    ensures Trimmed(w, d, a, c)
  {
    hide Wf, DbTrimmed, Droppable, Revocable;
    forall n | n in c.dbs ensures n in a.dbs && DbTrimmed(w, d, a.dbs[n], c.dbs[n]) {
      DbTrimmedTrans(w, d, a.dbs[n], b.dbs[n], c.dbs[n]);
    }
  }

  lemma DbTrimmedTrans(w: World, d: Spec, a: Db, b: Db, c: Db)
    requires DbTrimmed(w, d, a, b) && DbTrimmed(w, d, b, c)
    ensures DbTrimmed(w, d, a, c)
  {
    hide Droppable;
  }

  // ----- dropping a role -----

  /**
   What is left of one database's ownership while role r is being dropped: what is in it goes to its owner,
   the database itself to one of the owners.
   */
  ghost predicate DbConserved(a: Db, b: Db, r: Name, owners: set<Name>) {
    && (b.owner == a.owner || (a.owner == r && b.owner in owners))
    && b.schemas.Keys == a.schemas.Keys && b.exts == a.exts && b.objects.Keys == a.objects.Keys
    && (forall s :: s in a.schemas ==> b.schemas[s] == a.schemas[s] || (a.schemas[s] == r && b.schemas[s] == a.owner))
    && (forall o :: o in a.objects ==> b.objects[o].schema == a.objects[o].schema
                                       && (b.objects[o].owner == a.objects[o].owner
                                           || (a.objects[o].owner == r && b.objects[o].owner == a.owner)))
  }

  function DbOwners(c: Catalog): set<Name> { set n | n in c.dbs :: c.dbs[n].owner }

  /** No database, schema, extension or object disappears; what changes hands was r's, and goes as it should. */
  ghost predicate Conserved(a: Catalog, b: Catalog, r: Name) {
    && b.dbs.Keys == a.dbs.Keys && b.slots == a.slots
    && forall n :: n in a.dbs ==> DbConserved(a.dbs[n], b.dbs[n], r, DbOwners(a))
  }

  lemma DbConservedReassign(a: Db, b: Db, r: Name, to: Name, owners: set<Name>)
    requires DbConserved(a, b, r, owners) && to in owners
    ensures DbConserved(a, ReassignOwner(b, r, to), r, owners)
    ensures to == a.owner ==> DbConserved(a, ReassignOwner(ReassignIn(b, r, to), r, to), r, owners)
  {
  }

  lemma ReassignConserves(w: World, a: Catalog, b: Catalog, n: Name, r: Name, to: Name)
    requires Conserved(a, b, r) && n in a.dbs && to == a.dbs[n].owner && Step(w, ReassignOwned(n, r, to), b).Some?
    ensures Conserved(a, Step(w, ReassignOwned(n, r, to), b).value, r)
  {
    hide DbConserved;
    var c := Step(w, ReassignOwned(n, r, to), b).value;
    forall x | x in a.dbs ensures DbConserved(a.dbs[x], c.dbs[x], r, DbOwners(a)) {
      DbConservedReassign(a.dbs[x], b.dbs[x], r, to, DbOwners(a));
    }
  }

  /** After DROP ROLE nothing is the role's any more. */
  ghost predicate Inherited(a: Catalog, b: Catalog, r: Name) {
    && Conserved(a, b, r)
    && !Owns(b, r)
    && (forall x :: x in DbOwners(a) && x != r ==> x in DbOwners(b))
  }

  lemma ConservedThenDropped(a: Catalog, b: Catalog, r: Name)
    requires Conserved(a, b, r) && !Owns(b, r)
    ensures Inherited(a, b, r)
  {
    forall x | x in DbOwners(a) && x != r ensures x in DbOwners(b) {
      var n :| n in a.dbs && a.dbs[n].owner == x;
      assert DbConserved(a.dbs[n], b.dbs[n], r, DbOwners(a));
      assert n in b.dbs && b.dbs[n].owner == x;
    }
  }

  /** Whatever the role owned in a database now belongs to the owner of that database, who is another role. */
  lemma InheritorOwnsDatabase(a: Catalog, b: Catalog, r: Name, n: Name)
    requires Inherited(a, b, r) && n in a.dbs
    ensures n in b.dbs && b.dbs[n].owner != r && b.dbs[n].owner in DbOwners(a)
    ensures forall o :: o in a.dbs[n].objects && a.dbs[n].objects[o].owner == r ==>
      o in b.dbs[n].objects && b.dbs[n].objects[o].owner == a.dbs[n].owner == b.dbs[n].owner
    ensures forall sc :: sc in a.dbs[n].schemas && a.dbs[n].schemas[sc] == r ==>
      sc in b.dbs[n].schemas && b.dbs[n].schemas[sc] == a.dbs[n].owner == b.dbs[n].owner
  {
    assert DbConserved(a.dbs[n], b.dbs[n], r, DbOwners(a));
    assert !OwnsIn(b.dbs[n], r);
  }

  /** The rows of the ownership query: every database but template0, with its owner. */
  function OwnerRows(c: Catalog): set<(Name, Name)> {
    set n | n in c.dbs && n != "template0" :: (n, c.dbs[n].owner)
  }

  // ----- exactly what is handed over -----

  /** REASSIGN OWNED in the databases of these rows, one after the other. */
  function Handed(c: Catalog, r: Name, rows: seq<(Name, Name)>): Catalog
    decreases |rows|
  {
    if rows == [] then c
    else
      var before, row := Handed(c, r, rows[..|rows| - 1]), rows[|rows| - 1];
      if row.0 in before.dbs then Reassign(before, row.0, r, row.1) else before
  }

  /** Who gets the databases that r owns: the first owner who is another. */
  function Heir(rows: seq<(Name, Name)>, r: Name): Name
    decreases |rows|
  {
    if rows == [] then r
    else
      var heir := Heir(rows[..|rows| - 1], r);
      if heir != r then heir else rows[|rows| - 1].1
  }

  /** A database after this: what is in it was handed to its owner if it was visited, and it went to the heir. */
  function DbHanded(db: Db, r: Name, visited: bool, heir: Name): Db {
    (if visited then ReassignIn(db, r, db.owner) else db).(owner := if db.owner == r then heir else db.owner)
  }

  /** The rows are some databases, each once, with their owners. */
  ghost predicate OwnRows(c: Catalog, rows: seq<(Name, Name)>) {
    && (forall row :: row in rows ==> row.0 in c.dbs && row.1 == c.dbs[row.0].owner)
    && forall i, j :: 0 <= i < j < |rows| ==> rows[i] != rows[j]
  }

  lemma {:induction false} HandedIs(c: Catalog, r: Name, rows: seq<(Name, Name)>, x: Name)
    requires OwnRows(c, rows) && x in c.dbs
    ensures var b := Handed(c, r, rows);
      && b.dbs.Keys == c.dbs.Keys && b.roles == c.roles && b.members == c.members
      && b.dbs[x] == DbHanded(c.dbs[x], r, (x, c.dbs[x].owner) in rows, Heir(rows, r))
    decreases |rows|
  {
    if rows == [] {
      assert c.dbs[x].(owner := c.dbs[x].owner) == c.dbs[x];
    } else {
      var init, row := rows[..|rows| - 1], rows[|rows| - 1];
      assert rows == init + [row];
      HandedIs(c, r, init, x);
      HandedNext(c.dbs[x], r, x, row, (x, c.dbs[x].owner) in init, Heir(init, r));
    }
  }

  lemma HandedNext(db: Db, r: Name, x: Name, row: (Name, Name), visited: bool, heir: Name)
    requires row.0 == x ==> row.1 == db.owner && !visited
    ensures var before := DbHanded(db, r, visited, heir);
      ReassignOwner(if row.0 == x then ReassignIn(before, r, row.1) else before, r, row.1)
      == DbHanded(db, r, visited || row.0 == x, if heir != r then heir else row.1)
  {
  }

  /** The role owns something in the database, other than the database. */
  predicate OwnsInside(db: Db, r: Name) {
    (exists s :: s in db.schemas && db.schemas[s] == r) || exists o :: o in db.objects && db.objects[o].owner == r
  }

  /**
   The role still owns something after this exactly if it owns a database and was shown no other owner, or
   owns something in a database that was not visited or that is its own.
   */
  lemma StillOwnsIff(c: Catalog, r: Name, rows: seq<(Name, Name)>)
    requires OwnRows(c, rows)
    ensures Owns(Handed(c, r, rows), r) <==>
      exists x :: x in c.dbs && ((c.dbs[x].owner == r && forall row :: row in rows ==> row.1 == r)
                                 || (OwnsInside(c.dbs[x], r) && ((x, c.dbs[x].owner) !in rows || c.dbs[x].owner == r)))
  {
    hide OwnsInside;
    HeirIs(rows, r);
    HandedKeeps(c, r, rows);
    var b := Handed(c, r, rows);
    forall x | x in c.dbs
      ensures x in b.dbs && (OwnsIn(b.dbs[x], r) <==>
              (c.dbs[x].owner == r && forall row :: row in rows ==> row.1 == r)
              || (OwnsInside(c.dbs[x], r) && ((x, c.dbs[x].owner) !in rows || c.dbs[x].owner == r)))
    {
      HandedIs(c, r, rows, x);
      OwnsHanded(c.dbs[x], r, (x, c.dbs[x].owner) in rows, Heir(rows, r));
    }
    hide OwnsIn;
  }

  lemma {:induction false} HandedKeeps(c: Catalog, r: Name, rows: seq<(Name, Name)>)
    ensures Handed(c, r, rows).dbs.Keys == c.dbs.Keys
    decreases |rows|
  {
    if rows != [] { HandedKeeps(c, r, rows[..|rows| - 1]); }
  }

  lemma OwnsHanded(db: Db, r: Name, visited: bool, heir: Name)
    ensures OwnsIn(DbHanded(db, r, visited, heir), r) <==>
      (db.owner == r && heir == r) || (OwnsInside(db, r) && (!visited || db.owner == r))
  {
    InsideReassigned(db, r, db.owner);
    hide ReassignIn;
  }

  lemma InsideReassigned(db: Db, r: Name, to: Name)
    ensures OwnsInside(ReassignIn(db, r, to), r) <==> to == r && OwnsInside(db, r)
  {
    if to == r { assert ReassignIn(db, r, to) == db; }
  }

  lemma {:induction false} HeirIs(rows: seq<(Name, Name)>, r: Name)
    ensures Heir(rows, r) == r <==> forall row :: row in rows ==> row.1 == r
    decreases |rows|
  {
    if rows != [] {
      var init := rows[..|rows| - 1];
      assert rows == init + [rows[|rows| - 1]];
      HeirIs(init, r);
    }
  }

  /**
   Everything the role owns is handed, database by database as the cursor yields them, to the owner of
   that database; then the role is dropped, which the server refuses while it still owns anything.
   */
  method DropRoleIfThere(s: Server, ghost d: Spec, n: Name, r: Role) returns (ok: bool)
    requires Wf(s.w, s.cat) && n in d.roles && d.roles[n] == r
    modifies s`cat, s`trace
    ensures Trimmed(s.w, d, old(s.cat), s.cat)
    ensures Conserved(old(s.cat), s.cat, n)
    ensures r.state == Present || n == s.w.me || n !in old(s.cat).roles ==> s.cat == old(s.cat)
    ensures s.cat.roles.Keys >= old(s.cat).roles.Keys - {n} && (!ok ==> s.cat.members == old(s.cat).members)
    ensures ok && r.state != Present && n != s.w.me ==> n !in s.cat.roles
    ensures ok && Droppable(s.w, d, n) && n in old(s.cat).roles ==> Inherited(old(s.cat), s.cat, n)
    ensures ok && Droppable(s.w, d, n) && n in old(s.cat).roles ==>
      exists rows :: OwnRows(old(s.cat), rows) && s.cat == WithoutRole(Handed(old(s.cat), n, rows), n)
                     && !Owns(Handed(old(s.cat), n, rows), n)
    ensures s.reliable && !ok ==>
      && Droppable(s.w, d, n) && n in s.cat.roles && Owns(s.cat, n)
      && exists rows :: OwnRows(old(s.cat), rows) && s.cat == Handed(old(s.cat), n, rows)
    ensures ok && Droppable(s.w, d, n) && n in old(s.cat).roles ==>
      s.cat.roles == old(s.cat).roles - {n} && s.cat.members == WithoutRole(old(s.cat), n).members
  {
    hide Wf, Trimmed, Conserved, Inherited, Owns;
    TrimmedRefl(s.w, d, s.cat);
    ConservedRefl(s.cat, n);
    if r.state == Present {
      return true;
    }
    var asked, exists_ := s.Ask(n in s.cat.roles && n != s.w.me);
    if !asked || !exists_ {
      return asked;
    }
    var rows := InSomeOrder(OwnerRows(s.cat));
    var read, got := s.Cursor(rows);
    if !read {
      return false;
    }
    OwnerRowsAre(s.cat, rows, got);
    ok := ReassignAll(s, d, n, got);
    if !ok {
      return;
    }
    ghost var handed := s.cat;
    assert OwnRows(old(s.cat), got) && handed == Handed(old(s.cat), n, got);
    ok := s.Exec(DropRole(n));
    if ok {
      DropConserves(old(s.cat), handed, n);
      WithoutDroppedOwnership(handed, n);
      StepKeepsWf(s.w, DropRole(n), handed);
      DropTrims(s.w, d, handed, n);
      TrimmedTrans(s.w, d, old(s.cat), handed, s.cat);
      ConservedThenDropped(old(s.cat), s.cat, n);
    }
  }

  lemma OwnerRowsAre(c: Catalog, rows: seq<(Name, Name)>, got: seq<(Name, Name)>)
    requires (forall row :: row in rows ==> row in OwnerRows(c)) && got <= rows
    requires forall i, j :: 0 <= i < j < |rows| ==> rows[i] != rows[j]
    ensures OwnRows(c, got)
  {
    forall row | row in got ensures row in OwnerRows(c) {
      var i :| 0 <= i < |got| && got[i] == row;
      assert rows[i] == row;
    }
  }

  lemma WithoutDroppedOwnership(c: Catalog, r: Name)
    requires !Owns(c, r)
    ensures !Owns(WithoutRole(c, r), r)
  {
  }

  lemma DropConserves(a: Catalog, b: Catalog, r: Name)
    requires Conserved(a, b, r)
    ensures Conserved(a, WithoutRole(b, r), r)
  {
  }

  lemma DropTrims(w: World, d: Spec, c: Catalog, r: Name)
    requires Wf(w, c) && Droppable(w, d, r) && Wf(w, WithoutRole(c, r))
    ensures Trimmed(w, d, c, WithoutRole(c, r))
  {
    hide Wf;
  }

  lemma ReassignTrims(w: World, d: Spec, c: Catalog, n: Name, r: Name, to: Name)
    requires Wf(w, c) && Droppable(w, d, r) && Step(w, ReassignOwned(n, r, to), c).Some?
    ensures Trimmed(w, d, c, Step(w, ReassignOwned(n, r, to), c).value)
  {
    hide Wf, DbTrimmed;
    StepKeepsWf(w, ReassignOwned(n, r, to), c);
    forall x | x in c.dbs
      ensures DbTrimmed(w, d, c.dbs[x],
          ReassignOwner(if x == n then ReassignIn(c.dbs[x], r, to) else c.dbs[x], r, to)) {
      ReassignTrimsDb(w, d, c.dbs[x], r, to);
    }
  }

  lemma ReassignTrimsDb(w: World, d: Spec, db: Db, r: Name, to: Name)
    requires Droppable(w, d, r)
    ensures DbTrimmed(w, d, db, ReassignOwner(db, r, to))
    ensures DbTrimmed(w, d, db, ReassignOwner(ReassignIn(db, r, to), r, to))
  {
    hide Droppable;
  }

  method ReassignAll(s: Server, ghost d: Spec, n: Name, rows: seq<(Name, Name)>) returns (ok: bool)
    requires Wf(s.w, s.cat) && Droppable(s.w, d, n) && n in s.cat.roles && OwnRows(s.cat, rows)
    modifies s`cat, s`trace
    ensures Wf(s.w, s.cat) && Trimmed(s.w, d, old(s.cat), s.cat)
    ensures Conserved(old(s.cat), s.cat, n)
    ensures s.cat.roles == old(s.cat).roles && s.cat.members == old(s.cat).members
    ensures ok ==> s.cat == Handed(old(s.cat), n, rows)
    ensures s.reliable ==> ok
  {
    hide Wf, Trimmed, Conserved, Droppable, OwnRows, Handed;
    TrimmedRefl(s.w, d, s.cat);
    ConservedRefl(s.cat, n);
    NothingHanded(s.cat, n);
    assert rows[..0] == [];
    for i := 0 to |rows|
      invariant Wf(s.w, s.cat)
      invariant Trimmed(s.w, d, old(s.cat), s.cat)
      invariant Conserved(old(s.cat), s.cat, n)
      invariant s.cat.roles == old(s.cat).roles && s.cat.members == old(s.cat).members
      invariant s.cat.dbs.Keys == old(s.cat).dbs.Keys && s.cat == Handed(old(s.cat), n, rows[..i])
    {
      ghost var before := s.cat;
      var db, to := rows[i].0, rows[i].1;
      HandedNow(s.w, old(s.cat), n, rows, i);
      ok := s.Exec(ReassignOwned(db, n, to));
      if !ok {
        return;
      }
      StepKeepsWf(s.w, ReassignOwned(db, n, to), before);
      ReassignTrims(s.w, d, before, db, n, to);
      TrimmedTrans(s.w, d, old(s.cat), before, s.cat);
      ReassignConserves(s.w, old(s.cat), before, db, n, to);
    }
    assert rows[..|rows|] == rows;
    return true;
  }

  lemma NothingHanded(c: Catalog, r: Name)
    ensures Handed(c, r, []) == c
  {
  }

  /** The next row names a database that is there, and its owner. */
  lemma HandedNow(w: World, c: Catalog, r: Name, rows: seq<(Name, Name)>, i: nat)
    requires Wf(w, c) && OwnRows(c, rows) && i < |rows|
    ensures rows[i].0 in c.dbs && rows[i].1 == c.dbs[rows[i].0].owner && rows[i].1 in c.roles
    ensures var before := Handed(c, r, rows[..i]);
      rows[i].0 in before.dbs ==> Handed(c, r, rows[..i + 1]) == Reassign(before, rows[i].0, r, rows[i].1)
  {
    hide Wf, Reassign;
    assert rows[i] in rows && rows[..i + 1][..i] == rows[..i];
    OwnersAreRoles(w, c, rows[i].0);
  }

  lemma OwnersAreRoles(w: World, c: Catalog, n: Name)
    requires Wf(w, c) && n in c.dbs
    ensures c.dbs[n].owner in c.roles
  {
    assert WfDb(c.roles.Keys, c.dbs[n]);
  }

  lemma ConservedRefl(c: Catalog, r: Name)
    ensures Conserved(c, c, r)
  {
  }

  // ----- the other kinds of object -----

  method DropDatabaseIfThere(s: Server, ghost d: Spec, n: Name, x: Database) returns (ok: bool)
    requires Wf(s.w, s.cat) && n in d.databases && d.databases[n] == x
    modifies s`cat, s`trace
    ensures Trimmed(s.w, d, old(s.cat), s.cat)
    ensures ok && x.state != Present ==> n !in s.cat.dbs
    ensures TEMPLATE in old(s.cat).dbs ==> TEMPLATE in s.cat.dbs
    ensures s.reliable && !ok ==> n == TEMPLATE && x.state != Present && TEMPLATE in old(s.cat).dbs
  {
    hide Wf;
    if x.state == Present {
      return true;
    }
    var asked, exists_ := s.Ask(n in s.cat.dbs);
    if !asked || !exists_ {
      return asked;
    }
    ok := s.Exec(DropDatabase(n));
    if ok {
      StepKeepsWf(s.w, DropDatabase(n), old(s.cat));
    }
  }

  lemma MembersAreRoles(w: World, c: Catalog)
    requires Wf(w, c)
    ensures forall e :: e in c.members ==> e.member in c.roles && e.granted in c.roles
  {
  }

  method Revoke(s: Server, ghost d: Spec, g: Grant) returns (ok: bool)
    requires Wf(s.w, s.cat) && g in d.grants
    modifies s`cat, s`trace
    ensures Trimmed(s.w, d, old(s.cat), s.cat)
    ensures ok && g.state != Present ==> Edge(g.grantee.name, g.granted.name) !in s.cat.members
    ensures s.reliable ==> ok
  {
    MembersAreRoles(s.w, s.cat);
    hide Wf;
    if g.state == Present {
      return true;
    }
    var e := Edge(g.grantee.name, g.granted.name);
    var asked, exists_ := s.Ask(e in s.cat.members);
    if !asked || !exists_ {
      return asked;
    }
    assert Revocable(d, e);
    ok := s.Exec(RevokeRole(g.granted.name, g.grantee.name));
    if ok {
      StepKeepsWf(s.w, RevokeRole(g.granted.name, g.grantee.name), old(s.cat));
    }
  }

  method DropSlotIfThere(s: Server, ghost d: Spec, n: Name, state: State) returns (ok: bool)
    requires Wf(s.w, s.cat) && n in d.slots && d.slots[n] == state
    modifies s`cat, s`trace
    ensures Trimmed(s.w, d, old(s.cat), s.cat)
    ensures ok && state != Present ==> n !in s.cat.slots
    ensures s.reliable ==> ok
  {
    hide Wf;
    if state == Present {
      return true;
    }
    var asked, exists_ := s.Ask(n in s.cat.slots);
    if !asked || !exists_ {
      return asked;
    }
    ok := s.Exec(DropSlot(n));
    if ok {
      StepKeepsWf(s.w, DropSlot(n), old(s.cat));
    }
  }

  // ----- the phases -----

  /** The template, which the server does not drop, is to be dropped. */
  predicate TemplateToGo(d: Spec, c: Catalog) {
    TEMPLATE in c.dbs && TEMPLATE in d.databases && d.databases[TEMPLATE].state != Present
  }

  /** Some role to be dropped owns something in a database that stays. */
  ghost predicate DroppableOwns(w: World, d: Spec, c: Catalog) {
    exists r, n :: Droppable(w, d, r) && n in c.dbs && OwnsIn(c.dbs[n], r)
                   && (n in d.databases ==> d.databases[n].state == Present)
  }

  /** Roles to be dropped inherit only from each other. */
  lemma OwnedBefore(w: World, d: Spec, a: Catalog, b: Catalog, r: Name)
    requires Trimmed(w, d, a, b) && DatabasesGone(d, b) && Droppable(w, d, r) && Owns(b, r)
    ensures DroppableOwns(w, d, a)
  {
    hide Wf, Droppable, DbTrimmed, OwnsIn, Revocable;
    var n :| n in b.dbs && OwnsIn(b.dbs[n], r);
    assert DbTrimmed(w, d, a.dbs[n], b.dbs[n]);
    var q := FormerOwner(w, d, a.dbs[n], b.dbs[n], r);
  }

  lemma FormerOwner(w: World, d: Spec, a: Db, b: Db, r: Name) returns (q: Name)
    requires DbTrimmed(w, d, a, b) && Droppable(w, d, r) && OwnsIn(b, r)
    ensures Droppable(w, d, q) && OwnsIn(a, q)
  {
    hide Droppable;
    if b.owner == r {
      q := a.owner;
    } else if s :| s in b.schemas && b.schemas[s] == r {
      q := a.schemas[s];
    } else {
      var o :| o in b.objects && b.objects[o].owner == r;
      q := a.objects[o].owner;
    }
  }

  method FinalizeDatabases(s: Server, ghost d: Spec, databases: map<Name, Database>) returns (ok: bool)
    requires Wf(s.w, s.cat) && databases == d.databases
    modifies s`cat, s`trace
    ensures Trimmed(s.w, d, old(s.cat), s.cat)
    ensures ok ==> DatabasesGone(d, s.cat)
    ensures ok ==> !TemplateToGo(d, old(s.cat))
    ensures s.reliable && !ok ==> TemplateToGo(d, old(s.cat))
  {
    hide Wf, DbTrimmed;
    TrimmedRefl(s.w, d, s.cat);
    var order := InSomeOrder(databases.Keys);
    for i := 0 to |order|
      invariant Trimmed(s.w, d, old(s.cat), s.cat)
      invariant forall j :: 0 <= j < i && databases[order[j]].state != Present ==> order[j] !in s.cat.dbs
      invariant TEMPLATE in old(s.cat).dbs ==> TEMPLATE in s.cat.dbs
    {
      ghost var before := s.cat;
      ok := DropDatabaseIfThere(s, d, order[i], databases[order[i]]);
      TrimmedTrans(s.w, d, old(s.cat), before, s.cat);
      if !ok {
        return;
      }
    }
    return true;
  }

  method FinalizeGrants(s: Server, ghost d: Spec, grants: seq<Grant>) returns (ok: bool)
    requires Wf(s.w, s.cat) && grants == d.grants
    modifies s`cat, s`trace
    ensures Trimmed(s.w, d, old(s.cat), s.cat)
    ensures ok ==> GrantsGone(d, s.cat)
    ensures s.reliable ==> ok
  {
    hide Wf, DbTrimmed;
    TrimmedRefl(s.w, d, s.cat);
    for i := 0 to |grants|
      invariant Trimmed(s.w, d, old(s.cat), s.cat)
      invariant forall j :: 0 <= j < i && grants[j].state != Present ==>
        Edge(grants[j].grantee.name, grants[j].granted.name) !in s.cat.members
    {
      ghost var before := s.cat;
      ok := Revoke(s, d, grants[i]);
      TrimmedTrans(s.w, d, old(s.cat), before, s.cat);
      if !ok {
        return;
      }
    }
    return true;
  }

  method FinalizeRoles(s: Server, ghost d: Spec, roles: map<Name, Role>) returns (ok: bool)
    requires Wf(s.w, s.cat) && roles == d.roles
    modifies s`cat, s`trace
    ensures Trimmed(s.w, d, old(s.cat), s.cat)
    ensures ok ==> RolesGone(s.w, d, s.cat)
    ensures s.reliable && !ok ==> exists r :: Droppable(s.w, d, r) && r in s.cat.roles && Owns(s.cat, r)
  {
    hide Wf, DbTrimmed, Conserved, Inherited;
    TrimmedRefl(s.w, d, s.cat);
    var order := InSomeOrder(roles.Keys);
    for i := 0 to |order|
      invariant Trimmed(s.w, d, old(s.cat), s.cat)
      invariant forall j :: 0 <= j < i && Droppable(s.w, d, order[j]) ==> order[j] !in s.cat.roles
    {
      ghost var before := s.cat;
      ok := DropRoleIfThere(s, d, order[i], roles[order[i]]);
      TrimmedTrans(s.w, d, old(s.cat), before, s.cat);
      if !ok {
        return;
      }
    }
    return true;
  }

  method FinalizeSlots(s: Server, ghost d: Spec, slots: map<Name, State>) returns (ok: bool)
    requires Wf(s.w, s.cat) && slots == d.slots
    modifies s`cat, s`trace
    ensures Trimmed(s.w, d, old(s.cat), s.cat)
    ensures ok ==> SlotsGone(d, s.cat)
    ensures s.reliable ==> ok
  {
    hide Wf, DbTrimmed;
    TrimmedRefl(s.w, d, s.cat);
    var order := InSomeOrder(slots.Keys);
    for i := 0 to |order|
      invariant Trimmed(s.w, d, old(s.cat), s.cat)
      invariant forall j :: 0 <= j < i && slots[order[j]] != Present ==> order[j] !in s.cat.slots
    {
      ghost var before := s.cat;
      ok := DropSlotIfThere(s, d, order[i], slots[order[i]]);
      TrimmedTrans(s.w, d, old(s.cat), before, s.cat);
      if !ok {
        return;
      }
    }
    return true;
  }

  // ----- what is gone -----

  ghost predicate DatabasesGone(d: Spec, c: Catalog) {
    forall n :: n in d.databases && d.databases[n].state != Present ==> n !in c.dbs
  }

  ghost predicate GrantsGone(d: Spec, c: Catalog) {
    forall g :: g in d.grants && g.state != Present ==> Edge(g.grantee.name, g.granted.name) !in c.members
  }

  ghost predicate RolesGone(w: World, d: Spec, c: Catalog) {
    forall r :: Droppable(w, d, r) ==> r !in c.roles
  }

  ghost predicate SlotsGone(d: Spec, c: Catalog) {
    forall s :: s in d.slots && d.slots[s] != Present ==> s !in c.slots
  }

  ghost predicate Gone(w: World, d: Spec, c: Catalog) {
    DatabasesGone(d, c) && GrantsGone(d, c) && RolesGone(w, d, c) && SlotsGone(d, c)
  }

  /** What is gone stays gone. */
  lemma GoneStable(w: World, d: Spec, a: Catalog, b: Catalog)
    requires Trimmed(w, d, a, b)
    ensures DatabasesGone(d, a) ==> DatabasesGone(d, b)
    ensures GrantsGone(d, a) ==> GrantsGone(d, b)
    ensures RolesGone(w, d, a) ==> RolesGone(w, d, b)
    ensures SlotsGone(d, a) ==> SlotsGone(d, b)
  {
    hide Wf, DbTrimmed;
  }
}
