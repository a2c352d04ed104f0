/** The read-only and read-write table grants of a database. */
module TableGrants {
  import opened Options
  import opened Catalog
  import opened Desired
  import opened Progress
  import opened Statements
  import opened Servers
  import opened Tables
  import opened Obstacles

  function ReadOnlyRole(n: Name): Name { n + "_readonly" }
  function ReadWriteRole(n: Name): Name { n + "_readwrite" }

  /** What a grant loop does to the table privileges, wherever it stops. */
  ghost predicate GrantsAdded(n: Name, a: map<Name, Privileges>, b: map<Name, Privileges>, role: Name,
                              wanted: set<Privilege>) {
    var before, after := TablesIn(a, n), TablesIn(b, n);
    && (forall x :: x != n ==> TablesIn(b, x) == TablesIn(a, x))
    && after.Keys == before.Keys
    && (forall t, r :: Tables.Held(before, t, r) <= Tables.Held(after, t, r))
    && (forall t, r :: r != role ==> Tables.Held(before, t, r) == Tables.Held(after, t, r))
    && (forall t :: Tables.Held(after, t, role) <= Tables.Held(before, t, role) + wanted)
  }

  lemma GrantsAddedRefl(n: Name, a: map<Name, Privileges>, role: Name, wanted: set<Privilege>)
    ensures GrantsAdded(n, a, a, role, wanted)
  {
  }

  lemma GrantsAddedStep(n: Name, a: map<Name, Privileges>, b: map<Name, Privileges>, schema: Name, role: Name,
                        wanted: set<Privilege>)
    requires GrantsAdded(n, a, b, role, wanted)
    ensures var c := b[n := GrantAll(TablesIn(b, n), schema, role, wanted)];
      GrantsAdded(n, a, c, role, wanted)
          && Uncovered(TablesIn(c, n), role, wanted) == Uncovered(TablesIn(b, n), role, wanted) - {schema}
  {
    var ps := TablesIn(b, n);
    var c := b[n := GrantAll(ps, schema, role, wanted)];
    GrantAllCovers(ps, schema, role, wanted);
    forall t, r ensures Tables.Held(TablesIn(a, n), t, r) <= Tables.Held(TablesIn(c, n), t, r) {
      assert Tables.Held(TablesIn(a, n), t, r) <= Tables.Held(ps, t, r);
    }
  }

  /** One statement per schema the cursor gave, stopping at the first error. */
  method GrantSchemas(s: Server, ghost d: Spec, n: Name, schemas: seq<Name>, role: Name, wanted: set<Privilege>)
    returns (ok: bool)
    requires Wf(s.w, s.cat) && n in s.cat.dbs && Managed(d, n)
    modifies s`tables, s`trace
    ensures Advance(s.w, d, old(s.State()), s.State(), ok)
    ensures GrantsAdded(n, old(s.tables), s.tables, role, wanted)
    ensures ok ==>
      Uncovered(TablesIn(s.tables, n), role, wanted)
      == Uncovered(TablesIn(old(s.tables), n), role, wanted) - (set x | x in schemas)
    ensures ok && schemas != [] ==> role in s.cat.roles
    ensures s.reliable && !ok ==>
      schemas != [] && (role in s.cat.roles ==> exists x :: x in schemas && x !in s.cat.dbs[n].schemas)
  {
    hide Wf, WfDb, Between, Legal, GrantsAdded, Uncovered;
    AdvanceRefl(s.w, d, s.State(), true);
    GrantsAddedRefl(n, s.tables, role, wanted);
    for i := 0 to |schemas|
      invariant Advance(s.w, d, old(s.State()), s.State(), true)
      invariant GrantsAdded(n, old(s.tables), s.tables, role, wanted)
      invariant i > 0 ==> role in s.cat.roles
      invariant Uncovered(TablesIn(s.tables, n), role, wanted)
          == Uncovered(TablesIn(old(s.tables), n), role, wanted) - (set x | x in schemas[..i])
    {
      ghost var before, held := s.State(), s.tables;
      ok := s.ExecGrantTables(n, schemas[i], role, wanted);
      GrantTablesSound(s.w, d, before.cat, n, schemas[i], role, wanted);
      AttemptAdvances(s.w, d, true, InDatabase(n, GrantTables(schemas[i], role, wanted)), before, s.State(), ok);
      AdvanceTrans(s.w, d, old(s.State()), before, s.State(), ok);
      if !ok {
        return;
      }
      GrantsAddedStep(n, old(s.tables), held, schemas[i], role, wanted);
      assert schemas[..i + 1] == schemas[..i] + [schemas[i]];
    }
    assert schemas[..|schemas|] == schemas;
    return true;
  }

  /** The read-only and read-write loops: query, collect the schemas the cursor yields, grant. */
  method ReconcileTableGrants(s: Server, ghost d: Spec, n: Name, role: Name, wanted: set<Privilege>, rows: set<Name>)
    returns (ok: bool)
    requires Wf(s.w, s.cat) && n in s.cat.dbs && Managed(d, n)
    modifies s`tables, s`trace
    ensures Advance(s.w, d, old(s.State()), s.State(), ok)
    ensures GrantsAdded(n, old(s.tables), s.tables, role, wanted)
    ensures ok && rows == Uncovered(TablesIn(old(s.tables), n), role, wanted) ==>
      CoverStep(TablesIn(old(s.tables), n), TablesIn(s.tables, n), role, wanted)
    ensures ok && rows != {} ==> role in s.cat.roles
    ensures s.reliable && !ok ==>
      rows != {} && (role in s.cat.roles ==> exists x :: x in rows && x !in s.cat.dbs[n].schemas)
  {
    AdvanceRefl(s.w, d, s.State(), false);
    var connected, _ := s.Ask(true);
    if !connected {
      return false;
    }
    var order := InSomeOrder(rows);
    var read, schemas := s.Cursor(order);
    if !read {
      return false;
    }
    ok := GrantSchemas(s, d, n, schemas, role, wanted);
    if ok && order != [] {
      assert schemas[0] in order && schemas[0] in (set x | x in schemas);
    }
    if ok && order == [] && rows != {} {
      assert false;
    }
  }

  /**
   SELECT on every table for <db>_readonly. A success finds nothing uncovered or covers at least one
   more schema, for every prefix of rows the cursor yields, when texts are unambiguous.
   */
  method ReconcileReadOnlyGrants(s: Server, ghost d: Spec, n: Name) returns (ok: bool)
    requires Wf(s.w, s.cat) && n in s.cat.dbs && Managed(d, n)
    modifies s`tables, s`trace
    ensures Advance(s.w, d, old(s.State()), s.State(), ok)
    ensures GrantsAdded(n, old(s.tables), s.tables, ReadOnlyRole(n), READ_ONLY)
    ensures ok && Unambiguous(TablesIn(old(s.tables), n).Keys) ==>
      CoverStep(TablesIn(old(s.tables), n), TablesIn(s.tables, n), ReadOnlyRole(n), READ_ONLY)
    ensures var ps, role := TablesIn(old(s.tables), n), n + "_readonly";
      && (ok ==> !TableRoleBlocked(ps, role, role in s.cat.roles, true))
      && (s.reliable && !ok && DbFits(s.cat.dbs[n], ps) ==> TableRoleBlocked(ps, role, role in s.cat.roles, false))
  {
    hide Wf, Between, Legal, CoverStep, GrantsAdded, Uncovered, DbFits, Unambiguous, ReadOnlyRows, ReadWriteRows,
      Tables.Held;
    var ps := s.TablesOf(n);
    ReadOnlyRowsAre(ps, ReadOnlyRole(n));
    if DbFits(s.cat.dbs[n], ps) { FitSchemas(s.w, s.cat, n, ps); }
    ok := ReconcileTableGrants(s, d, n, ReadOnlyRole(n), READ_ONLY, ReadOnlyRows(ps, ReadOnlyRole(n)));
    if Unambiguous(TablesIn(old(s.tables), n).Keys) {
      ReadOnlyExact(TablesIn(old(s.tables), n), ReadOnlyRole(n));
    }
  }

  /** All five privileges on every table for <db>_readwrite. */
  method ReconcileReadWriteGrants(s: Server, ghost d: Spec, n: Name) returns (ok: bool)
    requires Wf(s.w, s.cat) && n in s.cat.dbs && Managed(d, n)
    modifies s`tables, s`trace
    ensures Advance(s.w, d, old(s.State()), s.State(), ok)
    ensures GrantsAdded(n, old(s.tables), s.tables, ReadWriteRole(n), READ_WRITE)
    ensures ok && Unambiguous(TablesIn(old(s.tables), n).Keys) ==>
      CoverStep(TablesIn(old(s.tables), n), TablesIn(s.tables, n), ReadWriteRole(n), READ_WRITE)
    ensures var ps, role := TablesIn(old(s.tables), n), n + "_readwrite";
      && (ok ==> !TableRoleBlocked(ps, role, role in s.cat.roles, true))
      && (s.reliable && !ok && DbFits(s.cat.dbs[n], ps) ==> TableRoleBlocked(ps, role, role in s.cat.roles, false))
  {
    hide Wf, Between, Legal, CoverStep, GrantsAdded, Uncovered, DbFits, Unambiguous, ReadOnlyRows, ReadWriteRows,
      Tables.Held;
    var ps := s.TablesOf(n);
    ReadWriteRowsAre(ps, ReadWriteRole(n));
    if DbFits(s.cat.dbs[n], ps) { FitSchemas(s.w, s.cat, n, ps); }
    ok := ReconcileTableGrants(s, d, n, ReadWriteRole(n), READ_WRITE, ReadWriteRows(ps, ReadWriteRole(n)));
    if Unambiguous(TablesIn(old(s.tables), n).Keys) {
      ReadWriteExact(TablesIn(old(s.tables), n), ReadWriteRole(n));
    }
  }

  /** Tables sit in schemas that are there. */
  lemma FitSchemas(w: World, c: Catalog, n: Name, ps: Privileges)
    requires Wf(w, c) && n in c.dbs && DbFits(c.dbs[n], ps)
    ensures forall t :: t in ps && UserSchema(t.schema) ==> t.schema in c.dbs[n].schemas
  {
    assert WfDb(c.roles.Keys, c.dbs[n]);
  }

  /** A row is the schema of a table; and if the role holds nothing, every user table gives one. */
  lemma ReadOnlyRowsAre(ps: Privileges, role: Name)
    ensures forall x :: x in ReadOnlyRows(ps, role) ==> exists t :: t in ps && UserSchema(t.schema) && t.schema == x
    ensures (forall t :: t in ps ==> Tables.Held(ps, t, role) == {}) ==>
      forall t :: t in ps && UserSchema(t.schema) ==> t.schema in ReadOnlyRows(ps, role)
  {
  }

  lemma ReadWriteRowsAre(ps: Privileges, role: Name)
    ensures forall x :: x in ReadWriteRows(ps, role) ==> exists t :: t in ps && UserSchema(t.schema) && t.schema == x
    ensures (forall t :: t in ps ==> Tables.Held(ps, t, role) == {}) ==>
      forall t :: t in ps && UserSchema(t.schema) ==> t.schema in ReadWriteRows(ps, role)
  {
    if forall t :: t in ps ==> Tables.Held(ps, t, role) == {} {
      forall text ensures Group(ps, role, text) == {} { }
    }
  }

  // ----- both loops -----

  /** Of one database: tables keep what was granted on them; only the two table roles gain, the one at most SELECT. */
  ghost predicate DbAdded(n: Name, a: Privileges, b: Privileges) {
    && b.Keys == a.Keys
    && (forall t, r :: Tables.Held(a, t, r) <= Tables.Held(b, t, r))
    && (forall t, r :: r != n + "_readonly" && r != n + "_readwrite" ==> Tables.Held(a, t, r) == Tables.Held(b, t, r))
    && (forall t :: Tables.Held(b, t, n + "_readonly") <= Tables.Held(a, t, n + "_readonly") + {Select})
  }

  /** Of one database: both table roles are one run closer to full coverage. */
  ghost predicate DbCovered(n: Name, a: Privileges, b: Privileges) {
    Unambiguous(a.Keys) ==> CoverStep(a, b, ReadOnlyRole(n), READ_ONLY) && CoverStep(a, b, ReadWriteRole(n), READ_WRITE)
  }

  /** What a run does to the table privileges of all databases, wherever it stops. */
  ghost predicate TablesAdded(d: Spec, a: map<Name, Privileges>, b: map<Name, Privileges>, ok: bool) {
    && (forall n :: DbAdded(n, TablesIn(a, n), TablesIn(b, n)) && (!Managed(d, n) ==> TablesIn(b, n) == TablesIn(a, n)))
    && (ok ==> forall n :: Managed(d, n) ==> DbCovered(n, TablesIn(a, n), TablesIn(b, n)))
  }

  lemma TableRolesDiffer(n: Name)
    ensures ReadOnlyRole(n) != ReadWriteRole(n)
  {
    assert |ReadOnlyRole(n)| < |ReadWriteRole(n)|;
  }

  lemma UncoveredSame(a: Privileges, b: Privileges, role: Name, wanted: set<Privilege>)
    requires a.Keys == b.Keys && forall t :: Tables.Held(a, t, role) == Tables.Held(b, t, role)
    ensures Uncovered(a, role, wanted) == Uncovered(b, role, wanted)
  {
  }

  /** The loops do not disturb each other: each works for a role of its own. */
  lemma BothLoops(n: Name, a: map<Name, Privileges>, b: map<Name, Privileges>, c: map<Name, Privileges>, ok: bool)
    requires GrantsAdded(n, a, b, ReadOnlyRole(n), READ_ONLY) && GrantsAdded(n, b, c, ReadWriteRole(n), READ_WRITE)
    requires Unambiguous(TablesIn(a, n).Keys) ==> CoverStep(TablesIn(a, n), TablesIn(b, n), ReadOnlyRole(n), READ_ONLY)
    requires ok && Unambiguous(TablesIn(b, n).Keys) ==>
      CoverStep(TablesIn(b, n), TablesIn(c, n), ReadWriteRole(n), READ_WRITE)
    ensures DbAdded(n, TablesIn(a, n), TablesIn(c, n)) && forall x :: x != n ==> TablesIn(c, x) == TablesIn(a, x)
    ensures ok ==> DbCovered(n, TablesIn(a, n), TablesIn(c, n))
  {
    hide Uncovered, Tables.Held;
    TableRolesDiffer(n);
    forall t, r ensures Tables.Held(TablesIn(a, n), t, r) <= Tables.Held(TablesIn(c, n), t, r) {
      assert Tables.Held(TablesIn(a, n), t, r) <= Tables.Held(TablesIn(b, n), t, r)
          <= Tables.Held(TablesIn(c, n), t, r);
    }
    UncoveredSame(TablesIn(a, n), TablesIn(b, n), ReadWriteRole(n), READ_WRITE);
    UncoveredSame(TablesIn(b, n), TablesIn(c, n), ReadOnlyRole(n), READ_ONLY);
  }

  lemma OneLoop(n: Name, a: map<Name, Privileges>, b: map<Name, Privileges>)
    requires GrantsAdded(n, a, b, ReadOnlyRole(n), READ_ONLY)
    ensures DbAdded(n, TablesIn(a, n), TablesIn(b, n)) && forall x :: x != n ==> TablesIn(b, x) == TablesIn(a, x)
  {
  }

  lemma NothingAdded(d: Spec, a: map<Name, Privileges>)
    ensures TablesAdded(d, a, a, false)
  {
  }

  /** Part of the databases, in the order they are visited, have been looked at. */
  ghost predicate VisitedTables(d: Spec, a: map<Name, Privileges>, b: map<Name, Privileges>, order: seq<Name>,
                                done: nat) {
    && TablesAdded(d, a, b, false)
    && (forall j :: done <= j < |order| ==> TablesIn(b, order[j]) == TablesIn(a, order[j]))
    && (forall j :: 0 <= j < done && j < |order| && Managed(d, order[j]) ==>
          DbCovered(order[j], TablesIn(a, order[j]), TablesIn(b, order[j])))
  }

  lemma NothingVisited(d: Spec, a: map<Name, Privileges>, order: seq<Name>)
    ensures VisitedTables(d, a, a, order, 0)
  {
  }

  lemma VisitTables(d: Spec, a: map<Name, Privileges>, b: map<Name, Privileges>, c: map<Name, Privileges>,
                    order: seq<Name>, i: nat, ok: bool)
    requires VisitedTables(d, a, b, order, i) && i < |order| && forall j, k :: 0 <= j < k < |order| ==>
      order[j] != order[k]
    requires DbAdded(order[i], TablesIn(b, order[i]), TablesIn(c, order[i]))
    requires forall y :: y != order[i] ==> TablesIn(c, y) == TablesIn(b, y)
    requires !Managed(d, order[i]) ==> c == b
    requires ok && Managed(d, order[i]) ==> DbCovered(order[i], TablesIn(b, order[i]), TablesIn(c, order[i]))
    ensures TablesAdded(d, a, c, false) && (ok ==> VisitedTables(d, a, c, order, i + 1))
  {
    hide DbCovered, TablesIn;
  }

  lemma AllVisited(d: Spec, a: map<Name, Privileges>, b: map<Name, Privileges>, order: seq<Name>)
    requires VisitedTables(d, a, b, order, |order|) && forall n :: Managed(d, n) ==> n in order
    ensures TablesAdded(d, a, b, true)
  {
  }

  lemma AddedOnly(d: Spec, a: map<Name, Privileges>, b: map<Name, Privileges>)
    requires TablesAdded(d, a, b, true)
    ensures TablesAdded(d, a, b, false)
  {
  }

  /**
   As many successful runs as schemas lack something leave SELECT on every table to <db>_readonly and all
   five privileges to <db>_readwrite.
   */
  lemma RunsCoverDatabase(d: Spec, n: Name, runs: seq<map<Name, Privileges>>)
    requires Managed(d, n) && |runs| > 0 && Unambiguous(TablesIn(runs[0], n).Keys)
    requires forall i :: 0 <= i < |runs| - 1 ==> TablesAdded(d, runs[i], runs[i + 1], true)
    requires |runs| > |Uncovered(TablesIn(runs[0], n), n + "_readonly", {Select})|
    requires |runs| > |Uncovered(TablesIn(runs[0], n), n + "_readwrite", {Select, Insert, Update, Delete, Truncate})|
    ensures var last := TablesIn(runs[|runs| - 1], n);
      last.Keys == TablesIn(runs[0], n).Keys && forall t :: t in last && UserSchema(t.schema) ==>
        && {Select} <= Tables.Held(last, t, n + "_readonly")
        && {Select, Insert, Update, Delete, Truncate} <= Tables.Held(last, t, n + "_readwrite")
  {
    hide Uncovered, CoverStep, Unambiguous, Tables.Held;
    var states := seq(|runs|, i requires 0 <= i < |runs| => TablesIn(runs[i], n));
    TablesStay(d, n, runs, |runs| - 1);
    forall i | 0 <= i < |states| - 1
      ensures CoverStep(states[i], states[i + 1], ReadOnlyRole(n), READ_ONLY)
      ensures CoverStep(states[i], states[i + 1], ReadWriteRole(n), READ_WRITE)
    {
      TablesStay(d, n, runs, i);
      assert TablesAdded(d, runs[i], runs[i + 1], true);
      assert DbCovered(n, TablesIn(runs[i], n), TablesIn(runs[i + 1], n));
    }
    RunsCover(states, ReadOnlyRole(n), READ_ONLY);
    RunsCover(states, ReadWriteRole(n), READ_WRITE);
    var last := states[|states| - 1];
    forall t: Table | t in last && UserSchema(t.schema)
      ensures {Select} <= Tables.Held(last, t, n + "_readonly")
      ensures {Select, Insert, Update, Delete, Truncate} <= Tables.Held(last, t, n + "_readwrite")
    {
      CoveredTable(last, t, ReadOnlyRole(n), READ_ONLY);
      CoveredTable(last, t, ReadWriteRole(n), READ_WRITE);
    }
  }

  lemma CoveredTable(ps: Privileges, t: Table, role: Name, wanted: set<Privilege>)
    requires Uncovered(ps, role, wanted) == {} && t in ps && UserSchema(t.schema)
    ensures wanted <= Tables.Held(ps, t, role)
  {
    assert t.schema !in Uncovered(ps, role, wanted);
  }

  lemma {:induction false} TablesStay(d: Spec, n: Name, runs: seq<map<Name, Privileges>>, i: nat)
    requires i < |runs| && forall j :: 0 <= j < |runs| - 1 ==> TablesAdded(d, runs[j], runs[j + 1], true)
    ensures TablesIn(runs[i], n).Keys == TablesIn(runs[0], n).Keys
    decreases i
  {
    if i > 0 {
      TablesStay(d, n, runs, i - 1);
      assert TablesAdded(d, runs[i - 1], runs[i - 1 + 1], true);
      assert DbAdded(n, TablesIn(runs[i - 1], n), TablesIn(runs[i], n));
    }
  }
}
