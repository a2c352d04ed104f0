/**
 Table privileges of one database, and the two queries that look for schemas with tables a role cannot
 fully use. Both queries compare tables by the text schema.table.
 */
module Tables {
  import opened Options
  import opened Catalog

  datatype Table = Table(schema: Name, name: Name)
  /** For every table, what each role holds on it. */
  type Privileges = map<Table, map<Name, set<Privilege>>>

  const READ_ONLY: set<Privilege> := {Select}
  const READ_WRITE: set<Privilege> := {Select, Insert, Update, Delete, Truncate}

  function QualifiedText(t: Table): string { t.schema + "." + t.name }

  predicate UserSchema(s: Name) { s != "pg_catalog" && s != "information_schema" }

  function Held(ps: Privileges, t: Table, role: Name): set<Privilege> {
    if t in ps && role in ps[t] then ps[t][role] else {}
  }

  function TablesIn(tables: map<Name, Privileges>, n: Name): Privileges { if n in tables then tables[n] else map[] }

  /** GRANT privileges ON ALL TABLES IN SCHEMA s TO role. */
  function GrantAll(ps: Privileges, s: Name, role: Name, granted: set<Privilege>): Privileges {
    map t | t in ps :: if t.schema == s then ps[t][role := Held(ps, t, role) + granted] else ps[t]
  }

  // ----- what the queries see -----

  function TextsWithSelect(ps: Privileges, role: Name): set<string> {
    set t | t in ps && Select in Held(ps, t, role) :: QualifiedText(t)
  }

  /** Schemas the read-only query returns. */
  function ReadOnlyRows(ps: Privileges, role: Name): set<Name> {
    set t | t in ps && UserSchema(t.schema) && QualifiedText(t) !in TextsWithSelect(ps, role) :: t.schema
  }

  /** The rows the read-write subquery groups under one text. */
  function Group(ps: Privileges, role: Name, text: string): set<(Table, Privilege)> {
    set t, p | t in ps && QualifiedText(t) == text && p in READ_WRITE && p in Held(ps, t, role) :: (t, p)
  }

  /** Schemas the read-write query returns. */
  function ReadWriteRows(ps: Privileges, role: Name): set<Name> {
    set t | t in ps && UserSchema(t.schema) && |Group(ps, role, QualifiedText(t))| != 5 :: t.schema
  }

  // ----- what they look for -----

  /** User schemas with a table on which the role lacks one of the wanted privileges. */
  function Uncovered(ps: Privileges, role: Name, wanted: set<Privilege>): set<Name> {
    set t | t in ps && UserSchema(t.schema) && !(wanted <= Held(ps, t, role)) :: t.schema
  }

  /** No table of a user schema reads like another table once schema and name are joined. */
  ghost predicate Unambiguous(tables: set<Table>) {
    forall a, b :: a in tables && b in tables && UserSchema(a.schema) && QualifiedText(a) == QualifiedText(b) ==> a == b
  }

  // ----- the queries are exact just when texts are unambiguous -----

  lemma ReadOnlyExact(ps: Privileges, role: Name)
    requires Unambiguous(ps.Keys)
    ensures ReadOnlyRows(ps, role) == Uncovered(ps, role, READ_ONLY)
  {
    forall t | t in ps && UserSchema(t.schema) ensures QualifiedText(t) in TextsWithSelect(ps, role) <==>
        READ_ONLY <= Held(ps, t, role)
    {
      if QualifiedText(t) in TextsWithSelect(ps, role) {
        var u :| u in ps && Select in Held(ps, u, role) && QualifiedText(u) == QualifiedText(t);
        assert u in ps.Keys && t in ps.Keys;
      }
    }
  }

  lemma GroupOfTable(ps: Privileges, role: Name, t: Table)
    requires Unambiguous(ps.Keys) && t in ps && UserSchema(t.schema)
    ensures |Group(ps, role, QualifiedText(t))| == 5 <==> READ_WRITE <= Held(ps, t, role)
  {
    var g := Group(ps, role, QualifiedText(t));
    var full := {(t, Select), (t, Insert), (t, Update), (t, Delete), (t, Truncate)};
    assert |full| == 5;
    forall row | row in g ensures row in full {
      assert row.0 in ps.Keys && t in ps.Keys;
    }
    if READ_WRITE <= Held(ps, t, role) {
      assert Select in READ_WRITE && Insert in READ_WRITE && Update in READ_WRITE && Delete in READ_WRITE
          && Truncate in READ_WRITE;
      assert full <= g;
      assert g == full;
    } else {
      var p :| p in READ_WRITE && p !in Held(ps, t, role);
      assert (t, p) in full && (t, p) !in g;
      assert g <= full - {(t, p)};
      SubsetSize(g, full - {(t, p)});
    }
  }

  lemma SubsetSize<T>(a: set<T>, b: set<T>)
    requires a <= b
    ensures |a| <= |b|
    ensures a != b ==> |a| < |b|
  {
    assert b == a + (b - a);
    assert a != b ==> b - a != {};
  }

  lemma ReadWriteExact(ps: Privileges, role: Name)
    requires Unambiguous(ps.Keys)
    ensures ReadWriteRows(ps, role) == Uncovered(ps, role, READ_WRITE)
  {
    forall t | t in ps && UserSchema(t.schema) { GroupOfTable(ps, role, t); }
  }

  /** role holds `held` on every table but `except`. */
  function AllBut(tables: set<Table>, role: Name, held: set<Privilege>, except: set<Table>): Privileges {
    map t | t in tables :: if t in except then map[] else map[role := held]
  }

  lemma ReadOnlyBlind(tables: set<Table>, role: Name, a: Table, b: Table)
    requires a in tables && b in tables && a != b && UserSchema(a.schema) && QualifiedText(a) == QualifiedText(b)
    ensures var ps := AllBut(tables, role, READ_ONLY, {a});
      ps.Keys == tables && a.schema in Uncovered(ps, role, READ_ONLY) && ReadOnlyRows(ps, role) == {}
  {
    var ps := AllBut(tables, role, READ_ONLY, {a});
    assert Select in READ_ONLY;
    forall t | t in ps ensures QualifiedText(t) in TextsWithSelect(ps, role) {
      var u := if t == a then b else t;
      assert u in ps && Select in Held(ps, u, role) && QualifiedText(u) == QualifiedText(t);
    }
    assert a in ps && !(READ_ONLY <= Held(ps, a, role));
  }

  /**
   The read-only query finds exactly the schemas with an unreadable table, whatever is granted, iff
   texts are unambiguous.
   */
  lemma ReadOnlyExactIff(tables: set<Table>, role: Name)
    ensures Unambiguous(tables) <==>
      forall ps: Privileges :: ps.Keys == tables ==> ReadOnlyRows(ps, role) == Uncovered(ps, role, READ_ONLY)
  {
    if Unambiguous(tables) {
      forall ps: Privileges | ps.Keys == tables { ReadOnlyExact(ps, role); }
    } else {
      var a, b :| a in tables && b in tables && UserSchema(a.schema) && QualifiedText(a) == QualifiedText(b) && a != b;
      ReadOnlyBlind(tables, role, a, b);
      var ps := AllBut(tables, role, READ_ONLY, {a});
      assert ReadOnlyRows(ps, role) != Uncovered(ps, role, READ_ONLY);
    }
  }

  lemma ReadWriteRestless(tables: set<Table>, role: Name, a: Table, b: Table)
    requires a in tables && b in tables && a != b && UserSchema(a.schema) && QualifiedText(a) == QualifiedText(b)
    ensures var ps := AllBut(tables, role, READ_WRITE, {});
      ps.Keys == tables && Uncovered(ps, role, READ_WRITE) == {} && a.schema in ReadWriteRows(ps, role)
  {
    var ps := AllBut(tables, role, READ_WRITE, {});
    forall t | t in ps ensures READ_WRITE <= Held(ps, t, role) {
    }
    var g := Group(ps, role, QualifiedText(a));
    var six := {(a, Select), (a, Insert), (a, Update), (a, Delete), (a, Truncate), (b, Select)};
    assert Select in READ_WRITE && Insert in READ_WRITE && Update in READ_WRITE && Delete in READ_WRITE
        && Truncate in READ_WRITE;
    assert six <= g;
    assert |six| == 6;
    SubsetSize(six, g);
  }

  /** So does the read-write query: with an ambiguous text it reports a schema although nothing is left to grant. */
  lemma ReadWriteExactIff(tables: set<Table>, role: Name)
    ensures Unambiguous(tables) <==>
      forall ps: Privileges :: ps.Keys == tables ==> ReadWriteRows(ps, role) == Uncovered(ps, role, READ_WRITE)
  {
    if Unambiguous(tables) {
      forall ps: Privileges | ps.Keys == tables { ReadWriteExact(ps, role); }
    } else {
      var a, b :| a in tables && b in tables && UserSchema(a.schema) && QualifiedText(a) == QualifiedText(b) && a != b;
      ReadWriteRestless(tables, role, a, b);
      var ps := AllBut(tables, role, READ_WRITE, {});
      assert ReadWriteRows(ps, role) != Uncovered(ps, role, READ_WRITE);
    }
  }

  // ----- repeated runs -----

  /** What one successful run of a grant loop achieves. */
  ghost predicate CoverStep(ps: Privileges, ps': Privileges, role: Name, wanted: set<Privilege>) {
    && ps'.Keys == ps.Keys
    && (forall t, r :: Held(ps, t, r) <= Held(ps', t, r))
    && (if Uncovered(ps, role, wanted) == {} then Uncovered(ps', role, wanted) == {}
        else Uncovered(ps', role, wanted) < Uncovered(ps, role, wanted))
  }

  /** As many successful runs as there are uncovered schemas leave none. */
  lemma {:induction false} RunsCover(states: seq<Privileges>, role: Name, wanted: set<Privilege>)
    requires |states| > 0 && |states| > |Uncovered(states[0], role, wanted)|
    requires forall i :: 0 <= i < |states| - 1 ==> CoverStep(states[i], states[i + 1], role, wanted)
    ensures Uncovered(states[|states| - 1], role, wanted) == {}
    ensures forall t, r :: Held(states[0], t, r) <= Held(states[|states| - 1], t, r)
    decreases |states|
  {
    if |states| > 1 {
      assert CoverStep(states[0], states[0 + 1], role, wanted);
      var rest := states[1..];
      forall i | 0 <= i < |rest| - 1 ensures CoverStep(rest[i], rest[i + 1], role, wanted) {
        assert CoverStep(states[i + 1], states[i + 1 + 1], role, wanted);
      }
      SubsetSize(Uncovered(rest[0], role, wanted), Uncovered(states[0], role, wanted));
      RunsCover(rest, role, wanted);
      forall t, r ensures Held(states[0], t, r) <= Held(states[|states| - 1], t, r) {
        assert Held(states[0], t, r) <= Held(rest[0], t, r);
      }
    }
  }

  /** One GRANT ... ON ALL TABLES covers its schema and takes nothing away. */
  lemma GrantAllCovers(ps: Privileges, s: Name, role: Name, wanted: set<Privilege>)
    ensures var ps' := GrantAll(ps, s, role, wanted);
      && ps'.Keys == ps.Keys
      && (forall t, r :: Held(ps, t, r) <= Held(ps', t, r))
      && Uncovered(ps', role, wanted) == Uncovered(ps, role, wanted) - {s}
  {
    var ps' := GrantAll(ps, s, role, wanted);
    forall t | t in ps ensures wanted <= Held(ps', t, role) <==> t.schema == s || wanted <= Held(ps, t, role) {
    }
  }
}
