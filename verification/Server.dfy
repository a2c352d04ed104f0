/**
 The server as a connection sees it. Any query and any statement may fail, unless the server is reliable;
 a statement the server rejects fails always.
 */
module Servers {
  import opened Options
  import opened Catalog
  import opened Progress
  import Tables

  class Server {
    const w: World
    /** No query fails, and no statement that is accepted. */
    const reliable: bool
    var cat: Catalog
    /** Table privileges, per database. */
    var tables: map<Name, Tables.Privileges>
    /** The statements sent so far. */
    ghost var trace: seq<Event>

    constructor (w: World, reliable: bool, cat: Catalog, tables: map<Name, Tables.Privileges>)
      ensures this.w == w && this.reliable == reliable && this.cat == cat && this.tables == tables && trace == []
    {
      this.w, this.reliable, this.cat, this.tables, trace := w, reliable, cat, tables, [];
    }

    /** Whatever may go wrong without a reason. */
    method Luck() returns (ok: bool)
      ensures reliable ==> ok
    {
      ok := *;
      ok := ok || reliable;
    }

    ghost function State(): Log
      reads this
    {
      Log(cat, trace)
    }

    function TablesOf(db: Name): Tables.Privileges
      reads this
    {
      if db in tables then tables[db] else map[]
    }

    /** A query that asks whether there is a row. */
    method Ask(answer: bool) returns (ok: bool, exists_: bool)
      ensures ok ==> exists_ == answer
      ensures reliable ==> ok
    {
      ok := Luck();
      exists_ := ok && answer;
    }

    /** A query that reads one field of an existing row. */
    method Read<T>(value: T) returns (ok: bool, got: T)
      ensures ok ==> got == value
      ensures reliable ==> ok
    {
      ok := Luck();
      got := value;
    }

    /** A cursor read row by row: some rows, and at least one if there are any. */
    method Cursor<T>(rows: seq<T>) returns (ok: bool, got: seq<T>)
      ensures ok ==> got <= rows && (rows != [] ==> got != [])
      ensures reliable ==> ok
    {
      ok := Luck();
      var n: nat := *;
      got := if 0 < n <= |rows| then rows[..n] else rows;
    }

    /** The server accepts s or not; if accepted, it still may fail to carry it out. */
    method Exec(s: Stmt) returns (ok: bool)
      requires !(s.InDatabase? && s.stmt.GrantTables?)
      modifies `cat, `trace
      ensures ok ==> Step(w, s, old(cat)) == Some(cat)
      ensures !ok ==> cat == old(cat)
      ensures trace == old(trace) + [Event(s, cat)]
      ensures reliable && Step(w, s, old(cat)).Some? ==> ok
    {
      ok := Luck();
      match Step(w, s, cat) {
        case None => ok := false;
        case Some(c) => if ok { cat := c; }
      }
      trace := trace + [Event(s, cat)];
    }

    /** GRANT privileges ON ALL TABLES IN SCHEMA schema TO grantee. */
    method ExecGrantTables(db: Name, schema: Name, grantee: Name, privileges: set<Privilege>) returns (ok: bool)
      modifies `tables, `trace
      ensures ok ==> Step(w, InDatabase(db, GrantTables(schema, grantee, privileges)), cat) == Some(cat)
      ensures ok ==> tables == old(tables)[db := Tables.GrantAll(old(TablesOf(db)), schema, grantee, privileges)]
      ensures !ok ==> tables == old(tables)
      ensures trace == old(trace) + [Event(InDatabase(db, GrantTables(schema, grantee, privileges)), cat)]
      ensures reliable && Step(w, InDatabase(db, GrantTables(schema, grantee, privileges)), cat).Some? ==> ok
    {
      ok := Luck();
      var s := InDatabase(db, GrantTables(schema, grantee, privileges));
      if Step(w, s, cat).None? {
        ok := false;
      } else if ok {
        assert cat.dbs[db := cat.dbs[db]] == cat.dbs;
        tables := tables[db := Tables.GrantAll(TablesOf(db), schema, grantee, privileges)];
      }
      trace := trace + [Event(s, cat)];
    }
  }

  /** A map or a query result, in whatever order it comes. */
  method InSomeOrder<T(==)>(items: set<T>) returns (order: seq<T>)
    ensures forall x :: x in order <==> x in items
    ensures |order| == |items| && forall i, j :: 0 <= i < j < |order| ==> order[i] != order[j]
  {
    order := [];
    var todo := items;
    while todo != {}
      invariant todo <= items
      invariant forall x :: x in order <==> x in items && x !in todo
      invariant |order| + |todo| == |items| && forall i, j :: 0 <= i < j < |order| ==> order[i] != order[j]
      decreases todo
    {
      var x :| x in todo;
      assert x !in order;
      order := order + [x];
      todo := todo - {x};
    }
  }

  /** Every finite set has such an order. */
  lemma SomeOrder<T>(items: set<T>) returns (order: seq<T>)
    ensures forall x :: x in order <==> x in items
    ensures |order| == |items| && forall i, j :: 0 <= i < j < |order| ==> order[i] != order[j]
    decreases items
  {
    if items == {} {
      order := [];
    } else {
      var x :| x in items;
      var rest := SomeOrder(items - {x});
      order := [x] + rest;
    }
  }
}
