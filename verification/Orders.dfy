/** Why a coherent specification is needed: the two ways in which iteration order does show. */
module Orders {
  import opened Options
  import opened Catalog
  import opened Desired
  import opened Statements
  import opened Progress
  import opened Handlers
  import Roles
  import Grants
  import opened Servers

  /** Every key of the map is understood, as a check and as a keyword. */
  ghost predicate Understood(options: OptionMap) {
    forall o :: o in options ==> Checked(o).Some? && Altered(o).Some?
  }

  ghost predicate DemandsIn(order: seq<RoleOption>, m: Meaning) {
    exists i :: 0 <= i < |order| && Checked(order[i]) == Some(m)
  }

  /** Last one wins: whatever came before, the last option of an order is in force. */
  lemma LastWins(row: RoleRow, order: seq<RoleOption>)
    requires order != [] && forall o :: o in order ==> Checked(o).Some? && Altered(o).Some?
    ensures var r := ApplyOptions(row, order);
      r.Some? && HasOption(r.value, Checked(order[|order| - 1]).value)
    decreases |order|
  {
    hide Checked, Altered;
    var init, last := order[..|order| - 1], order[|order| - 1];
    AlterSatisfiesCheck(last);
    if init != [] {
      LastWins(row, init);
    }
  }

  lemma DemandsInNothing()
    ensures forall m :: !DemandsIn([], m)
  {
  }

  lemma DemandsSplit(order: seq<RoleOption>, m: Meaning)
    requires order != []
    ensures DemandsIn(order, m) <==> DemandsIn(order[..|order| - 1], m) || Checked(order[|order| - 1]) == Some(m)
  {
    hide Checked;
    var init := order[..|order| - 1];
    if DemandsIn(init, m) {
      var i :| 0 <= i < |init| && Checked(init[i]) == Some(m);
      assert order[i] == init[i];
    }
    if i :| 0 <= i < |order| && Checked(order[i]) == Some(m) {
      assert i < |init| ==> init[i] == order[i];
    }
  }

  /** Without contradictions an order leaves every column as some option of it demands, or as it was. */
  lemma {:induction false} OrderResult(row: RoleRow, order: seq<RoleOption>, col: Column)
    requires forall o :: o in order ==> Checked(o).Some? && Altered(o).Some?
    requires !(DemandsIn(order, Meaning(col, true)) && DemandsIn(order, Meaning(col, false)))
    ensures var r := ApplyOptions(row, order);
      r.Some? && r.value.password == row.password && r.value.until == row.until
      && (col in r.value.attrs <==>
          DemandsIn(order, Meaning(col, true)) || (col in row.attrs && !DemandsIn(order, Meaning(col, false))))
    decreases |order|
  {
    hide Checked, Altered, DemandsIn;
    DemandsInNothing();
    if order != [] {
      var n := |order| - 1;
      DemandsSplit(order, Meaning(col, true));
      DemandsSplit(order, Meaning(col, false));
      AlterSatisfiesCheck(order[n]);
      OrderResult(row, order[..n], col);
    }
  }

  lemma DemandsOfOrder(order: seq<RoleOption>, options: OptionMap, m: Meaning)
    requires Enumerates(order, options)
    ensures DemandsIn(order, m) <==> Demands(options, m)
  {
    if o :| o in options && Checked(o) == Some(m) {
      var i :| 0 <= i < |order| && order[i] == o;
    }
    if i :| 0 <= i < |order| && Checked(order[i]) == Some(m) {
      assert order[i] in options;
    }
  }

  /** The order in which the map yields its keys does not matter. */
  ghost predicate OrderFree(options: OptionMap) {
    forall row, o1, o2 :: Enumerates(o1, options) && Enumerates(o2, options) ==>
        ApplyOptions(row, o1) == ApplyOptions(row, o2)
  }

  /** An enumeration that ends with the two given keys, in this order. */
  lemma EndingWith(options: OptionMap, first: RoleOption, second: RoleOption) returns (order: seq<RoleOption>)
    requires first in options && second in options && first != second
    ensures Enumerates(order, options) && |order| > 1 && order[|order| - 1] == second
  {
    var others := map o | o in options && o != first && o != second :: true;
    var rest := SomeOrder(others.Keys);
    order := rest + [first, second];
    assert options.Keys == others.Keys + {first, second};
    assert |options.Keys| == |others.Keys| + |{first, second}|;
  }

  lemma ContestedOrders(options: OptionMap, col: Column)
    requires Understood(options) && ContestedColumn(options, col)
    ensures !OrderFree(options)
  {
    hide Checked, Altered, ApplyOptions;
    var on :| on in options && Checked(on) == Some(Meaning(col, true));
    var off :| off in options && Checked(off) == Some(Meaning(col, false));
    var o1 := EndingWith(options, off, on);
    var o2 := EndingWith(options, on, off);
    LastWins(FRESH_ROLE, o1);
    LastWins(FRESH_ROLE, o2);
    assert ApplyOptions(FRESH_ROLE, o1) != ApplyOptions(FRESH_ROLE, o2);
  }

  lemma UncontestedColumn(options: OptionMap, row: RoleRow, order: seq<RoleOption>, col: Column)
    requires Understood(options) && Enumerates(order, options) && !ContestedColumn(options, col)
    ensures ApplyOptions(row, order).Some?
    ensures var r := ApplyOptions(row, order).value;
      && r.password == row.password && r.until == row.until
      && (col in r.attrs <==>
          Demands(options, Meaning(col, true)) || (col in row.attrs && !Demands(options, Meaning(col, false))))
  {
    hide Checked, Altered, ApplyOptions, DemandsIn, Demands;
    DemandsOfOrder(order, options, Meaning(col, true));
    DemandsOfOrder(order, options, Meaning(col, false));
    OrderResult(row, order, col);
  }

  lemma UncontestedOrders(options: OptionMap, row: RoleRow, o1: seq<RoleOption>, o2: seq<RoleOption>)
    requires Understood(options) && Enumerates(o1, options) && Enumerates(o2, options)
    requires forall col :: !ContestedColumn(options, col)
    ensures ApplyOptions(row, o1) == ApplyOptions(row, o2)
  {
    hide Checked, Altered, ApplyOptions, Enumerates, Understood, Demands;
    UncontestedColumn(options, row, o1, CanLogin);
    UncontestedColumn(options, row, o2, CanLogin);
    forall col ensures col in ApplyOptions(row, o1).value.attrs <==> col in ApplyOptions(row, o2).value.attrs {
      UncontestedColumn(options, row, o1, col);
      UncontestedColumn(options, row, o2, col);
    }
    assert ApplyOptions(row, o1).value.attrs == ApplyOptions(row, o2).value.attrs;
  }

  /** The order of a role's options shows exactly when the map demands a column both on and off. */
  lemma OptionOrderIff(options: OptionMap)
    requires Understood(options)
    ensures OrderFree(options) <==> forall col :: !ContestedColumn(options, col)
  {
    hide Checked, Altered, ApplyOptions, Enumerates, Understood, ContestedColumn;
    if col :| ContestedColumn(options, col) {
      ContestedOrders(options, col);
    } else {
      forall row, o1, o2 | Enumerates(o1, options) && Enumerates(o2, options) {
        UncontestedOrders(options, row, o1, o2);
      }
    }
  }

  // ----- the order of databases -----

  /** A specification that manages the template, with one schema in it, and one further database. */
  function TemplateSpec(w: World, n: Name, sc: Name): Spec {
    Spec(map["opex" := NewRole("opex")], [],
         map[TEMPLATE := Database(w.me, map[], map[sc := Schema("", Present)], Present),
             n := Database(w.me, map[], map[], Present)],
         map[])
  }

  /** The catalog after both databases were dealt with, where the new one is this copy of the template. */
  function TemplateResult(w: World, c: Catalog, n: Name, sc: Name, copy: Db): Catalog
    requires TEMPLATE in c.dbs
  {
    var template := c.dbs[TEMPLATE];
    c.(dbs := c.dbs[TEMPLATE := template.(schemas := template.schemas[sc := w.me])][n := copy])
  }

  /** The role every handler starts with is there, and there is nothing to do for it. */
  predicate OpexSettled(c: Catalog) {
    "opex" in c.roles && CanLogin !in c.roles["opex"].attrs && !c.roles["opex"].until.At?
  }

  lemma TemplateResultHeld(w: World, c: Catalog, n: Name, sc: Name, copy: Db)
    requires OpexSettled(c) && Wf(w, c) && TEMPLATE in c.dbs && c.dbs[TEMPLATE].owner == w.me
    requires n != TEMPLATE && copy.owner == w.me
    ensures AllHeld(w, TemplateSpec(w, n, sc), TemplateResult(w, c, n, sc, copy)) && Sane(TemplateSpec(w, n, sc), c)
  {
    hide Sane, Wf, NamesRole, GrantDemanded, WantDb, GetDb;
    var d, r := TemplateSpec(w, n, sc), TemplateResult(w, c, n, sc, copy);
    OwnRoleThere(w, c);
    TemplateSpecSane(w, n, sc, c);
    forall k ensures Held(w, d, r, k) {
      match k
      case RoleExists(x) => TemplateSpecNames(w, n, sc, x);
      case OfRole(x, rk) => TemplateRoleHeld(w, c, n, sc, copy, x, rk);
      case OfDb(db, dk) => TemplateDbHeld(w, c, n, sc, copy, db, dk);
      case _ => TemplateSpecGrants(w, n, sc);
    }
  }

  lemma TemplateSpecSane(w: World, n: Name, sc: Name, c: Catalog)
    ensures Sane(TemplateSpec(w, n, sc), c)
  {
    hide Grants.Backed;
  }

  lemma OwnRoleThere(w: World, c: Catalog)
    requires Wf(w, c)
    ensures w.me in c.roles && w.me != ""
  {
  }

  lemma TemplateSpecGrants(w: World, n: Name, sc: Name)
    ensures forall e :: !GrantDemanded(TemplateSpec(w, n, sc), e)
  {
  }

  lemma TemplateSpecNames(w: World, n: Name, sc: Name, x: Name)
    requires w.me != ""
    ensures NamesRole(TemplateSpec(w, n, sc), x) ==> x == w.me || x == "opex"
  {
  }

  lemma TemplateRoleHeld(w: World, c: Catalog, n: Name, sc: Name, copy: Db, x: Name, k: RowKey)
    requires OpexSettled(c) && TEMPLATE in c.dbs
    ensures Held(w, TemplateSpec(w, n, sc), TemplateResult(w, c, n, sc, copy), OfRole(x, k))
  {
  }

  lemma TemplateDbHeld(w: World, c: Catalog, n: Name, sc: Name, copy: Db, db: Name, k: DbKey)
    requires TEMPLATE in c.dbs && c.dbs[TEMPLATE].owner == w.me && n != TEMPLATE && copy.owner == w.me && w.me != ""
    ensures Held(w, TemplateSpec(w, n, sc), TemplateResult(w, c, n, sc, copy), OfDb(db, k))
  {
    hide NamesRole;
  }

  /** Two statements that are sent because something is missing make a successful run. */
  lemma TwoStatements(w: World, d: Spec, a: Log, s: Stmt, b: Log, t: Stmt, c: Log)
    requires Wf(w, a.cat) && Sound(w, d, a.cat, true, s) && Attempt(w, true, s, a, b, true)
    requires Sound(w, d, b.cat, true, t) && Attempt(w, true, t, b, c, true)
    ensures Advance(w, d, a, c, true)
  {
    hide Sound, Between, Legal, Wf, AllHeld;
    AttemptAdvances(w, d, true, s, a, b, true);
    AttemptAdvances(w, d, true, t, b, c, true);
    AdvanceTrans(w, d, a, b, c, true);
  }

  /**
   With this specification two runs from one catalog succeed and end in different catalogs: whether the
   new database has the template's new schema depends on which database is visited first.
   */
  lemma TemplateOrderShows(w: World, c: Catalog, n: Name, sc: Name) returns (early: Log, late: Log)
    requires Wf(w, c) && TEMPLATE in c.dbs && c.dbs[TEMPLATE].owner == w.me && sc !in c.dbs[TEMPLATE].schemas
    requires n !in c.dbs && n != "" && sc != "" && OpexSettled(c)
    ensures var d, a := TemplateSpec(w, n, sc), Log(c, []);
      && Coherent(d) && !TemplateFixed(w, d, c, true)
      && Reconciled(w, d, a, early, true) && Reconciled(w, d, a, late, true)
      && n in early.cat.dbs && sc !in early.cat.dbs[n].schemas && n in late.cat.dbs && sc in late.cat.dbs[n].schemas
  {
    hide Legal, Wf, WfDb, Between, AllHeld, Sound, Sane;
    var d, a := TemplateSpec(w, n, sc), Log(c, []);
    var create, add := CreateDatabase(n), InDatabase(TEMPLATE, CreateSchema(sc));
    var first := Step(w, create, c).value;
    var second := Step(w, add, first).value;
    early := Log(second, [Event(create, first), Event(add, second)]);
    var added := Step(w, add, c).value;
    var copied := Step(w, create, added).value;
    late := Log(copied, [Event(add, added), Event(create, copied)]);
    CreateDatabaseSound(w, d, c, n);
    CreateSchemaSound(w, d, c, TEMPLATE, sc);
    StepKeepsWf(w, create, c);
    StepKeepsWf(w, add, c);
    CreateSchemaSound(w, d, first, TEMPLATE, sc);
    CreateDatabaseSound(w, d, added, n);
    TwoStatements(w, d, a, create, Log(first, [Event(create, first)]), add, early);
    TwoStatements(w, d, a, add, Log(added, [Event(add, added)]), create, late);
    assert second == TemplateResult(w, c, n, sc, first.dbs[n]);
    assert copied == TemplateResult(w, c, n, sc, copied.dbs[n]);
    TemplateResultHeld(w, c, n, sc, first.dbs[n]);
    TemplateResultHeld(w, c, n, sc, copied.dbs[n]);
    assert !TemplateFixed(w, d, c, true) by {
      assert TakenOver(w, d, c, OfDb(n, SchemaExists(sc)), true);
    }
  }
}
