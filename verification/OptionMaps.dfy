/** Copying, merging and extending option maps. */
module OptionMaps {
  import opened Options
  import opened Desired
  import opened Servers

  function AbsoluteKeys(options: set<RoleOption>): set<RoleOption> {
    set o | o in options :: Absolute(o)
  }

  /**
   r is a merge of b into a: the keys of a and the absolute keys of b; the value of a key b has comes
   from one of its spellings in b, that of any other key from its own spelling.
   */
  ghost predicate IsMerge(a: OptionMap, b: OptionMap, r: OptionMap) {
    && r.Keys == a.Keys + AbsoluteKeys(b.Keys)
    && (forall k :: k in r && k !in AbsoluteKeys(b.Keys) ==> r[k] == Enabled(k))
    && (forall k :: k in r && k in AbsoluteKeys(b.Keys) ==>
        exists o :: o in b && Absolute(o) == k && r[k] == Enabled(o))
  }

  /** As IsMerge, with part of the other map's keys merged in. */
  ghost predicate PartMerged(keys: set<RoleOption>, done: set<RoleOption>, r: OptionMap) {
    && r.Keys == keys + AbsoluteKeys(done)
    && (forall k :: k in r && k !in AbsoluteKeys(done) ==> r[k] == Enabled(k))
    && (forall k :: k in r && k in AbsoluteKeys(done) ==>
        exists o :: o in done && Absolute(o) == k && r[k] == Enabled(o))
  }

  lemma MergeNext(keys: set<RoleOption>, done: set<RoleOption>, r: OptionMap, o: RoleOption)
    requires PartMerged(keys, done, r)
    ensures PartMerged(keys, done + {o}, r[Absolute(o) := Enabled(o)])
  {
    hide Enabled, Absolute;
    assert AbsoluteKeys(done + {o}) == AbsoluteKeys(done) + {Absolute(o)};
  }

  /** A copy whose values are computed afresh from the keys. */
  method Clone(m: OptionMap) returns (clone: OptionMap)
    ensures clone.Keys == m.Keys && forall o :: o in clone ==> clone[o] == Enabled(o)
  {
    clone := map[];
    var order := InSomeOrder(m.Keys);
    for i := 0 to |order|
      invariant forall o :: o in clone <==> o in order[..i]
      invariant forall o :: o in clone ==> clone[o] == Enabled(o)
    {
      clone := clone[order[i] := Enabled(order[i])];
    }
    assert order[..|order|] == order;
  }

  /** The other map's keys are stripped of NO, in whatever order they come. */
  method Merge(m: OptionMap, other: OptionMap) returns (merged: OptionMap)
    ensures IsMerge(m, other, merged)
  {
    hide Enabled, Absolute, PartMerged;
    merged := Clone(m);
    var order := InSomeOrder(other.Keys);
    ghost var done: set<RoleOption> := {};
    assert PartMerged(m.Keys, done, merged) by { NothingMerged(m.Keys, merged); }
    for i := 0 to |order|
      invariant done == (set o | o in order[..i]) && PartMerged(m.Keys, done, merged)
    {
      MergeNext(m.Keys, done, merged, order[i]);
      merged := merged[Absolute(order[i]) := Enabled(order[i])];
      assert order[..i + 1] == order[..i] + [order[i]];
      done := done + {order[i]};
    }
    assert order[..|order|] == order && done == other.Keys;
    AllMerged(m, other, merged);
  }

  lemma NothingMerged(keys: set<RoleOption>, r: OptionMap)
    requires r.Keys == keys && forall o :: o in r ==> r[o] == Enabled(o)
    ensures PartMerged(keys, {}, r)
  {
  }

  lemma AllMerged(a: OptionMap, b: OptionMap, r: OptionMap)
    requires PartMerged(a.Keys, b.Keys, r)
    ensures IsMerge(a, b, r)
  {
    hide Enabled, Absolute, AbsoluteKeys;
  }

  /** The source writes into the map it is given and hands it back. */
  function AddAbsolute(m: OptionMap, opt: RoleOption): OptionMap {
    m[Absolute(opt) := Enabled(opt)]
  }

  /** Maps whose keys passed validation and were stripped of NO. */
  predicate Normal(m: OptionMap) { m.Keys <= NORMAL_OPTIONS }

  /** Merging valid options into a normal map gives a normal map: X and NOX never stand side by side. */
  lemma MergeIsNormal(a: OptionMap, b: OptionMap, r: OptionMap)
    requires Normal(a) && (forall o :: o in b ==> Validate(o)) && IsMerge(a, b, r)
    ensures Normal(r)
  {
    forall k | k in r ensures k in NORMAL_OPTIONS {
      if k in AbsoluteKeys(b.Keys) {
        var o :| o in b && Absolute(o) == k;
        ValidOptions(o);
      }
    }
  }

  /** A normal map only ever demands columns on. */
  lemma NormalDemands(m: OptionMap, col: Column)
    requires Normal(m)
    ensures !Demands(m, Meaning(col, false))
    ensures !ContestedColumn(m, col)
  {
    forall o | o in m ensures Checked(o) != Some(Meaning(col, false)) {
      NormalOption(o);
    }
  }

  /** A configured NOX is merged as X: its column ends up demanded on. */
  lemma InvertedBecomesDemand(a: OptionMap, b: OptionMap, r: OptionMap, opt: RoleOption)
    requires Validate(opt) && opt in b && IsMerge(a, b, r)
    ensures Checked(opt).Some? && Demands(r, Meaning(Checked(opt).value.column, true))
  {
    ValidOptions(opt);
    assert Absolute(opt) in AbsoluteKeys(b.Keys);
    assert Absolute(opt) in r;
  }

  // ----- roles -----

  const ZERO_ROLE := Role("", map[], Present, "", None)

  /** m is r with other merged in: options joined, raised to Present if other is, password and expiry dropped. */
  ghost predicate IsMergedRole(r: Role, other: Role, m: Role) {
    && m.name == r.name && m.password == "" && m.expiry == None
    && IsMerge(r.options, other.options, m.options)
    && m.state == if other.state == Present then Present else r.state
  }

  method MergeRole(r: Role, other: Role) returns (m: Role)
    ensures IsMergedRole(r, other, m)
  {
    var options := Merge(r.options, other.options);
    m := Role(r.name, options, r.state, "", None);
    if other.state == Present {
      m := m.(state := Present);
    }
  }
}
