/** When the order of searches on one index shows, and inputs on which it does. */
module LdapOrders {
  import opened Options
  import opened LdapText
  import opened Ldap
  import opened LdapTree
  import opened LdapSearches
  import opened Servers

  function Root(s: Search): string { LeafName(s.base) }

  /** What a search lists on an index of its own. */
  ghost function Own(s: Search): set<string> { Descendants(LinksOf({s}), Root(s)) }

  /** The first searches up to the i-th succeed. */
  ghost predicate Succeeds(order: seq<Search>, i: nat) { i < |order| && AllSearched(EMPTY, order[..i + 1]).Some? }

  /** What the i-th of these searches lists right after it was made. */
  ghost function ListedAt(order: seq<Search>, i: nat): set<string>
    requires Succeeds(order, i)
  {
    Descendants(AllSearched(EMPTY, order[..i + 1]).value.links, Root(order[i]))
  }

  /** Nothing below a base is known to another search that its own search did not give. */
  ghost predicate SelfContained(ss: set<Search>) {
    forall s :: s in ss ==> Descendants(LinksOf(ss), Root(s)) == Own(s)
  }

  ghost predicate Arranges(order: seq<Search>, ss: set<Search>) {
    SetOf(order) == ss && forall i, j :: 0 <= i < j < |order| ==> order[i] != order[j]
  }

  /** No search contradicts itself: none of its own uids names one of its own groups. */
  ghost predicate EachTidy(ss: set<Search>) { forall s :: s in ss ==> Tidy({s}) }

  ghost predicate EveryOrderSucceeds(ss: set<Search>) {
    forall order :: Arranges(order, ss) ==> AllSearched(EMPTY, order).Some?
  }

  /** Whatever the order, every search succeeds and lists the same. */
  ghost predicate OrderFree(ss: set<Search>) {
    forall o1, o2, i, j :: Arranges(o1, ss) && Arranges(o2, ss) && 0 <= i < |o1| && 0 <= j < |o2| && o1[i] == o2[j] ==>
      Succeeds(o1, i) && Succeeds(o2, j) && ListedAt(o1, i) == ListedAt(o2, j)
  }

  // ----- order independence -----

  lemma FewerLinks(ss: set<Search>, more: set<Search>)
    requires ss <= more && Tidy(more)
    ensures LinksOf(ss) <= LinksOf(more) && Tidy(ss)
  {
    UsersAreUids(ss);
    hide EntryNames, EntryUids, EntryPairs, EntryUsers, LeafName;
    assert Pairs(ss) <= Pairs(more) && Users(ss) <= Users(more) && Groups(ss) <= Groups(more) && Uids(ss) <= Uids(more);
  }

  lemma FewerBelow(links: set<Link>, more: set<Link>, root: string)
    requires links <= more
    ensures Descendants(links, root) <= Descendants(more, root)
  {
    hide IsBelow;
    forall x | x in Descendants(links, root) ensures x in Descendants(more, root) {
      DescendantsAreBelow(links, root, x);
      BelowMonotone(links, more, root, x);
      DescendantsAreBelow(more, root, x);
    }
  }

  /** A search that is one of several lists what it lists alone, whatever came before it. */
  lemma ListsOwn(ss: set<Search>, order: seq<Search>, i: nat)
    requires AllClean(ss) && Tidy(ss) && SelfContained(ss) && SetOf(order) <= ss && i < |order|
    ensures Succeeds(order, i) && ListedAt(order, i) == Own(order[i])
  {
    hide CleanSearch, LinksOf, Descendants, Tidy, LeafName, AllSearched;
    var s, part := order[i], SetOf(order[..i + 1]);
    assert s in order[..i + 1] && s in part && part <= ss;
    FewerLinks(part, ss);
    FewerLinks({s}, part);
    SearchesHold(order[..i + 1]);
    SearchesLink(order[..i + 1]);
    FewerBelow(LinksOf({s}), LinksOf(part), Root(s));
    FewerBelow(LinksOf(part), LinksOf(ss), Root(s));
  }

  /** The listing of a set without one of its elements. */
  lemma Around(ss: set<Search>, s: Search) returns (others: seq<Search>)
    requires s in ss
    ensures Arranges([s] + others, ss) && Arranges(others + [s], ss)
  {
    others := SomeOrder(ss - {s});
    forall x ensures x in SetOf([s] + others) <==> x in ss { }
    forall x ensures x in SetOf(others + [s]) <==> x in ss { }
  }

  lemma FirstListsOwn(ss: set<Search>, s: Search, others: seq<Search>)
    requires AllClean(ss) && Tidy(ss) && s in ss
    ensures Succeeds([s] + others, 0) && ListedAt([s] + others, 0) == Own(s)
  {
    hide CleanSearch, LinksOf, Descendants, Tidy, LeafName, AllSearched;
    FewerLinks({s}, ss);
    assert ([s] + others)[..1] == [s] && SetOf([s]) == {s};
    SearchesHold([s]);
    SearchesLink([s]);
  }

  lemma LastListsAll(ss: set<Search>, s: Search, others: seq<Search>)
    requires AllClean(ss) && Tidy(ss) && Arranges(others + [s], ss)
    ensures Succeeds(others + [s], |others|)
    ensures ListedAt(others + [s], |others|) == Descendants(LinksOf(ss), Root(s))
  {
    hide CleanSearch, LinksOf, Descendants, Tidy, LeafName, AllSearched;
    assert (others + [s])[..|others| + 1] == others + [s];
    SearchesHold(others + [s]);
    SearchesLink(others + [s]);
  }

  /** If none of their uids names a group: the order shows nowhere exactly for self-contained searches. */
  lemma TidyOrderFreeIff(ss: set<Search>)
    requires AllClean(ss) && Tidy(ss)
    ensures OrderFree(ss) <==> SelfContained(ss)
  {
    hide CleanSearch, LinksOf, Descendants, Tidy, LeafName, Succeeds, ListedAt, Own;
    if SelfContained(ss) {
      forall o1, o2, i, j | Arranges(o1, ss) && Arranges(o2, ss) && 0 <= i < |o1| && 0 <= j < |o2| && o1[i] == o2[j]
        ensures Succeeds(o1, i) && Succeeds(o2, j) && ListedAt(o1, i) == ListedAt(o2, j)
      {
        ListsOwn(ss, o1, i);
        ListsOwn(ss, o2, j);
      }
    }
    if OrderFree(ss) {
      forall s | s in ss ensures Descendants(LinksOf(ss), Root(s)) == Own(s) {
        var others := Around(ss, s);
        FirstListsOwn(ss, s, others);
        LastListsAll(ss, s, others);
        assert ([s] + others)[0] == (others + [s])[|others|];
      }
    }
  }

  // ----- orders that fail -----

  lemma {:induction false} SearchFails(order: seq<Search>, i: nat)
    requires i <= |order| && AllSearched(EMPTY, order[..i]).None?
    ensures AllSearched(EMPTY, order).None?
    decreases |order|
  {
    hide Searched;
    if i < |order| {
      var init := order[..|order| - 1];
      assert init[..i] == order[..i];
      SearchFails(init, i);
    } else {
      assert order[..i] == order;
    }
  }

  /** A search fails after one that found, as a group, what is a uid of its own. */
  lemma ClashFails(a: Search, b: Search, x: string)
    requires AllClean({a, b}) && Tidy({b}) && x in Uids({a}) && x in Groups({b})
    ensures AllSearched(EMPTY, [b]).Some? && AllSearched(EMPTY, [b, a]).None?
  {
    hide CleanSearch, Groups, Uids, Pairs, Users, Searched, Holds;
    assert [b, a][..1] == [b] && SetOf([b]) == {b};
    SearchesHold([b]);
    SearchAdded(AllSearched(EMPTY, [b]).value, Groups({b}), Uids({b}), Pairs({b}), Users({b}), a);
  }

  lemma GroupHasSource(ss: set<Search>, x: string) returns (s: Search)
    requires x in Groups(ss)
    ensures s in ss && x in Groups({s})
  {
    hide LeafName, EntryNames;
    s :| s in ss && (x == LeafName(s.base) || x in EntryNames(s.entries));
  }

  lemma UidHasSource(ss: set<Search>, x: string) returns (s: Search)
    requires x in Uids(ss)
    ensures s in ss && x in Uids({s})
  {
    hide EntryUids;
    s :| s in ss && x in EntryUids(s.entries);
  }

  /** If a uid names a group, some order of two of the searches, and so some order of all of them, fails. */
  lemma ClashingOrder(ss: set<Search>) returns (order: seq<Search>)
    requires AllClean(ss) && EachTidy(ss) && !Tidy(ss)
    ensures Arranges(order, ss) && AllSearched(EMPTY, order).None?
    ensures |order| > 1 && AllSearched(EMPTY, order[..2]).None?
  {
    hide CleanSearch, Groups, Uids, Searched;
    var x :| x in Groups(ss) && x in Uids(ss);
    var b := GroupHasSource(ss, x);
    var a := UidHasSource(ss, x);
    assert a != b;
    ClashFails(a, b, x);
    var rest := SomeOrder(ss - {a, b});
    order := [b, a] + rest;
    assert order[..2] == [b, a];
    SearchFails(order, 2);
    forall y ensures y in SetOf(order) <==> y in ss { }
  }

  /** Every order of searches that do not contradict themselves succeeds if and only if no uid names a group. */
  lemma EveryOrderSucceedsIff(ss: set<Search>)
    requires AllClean(ss) && EachTidy(ss)
    ensures EveryOrderSucceeds(ss) <==> Tidy(ss)
  {
    hide CleanSearch, Tidy, AllSearched, EachTidy;
    if Tidy(ss) {
      forall order | Arranges(order, ss) ensures AllSearched(EMPTY, order).Some? { SearchesHold(order); }
    } else {
      var order := ClashingOrder(ss);
    }
  }

  lemma OrderFreeSucceeds(ss: set<Search>, order: seq<Search>, i: nat)
    requires OrderFree(ss) && Arranges(order, ss) && i < |order|
    ensures Succeeds(order, i)
  {
    hide Succeeds;
    assert order[i] == order[i];
  }

  /**
   For searches on cn= DNs and plain uids that do not contradict themselves: the order shows nowhere if and
   only if no uid of one names a group of another, and each of them says everything there is to say about
   what is below its base.
   */
  lemma OrderFreeIff(ss: set<Search>)
    requires AllClean(ss) && EachTidy(ss)
    ensures OrderFree(ss) <==> Tidy(ss) && SelfContained(ss)
  {
    hide CleanSearch, Tidy, AllSearched, EachTidy, ListedAt, SelfContained, Own;
    if Tidy(ss) {
      TidyOrderFreeIff(ss);
    } else {
      var order := ClashingOrder(ss);
      if OrderFree(ss) {
        OrderFreeSucceeds(ss, order, 1);
      }
    }
  }

  /** Searches that mention different groups are self-contained. */
  lemma ApartIsSelfContained(ss: set<Search>)
    requires Tidy(ss) && forall s, t :: s in ss && t in ss && s != t ==> Groups({s}) !! Groups({t})
    ensures SelfContained(ss)
  {
    hide LinksOf, Groups, Uids, LeafName;
    forall s | s in ss ensures Descendants(LinksOf(ss), Root(s)) == Own(s) {
      FewerLinks({s}, ss);
      FewerBelow(LinksOf({s}), LinksOf(ss), Root(s));
      forall x | x in Descendants(LinksOf(ss), Root(s)) ensures x in Own(s) {
        DescendantsAreBelow(LinksOf(ss), Root(s), x);
        var p :| Walk(LinksOf(ss), p) && |p| > 1 && p[0] == Root(s) && p[|p| - 1] == x;
        WalkStays(ss, s, p);
        DescendantsAreBelow(LinksOf({s}), Root(s), x);
      }
    }
  }

  lemma WalkStays(ss: set<Search>, s: Search, p: Path)
    requires Tidy(ss) && (forall s, t :: s in ss && t in ss && s != t ==> Groups({s}) !! Groups({t}))
    requires s in ss && Walk(LinksOf(ss), p) && p[0] == Root(s)
    ensures Walk(LinksOf({s}), p)
  {
    hide LinksOf, Groups, Uids, LeafName;
    RootIsGroup(s);
    for i := 0 to |p| - 1
      invariant forall k :: 0 <= k < i ==> Below(LinksOf({s}), p[k], p[k + 1])
      invariant p[i] in Groups({s}) || p[i] in Uids({s})
    {
      assert Below(LinksOf(ss), p[i], p[i + 1]);
      var t := LinkHasSource(ss, Link(p[i], p[i + 1]));
      FewerGroups(s, ss);
      FewerGroups(t, ss);
      assert t == s;
      LinkEnds(s, Link(p[i], p[i + 1]));
    }
  }

  lemma RootIsGroup(s: Search)
    ensures Root(s) in Groups({s})
  {
    hide LeafName;
  }

  lemma FewerGroups(s: Search, ss: set<Search>)
    requires s in ss
    ensures Groups({s}) <= Groups(ss) && Uids({s}) <= Uids(ss)
  {
    hide LeafName, EntryNames, EntryUids;
  }

  lemma LinkEnds(s: Search, l: Link)
    requires l in LinksOf({s})
    ensures l.child in Groups({s}) || l.child in Uids({s})
  {
    UsersAreUids({s});
    hide Groups, Uids, Pairs, Users;
  }

  /** Every link was given by one of the searches. */
  lemma LinkHasSource(ss: set<Search>, l: Link) returns (t: Search)
    requires Tidy(ss) && l in LinksOf(ss)
    ensures t in ss && l in LinksOf({t}) && l.parent in Groups({t})
  {
    hide LeafName, EntryPairs, EntryUsers, EntryNames, EntryUids, Groups, Uids;
    if l in Pairs(ss) && l.parent != l.child {
      t :| t in ss && l in EntryPairs(LeafName(t.base), t.entries);
    } else {
      t :| t in ss && l in EntryUsers(t.entries);
    }
    UsersAreUids({t});
    FewerGroups(t, ss);
    assert l in Pairs({t}) || l in Users({t});
  }

  // ----- inputs -----

  lemma PairDN(key: string, value: string)
    requires Letters(key) && Alnums(value)
    ensures var id := key + ['='] + value;
      ValidDN(id) && ValidPair(id) && ',' !in id && LeafName(id) == value && TypeOfId(id) == TypeOfKey(key)
  {
    var id := key + ['='] + value;
    BeforeSplit(key, '=', value);
    ValidPairIff(id);
    PairHasNoComma(id);
  }

  lemma DNBelow(key: string, value: string, rest: string)
    requires Letters(key) && Alnums(value) && ValidDN(rest)
    ensures var id := key + ['='] + value + [','] + rest;
      ValidDN(id) && LeafName(id) == value && TypeOfId(id) == TypeOfKey(key)
  {
    PairDN(key, value);
    BeforeSplit(key + ['='] + value, ',', rest);
    BeforeSplit(key, '=', value);
  }

  /**
   A memberUid that is a DN and names nobody yet: uid=<name>,<rest> becomes a user with that DN below its
   group, cn=<name>,<rest> is refused.
   */
  lemma MemberDNAdded(ix: Index, group: string, name: string, rest: string)
    requires Alnums(name) && ValidDN(rest) && name !in ix.dns && name !in ix.types
    ensures var id := "uid" + ['='] + name + [','] + rest;
      WithUser(ix, group, id) == Some(Linked(Found(ix, id), group, name))
      && TypeOf(Found(ix, id), name) == UserType && DNOf(Found(ix, id), name) == id
    ensures WithUser(ix, group, "cn" + ['='] + name + [','] + rest) == None
  {
    hide ValidDN, LeafName, TypeOfId;
    DNBelow("uid", name, rest);
    DNBelow("cn", name, rest);
    DNIsNotEmpty("uid" + ['='] + name + [','] + rest);
    DNIsNotEmpty("cn" + ['='] + name + [','] + rest);
  }

  lemma DNIsNotEmpty(id: string)
    ensures ValidDN(id) ==> id != ""
  {
  }

  /** cn=<name>,<rest> */
  function Cn(name: string, rest: string): string { "cn" + ['='] + name + [','] + rest }

  lemma CnIsGroup(name: string, rest: string)
    requires Alnums(name) && ValidDN(rest)
    ensures GroupDN(Cn(name, rest)) && LeafName(Cn(name, rest)) == name
  {
    assert Letters("cn");
    DNBelow("cn", name, rest);
  }

  lemma DNHasEquals(dn: string)
    requires ValidDN(dn)
    ensures '=' in dn
  {
    FirstPair(dn);
    assert Before(dn, ',')[|Before(Before(dn, ','), '=')|] == '=';
  }

  /** The names of the following inputs can be any; these, for instance. */
  lemma Samples()
    ensures Alnums("a") && Alnums("b") && Alnums("g1") && Alnums("u") && ValidDN("dc" + ['='] + "x")
  {
    hide ValidDN, TypeOfId, LeafName, ValidPair;
    PairDN("dc", "x");
  }

  lemma WordIsPlain(name: string)
    requires Alnums(name)
    ensures Plain(name)
  {
    if ValidDN(name) { DNHasEquals(name); }
  }

  /** A search whose result is one group with one user. */
  function OneGroup(base: string, group: string, uid: string): Search { Search(base, [Entry(group, [uid])]) }

  lemma OneGroupSays(base: string, group: string, uid: string)
    requires GroupDN(base) && GroupDN(group) && Plain(uid)
    ensures var s := OneGroup(base, group, uid);
      && CleanSearch(s) && Groups({s}) == {LeafName(base), LeafName(group)} && Uids({s}) == {uid}
      && Pairs({s}) == {Link(LeafName(base), LeafName(group))} && Users({s}) == {Link(LeafName(group), uid)}
  {
    hide LeafName, ValidDN, TypeOfId, Plain;
    var s, e := OneGroup(base, group, uid), Entry(group, [uid]);
    OneSearch(s);
    assert s.entries == [e] && e in s.entries && uid in e.memberUids;
  }

  lemma TwoSearches(a: Search, b: Search)
    ensures Groups({a, b}) == Groups({a}) + Groups({b}) && Uids({a, b}) == Uids({a}) + Uids({b})
    ensures Pairs({a, b}) == Pairs({a}) + Pairs({b}) && Users({a, b}) == Users({a}) + Users({b})
    ensures SetOf([a, b]) == {a, b} == SetOf([b, a]) && SetOf([a]) == {a}
  {
    hide LeafName, EntryNames, EntryUids, EntryPairs, EntryUsers;
  }

  /**
   A base that is a group below another base: both orders succeed, and a user that only the lower search
   gives is listed for the upper base exactly if the lower one was searched first.
   */
  lemma SharedGroup(a: Search, b: Search, u: string)
    requires AllClean({a, b}) && Tidy({a, b}) && a != b
    requires Link(Root(a), Root(b)) in LinksOf({a}) && u in Own(b) && u !in Own(a)
    ensures AllSearched(EMPTY, [a]).Some? && AllSearched(EMPTY, [a, b]).Some? && AllSearched(EMPTY, [b, a]).Some?
    ensures u !in Descendants(AllSearched(EMPTY, [a]).value.links, Root(a))
    ensures u in Descendants(AllSearched(EMPTY, [b, a]).value.links, Root(a))
    ensures !SelfContained({a, b})
  {
    hide LeafName, CleanSearch, Groups, Uids, LinksOf, Tidy, AllSearched, IsBelow, Descendants, Root;
    TwoSearches(a, b);
    FewerLinks({a}, {a, b});
    FewerLinks({b}, {a, b});
    SearchesHold([a]);
    SearchesLink([a]);
    SearchesHold([a, b]);
    SearchesHold([b, a]);
    SearchesLink([b, a]);
    var both := LinksOf({a, b});
    BelowByLink(both, Root(a), Root(b));
    DescendantsAreBelow(LinksOf({b}), Root(b), u);
    BelowMonotone(LinksOf({b}), both, Root(b), u);
    BelowTransitive(both, Root(a), Root(b), u);
    DescendantsAreBelow(both, Root(a), u);
  }

  /** Such searches: b is found below a and is the base of the other search, which finds c below it. */
  lemma SharedGroupInput(a: string, b: string, c: string, u1: string, u2: string, x: string, y: string)
    requires Alnums(a) && Alnums(b) && Alnums(c) && Alnums(u1) && Alnums(u2) && ValidDN(x) && ValidDN(y)
    requires a !in {b, c, u1, u2} && b !in {c, u1, u2} && c !in {u1, u2} && u1 != u2
    ensures var s, t := OneGroup(Cn(a, x), Cn(b, Cn(a, x)), u1), OneGroup(Cn(b, y), Cn(c, Cn(b, y)), u2);
      && AllSearched(EMPTY, [s]).Some? && AllSearched(EMPTY, [s, t]).Some? && AllSearched(EMPTY, [t, s]).Some?
      && !SelfContained({s, t})
      && u2 !in Descendants(AllSearched(EMPTY, [s]).value.links, a)
      && u2 in Descendants(AllSearched(EMPTY, [t, s]).value.links, a)
  {
    hide LeafName, ValidDN, TypeOfId, Plain, Cn, OneGroup, CleanSearch, Groups, Uids, Pairs, Users, Descendants,
      IsBelow, AllSearched;
    CnIsGroup(a, x);
    CnIsGroup(b, y);
    CnIsGroup(b, Cn(a, x));
    CnIsGroup(c, Cn(b, y));
    WordIsPlain(u1);
    WordIsPlain(u2);
    OneGroupSays(Cn(a, x), Cn(b, Cn(a, x)), u1);
    OneGroupSays(Cn(b, y), Cn(c, Cn(b, y)), u2);
    OneGroupBase(Cn(a, x), Cn(b, Cn(a, x)), u1);
    OneGroupBase(Cn(b, y), Cn(c, Cn(b, y)), u2);
    var s, t := OneGroup(Cn(a, x), Cn(b, Cn(a, x)), u1), OneGroup(Cn(b, y), Cn(c, Cn(b, y)), u2);
    TwoSearches(s, t);
    assert LinksOf({s}) == {Link(a, b), Link(b, u1)};
    assert Link(b, c) in LinksOf({t}) && Link(c, u2) in LinksOf({t});
    BelowByLink(LinksOf({t}), b, c);
    BelowByLink(LinksOf({t}), c, u2);
    BelowTransitive(LinksOf({t}), b, c, u2);
    DescendantsAreBelow(LinksOf({t}), b, u2);
    NoParentNotBelow(LinksOf({s}), a, u2);
    SharedGroup(s, t, u2);
  }

  lemma OneGroupBase(base: string, group: string, uid: string)
    ensures Root(OneGroup(base, group, uid)) == LeafName(base)
  {
    hide LeafName;
  }

  lemma NoParentNotBelow(links: set<Link>, root: string, x: string)
    requires forall l :: l in links ==> l.child != x
    ensures x !in Descendants(links, root)
  {
  }

  /**
   A uid of one search that is a group of the other: the one order fails, the other drops the users of
   that group without an error.
   */
  lemma UidIsOthersGroup(a: Search, b: Search, e: Entry, u: string)
    requires AllClean({a, b}) && Tidy({b}) && e in b.entries && u in e.memberUids && LeafName(e.dn) in Uids({a})
    ensures AllSearched(EMPTY, [b, a]).None?
    ensures AllSearched(EMPTY, [a, b]).Some? ==> Link(LeafName(e.dn), u) !in AllSearched(EMPTY, [a, b]).value.links
  {
    hide LeafName, CleanSearch, Groups, Uids, Pairs, Users, Searched, Holds, LinksOf;
    TwoSearches(a, b);
    assert [b, a][..1] == [b] && SetOf([b]) == {b};
    SearchesHold([b]);
    SearchAdded(AllSearched(EMPTY, [b]).value, Groups({b}), Uids({b}), Pairs({b}), Users({b}), a);
    EntryIsGroup(b, e);
    if AllSearched(EMPTY, [a, b]).Some? {
      UidLinkedIff([a, b], b, e, u);
    }
  }

  lemma EntryIsGroup(s: Search, e: Entry)
    requires e in s.entries
    ensures LeafName(e.dn) in Groups({s})
  {
    OneSearch(s);
    hide LeafName;
  }

  /** Such searches, and that the order that does not fail succeeds: afterwards u is below nothing. */
  lemma UidIsOthersGroupInput(a: string, b: string, g1: string, g2: string, u: string, x: string)
    requires Alnums(a) && Alnums(b) && Alnums(g1) && Alnums(g2) && Alnums(u) && ValidDN(x)
    requires a !in {b, g1, g2, u} && b !in {g1, g2, u} && g1 !in {g2, u} && g2 != u
    ensures var s, t := OneGroup(Cn(a, x), Cn(g1, Cn(a, x)), g2), OneGroup(Cn(b, x), Cn(g2, Cn(b, x)), u);
      && AllSearched(EMPTY, [t, s]).None? && AllSearched(EMPTY, [s, t]).Some?
      && forall l :: l in AllSearched(EMPTY, [s, t]).value.links ==> l.child != u
  {
    hide LeafName, ValidDN, TypeOfId, Plain, Cn, OneGroup, CleanSearch, Groups, Uids, Pairs, Users, Searched, Holds;
    CnIsGroup(a, x);
    CnIsGroup(b, x);
    CnIsGroup(g1, Cn(a, x));
    CnIsGroup(g2, Cn(b, x));
    WordIsPlain(g2);
    WordIsPlain(u);
    OneGroupSays(Cn(a, x), Cn(g1, Cn(a, x)), g2);
    OneGroupSays(Cn(b, x), Cn(g2, Cn(b, x)), u);
    var s, t := OneGroup(Cn(a, x), Cn(g1, Cn(a, x)), g2), OneGroup(Cn(b, x), Cn(g2, Cn(b, x)), u);
    TwoSearches(s, t);
    assert [s, t][..1] == [s] && [t, s][..1] == [t] && SetOf([t]) == {t};
    SearchesHold([s]);
    SearchesHold([t]);
    SearchAdded(AllSearched(EMPTY, [s]).value, Groups({s}), Uids({s}), Pairs({s}), Users({s}), t);
    SearchAdded(AllSearched(EMPTY, [t]).value, Groups({t}), Uids({t}), Pairs({t}), Users({t}), s);
    SearchesLink([s, t]);
  }

  /** One search whose first group has the second one as a user: it succeeds, and u ends up below nothing. */
  lemma UidIsOwnGroup(base: string, g1: string, g2: string, u: string, x: string)
    requires Alnums(base) && Alnums(g1) && Alnums(g2) && Alnums(u) && ValidDN(x)
    requires base !in {g1, g2, u} && g1 !in {g2, u} && g2 != u
    ensures var s := Search(Cn(base, x), [Entry(Cn(g1, x), [g2]), Entry(Cn(g2, x), [u])]);
      && CleanSearch(s) && AllSearched(EMPTY, [s]).Some?
      && forall l :: l in AllSearched(EMPTY, [s]).value.links ==> l.child != u
  {
    hide LeafName, ValidDN, TypeOfId, Plain, Cn, Holds, WithEntry, Found, NameOf, LinksAmong;
    CnIsGroup(base, x);
    CnIsGroup(g1, x);
    CnIsGroup(g2, x);
    WordIsPlain(g2);
    WordIsPlain(u);
    var e1, e2 := Entry(Cn(g1, x), [g2]), Entry(Cn(g2, x), [u]);
    var s := Search(Cn(base, x), [e1, e2]);
    TwoEntriesSucceed(s, base, e1, e2);
    assert SetOf([s]) == {s};
    SearchesLink([s]);
    UidBelowNothing(s, u);
  }

  lemma TwoEntrySets(e1: Entry, e2: Entry)
    requires |e1.memberUids| == 1 && |e2.memberUids| == 1
    ensures EntryNames([e1, e2]) == {LeafName(e1.dn), LeafName(e2.dn)}
    ensures EntryUids([e1, e2]) == {e1.memberUids[0], e2.memberUids[0]}
  {
    hide LeafName;
    var es := [e1, e2];
    assert e1 in es && e2 in es && e1.memberUids[0] in e1.memberUids && e2.memberUids[0] in e2.memberUids;
  }

  /** The second group's name is a uid of the first, and no other name occurs twice. */
  lemma TwoEntriesSucceed(s: Search, base: string, e1: Entry, e2: Entry)
    requires CleanSearch(s) && s.entries == [e1, e2] && LeafName(s.base) == base
    requires |e1.memberUids| == 1 && |e2.memberUids| == 1 && LeafName(e2.dn) == e1.memberUids[0]
    requires base !in {LeafName(e1.dn), LeafName(e2.dn)} && LeafName(e1.dn) != LeafName(e2.dn)
    requires e2.memberUids[0] !in {base, LeafName(e1.dn), LeafName(e2.dn)}
    ensures AllSearched(EMPTY, [s]).Some?
    ensures Groups({s}) == {base, LeafName(e1.dn), LeafName(e2.dn)} && Uids({s}) == {LeafName(e2.dn), e2.memberUids[0]}
  {
    hide LeafName, ValidDN, TypeOfId, Plain, Holds, WithEntry, Found, NameOf, LinksAmong;
    OneSearch(s);
    TwoEntrySets(e1, e2);
    hide Groups, Uids, Pairs, Users, EntryNames, EntryUids, EntryPairs, EntryUsers;
    EmptyHolds();
    GroupFound(EMPTY, {}, {}, {}, {}, s.base);
    var ix := Found(EMPTY, s.base);
    EntriesFollow(ix, {} + {base}, base, e1, e2);
    assert [s][..0] == [] && AllSearched(EMPTY, []) == Some(EMPTY) && AllSearched(EMPTY, [s]) == Searched(EMPTY, s);
  }

  lemma EntriesFollow(ix: Index, groups: set<string>, base: string, e1: Entry, e2: Entry)
    requires Holds(ix, groups, {}, {}, {}) && base in groups && CleanEntry(e1) && CleanEntry(e2)
    requires forall u :: u in e1.memberUids ==> u !in groups + {LeafName(e1.dn)}
    requires forall u :: u in e2.memberUids ==> u !in groups + {LeafName(e1.dn), LeafName(e2.dn)}
    ensures WithEntries(ix, base, [e1, e2]).Some?
  {
    hide LeafName, ValidDN, TypeOfId, Plain, Holds, WithEntry, CleanEntry;
    var g1 := LeafName(e1.dn);
    EntryAdded(ix, groups, {}, {}, {}, base, e1);
    EntryAdded(WithEntry(ix, base, e1).value, groups + {g1}, {} + (set v | v in e1.memberUids), {} + {Link(base, g1)},
               {} + (set v | v in e1.memberUids :: Link(g1, v)), base, e2);
    assert [e1, e2][..1] == [e1] && [e1][..0] == [];
    assert WithEntries(ix, base, []) == Some(ix) && WithEntries(ix, base, [e1]) == WithEntry(ix, base, e1);
  }

  /** A uid of groups that are uids themselves is below nothing. */
  lemma UidBelowNothing(s: Search, uid: string)
    requires uid !in Groups({s}) && forall e :: e in s.entries && uid in e.memberUids ==> LeafName(e.dn) in Uids({s})
    ensures forall l :: l in LinksOf({s}) ==> l.child != uid
  {
    UsersAreUids({s});
    OneSearch(s);
    hide LeafName, Groups, Uids, Pairs;
  }

  // ----- a listing that never ends -----

  /** Two searches that each find the other's base. */
  predicate Mutual(s: Search, t: Search) {
    && |s.entries| == 1 && |t.entries| == 1 && s.entries[0].memberUids == [] == t.entries[0].memberUids
    && GroupDN(s.base) && GroupDN(t.base) && GroupDN(s.entries[0].dn) && GroupDN(t.entries[0].dn)
    && LeafName(s.base) == LeafName(t.entries[0].dn) != LeafName(t.base) == LeafName(s.entries[0].dn)
  }

  lemma MutualInput(a: string, b: string, x: string)
    requires Alnums(a) && Alnums(b) && a != b && ValidDN(x)
    ensures Mutual(Search(Cn(a, x), [Entry(Cn(b, Cn(a, x)), [])]), Search(Cn(b, x), [Entry(Cn(a, Cn(b, x)), [])]))
  {
    hide LeafName, ValidDN, TypeOfId, Cn;
    CnIsGroup(a, x);
    CnIsGroup(b, x);
    CnIsGroup(b, Cn(a, x));
    CnIsGroup(a, Cn(b, x));
  }

  lemma MutualCycle(s: Search, t: Search)
    requires Mutual(s, t)
    ensures AllSearched(EMPTY, [s]).Some? && AllSearched(EMPTY, [s, t]).Some?
    ensures IsBelow(AllSearched(EMPTY, [s, t]).value.links, Root(t), Root(t))
  {
    hide LeafName, ValidDN, TypeOfId, Plain, Searched, Groups, Uids, Pairs, Users, IsBelow;
    var a, b := Root(s), Root(t);
    MutualSays(s, t);
    MutualSays(t, s);
    TwoSearches(s, t);
    SearchesHold([s]);
    SearchesHold([s, t]);
    SearchesLink([s, t]);
    var links := LinksOf({s, t});
    assert Link(a, b) in links && Link(b, a) in links;
    BelowByLink(links, a, b);
    BelowByLink(links, b, a);
    BelowTransitive(links, b, a, b);
  }

  lemma MutualSays(s: Search, t: Search)
    requires Mutual(s, t)
    ensures CleanSearch(s) && Uids({s}) == {} && Pairs({s}) == {Link(Root(s), Root(t))}
  {
    hide LeafName, ValidDN, TypeOfId, Plain;
    OneSearch(s);
    assert s.entries[0] in s.entries;
  }

  /** Both searches succeed, and then the listing never ends, however much room the recursion has. */
  method MutualGroupsNeverEnd(s: Search, t: Search, stack: nat) returns (first: bool, second: bool, listed: bool)
    requires Mutual(s, t)
    ensures first && second && !listed
  {
    hide LeafName, ValidDN, TypeOfId, Directory.Valid, Searched, Deep, IsBelow;
    MutualCycle(s, t);
    assert [s, t][..1] == [s] && [s][..0] == [] && AllSearched(EMPTY, []) == Some(EMPTY);
    var dir := new Directory();
    var a, b;
    first, a := dir.GetMembers(s.base, s.entries);
    ghost var ix := dir.index;
    second, b := dir.GetMembers(t.base, t.entries);
    assert b.name == Root(t) by { PairsAreKeys(t.base); }
    var mss;
    ghost var names, paths;
    listed, mss, names, paths := MembershipTree(dir, b, stack);
    CycleIsDeep(dir.index.links, b.name, b.name, stack);
  }
}
