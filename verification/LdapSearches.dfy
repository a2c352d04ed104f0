/** What searches leave in an index, in terms of what they were asked for and what they returned. */
module LdapSearches {
  import opened Options
  import opened LdapText
  import opened Ldap
  import opened LdapTree

  // ----- the input -----

  predicate GroupDN(dn: string) { ValidDN(dn) && TypeOfId(dn) == GroupType }

  /** What a directory server returns for groups: cn= DNs and plain uids. */
  predicate CleanEntry(e: Entry) { GroupDN(e.dn) && forall uid :: uid in e.memberUids ==> Plain(uid) }
  predicate CleanSearch(s: Search) { GroupDN(s.base) && forall e :: e in s.entries ==> CleanEntry(e) }
  predicate AllClean(ss: set<Search>) { forall s :: s in ss ==> CleanSearch(s) }

  function SetOf(order: seq<Search>): set<Search> { set s | s in order }

  function EntryNames(entries: seq<Entry>): set<string> { set e | e in entries :: LeafName(e.dn) }
  function EntryUids(entries: seq<Entry>): set<string> { set e, u | e in entries && u in e.memberUids :: u }

  function EntryPairs(base: string, entries: seq<Entry>): set<Link> {
    set e | e in entries :: Link(base, LeafName(e.dn))
  }

  function EntryUsers(entries: seq<Entry>): set<Link> {
    set e, u | e in entries && u in e.memberUids :: Link(LeafName(e.dn), u)
  }

  /** The names of groups and of users that some searches mention. */
  function Groups(ss: set<Search>): set<string> {
    (set s | s in ss :: LeafName(s.base)) + (set s, n | s in ss && n in EntryNames(s.entries) :: n)
  }
  function Uids(ss: set<Search>): set<string> { set s, u | s in ss && u in EntryUids(s.entries) :: u }

  /** Every base with the groups found under it, and every group with its memberUids. */
  function Pairs(ss: set<Search>): set<Link> { set s, l | s in ss && l in EntryPairs(LeafName(s.base), s.entries) :: l }
  function Users(ss: set<Search>): set<Link> { set s, l | s in ss && l in EntryUsers(s.entries) :: l }

  /** A group that is also someone's memberUid counts as a user: users have no users below them. */
  function LinksAmong(pairs: set<Link>, users: set<Link>, uids: set<string>): set<Link> {
    (set l | l in pairs && l.parent != l.child && !(l.parent in uids && l.child in uids))
    + (set l | l in users && l.parent !in uids)
  }

  function LinksOf(ss: set<Search>): set<Link> { LinksAmong(Pairs(ss), Users(ss), Uids(ss)) }

  /** No memberUid is the name of a group. */
  predicate Tidy(ss: set<Search>) { Groups(ss) !! Uids(ss) }

  // ----- what an index holds -----

  /**
   The index of these groups, uids, base pairs and user pairs: exactly the uids have no DN; the links are
   those among the pairs.
   */
  ghost predicate Holds(ix: Index, groups: set<string>, uids: set<string>, pairs: set<Link>, users: set<Link>) {
    && ix.dns.Keys == groups + uids == ix.types.Keys
    && (forall n :: n in ix.dns ==> (ix.dns[n] == "" <==> n in uids) && (ix.dns[n] != "" ==> LeafName(ix.dns[n]) == n))
    && (forall n :: n in ix.types ==> ix.types[n] == if n in uids then UserType else GroupType)
    && (forall l :: l in pairs ==> l.parent in groups && l.child in groups)
    && (forall l :: l in users ==> l.parent in groups && l.child in uids)
    && ix.links == LinksAmong(pairs, users, uids)
  }

  lemma EmptyHolds()
    ensures Holds(EMPTY, {}, {}, {}, {})
  {
  }

  lemma GroupFound(ix: Index, groups: set<string>, uids: set<string>, pairs: set<Link>, users: set<Link>, dn: string)
    requires Holds(ix, groups, uids, pairs, users) && GroupDN(dn)
    ensures NameOf(ix, dn) == LeafName(dn) && Holds(Found(ix, dn), groups + {LeafName(dn)}, uids, pairs, users)
  {
    hide GroupDN, LeafName, LinksAmong, Found, NameOf;
    DNFound(ix, dn);
  }

  lemma DNFound(ix: Index, dn: string)
    requires GroupDN(dn) && ix.dns.Keys == ix.types.Keys
    ensures var n, f := LeafName(dn), Found(ix, dn);
      && NameOf(ix, dn) == n && f.links == ix.links && dn != ""
      && (n in ix.dns ==> f == ix) && (n !in ix.dns ==> f.dns == ix.dns[n := dn] && f.types == ix.types[n := GroupType])
  {
    PairsAreKeys(dn);
    hide LeafName, ValidDN, TypeOfId;
  }

  lemma UidFound(ix: Index, uid: string)
    requires Plain(uid) && ix.dns.Keys == ix.types.Keys
    ensures var f := Found(ix, uid);
      && NameOf(ix, uid) == uid && f.links == ix.links
      && (uid in ix.dns ==> f == ix)
          && (uid !in ix.dns ==> f.dns == ix.dns[uid := ""] && f.types == ix.types[uid := UnknownType])
  {
    assert LeafName(uid) == uid;
    hide LeafName, ValidDN;
  }

  lemma PairLinked(ix: Index, groups: set<string>, uids: set<string>, pairs: set<Link>, users: set<Link>,
                   base: string, group: string)
    requires Holds(ix, groups, uids, pairs, users) && base in groups && group in groups
    ensures Holds(Linked(ix, base, group), groups, uids, pairs + {Link(base, group)}, users)
  {
    hide LeafName;
    var l := Link(base, group);
    assert DNOf(ix, group) == DNOf(ix, base) <==> base == group || (base in uids && group in uids);
    if base == group || (base in uids && group in uids) {
      assert LinksAmong(pairs + {l}, users, uids) == LinksAmong(pairs, users, uids);
    } else {
      assert LinksAmong(pairs + {l}, users, uids) == LinksAmong(pairs, users, uids) + {l};
    }
  }

  /** A uid that names a group with a DN is refused; any other one becomes a user, below its group if that has a DN. */
  lemma UserAdded(ix: Index, groups: set<string>, uids: set<string>, pairs: set<Link>, users: set<Link>,
                  group: string, uid: string)
    requires Holds(ix, groups, uids, pairs, users) && group in groups && Plain(uid)
    ensures WithUser(ix, group, uid).Some? <==> (uid in groups ==> uid in uids)
    ensures WithUser(ix, group, uid).Some? ==>
      Holds(WithUser(ix, group, uid).value, groups, uids + {uid}, pairs, users + {Link(group, uid)})
  {
    UidFound(ix, uid);
    hide LeafName, ValidDN, Plain, LinksAmong, Found, NameOf;
    if uid in uids {
      KnownUser(ix, groups, uids, pairs, users, group, uid);
    } else if uid !in groups {
      NewUser(ix, groups, uids, pairs, users, group, uid);
    }
  }

  lemma KnownUser(ix: Index, groups: set<string>, uids: set<string>, pairs: set<Link>, users: set<Link>,
                  group: string, uid: string)
    requires Holds(ix, groups, uids, pairs, users) && group in groups && uid in uids && Plain(uid)
    ensures WithUser(ix, group, uid) == Some(Linked(ix, group, uid))
    ensures Holds(Linked(ix, group, uid), groups, uids + {uid}, pairs, users + {Link(group, uid)})
  {
    hide LeafName, ValidDN, Plain, LinksAmong, Found, NameOf, Linked;
    UidFound(ix, uid);
    LinksGrow(groups, uids, pairs, users, group, uid);
    assert uids + {uid} == uids && ix.links + {} == ix.links;
    LinkedTo(ix, group, uid, group in uids);
  }

  lemma LinkedTo(ix: Index, group: string, uid: string, both: bool)
    requires DNOf(ix, uid) == "" && (DNOf(ix, group) == "" <==> both)
    ensures Linked(ix, group, uid) == ix.(links := ix.links + (if both then {} else {Link(group, uid)}))
  {
    assert ix.links + {} == ix.links;
  }

  lemma NewUser(ix: Index, groups: set<string>, uids: set<string>, pairs: set<Link>, users: set<Link>, group: string,
                uid: string)
    requires Holds(ix, groups, uids, pairs, users) && group in groups && uid !in groups + uids && Plain(uid)
    ensures WithUser(ix, group, uid).Some?
    ensures Holds(WithUser(ix, group, uid).value, groups, uids + {uid}, pairs, users + {Link(group, uid)})
  {
    hide WithUser, LeafName, ValidDN, Plain, LinksAmong, Found, NameOf;
    LinksGrow(groups, uids, pairs, users, group, uid);
    var links := ix.links + (if group in uids then {} else {Link(group, uid)});
    NewUserIs(ix, group, uid, group in uids);
    var r := WithUser(ix, group, uid).value;
    assert r.dns.Keys == groups + (uids + {uid}) == r.types.Keys;
    assert r.links == LinksAmong(pairs, users + {Link(group, uid)}, uids + {uid});
  }

  lemma NewUserIs(ix: Index, group: string, uid: string, both: bool)
    requires Plain(uid) && ix.dns.Keys == ix.types.Keys && uid !in ix.dns && group in ix.dns
    requires (ix.dns[group] == "" <==> both)
    ensures WithUser(ix, group, uid).Some?
    ensures var r := WithUser(ix, group, uid).value;
      && r.dns == ix.dns[uid := ""] && r.types == ix.types[uid := UserType]
      && r.links == ix.links + (if both then {} else {Link(group, uid)})
  {
    UidFound(ix, uid);
    hide LeafName, ValidDN, Plain, Found, NameOf;
    LinkedTo(Found(ix, uid), group, uid, both);
    hide Linked;
  }

  /** A new uid is no group, so it does not change which older pairs are linked. */
  lemma LinksGrow(groups: set<string>, uids: set<string>, pairs: set<Link>, users: set<Link>, group: string,
                  uid: string)
    requires forall l :: l in pairs ==> l.parent in groups && l.child in groups
    requires forall l :: l in users ==> l.parent in groups && l.child in uids
    requires (uid in groups ==> uid in uids) && group in groups
    ensures LinksAmong(pairs, users + {Link(group, uid)}, uids + {uid})
            == LinksAmong(pairs, users, uids) + (if group in uids then {} else {Link(group, uid)})
  {
  }

  lemma {:induction false} UsersAdded(ix: Index, groups: set<string>, uids: set<string>, pairs: set<Link>,
                                      users: set<Link>,
                                      group: string, more: seq<string>)
    requires Holds(ix, groups, uids, pairs, users) && group in groups && forall u :: u in more ==> Plain(u)
    ensures WithUsers(ix, group, more).Some? <==> forall u :: u in more && u in groups ==> u in uids
    ensures WithUsers(ix, group, more).Some? ==>
      Holds(WithUsers(ix, group, more).value, groups, uids + (set u | u in more), pairs, users +
          (set u | u in more :: Link(group, u)))
    decreases |more|
  {
    hide Holds, WithUser;
    if more == [] {
      assert uids + (set u | u in more) == uids && users + (set u | u in more :: Link(group, u)) == users;
    } else {
      var init, last := more[..|more| - 1], more[|more| - 1];
      assert more == init + [last];
      UsersAdded(ix, groups, uids, pairs, users, group, init);
      var before := WithUsers(ix, group, init);
      if before.Some? {
        var uids', users' := uids + (set u | u in init), users + (set u | u in init :: Link(group, u));
        UserAdded(before.value, groups, uids', pairs, users', group, last);
        assert uids' + {last} == uids + (set u | u in more);
        assert users' + {Link(group, last)} == users + (set u | u in more :: Link(group, u));
      }
    }
  }

  lemma EntryAdded(ix: Index, groups: set<string>, uids: set<string>, pairs: set<Link>, users: set<Link>,
                   base: string, e: Entry)
    requires Holds(ix, groups, uids, pairs, users) && base in groups && CleanEntry(e)
    ensures WithEntry(ix, base, e).Some? <==> forall u :: u in e.memberUids && u in groups + {LeafName(e.dn)} ==>
      u in uids
    ensures WithEntry(ix, base, e).Some? ==>
      Holds(WithEntry(ix, base, e).value, groups + {LeafName(e.dn)}, uids + (set u | u in e.memberUids),
            pairs + {Link(base, LeafName(e.dn))}, users + (set u | u in e.memberUids :: Link(LeafName(e.dn), u)))
  {
    hide Holds, LeafName, ValidDN, TypeOfId, Plain, WithUsers, Found, Linked, NameOf;
    var g := LeafName(e.dn);
    GroupFound(ix, groups, uids, pairs, users, e.dn);
    PairLinked(Found(ix, e.dn), groups + {g}, uids, pairs, users, base, g);
    UsersAdded(Linked(Found(ix, e.dn), base, g), groups + {g}, uids, pairs + {Link(base, g)}, users, g, e.memberUids);
  }

  lemma EntriesSplit(base: string, init: seq<Entry>, last: Entry)
    ensures EntryNames(init + [last]) == EntryNames(init) + {LeafName(last.dn)}
    ensures EntryUids(init + [last]) == EntryUids(init) + (set u | u in last.memberUids)
    ensures EntryPairs(base, init + [last]) == EntryPairs(base, init) + {Link(base, LeafName(last.dn))}
    ensures EntryUsers(init + [last]) == EntryUsers(init) + (set u | u in last.memberUids :: Link(LeafName(last.dn), u))
  {
    hide LeafName;
    var all := init + [last];
    assert forall e :: e in all <==> e in init || e == last;
  }

  lemma {:induction false} EntriesAdded(ix: Index, groups: set<string>, uids: set<string>, pairs: set<Link>,
                                        users: set<Link>,
                                        base: string, entries: seq<Entry>)
    requires Holds(ix, groups, uids, pairs, users) && base in groups && forall e :: e in entries ==> CleanEntry(e)
    ensures WithEntries(ix, base, entries).Some? ==>
      && Holds(WithEntries(ix, base, entries).value, groups + EntryNames(entries), uids + EntryUids(entries),
               pairs + EntryPairs(base, entries), users + EntryUsers(entries))
      && EntryUids(entries) * groups <= uids
    ensures (groups + EntryNames(entries)) * EntryUids(entries) <= uids ==> WithEntries(ix, base, entries).Some?
    decreases |entries|
  {
    hide Holds, WithEntry, LeafName, CleanEntry;
    if entries == [] {
      assert groups + EntryNames(entries) == groups && uids + EntryUids(entries) == uids;
      assert pairs + EntryPairs(base, entries) == pairs && users + EntryUsers(entries) == users;
    } else {
      var init, last := entries[..|entries| - 1], entries[|entries| - 1];
      assert entries == init + [last];
      EntriesSplit(base, init, last);
      EntriesAdded(ix, groups, uids, pairs, users, base, init);
      hide EntryNames, EntryUids, EntryPairs, EntryUsers;
      var before := WithEntries(ix, base, init);
      if before.Some? {
        var groups', uids' := groups + EntryNames(init), uids + EntryUids(init);
        var pairs', users' := pairs + EntryPairs(base, init), users + EntryUsers(init);
        EntryAdded(before.value, groups', uids', pairs', users', base, last);
        assert groups' + {LeafName(last.dn)} == groups + EntryNames(entries);
        assert uids' + (set u | u in last.memberUids) == uids + EntryUids(entries);
        assert pairs' + {Link(base, LeafName(last.dn))} == pairs + EntryPairs(base, entries);
        assert users' + (set u | u in last.memberUids :: Link(LeafName(last.dn), u)) == users + EntryUsers(entries);
      }
    }
  }

  lemma OneSearch(s: Search)
    ensures Groups({s}) == {LeafName(s.base)} + EntryNames(s.entries) && Uids({s}) == EntryUids(s.entries)
    ensures Pairs({s}) == EntryPairs(LeafName(s.base), s.entries) && Users({s}) == EntryUsers(s.entries)
  {
    hide LeafName, EntryNames, EntryUids, EntryPairs, EntryUsers;
  }

  lemma SearchAdded(ix: Index, groups: set<string>, uids: set<string>, pairs: set<Link>, users: set<Link>, s: Search)
    requires Holds(ix, groups, uids, pairs, users) && CleanSearch(s)
    ensures Searched(ix, s).Some? ==>
      && Holds(Searched(ix, s).value, groups + Groups({s}), uids + Uids({s}), pairs + Pairs({s}), users + Users({s}))
      && Uids({s}) * (groups + {LeafName(s.base)}) <= uids
    ensures (groups + Groups({s})) * Uids({s}) <= uids ==> Searched(ix, s).Some?
    ensures NameOf(ix, s.base) == LeafName(s.base)
  {
    var base := LeafName(s.base);
    hide Holds, LeafName, ValidDN, TypeOfId, Plain, WithEntries, Found, NameOf, Groups, Uids, Pairs, Users,
      EntryNames, EntryUids, EntryPairs, EntryUsers;
    OneSearch(s);
    GroupFound(ix, groups, uids, pairs, users, s.base);
    EntriesAdded(Found(ix, s.base), groups + {base}, uids, pairs, users, base, s.entries);
    assert groups + {base} + EntryNames(s.entries) == groups + Groups({s});
  }

  lemma SearchesSplit(order: seq<Search>)
    requires order != []
    ensures var init, last := SetOf(order[..|order| - 1]), order[|order| - 1];
      && SetOf(order) == init + {last}
      && Groups(SetOf(order)) == Groups(init) + Groups({last}) && Uids(SetOf(order)) == Uids(init) + Uids({last})
      && Pairs(SetOf(order)) == Pairs(init) + Pairs({last}) && Users(SetOf(order)) == Users(init) + Users({last})
  {
    hide EntryNames, EntryUids, EntryPairs, EntryUsers, LeafName;
    assert order == order[..|order| - 1] + [order[|order| - 1]];
  }

  /** After searches that succeeded, the index holds what they gave, in whatever order they were made. */
  lemma {:induction false} SearchesHold(order: seq<Search>)
    requires AllClean(SetOf(order))
    ensures var ss := SetOf(order);
      && (AllSearched(EMPTY, order).Some? ==>
          Holds(AllSearched(EMPTY, order).value, Groups(ss), Uids(ss), Pairs(ss), Users(ss)))
      && (Tidy(ss) ==> AllSearched(EMPTY, order).Some?)
    decreases |order|
  {
    hide Holds, Groups, Uids, Pairs, Users, CleanSearch;
    if order == [] {
      EmptyHolds();
      NoSearches();
    } else {
      var init, last := order[..|order| - 1], order[|order| - 1];
      SearchesSplit(order);
      SearchesHold(init);
      var before := AllSearched(EMPTY, init);
      if before.Some? {
        var ss := SetOf(init);
        SearchAdded(before.value, Groups(ss), Uids(ss), Pairs(ss), Users(ss), last);
      }
    }
  }

  lemma NoSearches()
    ensures SetOf([]) == {} && Groups({}) == {} && Uids({}) == {} && Pairs({}) == {} && Users({}) == {}
  {
  }

  // ----- links -----

  /**
   Searches on cn= DNs and plain uids, if none fails, leave exactly the links their input says; exactly
   the names that are somebody's memberUid have no DN.
   */
  lemma SearchesLink(order: seq<Search>)
    requires AllClean(SetOf(order)) && AllSearched(EMPTY, order).Some?
    ensures var ix, ss := AllSearched(EMPTY, order).value, SetOf(order);
      && ix.links == LinksOf(ss) && ix.dns.Keys == Groups(ss) + Uids(ss)
      && forall n :: n in ix.dns ==> (ix.dns[n] == "" <==> n in Uids(ss))
  {
    hide Groups, Uids, Pairs, Users, CleanSearch, LinksAmong;
    SearchesHold(order);
  }

  /** A memberUid ends up below its group if and only if the group's own name is nobody's memberUid. */
  lemma UidLinkedIff(order: seq<Search>, s: Search, e: Entry, uid: string)
    requires AllClean(SetOf(order)) && AllSearched(EMPTY, order).Some? && s in order && e in s.entries
    requires uid in e.memberUids
    ensures Link(LeafName(e.dn), uid) in AllSearched(EMPTY, order).value.links <==>
        LeafName(e.dn) !in Uids(SetOf(order))
  {
    SearchesLink(order);
    hide LeafName, CleanSearch;
    var ss, l := SetOf(order), Link(LeafName(e.dn), uid);
    assert uid in EntryUids(s.entries) && uid in Uids(ss);
    assert l in EntryUsers(s.entries) && l in Users(ss);
  }

  /** A base and a group found under it are linked unless they are the same or both are memberUids. */
  lemma GroupLinkedIff(order: seq<Search>, s: Search, e: Entry)
    requires AllClean(SetOf(order)) && Tidy(SetOf(order)) && s in order && e in s.entries
    ensures AllSearched(EMPTY, order).Some?
    ensures Link(LeafName(s.base), LeafName(e.dn)) in AllSearched(EMPTY, order).value.links <==>
        LeafName(s.base) != LeafName(e.dn)
  {
    SearchesHold(order);
    SearchesLink(order);
    hide LeafName, CleanSearch;
    var ss, l := SetOf(order), Link(LeafName(s.base), LeafName(e.dn));
    assert l in EntryPairs(LeafName(s.base), s.entries) && l in Pairs(ss);
    assert LeafName(s.base) in Groups(ss);
    UsersAreUids(ss);
  }

  lemma UsersAreUids(ss: set<Search>)
    ensures forall l :: l in Users(ss) ==> l.child in Uids(ss) && l.parent in Groups(ss)
    ensures forall l :: l in Pairs(ss) ==> l.parent in Groups(ss) && l.child in Groups(ss)
  {
    hide LeafName, EntryNames, EntryUids, EntryPairs, EntryUsers;
    forall l | l in Users(ss) ensures l.child in Uids(ss) && l.parent in Groups(ss) {
      var s :| s in ss && l in EntryUsers(s.entries);
      EntryEnds(s, l);
    }
    forall l | l in Pairs(ss) ensures l.parent in Groups(ss) && l.child in Groups(ss) {
      var s :| s in ss && l in EntryPairs(LeafName(s.base), s.entries);
      EntryEnds(s, l);
    }
  }

  lemma EntryEnds(s: Search, l: Link)
    ensures l in EntryUsers(s.entries) ==> l.child in EntryUids(s.entries) && l.parent in EntryNames(s.entries)
    ensures l in EntryPairs(LeafName(s.base), s.entries) ==>
      l.parent == LeafName(s.base) && l.child in EntryNames(s.entries)
  {
    hide LeafName;
  }

  // ----- cycles -----

  /** The pairs of a base and a different group under it. */
  function ProperPairs(ss: set<Search>): set<Link> { set l | l in Pairs(ss) && l.parent != l.child }

  /** If no uid is a group, the graph has a cycle exactly if the bases and the groups found under them have one. */
  lemma AcyclicIff(ss: set<Search>)
    requires Tidy(ss)
    ensures NoCycle(LinksOf(ss)) <==> NoCycle(ProperPairs(ss))
  {
    UsersAreUids(ss);
    hide Groups, Uids, Pairs, Users, Walk;
    assert ProperPairs(ss) <= LinksOf(ss);
    forall x | IsBelow(ProperPairs(ss), x, x) ensures IsBelow(LinksOf(ss), x, x) {
      BelowMonotone(ProperPairs(ss), LinksOf(ss), x, x);
    }
    forall x | IsBelow(LinksOf(ss), x, x) ensures IsBelow(ProperPairs(ss), x, x) {
      var p :| Walk(LinksOf(ss), p) && |p| > 1 && p[0] == x && p[|p| - 1] == x;
      RoundOfGroups(ss, p);
    }
  }

  /** A closed walk meets no user, for nothing is below a user. */
  lemma RoundOfGroups(ss: set<Search>, p: Path)
    requires Tidy(ss) && Walk(LinksOf(ss), p) && |p| > 1 && p[0] == p[|p| - 1]
    ensures Walk(ProperPairs(ss), p)
  {
    UsersAreUids(ss);
    hide Groups, Uids, Pairs, Users;
    forall i | 0 <= i < |p| - 1 ensures Below(ProperPairs(ss), p[i], p[i + 1]) {
      assert Below(LinksOf(ss), p[i], p[i + 1]);
      if i + 1 < |p| - 1 {
        assert Below(LinksOf(ss), p[i + 1], p[i + 1 + 1]);
      } else {
        assert Below(LinksOf(ss), p[0], p[0 + 1]);
      }
    }
  }

  // ----- one search -----

  /**
   A search on an index of its own leaves two layers: nothing is below a member without a DN, no walk
   takes more than two links, and there is no cycle.
   */
  lemma OneSearchTwoLayers(s: Search)
    requires CleanSearch(s) && AllSearched(EMPTY, [s]).Some?
    ensures var ix := AllSearched(EMPTY, [s]).value;
      && (forall l :: l in ix.links ==> DNOf(ix, l.parent) != "")
      && (forall x :: !Deep(ix.links, x, 2)) && NoCycle(ix.links)
  {
    assert SetOf([s]) == {s} && [s][..0] == [] && AllSearched(EMPTY, []) == Some(EMPTY)
        && AllSearched(EMPTY, [s]) == Searched(EMPTY, s);
    SearchesLink([s]);
    EmptyHolds();
    hide Groups, Uids, Users, Pairs, LinksOf, LeafName, CleanSearch, Searched, Deep, IsBelow;
    SearchAdded(EMPTY, {}, {}, {}, {}, s);
    var ix := AllSearched(EMPTY, [s]).value;
    OneSearchLinks(s);
    forall x ensures !Deep(ix.links, x, 2) { TwoLayersAreShallow(ix.links, LeafName(s.base), Uids({s}), x); }
    forall x ensures !IsBelow(ix.links, x, x) {
      if IsBelow(ix.links, x, x) { CycleIsDeep(ix.links, x, x, 2); }
    }
  }

  lemma OneSearchLinks(s: Search)
    requires LeafName(s.base) !in Uids({s})
    ensures forall l :: l in LinksOf({s}) ==>
      && l.parent !in Uids({s}) && l.parent in Groups({s}) + Uids({s})
      && (l.child in Uids({s}) || (l.parent == LeafName(s.base) && l.child != LeafName(s.base)))
  {
    UsersAreUids({s});
    OneSearch(s);
    hide Groups, Uids, Users, LeafName, EntryUids, EntryNames, EntryUsers;
  }

  lemma ThreeLinks(links: set<Link>, p: Path)
    requires Walk(links, p) && |p| > 3
    ensures Link(p[0], p[1]) in links && Link(p[1], p[2]) in links && Link(p[2], p[3]) in links
  {
    assert Below(links, p[0], p[0 + 1]) && Below(links, p[1], p[1 + 1]) && Below(links, p[2], p[2 + 1]);
  }

  lemma TwoLayersAreShallow(links: set<Link>, base: string, uids: set<string>, x: string)
    requires base !in uids
    requires forall l :: l in links ==> l.parent !in uids && (l.child in uids || (l.parent == base && l.child != base))
    ensures !Deep(links, x, 2)
  {
    if Deep(links, x, 2) {
      var p :| Walk(links, p) && p[0] == x && |p| > 2 + 1;
      ThreeLinks(links, p);
    }
  }
}
