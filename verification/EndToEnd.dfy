/** From an LDAP search to the catalog. */
module EndToEnd {
  import opened Options
  import opened Catalog
  import opened Desired
  import opened Progress
  import opened Handlers
  import opened OptionMaps
  import opened Plans
  import opened Visits
  import opened Planners
  import opened Ldap
  import opened LdapTree
  import opened LdapSearches
  import opened LdapOrders
  import opened Theorems
  import LdapText
  import Tables

  // ----- what planned configurations come to -----

  /** A reconciled plan is converged: the planner's tables never contradict themselves. */
  lemma PlansConverge(w: World, d: Spec, a: Log, b: Log)
    requires Clean(d.roles) && Reconciled(w, d, a, b, true)
    ensures Coherent(d) && Converged(w, d, b.cat)
  {
    CleanPlansAreCoherent(d);
    Convergence(w, d, a, b);
  }

  /**
   Configured passwords do not get through the planner: every planned login role but the connected one
   ends without.
   */
  lemma PlannedPasswordsAreReset(w: World, d: Spec, a: Log, b: Log, n: Name)
    requires Clean(d.roles) && Reconciled(w, d, a, b, true)
    requires n in d.roles && n != w.me && LOGIN in d.roles[n].options
    ensures n in b.cat.roles && CanLogin in b.cat.roles[n].attrs && b.cat.roles[n].password == None
    ensures !b.cat.roles[n].until.At?
  {
    hide Clean, Reconciled;
    PlansConverge(w, d, a, b);
    assert CleanRole(d.roles[n]) by { PlannedRole(d, n); }
    assert RoleConverged(w, b.cat, n, d.roles[n]);
    LoginColumn();
  }

  lemma PlannedRole(d: Spec, n: Name)
    requires Clean(d.roles) && n in d.roles
    ensures CleanRole(d.roles[n])
  {
  }

  lemma PlannedKey(w: World, d: Spec, c: Catalog, n: Name, o: RoleOption)
    requires AllHeld(w, d, c) && Clean(d.roles) && n in d.roles && o in d.roles[n].options
    ensures n in c.roles && o in NORMAL_OPTIONS && Checked(o).Some? && Checked(o).value.column in c.roles[n].attrs
  {
    hide IsHex, Altered, Validate;
    assert CleanRole(d.roles[n]);
    NormalOption(o);
    var m := Checked(o).value;
    NormalDemands(d.roles[n].options, m.column);
    assert Demands(d.roles[n].options, m);
    assert Held(w, d, c, RoleExists(n)) && Held(w, d, c, OfRole(n, HasColumn(m.column)));
  }

  lemma PlannedEdge(w: World, d: Spec, c: Catalog, e: Edge)
    requires AllHeld(w, d, c) && e in PlanOf(d.roles, d.grants).edges
    ensures e in c.members
  {
    var g :| g in d.grants && g.state == Present && EdgeOf(g) == e;
    var i :| 0 <= i < |d.grants| && d.grants[i] == g;
    assert GrantDemanded(d, e);
    assert Held(w, d, c, Member(e));
  }

  /**
   A successful run carries the whole closed form of the configuration into the catalog: every role it
   names exists, with every option it was given on, and every membership is there.
   */
  lemma ConfigurationIsMet(w: World, d: Spec, a: Log, b: Log, start: Plan, config: Config, ldap: map<Name, Group>)
    requires Clean(d.roles) && PlanOf(d.roles, d.grants) == ClosedForm(start, config, ldap)
    requires Reconciled(w, d, a, b, true)
    ensures forall n :: n in ClosedForm(start, config, ldap).names ==> n in b.cat.roles
    ensures forall n, o :: (n, o) in ClosedForm(start, config, ldap).keys ==>
      n in b.cat.roles && Checked(o).Some? && Checked(o).value.column in b.cat.roles[n].attrs
    ensures ClosedForm(start, config, ldap).edges <= b.cat.members
  {
    hide Clean, ClosedForm, AllHeld, Advance, Checked;
    var plan := ClosedForm(start, config, ldap);
    forall n | n in plan.names ensures n in b.cat.roles {
      PlannedRole(d, n);
      assert Held(w, d, b.cat, RoleExists(n)) by { HeldAt(w, d, b.cat, RoleExists(n)); }
    }
    forall n, o | (n, o) in plan.keys
      ensures n in b.cat.roles && Checked(o).Some? && Checked(o).value.column in b.cat.roles[n].attrs
    {
      PlannedKey(w, d, b.cat, n, o);
    }
    forall e | e in plan.edges ensures e in b.cat.members { PlannedEdge(w, d, b.cat, e); }
  }

  lemma HeldAt(w: World, d: Spec, c: Catalog, k: Key)
    requires AllHeld(w, d, c)
    ensures Held(w, d, c, k)
  {
  }

  /**
   Every member an LDAP group's tree lists can log in and is a direct member of the group, for every
   group at once.
   */
  lemma LdapGroupsSynced(w: World, d: Spec, a: Log, b: Log, start: Plan, config: Config, ldap: map<Name, Group>,
                         u: Name, m: Name)
    requires Clean(d.roles) && PlanOf(d.roles, d.grants) == ClosedForm(start, config, ldap)
    requires Reconciled(w, d, a, b, true)
    requires u in config.users && config.users[u].auth == "ldap-group" && u in ldap && m in ldap[u].members
    ensures Synced(b.cat, m, ldap[u].name)
  {
    hide Clean, Reconciled, PlanOf, AbsoluteOf, Checked, RolePlans, DatabasePlans, RolePlan, DatabasePlan;
    ConfigurationIsMet(w, d, a, b, start, config, ldap);
    assert UserGives(u, config.users[u], ldap, m, LOGIN);
    ClosedFormKeys(start, config, ldap, m, LOGIN);
    assert Edge(m, ldap[u].name) in UserPlan(u, config.users[u], ldap).edges;
    assert Edge(m, ldap[u].name) in ClosedForm(start, config, ldap).edges;
    LoginColumn();
  }

  lemma LoginColumn()
    ensures Checked(LOGIN) == Some(Meaning(CanLogin, true))
  {
    SpelledLogin();
    CheckedEnabled(LOGIN);
  }

  // ----- what a success leaves behind -----

  /** The role exists, can log in, and is a direct member of the group. */
  predicate Synced(c: Catalog, m: Name, group: Name) {
    m in c.roles && CanLogin in c.roles[m].attrs && Edge(m, group) in c.members
  }

  lemma PlannedMemberSynced(w: World, d: Spec, c: Catalog, m: Name, group: Name)
    requires AllHeld(w, d, c) && Clean(d.roles)
    requires (m, LOGIN) in PlanOf(d.roles, d.grants).keys && Edge(m, group) in PlanOf(d.roles, d.grants).edges
    ensures Synced(c, m, group)
  {
    hide Clean, AllHeld;
    LoginColumn();
    PlannedKey(w, d, c, m, LOGIN);
    PlannedEdge(w, d, c, Edge(m, group));
  }

  // ----- one group -----

  /** Everything below the base is synced to the base's role. */
  ghost predicate AllSynced(c: Catalog, links: set<Link>, base: string) {
    forall x :: x in Descendants(links, base) ==> Synced(c, x, base)
  }

  /**
   One ldap-group entry, planned on any index into tables that hold roles under their own names or none,
   its own role known or not: if planning and reconciling succeed, every name below the base group can log
   in and is a direct member of the group's role.
   */
  method SyncGroup(planner: Planner, n: Name, c: UserConfig) returns (ok: bool)
    requires IsLdapGroup(c) && planner.dir.Valid()
    requires Clean(planner.h.roles) && NamedOrNot(planner.h.roles) && Wf(planner.h.server.w, planner.h.server.cat)
    modifies planner.h`roles, planner.h`grants, planner.dir, planner.dir.pool
    modifies planner.h.server`cat, planner.h.server`trace, planner.h.server`tables
    ensures planner.dir.Valid()
    ensures ok ==> Visited(old(planner.dir.index), n, c, planner.answers, planner.stack) == Some(planner.dir.index)
    ensures ok ==> AllSynced(planner.h.server.cat, planner.dir.index.links, NameOf(old(planner.dir.index), c.baseDN))
  {
    hide Clean, NamedOrNot, Wf, Advance, AllHeld, Sane, Normal, Directory.Valid, Searched, Deep, Descendants, Synced,
      UserPlanned, PlanOf, Join, LdapText.LeafName, GrantsIn, AbsoluteOf;
    var options;
    ok, options := planner.ParseUserOptions(c.options);
    if !ok {
      return;
    }
    ghost var before := planner.Tables();
    ok := planner.HandleLdapGroup(n, c, options);
    if !ok {
      return;
    }
    ok := planner.h.Reconcile();
    if ok {
      var s := planner.h.server;
      ghost var group := GroupListed(old(planner.dir.index), n, c, planner.answers);
      GroupSynced(s.w, planner.h.Wanted(), old(s.State()), s.State(), before, n, c, group);
    }
  }

  lemma GroupSynced(w: World, d: Spec, a: Log, b: Log, before: Draft, n: Name, c: UserConfig, group: Group)
    requires Reconciled(w, d, a, b, true) && Clean(d.roles) && NamedOrNot(before.roles) && IsLdapGroup(c)
    requires UserPlanned(before, Draft(d.roles, d.grants), n, c, group)
    ensures forall x :: x in group.members ==> Synced(b.cat, x, group.name)
  {
    hide Advance, AllHeld, Clean, Synced, PlanOf, AbsoluteOf, Sane, Spoiled, NamedOrNot, Unnamed, MemberOf;
    assert !Spoiled(Draft(d.roles, d.grants)) by {
      if Spoiled(Draft(d.roles, d.grants)) { SpoiledFails(w, d, a, b); }
    }
    forall x | x in group.members ensures Synced(b.cat, x, group.name) {
      var p := GroupPlan(n, c, group);
      assert PlanOf(d.roles, d.grants) == Join(PlanOf(before.roles, before.grants), p);
      assert (x, LOGIN) in p.keys && Edge(x, group.name) in p.edges;
      PlannedMemberSynced(w, d, b.cat, x, group.name);
    }
  }

  /** On an index of its own, the uids of a search are below its base exactly if their group is nobody's memberUid. */
  lemma UidIsBelow(s: Search, e: Entry, uid: string)
    requires CleanSearch(s) && AllSearched(EMPTY, [s]).Some? && e in s.entries && uid in e.memberUids
    ensures LdapText.LeafName(e.dn) !in Uids({s}) ==> uid in Own(s)
    ensures Link(LdapText.LeafName(e.dn), uid) in LinksOf({s}) <==> LdapText.LeafName(e.dn) !in Uids({s})
  {
    hide LdapText.LeafName, LinksOf, CleanSearch, Uids, IsBelow, AllSearched, Descendants;
    var g := LdapText.LeafName(e.dn);
    assert SetOf([s]) == {s} && s in [s];
    UidLinkedIff([s], s, e, uid);
    SearchesLink([s]);
    if g !in Uids({s}) {
      BelowByLink(LinksOf({s}), g, uid);
      if g != Root(s) {
        GroupBelowBase(s, e);
        BelowByLink(LinksOf({s}), Root(s), g);
        BelowTransitive(LinksOf({s}), Root(s), g, uid);
      }
      DescendantsAreBelow(LinksOf({s}), Root(s), uid);
    }
  }

  lemma GroupBelowBase(s: Search, e: Entry)
    requires e in s.entries && LdapText.LeafName(e.dn) !in Uids({s}) && LdapText.LeafName(e.dn) != Root(s)
    ensures Link(Root(s), LdapText.LeafName(e.dn)) in LinksOf({s})
  {
    OneSearch(s);
    hide LdapText.LeafName, Uids, Users, EntryUids;
  }

  /** So a group synced on an index of its own has every uid of its search whose group is nobody's memberUid. */
  lemma GroupUidsSynced(c: Catalog, s: Search, e: Entry, uid: string)
    requires CleanSearch(s) && AllSearched(EMPTY, [s]).Some? && AllSynced(c, LinksOf({s}), Root(s))
    requires e in s.entries && uid in e.memberUids && LdapText.LeafName(e.dn) !in Uids({s})
    ensures Synced(c, uid, Root(s))
  {
    hide LdapText.LeafName, CleanSearch, Synced;
    UidIsBelow(s, e, uid);
  }

  // ----- all groups of a run -----

  predicate AskableAll(users: map<Name, UserConfig>, answers: Answers) {
    forall n :: n in users && IsLdapGroup(users[n]) ==> Askable(n, users[n], answers)
  }

  /** The searches of some user entries. */
  function SearchesOf(names: set<Name>, users: map<Name, UserConfig>, answers: Answers): set<Search> {
    set n | n in names && n in users && IsLdapGroup(users[n]) && n in answers :: SearchOf(n, users[n], answers)
  }

  /** What every LDAP group of the configuration lists on an index of its own. */
  ghost function OwnListings(names: set<Name>, users: map<Name, UserConfig>, answers: Answers): map<Name, Group> {
    map n | n in names && n in users && IsLdapGroup(users[n]) && n in answers ::
      Group(Root(SearchOf(n, users[n], answers)), Own(SearchOf(n, users[n], answers)))
  }

  function SearchSeq(order: seq<Name>, users: map<Name, UserConfig>, answers: Answers): seq<Search>
    decreases |order|
  {
    if order == [] then []
    else
      var n := order[|order| - 1];
      var before := SearchSeq(order[..|order| - 1], users, answers);
      if n in users && IsLdapGroup(users[n]) && n in answers then before + [SearchOf(n, users[n], answers)] else before
  }

  lemma {:induction false} SearchSeqIsOf(order: seq<Name>, users: map<Name, UserConfig>, answers: Answers)
    ensures SetOf(SearchSeq(order, users, answers)) == SearchesOf(Elements(order), users, answers)
    decreases |order|
  {
    if order != [] {
      var init, n := order[..|order| - 1], order[|order| - 1];
      assert order == init + [n];
      SearchSeqIsOf(init, users, answers);
      hide SearchOf;
      if n in users && IsLdapGroup(users[n]) && n in answers {
        var s := SearchOf(n, users[n], answers);
        assert SearchSeq(order, users, answers) == SearchSeq(init, users, answers) + [s];
        assert SetOf(SearchSeq(init, users, answers) + [s]) == SetOf(SearchSeq(init, users, answers)) + {s};
        assert SearchesOf(Elements(order), users, answers) == SearchesOf(Elements(init), users, answers) + {s};
      } else {
        assert SearchesOf(Elements(order), users, answers) == SearchesOf(Elements(init), users, answers);
      }
    }
  }

  lemma AllSearchedNext(searches: seq<Search>, s: Search)
    ensures AllSearched(EMPTY, searches + [s])
            == match AllSearched(EMPTY, searches) case None => None case Some(before) => Searched(before, s)
  {
    assert (searches + [s])[..|searches|] == searches;
  }

  /** Visiting user entries is making their searches, as long as every listing ends. */
  lemma {:induction false} VisitsSearch(order: seq<Name>, users: map<Name, UserConfig>, answers: Answers, stack: nat)
    requires forall n :: n in order ==> n in users
    ensures VisitedAll(EMPTY, order, users, answers, stack).Some? ==>
      AllSearched(EMPTY, SearchSeq(order, users, answers)) == VisitedAll(EMPTY, order, users, answers, stack)
    decreases |order|
  {
    hide Searched, Deep, SearchOf, LdapText.LeafName;
    if order != [] {
      var init, n := order[..|order| - 1], order[|order| - 1];
      VisitsSearch(init, users, answers, stack);
      if IsLdapGroup(users[n]) && n in answers {
        AllSearchedNext(SearchSeq(init, users, answers), SearchOf(n, users[n], answers));
      }
    }
  }

  lemma {:induction false} VisitsAsk(ix: Index, order: seq<Name>, users: map<Name, UserConfig>, answers: Answers,
                                     stack: nat)
    requires (forall n :: n in order ==> n in users) && VisitedAll(ix, order, users, answers, stack).Some?
    ensures forall n :: n in order && IsLdapGroup(users[n]) ==> Askable(n, users[n], answers)
    decreases |order|
  {
    hide Searched, Deep;
    if order != [] {
      var init := order[..|order| - 1];
      assert order == init + [order[|order| - 1]];
      VisitsAsk(ix, init, users, answers, stack);
    }
  }

  // ----- whether a run gets through -----

  /** One direction: room for as many calls as there are names is enough for every order. */
  lemma {:induction false} VisitsEnd(order: seq<Name>, names: set<Name>, users: map<Name, UserConfig>,
                                     answers: Answers, stack: nat)
    requires (forall n :: n in order ==> n in users) && AskableAll(users, answers) && Elements(order) <= names
    requires var ss := SearchesOf(names, users, answers);
      AllClean(ss) && Tidy(ss) && NoCycle(ProperPairs(ss)) && stack >= |Ends(LinksOf(ss))|
    ensures VisitedAll(EMPTY, order, users, answers, stack).Some?
    decreases |order|
  {
    hide Searched, SearchOf, LdapText.LeafName, LinksOf, CleanSearch, Tidy, ProperPairs, NoCycle, Deep, AllSearched;
    if order != [] {
      var init, n := order[..|order| - 1], order[|order| - 1];
      assert order == init + [n] && n in order;
      VisitsEnd(init, names, users, answers, stack);
      if IsLdapGroup(users[n]) {
        VisitsSearch(init, users, answers, stack);
        VisitEnds(init, n, names, users, answers, stack);
      }
    }
  }

  lemma VisitEnds(init: seq<Name>, n: Name, names: set<Name>, users: map<Name, UserConfig>, answers: Answers,
                  stack: nat)
    requires (forall n :: n in init ==> n in users) && n in users && Elements(init) + {n} <= names
    requires IsLdapGroup(users[n]) && Askable(n, users[n], answers)
    requires AllSearched(EMPTY, SearchSeq(init, users, answers)) == VisitedAll(EMPTY, init, users, answers, stack)
    requires VisitedAll(EMPTY, init, users, answers, stack).Some?
    requires var ss := SearchesOf(names, users, answers);
      AllClean(ss) && Tidy(ss) && NoCycle(ProperPairs(ss)) && stack >= |Ends(LinksOf(ss))|
    ensures Visited(VisitedAll(EMPTY, init, users, answers, stack).value, n, users[n], answers, stack).Some?
  {
    hide Searched, LdapText.LeafName, LinksOf, CleanSearch, Tidy, ProperPairs, NoCycle, Deep, AllSearched, VisitedAll,
      SearchSeq;
    var ss, s := SearchesOf(names, users, answers), SearchOf(n, users[n], answers);
    var searches := SearchSeq(init, users, answers);
    SearchSeqIsOf(init, users, answers);
    AllSearchedNext(searches, s);
    assert SetOf(searches + [s]) == SearchesOf(Elements(init), users, answers) + {s};
    var some := SetOf(searches + [s]);
    assert some <= ss;
    FewerLinks(some, ss);
    SearchesHold(searches + [s]);
    SearchesLink(searches + [s]);
    AcyclicIff(ss);
    EndsFewer(LinksOf(some), LinksOf(ss));
    AcyclicFewer(LinksOf(some), LinksOf(ss));
    var base := NameOf(VisitedAll(EMPTY, init, users, answers, stack).value, users[n].baseDN);
    NoCycleEnds(LinksOf(some), base);
    AcyclicIsShallow(LinksOf(some), base, stack);
  }

  lemma EndsFewer(links: set<Link>, more: set<Link>)
    requires links <= more
    ensures |Ends(links)| <= |Ends(more)|
  {
    Tables.SubsetSize(Ends(links), Ends(more));
  }

  lemma AcyclicFewer(links: set<Link>, more: set<Link>)
    requires links <= more && NoCycle(more)
    ensures NoCycle(links)
  {
    hide IsBelow;
    forall x ensures !IsBelow(links, x, x) {
      if IsBelow(links, x, x) { BelowMonotone(links, more, x, x); }
    }
  }

  /** A cycle that is new passes through the one name that has new links. */
  lemma RoundThrough(links: set<Link>, more: set<Link>, root: string, x: string)
    requires IsBelow(more, x, x) && !IsBelow(links, x, x) && forall l :: l in more ==> l in links || l.parent == root
    ensures IsBelow(more, root, root)
  {
    var p :| Walk(more, p) && |p| > 1 && p[0] == x && p[|p| - 1] == x;
    assert !Walk(links, p);
    var i :| 0 <= i < |p| - 1 && !Below(links, p[i], p[i + 1]);
    assert Below(more, p[i], p[i + 1]);
    hide Walk, IsBelow;
    WalkBetween(more, p, i, |p| - 1);
    if i > 0 {
      WalkBetween(more, p, 0, i);
      BelowTransitive(more, root, x, root);
    }
  }

  /** The pairs that one more search adds all have its base for their parent. */
  lemma PairsOfOneMore(ss: set<Search>, s: Search)
    ensures forall l :: l in ProperPairs(ss + {s}) ==> l in ProperPairs(ss) || l.parent == Root(s)
  {
    hide LdapText.LeafName;
  }

  lemma PairsAreLinks(ss: set<Search>)
    requires Tidy(ss)
    ensures ProperPairs(ss) <= LinksOf(ss)
  {
    UsersAreUids(ss);
    hide Groups, Uids, Pairs, Users;
  }

  /** The other direction: a listing that ended found no cycle, and a new cycle would be in the newest listing. */
  lemma {:induction false} VisitsAreAcyclic(order: seq<Name>, users: map<Name, UserConfig>, answers: Answers,
                                            stack: nat)
    requires (forall n :: n in order ==> n in users) && VisitedAll(EMPTY, order, users, answers, stack).Some?
    requires var ss := SearchesOf(Elements(order), users, answers); AllClean(ss) && Tidy(ss)
    ensures NoCycle(ProperPairs(SearchesOf(Elements(order), users, answers)))
    decreases |order|
  {
    hide Searched, SearchOf, LdapText.LeafName, CleanSearch, Tidy, Visited, AllSearched, ProperPairs, NoCycle;
    if order == [] {
      NoSearchesNoCycle(users, answers);
    } else {
      var init, n := order[..|order| - 1], order[|order| - 1];
      assert order == init + [n] && Elements(order) == Elements(init) + {n};
      FewerLinks(SearchesOf(Elements(init), users, answers), SearchesOf(Elements(order), users, answers));
      VisitsAreAcyclic(init, users, answers, stack);
      VisitsAsk(EMPTY, order, users, answers, stack);
      if IsLdapGroup(users[n]) {
        assert SearchesOf(Elements(order), users, answers)
            == SearchesOf(Elements(init), users, answers) + {SearchOf(n, users[n], answers)};
        VisitIsAcyclic(init, n, users, answers, stack);
      } else {
        assert SearchesOf(Elements(order), users, answers) == SearchesOf(Elements(init), users, answers);
      }
    }
  }

  lemma NoSearchesNoCycle(users: map<Name, UserConfig>, answers: Answers)
    ensures NoCycle(ProperPairs(SearchesOf(Elements([]), users, answers)))
  {
    assert SearchesOf(Elements([]), users, answers) == {};
    NoSearches();
    assert ProperPairs({}) == {};
    forall x ensures !IsBelow({}, x, x) { DescendantsAreBelow({}, x, x); }
  }

  lemma VisitIsAcyclic(init: seq<Name>, n: Name, users: map<Name, UserConfig>, answers: Answers, stack: nat)
    requires (forall x :: x in init + [n] ==> x in users) && IsLdapGroup(users[n]) && Askable(n, users[n], answers)
    requires VisitedAll(EMPTY, init + [n], users, answers, stack).Some?
    requires var ss := SearchesOf(Elements(init), users, answers) + {SearchOf(n, users[n], answers)};
      && AllClean(ss) && Tidy(ss) && SearchesOf(Elements(init + [n]), users, answers) == ss
    requires NoCycle(ProperPairs(SearchesOf(Elements(init), users, answers)))
    ensures NoCycle(ProperPairs(SearchesOf(Elements(init), users, answers) + {SearchOf(n, users[n], answers)}))
  {
    hide Searched, AllSearched, SearchSeq, SearchesOf, Deep, LdapText.LeafName, CleanSearch, Tidy, LinksOf,
      ProperPairs;
    var before, s := SearchesOf(Elements(init), users, answers), SearchOf(n, users[n], answers);
    var ss := before + {s};
    assert (init + [n])[..|init|] == init;
    VisitsSearch(init + [n], users, answers, stack);
    hide IsBelow;
    SearchSeqIsOf(init + [n], users, answers);
    SearchesLink(SearchSeq(init + [n], users, answers));
    AskedName(VisitedAll(EMPTY, init, users, answers, stack).value, n, users[n], answers, stack);
    forall x ensures !IsBelow(ProperPairs(ss), x, x) {
      if IsBelow(ProperPairs(ss), x, x) {
        PairsOfOneMore(before, s);
        RoundThrough(ProperPairs(before), ProperPairs(ss), Root(s), x);
        PairsAreLinks(ss);
        BelowMonotone(ProperPairs(ss), LinksOf(ss), Root(s), Root(s));
        CycleIsDeep(LinksOf(ss), Root(s), Root(s), stack);
      }
    }
  }

  /**
   If no uid is a group: an order of the user entries gets through, given enough room, if and only if every
   search can be made, and bases and the groups found under them form no cycle. So it does not matter which.
   */
  lemma VisitsEndIff(order: seq<Name>, users: map<Name, UserConfig>, answers: Answers)
    requires Arranged(order, users)
    requires var ss := SearchesOf(users.Keys, users, answers); AllClean(ss) && Tidy(ss)
    ensures (exists stack: nat :: VisitedAll(EMPTY, order, users, answers, stack).Some?) <==>
        AskableAll(users, answers) && NoCycle(ProperPairs(SearchesOf(users.Keys, users, answers)))
  {
    hide Visited, LdapText.LeafName, LinksOf, CleanSearch, Tidy, ProperPairs, NoCycle;
    assert Elements(order) == users.Keys;
    if stack: nat :| VisitedAll(EMPTY, order, users, answers, stack).Some? {
      VisitsAsk(EMPTY, order, users, answers, stack);
      VisitsAreAcyclic(order, users, answers, stack);
    }
    if AskableAll(users, answers) && NoCycle(ProperPairs(SearchesOf(users.Keys, users, answers))) {
      VisitsEnd(order, users.Keys, users, answers, |Ends(LinksOf(SearchesOf(users.Keys, users, answers)))|);
    }
  }

  ghost predicate EveryOrderEnds(users: map<Name, UserConfig>, answers: Answers, stack: nat) {
    forall order :: Arranged(order, users) ==> VisitedAll(EMPTY, order, users, answers, stack).Some?
  }

  /** The searches of two entries, in this order, fail if the second has a uid that is a group of the first. */
  lemma ClashStops(b: Name, a: Name, users: map<Name, UserConfig>, answers: Answers, stack: nat, x: string)
    requires a in users && b in users && IsLdapGroup(users[a]) && IsLdapGroup(users[b]) && a in answers && b in answers
    requires var s, t := SearchOf(a, users[a], answers), SearchOf(b, users[b], answers);
      AllClean({s, t}) && Tidy({t}) && x in Uids({s}) && x in Groups({t})
    ensures VisitedAll(EMPTY, [b, a], users, answers, stack).None?
  {
    hide VisitedAll, AllSearched, CleanSearch, Tidy, Groups, Uids, SearchOf;
    var s, t := SearchOf(a, users[a], answers), SearchOf(b, users[b], answers);
    ClashFails(s, t, x);
    VisitsSearch([b, a], users, answers, stack);
    assert [b, a][..1] == [b] && [b][..0] == [];
    assert SearchSeq([], users, answers) == [] && SearchSeq([b], users, answers) == [t];
    assert SearchSeq([b, a], users, answers) == [t, s];
  }

  /**
   For searches that do not contradict themselves: every order of the user entries gets through, given
   enough room, if and only if every search can be made, no uid names a group, and there is no cycle.
   */
  lemma EveryOrderEndsIff(users: map<Name, UserConfig>, answers: Answers)
    requires var ss := SearchesOf(users.Keys, users, answers); AllClean(ss) && EachTidy(ss)
    ensures (exists stack: nat :: EveryOrderEnds(users, answers, stack)) <==>
        var ss := SearchesOf(users.Keys, users, answers);
        AskableAll(users, answers) && Tidy(ss) && NoCycle(ProperPairs(ss))
  {
    hide VisitedAll, LdapText.LeafName, LinksOf, CleanSearch, ProperPairs, NoCycle, Groups, Uids, SearchOf;
    var ss := SearchesOf(users.Keys, users, answers);
    if stack: nat :| EveryOrderEnds(users, answers, stack) {
      if x :| x in Groups(ss) && x in Uids(ss) {
        var t := GroupHasSource(ss, x);
        var s := UidHasSource(ss, x);
        var b :| b in users && IsLdapGroup(users[b]) && b in answers && SearchOf(b, users[b], answers) == t;
        var a :| a in users && IsLdapGroup(users[a]) && a in answers && SearchOf(a, users[a], answers) == s;
        var clash := SomeFirst([b, a], users);
        ClashStops(b, a, users, answers, stack, x);
        VisitFails(EMPTY, clash, users, answers, stack, 2);
        assert false;
      }
      var order := SomeFirst([], users);
      assert VisitedAll(EMPTY, order, users, answers, stack).Some?;
      VisitsEndIff(order, users, answers);
    } else if AskableAll(users, answers) && Tidy(ss) && NoCycle(ProperPairs(ss)) {
      var stack := |Ends(LinksOf(ss))|;
      forall order | Arranged(order, users) ensures VisitedAll(EMPTY, order, users, answers, stack).Some? {
        VisitsEnd(order, users.Keys, users, answers, stack);
      }
      assert EveryOrderEnds(users, answers, stack);
    }
  }

  // ----- what the groups of a run list -----

  /** A group lists at least what its own search gives, and no more than all searches together. */
  ghost predicate ListsBetween(ss: set<Search>, s: Search, group: Group) {
    group.name == Root(s) && Own(s) <= group.members <= Descendants(LinksOf(ss), Root(s))
  }

  /** On an index that starts empty, every group lists something between, whatever the order. */
  lemma {:induction false} ListingsAreBetween(order: seq<Name>, names: set<Name>, users: map<Name, UserConfig>,
                                              answers: Answers, stack: nat)
    requires (forall n :: n in order ==> n in users) && Elements(order) <= names
    requires var ss := SearchesOf(names, users, answers); AllClean(ss) && Tidy(ss)
    requires VisitedAll(EMPTY, order, users, answers, stack).Some?
    ensures var ldap := Listings(EMPTY, order, users, answers, stack);
      forall n :: n in order && IsLdapGroup(users[n]) ==>
        && n in answers && n in ldap
        && ListsBetween(SearchesOf(names, users, answers), SearchOf(n, users[n], answers), ldap[n])
    decreases |order|
  {
    hide Searched, LdapText.LeafName, LinksOf, CleanSearch, Tidy, Deep, AllSearched, ListsBetween, Visited, SearchOf;
    if order != [] {
      var init, n := order[..|order| - 1], order[|order| - 1];
      assert order == init + [n] && n in order && Elements(order) == Elements(init) + {n};
      ListingsAreBetween(init, names, users, answers, stack);
      VisitsAsk(EMPTY, order, users, answers, stack);
      if IsLdapGroup(users[n]) {
        VisitsSearch(init, users, answers, stack);
        VisitListsBetween(init, n, names, users, answers, stack);
      }
    }
  }

  lemma VisitListsBetween(init: seq<Name>, n: Name, names: set<Name>, users: map<Name, UserConfig>, answers: Answers,
                          stack: nat)
    requires (forall n :: n in init ==> n in users) && n in users && Elements(init) + {n} <= names
    requires IsLdapGroup(users[n]) && Askable(n, users[n], answers)
    requires VisitedAll(EMPTY, init, users, answers, stack).Some?
    requires AllSearched(EMPTY, SearchSeq(init, users, answers)) == VisitedAll(EMPTY, init, users, answers, stack)
    requires Visited(VisitedAll(EMPTY, init, users, answers, stack).value, n, users[n], answers, stack).Some?
    requires var ss := SearchesOf(names, users, answers); AllClean(ss) && Tidy(ss)
    ensures ListsBetween(SearchesOf(names, users, answers), SearchOf(n, users[n], answers),
                         GroupListed(VisitedAll(EMPTY, init, users, answers, stack).value, n, users[n], answers))
  {
    hide Searched, LdapText.LeafName, LinksOf, CleanSearch, Tidy, Deep, AllSearched, VisitedAll, SearchSeq,
      Descendants;
    var ss, s := SearchesOf(names, users, answers), SearchOf(n, users[n], answers);
    var searches := SearchSeq(init, users, answers);
    SearchSeqIsOf(init, users, answers);
    AllSearchedNext(searches, s);
    var some := SetOf(searches + [s]);
    assert some == SearchesOf(Elements(init), users, answers) + {s};
    assert some <= ss && s in some;
    AskedName(VisitedAll(EMPTY, init, users, answers, stack).value, n, users[n], answers, stack);
    FewerLinks(some, ss);
    FewerLinks({s}, some);
    SearchesLink(searches + [s]);
    FewerBelow(LinksOf({s}), LinksOf(some), Root(s));
    FewerBelow(LinksOf(some), LinksOf(ss), Root(s));
  }

  /** If every search says all there is to say about what is below its base, each group lists what it lists alone. */
  lemma ListingsAreOwn(order: seq<Name>, users: map<Name, UserConfig>, answers: Answers, stack: nat)
    requires Arranged(order, users)
    requires var ss := SearchesOf(users.Keys, users, answers); AllClean(ss) && Tidy(ss) && SelfContained(ss)
    requires VisitedAll(EMPTY, order, users, answers, stack).Some?
    ensures Listings(EMPTY, order, users, answers, stack) == OwnListings(users.Keys, users, answers)
  {
    hide LdapText.LeafName, LinksOf, CleanSearch, Tidy, VisitedAll, Own, SearchOf, Listings, Descendants;
    assert Elements(order) == users.Keys;
    ListingsAreOf(EMPTY, order, users, answers, stack);
    ListingsAreBetween(order, users.Keys, users, answers, stack);
    var ldap, own := Listings(EMPTY, order, users, answers, stack), OwnListings(users.Keys, users, answers);
    forall n ensures n in ldap <==> n in own { }
    forall n | n in ldap ensures ldap[n] == own[n] {
      assert SearchOf(n, users[n], answers) in SearchesOf(users.Keys, users, answers);
    }
  }

  /**
   The plan does not depend on the order in which the map yields the user entries: whichever two orders
   were taken, the plans are the same, unless a group that was stored without a name was looked up, and
   then nothing is reconciled.
   */
  lemma PlanIsOrderFree(a: Draft, b1: Draft, b2: Draft, c: Config, answers: Answers, stack: nat, o1: seq<Name>,
                        o2: seq<Name>)
    requires Arranged(o1, c.users) && Arranged(o2, c.users)
    requires var ss := SearchesOf(c.users.Keys, c.users, answers); AllClean(ss) && Tidy(ss) && SelfContained(ss)
    requires VisitedAll(EMPTY, o1, c.users, answers, stack).Some?
    requires VisitedAll(EMPTY, o2, c.users, answers, stack).Some?
    requires ConfigPlanned(a, b1, c, o1, Listings(EMPTY, o1, c.users, answers, stack))
    requires ConfigPlanned(a, b2, c, o2, Listings(EMPTY, o2, c.users, answers, stack))
    ensures !Spoiled(b1) && !Spoiled(b2) ==> PlanOf(b1.roles, b1.grants) == PlanOf(b2.roles, b2.grants)
    ensures var ldap := OwnListings(c.users.Keys, c.users, answers);
      AllListed(c.users, ldap) && (!StrangerAround(c, KnownNames(a.roles, c), ldap) ==>
        PlanOf(b1.roles, b1.grants) == PlanOf(b2.roles, b2.grants) && (Spoiled(b1) <==> Spoiled(b2)))
  {
    hide ClosedForm, PlanOf, Spoiled, Listings, VisitedAll, SearchesOf, AllClean, Tidy, SelfContained, Own,
      LooksUpStranger, StrangerAround, KnownNames, Strangers;
    VisitsAsk(EMPTY, o1, c.users, answers, stack);
    ListingsAreOwn(o1, c.users, answers, stack);
    ListingsAreOwn(o2, c.users, answers, stack);
    LooksUpIff(c, KnownNames(a.roles, c), OwnListings(c.users.Keys, c.users, answers));
  }

  /**
   The program on any number of LDAP groups: if it succeeds, then whatever the order of the map was, and
   whether the groups are roles of the configuration or not, every name below a group's base in its own
   search can log in and is a direct member of that group's role, and so is every memberUid the search gave.
   */
  method SyncAll(planner: Planner) returns (ok: bool)
    requires Clean(planner.h.roles) && Plans.Named(planner.h.roles) && planner.dir.Valid() && planner.dir.index == EMPTY
    requires Wf(planner.h.server.w, planner.h.server.cat)
    requires var ss := SearchesOf(planner.config.users.Keys, planner.config.users, planner.answers);
      AllClean(ss) && Tidy(ss)
    modifies planner.h`roles, planner.h`grants, planner.h`databases, planner.dir, planner.dir.pool
    modifies planner.h.server`cat, planner.h.server`trace, planner.h.server`tables
    ensures var users, answers := planner.config.users, planner.answers;
      ok ==> forall n :: n in users && IsLdapGroup(users[n]) ==>
        n in answers && GroupDone(planner.h.server.cat, SearchOf(n, users[n], answers))
  {
    hide Clean, Plans.Named, Wf, Advance, AllHeld, Sane, Directory.Valid, ClosedForm, PlanOf, VisitedAll, Listings,
      SearchesOf, AllClean, Tidy, GroupDone, ConfigFine, SearchOf, LooksUpStranger, Strangers, KnownNames,
      ListsBetween;
    ghost var config, answers, start := planner.config, planner.answers, planner.Planned();
    ghost var order;
    ok, order := planner.Handle();
    if ok {
      var s := planner.h.server;
      ghost var users := config.users;
      assert Elements(order) == users.Keys;
      ListingsAreBetween(order, users.Keys, users, answers, planner.stack);
      forall n | n in users && IsLdapGroup(users[n])
        ensures n in answers && GroupDone(s.cat, SearchOf(n, users[n], answers))
      {
        GroupIsDone(s.w, planner.h.Wanted(), old(s.State()), s.State(), start, config, answers,
                    Listings(EMPTY, order, users, answers, planner.stack), n);
      }
    }
  }

  /** Everything below the base of a search, and every uid it gave, is synced. */
  ghost predicate GroupDone(c: Catalog, s: Search) {
    && (forall x :: x in Own(s) ==> Synced(c, x, Root(s)))
    && (forall e, uid :: e in s.entries && uid in e.memberUids ==> Synced(c, uid, Root(s)))
  }

  lemma GroupIsDone(w: World, d: Spec, a: Log, b: Log, start: Plan, config: Config, answers: Answers,
                    ldap: map<Name, Group>, n: Name)
    requires Clean(d.roles) && Reconciled(w, d, a, b, true)
    requires PlanOf(d.roles, d.grants) == ClosedForm(start, config, ldap)
    requires n in config.users && IsLdapGroup(config.users[n]) && n in answers && n in ldap
    requires var ss := SearchesOf(config.users.Keys, config.users, answers);
      AllClean(ss) && Tidy(ss) && ListsBetween(ss, SearchOf(n, config.users[n], answers), ldap[n])
    ensures GroupDone(b.cat, SearchOf(n, config.users[n], answers))
  {
    hide Clean, Reconciled, PlanOf, ClosedForm, Synced, Own, Tidy, CleanSearch, LdapText.LeafName, LinksOf,
      Descendants;
    var s := SearchOf(n, config.users[n], answers);
    assert s in SearchesOf(config.users.Keys, config.users, answers);
    FewerLinks({s}, SearchesOf(config.users.Keys, config.users, answers));
    forall x | x in Own(s) ensures Synced(b.cat, x, Root(s)) {
      LdapGroupsSynced(w, d, a, b, start, config, ldap, n, x);
    }
    forall e, uid | e in s.entries && uid in e.memberUids ensures uid in Own(s) {
      TidyUidIsBelow(s, e, uid);
    }
  }

  lemma TidyUidIsBelow(s: Search, e: Entry, uid: string)
    requires CleanSearch(s) && Tidy({s}) && e in s.entries && uid in e.memberUids
    ensures uid in Own(s)
  {
    assert SetOf([s]) == {s};
    SearchesHold([s]);
    UidIsBelow(s, e, uid);
    hide LdapText.LeafName, CleanSearch, Uids, Own;
    EntryIsGroup(s, e);
  }
}
