/** How the user entries of a configuration use the one LDAP index they share. */
module Visits {
  import opened Options
  import opened Catalog
  import opened Desired
  import opened Plans
  import opened Ldap
  import opened LdapTree
  import opened LdapSearches
  import opened Servers

  /** For a user entry, what the LDAP server answers to its search; nothing if the search fails. */
  type Answers = map<Name, seq<Entry>>

  predicate IsLdapGroup(c: UserConfig) { c.auth == "ldap-group" }

  predicate Askable(n: Name, c: UserConfig, answers: Answers) { c.baseDN != "" && c.filter != "" && n in answers }

  function SearchOf(n: Name, c: UserConfig, answers: Answers): Search
    requires n in answers
  {
    Search(c.baseDN, answers[n])
  }

  /** The index after a user entry was handled; None if the search fails or its listing does not end. */
  ghost function Visited(ix: Index, n: Name, c: UserConfig, answers: Answers, stack: nat): Option<Index> {
    if !IsLdapGroup(c) then Some(ix)
    else if !Askable(n, c, answers) then None
    else
      match Searched(ix, SearchOf(n, c, answers))
      case None => None
      case Some(after) => if Deep(after.links, NameOf(ix, c.baseDN), stack) then None else Some(after)
  }

  /** The group a user entry finds on an index, with what its listing gives. */
  ghost function GroupListed(ix: Index, n: Name, c: UserConfig, answers: Answers): Group {
    var name := NameOf(ix, c.baseDN);
    if n in answers && Searched(ix, SearchOf(n, c, answers)).Some?
    then Group(name, Descendants(Searched(ix, SearchOf(n, c, answers)).value.links, name))
    else Group(name, {})
  }

  /** The index after the user entries were handled in this order. */
  ghost function VisitedAll(ix: Index, order: seq<Name>, users: map<Name, UserConfig>, answers: Answers,
      stack: nat): Option<Index>
    requires forall n :: n in order ==> n in users
    decreases |order|
  {
    if order == [] then Some(ix)
    else
      var n := order[|order| - 1];
      match VisitedAll(ix, order[..|order| - 1], users, answers, stack)
      case None => None
      case Some(before) => Visited(before, n, users[n], answers, stack)
  }

  /** What each LDAP group lists when the entries are handled in this order. */
  ghost function Listings(ix: Index, order: seq<Name>, users: map<Name, UserConfig>, answers: Answers,
      stack: nat): map<Name, Group>
    requires forall n :: n in order ==> n in users
    decreases |order|
  {
    if order == [] then map[]
    else
      var init, n := order[..|order| - 1], order[|order| - 1];
      var before := Listings(ix, init, users, answers, stack);
      if IsLdapGroup(users[n]) && VisitedAll(ix, init, users, answers, stack).Some?
      then before[n := GroupListed(VisitedAll(ix, init, users, answers, stack).value, n, users[n], answers)]
      else before
  }

  function Elements(order: seq<Name>): set<Name> { set n | n in order }

  ghost predicate Arranged(order: seq<Name>, users: map<Name, UserConfig>) {
    (forall n :: n in order <==> n in users) && forall i, j :: 0 <= i < j < |order| ==> order[i] != order[j]
  }

  lemma {:induction false} VisitFails(ix: Index, order: seq<Name>, users: map<Name, UserConfig>, answers: Answers,
                                      stack: nat, i: nat)
    requires (forall n :: n in order ==> n in users) && i <= |order|
    requires VisitedAll(ix, order[..i], users, answers, stack).None?
    ensures VisitedAll(ix, order, users, answers, stack).None?
    decreases |order|
  {
    hide Visited;
    if i < |order| {
      var init := order[..|order| - 1];
      assert init[..i] == order[..i];
      VisitFails(ix, init, users, answers, stack, i);
    } else {
      assert order[..i] == order;
    }
  }

  lemma NoVisits(ix: Index, users: map<Name, UserConfig>, answers: Answers, stack: nat)
    ensures VisitedAll(ix, [], users, answers, stack) == Some(ix) && Listings(ix, [], users, answers, stack) == map[]
  {
  }

  lemma VisitNext(ix: Index, order: seq<Name>, users: map<Name, UserConfig>, answers: Answers, stack: nat, i: nat)
    requires (forall n :: n in order ==> n in users) && i < |order|
    requires VisitedAll(ix, order[..i], users, answers, stack).Some?
    ensures var before, n := VisitedAll(ix, order[..i], users, answers, stack).value, order[i];
      && VisitedAll(ix, order[..i + 1], users, answers, stack) == Visited(before, n, users[n], answers, stack)
      && Listings(ix, order[..i + 1], users, answers, stack)
         == if IsLdapGroup(users[n])
             then Listings(ix, order[..i], users, answers, stack)[n := GroupListed(before, n, users[n], answers)]
            else Listings(ix, order[..i], users, answers, stack)
  {
    assert order[..i + 1][..i] == order[..i];
  }

  lemma {:induction false} ListingsAreOf(ix: Index, order: seq<Name>, users: map<Name, UserConfig>, answers: Answers,
                                         stack: nat)
    requires forall n :: n in order ==> n in users
    ensures Listings(ix, order, users, answers, stack).Keys <= set n | n in order
    ensures forall n :: n in Listings(ix, order, users, answers, stack) ==> IsLdapGroup(users[n])
    ensures VisitedAll(ix, order, users, answers, stack).Some? ==>
      forall n :: n in order && IsLdapGroup(users[n]) ==> n in Listings(ix, order, users, answers, stack)
    ensures forall n :: n in Listings(ix, order, users, answers, stack) && users[n].baseDN != "" ==>
      Listings(ix, order, users, answers, stack)[n].name == LdapText.LeafName(users[n].baseDN)
    decreases |order|
  {
    hide LdapText.LeafName, Visited;
    if order != [] {
      var init := order[..|order| - 1];
      ListingsAreOf(ix, init, users, answers, stack);
      assert order == init + [order[|order| - 1]];
    }
  }

  // ----- which configurations can be planned -----

  predicate RoleFine(c: RoleConfig) { forall o :: o in c.options ==> Validate(o) }

  predicate UserFine(c: UserConfig) {
    && (forall o :: o in c.options ==> Validate(o))
    && c.auth in ["ldap-group", "ldap-user", "clientcert", "password", "md5"]
  }

  predicate RolesFine(c: Config) { forall n :: n in c.roles ==> RoleFine(c.roles[n]) }
  predicate UsersFine(c: Config) { forall n :: n in c.users ==> UserFine(c.users[n]) }

  /** Every option name is valid and every user entry is of a known kind. */
  predicate ConfigFine(c: Config) { RolesFine(c) && UsersFine(c) }

  lemma AskedName(ix: Index, n: Name, c: UserConfig, answers: Answers, stack: nat)
    requires Visited(ix, n, c, answers, stack).Some? && IsLdapGroup(c)
    ensures GroupListed(ix, n, c, answers).name == LdapText.LeafName(c.baseDN) != ""
  {
    LdapText.LeafNameIsPlain(c.baseDN);
    hide LdapText.LeafName, Searched, Deep;
  }

  // ----- groups that are stored without a name -----

  /** The names that handling a user entry looks up: all it mentions, but not the group it finds. */
  function Lookups(n: Name, c: UserConfig, ldap: map<Name, Group>): set<Name> {
    if !IsLdapGroup(c) then PlainUserPlan(n, c).names
    else if n in ldap then MemberOf(n, c.memberOf, c.state).names + ldap[n].members
    else {}
  }

  /** The group an entry finds, if that is not a name by then. */
  function NewStranger(names: set<Name>, n: Name, c: UserConfig, ldap: map<Name, Group>): set<Name> {
    if IsLdapGroup(c) && n in ldap then {ldap[n].name} - names else {}
  }

  /** The groups that are stored without a name, when the entries are handled in this order. */
  ghost function Strangers(known: set<Name>, order: seq<Name>, users: map<Name, UserConfig>, ldap: map<Name, Group>)
    : set<Name>
    requires forall n :: n in order ==> n in users
    decreases |order|
  {
    if order == [] then {}
    else
      var init, n := order[..|order| - 1], order[|order| - 1];
      Strangers(known, init, users, ldap)
      + NewStranger(known + UserPlans(Elements(init), users, ldap).names, n, users[n], ldap)
  }

  /** Some entry looks up a group that was stored without a name before, or by itself. */
  ghost predicate MeetsStranger(known: set<Name>, order: seq<Name>, users: map<Name, UserConfig>,
                                ldap: map<Name, Group>)
    requires forall n :: n in order ==> n in users
    decreases |order|
  {
    order != [] &&
    var init, n := order[..|order| - 1], order[|order| - 1];
    MeetsStranger(known, init, users, ldap) || !(Lookups(n, users[n], ldap) !! Strangers(known, order, users, ldap))
  }

  /** Each entry of the order has the same group in both. */
  ghost predicate SameGroups(order: seq<Name>, users: map<Name, UserConfig>, ldap: map<Name, Group>,
                             more: map<Name, Group>)
    requires forall n :: n in order ==> n in users
  {
    forall n :: n in order && IsLdapGroup(users[n]) ==> (n in ldap <==> n in more) && (n in ldap ==> ldap[n] == more[n])
  }

  lemma UserPlansAre(order: seq<Name>, users: map<Name, UserConfig>, ldap: map<Name, Group>, more: map<Name, Group>)
    requires (forall n :: n in order ==> n in users) && SameGroups(order, users, ldap, more)
    ensures UserPlans(Elements(order), users, ldap) == UserPlans(Elements(order), users, more)
  {
    hide UserPlan;
    forall r | r in Elements(order) ensures UserPlan(r, users[r], ldap) == UserPlan(r, users[r], more) {
      UserPlanIs(r, users[r], ldap, more);
    }
  }

  /** Both depend on what the entries of the order list, and on nothing else. */
  lemma {:induction false} StrangersAre(known: set<Name>, order: seq<Name>, users: map<Name, UserConfig>,
                                        ldap: map<Name, Group>, more: map<Name, Group>)
    requires (forall n :: n in order ==> n in users) && SameGroups(order, users, ldap, more)
    ensures Strangers(known, order, users, ldap) == Strangers(known, order, users, more)
    ensures MeetsStranger(known, order, users, ldap) <==> MeetsStranger(known, order, users, more)
    decreases |order|
  {
    hide UserPlans, MemberOf, PlainUserPlan;
    if order != [] {
      var init := order[..|order| - 1];
      assert order == init + [order[|order| - 1]];
      StrangersAre(known, init, users, ldap, more);
      UserPlansAre(init, users, ldap, more);
    }
  }

  /**
   What handling these entries in this order does to tables whose roles are all stored under their names:
   the nameless groups are the strangers, and as long as none of them is looked up, the plan grows by
   what the entries contribute. Otherwise the tables are spoiled.
   */
  ghost predicate UsersPlanned(a: Draft, b: Draft, order: seq<Name>, users: map<Name, UserConfig>,
                               ldap: map<Name, Group>)
    requires forall n :: n in order ==> n in users
  {
    var plan := UserPlans(Elements(order), users, ldap);
    && NamedOrNot(b.roles) && Unnamed(b.roles) == Strangers(a.roles.Keys, order, users, ldap)
    && b.roles.Keys + {""} == a.roles.Keys + plan.names + {""}
    && (!MeetsStranger(a.roles.Keys, order, users, ldap) ==>
          PlanOf(b.roles, b.grants) == Join(PlanOf(a.roles, a.grants), plan))
    && (Spoiled(b) <==> Spoiled(a) || "" in plan.names || MeetsStranger(a.roles.Keys, order, users, ldap))
  }

  /** What handling one entry does: its group is stored without a name if it is not there. */
  ghost predicate UserPlanned(a: Draft, b: Draft, n: Name, c: UserConfig, group: Group) {
    var ldap := map[n := group];
    Extends(a, b, NewStranger(a.roles.Keys, n, c, ldap), Lookups(n, c, ldap), UserPlan(n, c, ldap))
  }

  /** The group and its memberships, then its members. */
  lemma GroupIsPlanned(a: Draft, b: Draft, c: Draft, n: Name, x: UserConfig, group: Group)
    requires IsLdapGroup(x)
    requires var member := MemberOf(n, x.memberOf, x.state);
      Extends(a, b, {group.name} - a.roles.Keys, member.names,
              Join(Plan({group.name}, Keyed(group.name, AbsoluteOf(x.options)), {}), member))
    requires Extends(b, c, {}, group.members,
                     MembersPlan(group.name, group.members, AbsoluteOf(x.options) + {LOGIN}))
    ensures UserPlanned(a, c, n, x, group)
  {
    hide Extends, MemberOf, MembersPlan, Join, Keyed, GroupPlan;
    GroupPlanParts(n, x, group);
    var member := MemberOf(n, x.memberOf, x.state);
    var own := Join(Plan({group.name}, Keyed(group.name, AbsoluteOf(x.options)), {}), member);
    ExtendsTrans(a, b, c, {group.name} - a.roles.Keys, member.names, own, group.members,
                 MembersPlan(group.name, group.members, AbsoluteOf(x.options) + {LOGIN}));
  }

  lemma NoUsersPlanned(a: Draft, users: map<Name, UserConfig>)
    requires Named(a.roles)
    ensures UsersPlanned(a, a, [], users, map[])
  {
    hide PlanOf, Spoiled;
    assert Elements([]) == {};
    NoUserPlans(users);
    JoinNothing(PlanOf(a.roles, a.grants));
  }

  lemma NoUserPlans(users: map<Name, UserConfig>)
    ensures UserPlans({}, users, map[]) == NOTHING
  {
  }

  lemma UserPlanNames(n: Name, c: UserConfig, group: Group)
    requires IsLdapGroup(c) ==> group.name != ""
    ensures "" in Lookups(n, c, map[n := group]) <==> "" in UserPlan(n, c, map[n := group]).names
  {
  }

  lemma UsersPlannedNext(a: Draft, b: Draft, c: Draft, init: seq<Name>, n: Name, users: map<Name, UserConfig>,
                         ldap: map<Name, Group>, group: Group)
    requires (forall x :: x in init ==> x in users) && n in users && n !in init
    requires UsersPlanned(a, b, init, users, ldap) && UserPlanned(b, c, n, users[n], group)
    requires IsLdapGroup(users[n]) ==> group.name != ""
    ensures UsersPlanned(a, c, init + [n], users, if IsLdapGroup(users[n]) then ldap[n := group] else ldap)
  {
    hide UsersPlanned, UserPlanned;
    var order, more := init + [n], if IsLdapGroup(users[n]) then ldap[n := group] else ldap;
    assert order[..|order| - 1] == init && Elements(order) == Elements(init) + {n};
    assert UsersPlanned(a, b, init, users, more) by { SameUsersPlanned(a, b, init, users, ldap, more); }
    var own := map[n := group];
    UserPlansStep(Elements(init), n, users, ldap, group);
    UserPlansAre(init, users, ldap, more);
    LookupsAre(n, users[n], own, more);
    UsersExtended(a, b, c, order, users, more, UserPlan(n, users[n], own), group);
  }

  lemma SameUsersPlanned(a: Draft, b: Draft, order: seq<Name>, users: map<Name, UserConfig>, ldap: map<Name, Group>,
                         more: map<Name, Group>)
    requires (forall n :: n in order ==> n in users) && SameGroups(order, users, ldap, more)
    requires UsersPlanned(a, b, order, users, ldap)
    ensures UsersPlanned(a, b, order, users, more)
  {
    hide PlanOf, Spoiled, Unnamed, UserPlans, Join, SameGroups;
    StrangersAre(a.roles.Keys, order, users, ldap, more);
    UserPlansAre(order, users, ldap, more);
  }

  lemma UsersExtended(a: Draft, b: Draft, c: Draft, order: seq<Name>, users: map<Name, UserConfig>,
                      ldap: map<Name, Group>, own: Plan, group: Group)
    requires (forall x :: x in order ==> x in users) && order != []
    requires UsersPlanned(a, b, order[..|order| - 1], users, ldap)
    requires var n := order[|order| - 1];
      && (IsLdapGroup(users[n]) ==> group.name != "" && n in ldap && ldap[n] == group)
      && own == UserPlan(n, users[n], map[n := group]) && UserPlanned(b, c, n, users[n], group)
      && Lookups(n, users[n], map[n := group]) == Lookups(n, users[n], ldap)
    requires UserPlans(Elements(order), users, ldap)
        == Join(UserPlans(Elements(order[..|order| - 1]), users, ldap), own)
    ensures UsersPlanned(a, c, order, users, ldap)
  {
    hide PlanOf, Spoiled, Unnamed, Lookups, UserPlan, UserPlans, NewStranger;
    var init, n := order[..|order| - 1], order[|order| - 1];
    var before := UserPlans(Elements(init), users, ldap);
    JoinAssoc(PlanOf(a.roles, a.grants), before, own);
    UserPlanNames(n, users[n], group);
    NextStranger(a, b, n, users[n], before.names, group, ldap);
  }

  lemma LookupsAre(n: Name, c: UserConfig, ldap: map<Name, Group>, more: map<Name, Group>)
    requires IsLdapGroup(c) ==> n in ldap && n in more && ldap[n] == more[n]
    ensures Lookups(n, c, ldap) == Lookups(n, c, more)
  {
    hide PlainUserPlan, MemberOf;
  }

  lemma NextStranger(a: Draft, b: Draft, n: Name, c: UserConfig, names: set<Name>, group: Group,
                     more: map<Name, Group>)
    requires b.roles.Keys + {""} == a.roles.Keys + names + {""} && (IsLdapGroup(c) ==> group.name != "")
    requires IsLdapGroup(c) ==> n in more && more[n] == group
    ensures NewStranger(b.roles.Keys, n, c, map[n := group]) == NewStranger(a.roles.Keys + names, n, c, more)
  {
    if IsLdapGroup(c) {
      assert group.name in b.roles.Keys + {""} <==> group.name in a.roles.Keys + names + {""};
    }
  }

  // ----- the whole plan -----

  /** A group that was stored without a name is looked up later, by a user entry or by a database. */
  ghost predicate LooksUpStranger(c: Config, known: set<Name>, order: seq<Name>, ldap: map<Name, Group>)
    requires forall n :: n in order ==> n in c.users
  {
    || MeetsStranger(known, order, c.users, ldap)
    || !(DatabasePlans(c.databases.Keys, c.databases).names !! Strangers(known, order, c.users, ldap))
  }

  /** The names that are there when the user entries are handled. */
  ghost function KnownNames(roles: map<Name, Role>, c: Config): set<Name> {
    roles.Keys + RolePlans(c.roles.Keys, c.roles).names
  }

  /** What the whole configuration does to tables whose roles are all stored under their names. */
  ghost predicate ConfigPlanned(a: Draft, b: Draft, c: Config, order: seq<Name>, ldap: map<Name, Group>)
    requires forall n :: n in order ==> n in c.users
  {
    var known, form := KnownNames(a.roles, c), ClosedForm(PlanOf(a.roles, a.grants), c, ldap);
    && (Named(b.roles) <==> Strangers(known, order, c.users, ldap) == {})
    && (!LooksUpStranger(c, known, order, ldap) ==> PlanOf(b.roles, b.grants) == form)
    && (Spoiled(b) <==> Spoiled(a) || "" in form.names || LooksUpStranger(c, known, order, ldap))
  }

  lemma AllPlanned(a: Draft, b: Draft, b': Draft, d: Draft, c: Config, order: seq<Name>, ldap: map<Name, Group>)
    requires Named(a.roles) && Arranged(order, c.users)
    requires var p := RolePlans(c.roles.Keys, c.roles); Extends(a, b, {}, p.names, p)
    requires UsersPlanned(b, b', order, c.users, ldap)
    requires var p := DatabasePlans(c.databases.Keys, c.databases); Extends(b', d, {}, p.names, p)
    ensures ConfigPlanned(a, d, c, order, ldap)
  {
    hide PlanOf, Spoiled, RolePlans, UserPlans, DatabasePlans, Strangers, MeetsStranger;
    var roles := RolePlans(c.roles.Keys, c.roles);
    NamedExtends(a, b, roles.names, roles);
    assert PlanOf(b.roles, b.grants).names == b.roles.Keys && PlanOf(a.roles, a.grants).names == a.roles.Keys by {
      PlanNames(a);
      PlanNames(b);
    }
    assert b.roles.Keys == KnownNames(a.roles, c);
    assert Elements(order) == c.users.Keys;
    NamedIff(d.roles);
    var form := ClosedForm(PlanOf(a.roles, a.grants), c, ldap);
    assert Unnamed(d.roles) == Unnamed(b'.roles) == Strangers(b.roles.Keys, order, c.users, ldap);
    if !LooksUpStranger(c, b.roles.Keys, order, ldap) {
      assert PlanOf(d.roles, d.grants) == form;
    }
    EmptyNameSpoils(a);
    var strangers, added := Unnamed(d.roles), DatabasePlans(c.databases.Keys, c.databases).names;
    assert added !! strangers + {""} <==> added !! strangers && "" !in added;
  }

  lemma EmptyNameSpoils(a: Draft)
    ensures "" in a.roles ==> Spoiled(a)
  {
  }

  lemma PlanNames(a: Draft)
    ensures PlanOf(a.roles, a.grants).names == a.roles.Keys
  {
  }

  // ----- the order of the entries -----

  /** Every LDAP group of these entries has its listing. */
  predicate AllListed(users: map<Name, UserConfig>, ldap: map<Name, Group>) {
    forall n :: n in users && IsLdapGroup(users[n]) ==> n in ldap
  }

  /** More entries neither name a nameless group nor undo that one was looked up. */
  lemma {:induction false} StrangersStay(known: set<Name>, order: seq<Name>, users: map<Name, UserConfig>,
                                         ldap: map<Name, Group>, i: nat)
    requires (forall n :: n in order ==> n in users) && i <= |order|
    ensures Strangers(known, order[..i], users, ldap) <= Strangers(known, order, users, ldap)
    ensures MeetsStranger(known, order[..i], users, ldap) ==> MeetsStranger(known, order, users, ldap)
    decreases |order|
  {
    hide UserPlans, Lookups;
    if i < |order| {
      var init := order[..|order| - 1];
      assert init[..i] == order[..i];
      StrangersStay(known, init, users, ldap, i);
    } else {
      assert order[..i] == order;
    }
  }

  /** A stranger is the group of an entry and is no known name. */
  lemma {:induction false} StrangerIsGroup(known: set<Name>, order: seq<Name>, users: map<Name, UserConfig>,
                                           ldap: map<Name, Group>, g: Name)
    requires (forall n :: n in order ==> n in users) && g in Strangers(known, order, users, ldap)
    ensures exists n :: n in order && IsLdapGroup(users[n]) && n in ldap && ldap[n].name == g && g !in known
    decreases |order|
  {
    hide UserPlans;
    var init, n := order[..|order| - 1], order[|order| - 1];
    assert order == init + [n];
    if g in Strangers(known, init, users, ldap) { StrangerIsGroup(known, init, users, ldap, g); }
  }

  lemma {:induction false} MetStranger(known: set<Name>, order: seq<Name>, users: map<Name, UserConfig>,
                                       ldap: map<Name, Group>) returns (g: Name, m: Name)
    requires (forall n :: n in order ==> n in users) && MeetsStranger(known, order, users, ldap)
    ensures m in order && g in Lookups(m, users[m], ldap) && g in Strangers(known, order, users, ldap)
    decreases |order|
  {
    hide Lookups;
    var init, n := order[..|order| - 1], order[|order| - 1];
    assert order == init + [n];
    if MeetsStranger(known, init, users, ldap) {
      g, m := MetStranger(known, init, users, ldap);
    } else {
      g :| g in Lookups(n, users[n], ldap) && g in Strangers(known, order, users, ldap);
      m := n;
    }
  }

  /** An entry that is handled first finds its group unknown, unless it is a known name. */
  lemma FirstIsStranger(known: set<Name>, n: Name, users: map<Name, UserConfig>, ldap: map<Name, Group>)
    requires n in users && IsLdapGroup(users[n]) && n in ldap
    ensures Strangers(known, [n], users, ldap) == {ldap[n].name} - known
    ensures MeetsStranger(known, [n], users, ldap) <==>
      ldap[n].name !in known && ldap[n].name in Lookups(n, users[n], ldap)
  {
    assert [n][..0] == [] && Elements([]) == {};
    assert UserPlans({}, users, ldap).names == {};
    assert Strangers(known, [], users, ldap) == {} && !MeetsStranger(known, [], users, ldap);
  }

  /** And another one that is handled next meets it, if it looks it up. */
  lemma SecondMeetsStranger(known: set<Name>, n: Name, m: Name, users: map<Name, UserConfig>, ldap: map<Name, Group>)
    requires n in users && m in users && IsLdapGroup(users[n]) && n in ldap
    requires ldap[n].name !in known && ldap[n].name in Lookups(m, users[m], ldap)
    ensures MeetsStranger(known, [n, m], users, ldap)
  {
    hide Lookups;
    FirstIsStranger(known, n, users, ldap);
    assert [n, m][..1] == [n];
    StrangersStay(known, [n, m], users, ldap, 1);
  }

  /** The entries, these first. */
  lemma SomeFirst(first: seq<Name>, users: map<Name, UserConfig>) returns (order: seq<Name>)
    requires (forall n :: n in first ==> n in users) && forall i, j :: 0 <= i < j < |first| ==> first[i] != first[j]
    ensures Arranged(order, users) && |first| <= |order| && order[..|first|] == first
  {
    var rest := SomeOrder(users.Keys - Elements(first));
    order := first + rest;
    forall i, j | 0 <= i < j < |order| ensures order[i] != order[j] {
      if i < |first| <= j { assert order[i] in Elements(first) && order[j] in rest; }
    }
  }

  /** Every order leaves all roles named if and only if every group is a known name beforehand. */
  lemma NamedInEveryOrderIff(known: set<Name>, users: map<Name, UserConfig>, ldap: map<Name, Group>)
    requires AllListed(users, ldap)
    ensures (forall order :: Arranged(order, users) ==> Strangers(known, order, users, ldap) == {}) <==>
        forall n :: n in users && IsLdapGroup(users[n]) ==> ldap[n].name in known
  {
    if n :| n in users && IsLdapGroup(users[n]) && ldap[n].name !in known {
      var order := SomeFirst([n], users);
      FirstIsStranger(known, n, users, ldap);
      StrangersStay(known, order, users, ldap, 1);
    } else {
      forall order | Arranged(order, users) ensures Strangers(known, order, users, ldap) == {} {
        if g :| g in Strangers(known, order, users, ldap) { StrangerIsGroup(known, order, users, ldap, g); }
      }
    }
  }

  /** Some LDAP group that is not known beforehand is looked up: by a user entry, its own included, or by a database. */
  ghost predicate StrangerAround(c: Config, known: set<Name>, ldap: map<Name, Group>)
    requires AllListed(c.users, ldap)
  {
    exists n :: n in c.users && IsLdapGroup(c.users[n]) && ldap[n].name !in known &&
      (ldap[n].name in DatabasePlans(c.databases.Keys, c.databases).names
       || exists m :: m in c.users && ldap[n].name in Lookups(m, c.users[m], ldap))
  }

  /** With given listings, no order looks up a nameless group if and only if there is none that could be. */
  lemma LooksUpIff(c: Config, known: set<Name>, ldap: map<Name, Group>)
    requires AllListed(c.users, ldap)
    ensures (exists order :: Arranged(order, c.users) && LooksUpStranger(c, known, order, ldap)) <==>
        StrangerAround(c, known, ldap)
  {
    hide DatabasePlans, Lookups;
    if order :| Arranged(order, c.users) && LooksUpStranger(c, known, order, ldap) {
      LookedUpIsAround(c, known, order, ldap);
    }
    if StrangerAround(c, known, ldap) {
      var n :| n in c.users && IsLdapGroup(c.users[n]) && ldap[n].name !in known &&
        (ldap[n].name in DatabasePlans(c.databases.Keys, c.databases).names
         || exists m :: m in c.users && ldap[n].name in Lookups(m, c.users[m], ldap));
      FirstIsStranger(known, n, c.users, ldap);
      var order := SomeFirst([n], c.users);
      StrangersStay(known, order, c.users, ldap, 1);
      if m :| m in c.users && ldap[n].name in Lookups(m, c.users[m], ldap) {
        if m != n {
          SecondMeetsStranger(known, n, m, c.users, ldap);
          order := SomeFirst([n, m], c.users);
          StrangersStay(known, order, c.users, ldap, 2);
        }
      }
      assert LooksUpStranger(c, known, order, ldap);
    }
  }

  lemma LookedUpIsAround(c: Config, known: set<Name>, order: seq<Name>, ldap: map<Name, Group>)
    requires AllListed(c.users, ldap) && Arranged(order, c.users) && LooksUpStranger(c, known, order, ldap)
    ensures StrangerAround(c, known, ldap)
  {
    hide DatabasePlans, Lookups;
    var g: Name;
    if MeetsStranger(known, order, c.users, ldap) {
      var m;
      g, m := MetStranger(known, order, c.users, ldap);
    } else {
      g :| g in DatabasePlans(c.databases.Keys, c.databases).names && g in Strangers(known, order, c.users, ldap);
    }
    StrangerIsGroup(known, order, c.users, ldap, g);
  }

  /**
   So the order of two entries can decide: an entry for a group that is no known name, and a user who is
   to be a member of that group. If the group is visited first, it is nameless when the user looks it up;
   if the user is, the group is known.
   */
  lemma EntryOrderShows(known: set<Name>, u: Name, v: Name, users: map<Name, UserConfig>, ldap: map<Name, Group>)
    requires u in users && v in users && IsLdapGroup(users[u]) && u in ldap && ldap[u].name !in known
    requires !IsLdapGroup(users[v]) && users[v].state == Present && ldap[u].name in users[v].memberOf
    ensures MeetsStranger(known, [u, v], users, ldap)
    ensures Strangers(known, [v, u], users, ldap) == {} && !MeetsStranger(known, [v, u], users, ldap)
  {
    SecondMeetsStranger(known, u, v, users, ldap);
    assert [v, u][..1] == [v] && [v][..0] == [] && Elements([v]) == {v};
    assert Strangers(known, [], users, ldap) == {} == Strangers(known, [v], users, ldap);
    assert !MeetsStranger(known, [], users, ldap) && !MeetsStranger(known, [v], users, ldap);
    assert ldap[u].name in UserPlan(v, users[v], ldap).names;
    assert ldap[u].name in UserPlans({v}, users, ldap).names;
  }

  /**
   An entry with memberships that is called like its own group, which no other entry names, always looks
   up what it has just stored: no order helps.
   */
  lemma OwnGroupIsStranger(known: set<Name>, order: seq<Name>, users: map<Name, UserConfig>, ldap: map<Name, Group>,
                           n: Name)
    requires Arranged(order, users) && n in users && IsLdapGroup(users[n]) && n in ldap && ldap[n].name == n
    requires n !in known && users[n].state == Present && users[n].memberOf != []
    requires forall m :: m in users && m != n ==> n !in UserPlan(m, users[m], ldap).names
    ensures MeetsStranger(known, order, users, ldap)
  {
    hide UserPlan;
    var i :| 0 <= i < |order| && order[i] == n;
    var part := order[..i + 1];
    assert part[..|part| - 1] == order[..i] && part[|part| - 1] == n && n !in Elements(order[..i]);
    assert n !in UserPlans(Elements(order[..i]), users, ldap).names;
    assert n in NewStranger(known + UserPlans(Elements(order[..i]), users, ldap).names, n, users[n], ldap);
    assert n in Strangers(known, part, users, ldap) && n in Lookups(n, users[n], ldap);
    StrangersStay(known, order, users, ldap, i + 1);
  }
}
