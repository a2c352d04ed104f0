/** The LDAP membership graph: an index of linked members that searches add to. */
module Ldap {
  import opened Options
  import opened LdapText

  datatype MemberType = GroupType | UserType | UnknownType

  function TypeOfKey(key: string): MemberType {
    if key == "cn" then GroupType else if key == "uid" then UserType else UnknownType
  }

  /** The type an id gives a new member. */
  function TypeOfId(id: string): MemberType {
    if ValidDN(id) then TypeOfKey(Before(Before(id, ','), '=')) else UnknownType
  }

  /** The DN an id gives a new member. */
  function DNOfId(id: string): string { if ValidDN(id) then id else "" }

  /** What an LDAP search returns, and what it was asked for. */
  datatype Entry = Entry(dn: string, memberUids: seq<string>)
  datatype Search = Search(base: string, entries: seq<Entry>)

  // ----- the index, as a value -----

  datatype Link = Link(parent: string, child: string)

  /**
   For every name its DN and type, and the links between names; `blank` is the name of the member that is
   found under the empty key.
   */
  datatype Index = Index(dns: map<string, string>, types: map<string, MemberType>, links: set<Link>,
      blank: Option<string>)

  const EMPTY := Index(map[], map[], {}, None)

  function DNOf(ix: Index, n: string): string { if n in ix.dns then ix.dns[n] else "" }
  function TypeOf(ix: Index, n: string): MemberType { if n in ix.types then ix.types[n] else UnknownType }

  predicate Known(ix: Index, id: string) { if id == "" then ix.blank.Some? else LeafName(id) in ix.dns }

  /** The name of the member an id leads to. */
  function NameOf(ix: Index, id: string): string { if id == "" && ix.blank.Some? then ix.blank.value else LeafName(id) }

  /** After a look-up: a missing member is added without links. */
  function Found(ix: Index, id: string): Index {
    if Known(ix, id) then ix
    else
      var n := LeafName(id);
      Index(ix.dns[n := DNOfId(id)], ix.types[n := TypeOfId(id)], ix.links, if ValidDN(id) then ix.blank else Some(n))
  }

  /** After addParent: members with equal DNs, also with none at all, are not linked. */
  function Linked(ix: Index, parent: string, child: string): Index {
    if DNOf(ix, child) == DNOf(ix, parent) then ix else ix.(links := ix.links + {Link(parent, child)})
  }

  /** After setMType: a type is given once. */
  function Typed(ix: Index, n: string, t: MemberType): Option<Index> {
    if t == UnknownType || t == TypeOf(ix, n) then Some(ix)
    else if TypeOf(ix, n) != UnknownType then None
    else Some(ix.(types := ix.types[n := t]))
  }

  function WithUser(ix: Index, group: string, uid: string): Option<Index> {
    var user := NameOf(ix, uid);
    Typed(Linked(Found(ix, uid), group, user), user, UserType)
  }

  function WithUsers(ix: Index, group: string, uids: seq<string>): Option<Index>
    decreases |uids|
  {
    if uids == [] then Some(ix)
    else
      match WithUsers(ix, group, uids[..|uids| - 1])
      case None => None
      case Some(before) => WithUser(before, group, uids[|uids| - 1])
  }

  function WithEntry(ix: Index, base: string, e: Entry): Option<Index> {
    var group := NameOf(ix, e.dn);
    WithUsers(Linked(Found(ix, e.dn), base, group), group, e.memberUids)
  }

  function WithEntries(ix: Index, base: string, entries: seq<Entry>): Option<Index>
    decreases |entries|
  {
    if entries == [] then Some(ix)
    else
      match WithEntries(ix, base, entries[..|entries| - 1])
      case None => None
      case Some(before) => WithEntry(before, base, entries[|entries| - 1])
  }

  /** After one search; None if a member was to become a user and is a group. */
  function Searched(ix: Index, s: Search): Option<Index> {
    WithEntries(Found(ix, s.base), NameOf(ix, s.base), s.entries)
  }

  /** After several searches on the same index. */
  function AllSearched(ix: Index, searches: seq<Search>): Option<Index>
    decreases |searches|
  {
    if searches == [] then Some(ix)
    else
      match AllSearched(ix, searches[..|searches| - 1])
      case None => None
      case Some(before) => Searched(before, searches[|searches| - 1])
  }

  // ----- the members, as objects -----

  /** A member's fields at one moment. */
  datatype Node = Node(dn: string, mType: MemberType, parents: map<string, Member>, children: map<string, Member>)

  class Member {
    var dn: string
    var pair: string
    var name: string
    var mType: MemberType
    var parents: map<string, Member>
    var children: map<string, Member>

    function View(): Node
      reads this
    {
      Node(dn, mType, parents, children)
    }

    constructor ()
      ensures dn == "" && pair == "" && name == "" && parents == map[] && children == map[]
    {
      dn, pair, name, mType, parents, children := "", "", "", GroupType, map[], map[];
    }

    /** Sets what the id tells and is not known yet; refuses an id that contradicts what is known. */
    method SetFromId(id: string) returns (ok: bool)
      modifies `dn, `pair, `name, `mType
      ensures !ok ==> unchanged(`dn) && unchanged(`pair) && unchanged(`name) && unchanged(`mType)
      ensures old(dn) != "" ==> ok && unchanged(`dn) && unchanged(`pair) && unchanged(`name) && unchanged(`mType)
      ensures old(pair) != "" ==> pair == old(pair)
      ensures old(name) != "" ==> name == old(name)
      ensures old(dn) == "" && ok && ValidDN(id) ==>
        dn == id && pair == Before(id, ',') && name == LeafName(id) && mType == TypeOfId(id)
      ensures old(dn) == "" && !ValidDN(id) ==> ok && unchanged(`dn)
      ensures old(dn) == "" && old(pair) == "" && old(name) == "" ==> ok && name == LeafName(id)
      ensures old(dn) == "" && old(pair) == "" && old(name) == "" && !ValidDN(id) ==> pair == "" && mType == UnknownType
    {
      hide ValidDN, ValidPair, Before, After, TypeOfKey;
      if dn != "" {
        return true;
      }
      if ValidDN(id) {
        FirstPair(id);
        var first := Before(id, ',');
        if pair != "" && pair != first {
          return false;
        }
        var key := Before(first, '=');
        var leaf := After(first, '=');
        if name != "" && name != leaf {
          return false;
        }
        dn, pair, name, mType := id, first, leaf, TypeOfKey(key);
        return true;
      }
      if pair != "" {
        return true;
      }
      // a valid pair is a valid DN, so the source's branch for a bare pair is never taken here
      PairIsDN(id);
      if name != "" {
        return true;
      }
      name, mType := id, UnknownType;
      return true;
    }

    /** A type can be given once. */
    method SetType(t: MemberType) returns (ok: bool)
      modifies `mType
      ensures ok <==> t == UnknownType || t == old(mType) || old(mType) == UnknownType
      ensures mType == if ok && t != UnknownType then t else old(mType)
    {
      if t == UnknownType || t == mType {
        return true;
      }
      if mType != UnknownType {
        return false;
      }
      mType := t;
      return true;
    }

    /** Links both ways, unless the DNs are equal or a parent of that name is known. */
    method AddParent(p: Member)
      modifies this`parents, p`children
      ensures dn == p.dn || p.name in old(parents) ==> parents == old(parents) && p.children == old(p.children)
      ensures dn != p.dn && p.name !in old(parents) ==>
        parents == old(parents)[p.name := p] && p.children == old(p.children)[name := this]
    {
      if dn == p.dn {
        return;
      }
      if p.name in parents {
        return;
      }
      parents := parents[p.name := p];
      p.children := p.children[name := this];
    }
  }

  lemma PairIsDN(id: string)
    requires !ValidDN(id)
    ensures !ValidPair(id)
  {
    if ValidPair(id) { PairHasNoComma(id); }
  }

  method NewMember(id: string) returns (m: Member)
    ensures fresh(m) && m.name == LeafName(id) && m.View() == Node(DNOfId(id), TypeOfId(id), map[], map[])
    ensures if ValidDN(id) then ValidDN(m.pair) && m.pair != "" else m.pair == ""
  {
    hide LeafName;
    if ValidDN(id) { PairsAreKeys(id); }
    m := new Member();
    var ok := m.SetFromId(id);
  }

  // ----- objects and value together -----

  /** A name an index key can stand for: neither empty nor a DN. */
  predicate Plain(name: string) { name != "" && !ValidDN(name) }

  function ParentsOf(byName: map<string, Member>, links: set<Link>, n: string): map<string, Member> {
    map k | k in byName && Link(k, n) in links :: byName[k]
  }

  function ChildrenOf(byName: map<string, Member>, links: set<Link>, n: string): map<string, Member> {
    map k | k in byName && Link(n, k) in links :: byName[k]
  }

  /** The fields of the member of this name, as the index has them; links are mirrored. */
  function NodeOf(byName: map<string, Member>, ix: Index, n: string): Node {
    Node(DNOf(ix, n), TypeOf(ix, n), ParentsOf(byName, ix.links, n), ChildrenOf(byName, ix.links, n))
  }

  ghost predicate SameNames(byName: map<string, Member>, ix: Index) {
    byName.Keys == ix.dns.Keys == ix.types.Keys && forall l :: l in ix.links ==> l.parent in byName && l.child in byName
  }

  /** A plain key leads to the one object of that name; the empty key to `blank`; a DN belongs to its leaf name. */
  ghost predicate Filed(members: map<string, Member>, byName: map<string, Member>, ix: Index) {
    && (forall n :: n in byName && n != "" ==> Plain(n) && n in members && members[n] == byName[n])
    && (forall k :: k in members && Plain(k) ==> k in byName)
    && ("" in members <==> ix.blank.Some?)
    && (ix.blank.Some? ==> ix.blank.value in byName && members[""] == byName[ix.blank.value])
    && ("" in byName ==> ix.blank.Some?)
    && (forall n :: n in ix.dns && ix.dns[n] != "" ==> ValidDN(ix.dns[n]) && n == LeafName(ix.dns[n]))
  }

  lemma NodeAdded(byName: map<string, Member>, ix: Index, id: string, m: Member)
    requires SameNames(byName, ix) && LeafName(id) !in byName && !Known(ix, id)
    ensures var byName', ix' := byName[LeafName(id) := m], Found(ix, id);
      && SameNames(byName', ix')
      && NodeOf(byName', ix', LeafName(id)) == Node(DNOfId(id), TypeOfId(id), map[], map[])
      && forall n :: n in byName ==> NodeOf(byName', ix', n) == NodeOf(byName, ix, n)
  {
    hide LeafName, ValidDN, TypeOfId, DNOfId;
    var x, byName', ix' := LeafName(id), byName[LeafName(id) := m], Found(ix, id);
    assert ix'.links == ix.links && Link(x, x) !in ix.links;
    forall k ensures Link(k, x) !in ix.links && Link(x, k) !in ix.links { }
    assert ParentsOf(byName', ix.links, x) == map[] == ChildrenOf(byName', ix.links, x);
    forall n | n in byName ensures NodeOf(byName', ix', n) == NodeOf(byName, ix, n) {
      assert ParentsOf(byName', ix.links, n) == ParentsOf(byName, ix.links, n);
      assert ChildrenOf(byName', ix.links, n) == ChildrenOf(byName, ix.links, n);
    }
  }

  lemma LinkAdded(byName: map<string, Member>, ix: Index, p: string, c: string)
    requires SameNames(byName, ix) && p in byName && c in byName && p != c
    ensures SameNames(byName, ix.(links := ix.links + {Link(p, c)}))
    ensures var ix', m, q := ix.(links := ix.links + {Link(p, c)}), NodeOf(byName, ix, c), NodeOf(byName, ix, p);
      && NodeOf(byName, ix', c) == m.(parents := m.parents[p := byName[p]])
      && NodeOf(byName, ix', p) == q.(children := q.children[c := byName[c]])
      && forall n :: n != p && n != c ==> NodeOf(byName, ix', n) == NodeOf(byName, ix, n)
  {
    var links := ix.links + {Link(p, c)};
    assert ParentsOf(byName, links, c) == ParentsOf(byName, ix.links, c)[p := byName[p]];
    assert ChildrenOf(byName, links, p) == ChildrenOf(byName, ix.links, p)[c := byName[c]];
    assert ChildrenOf(byName, links, c) == ChildrenOf(byName, ix.links, c);
    assert ParentsOf(byName, links, p) == ParentsOf(byName, ix.links, p);
    forall n | n != p && n != c ensures NodeOf(byName, ix.(links := links), n) == NodeOf(byName, ix, n) {
      assert ParentsOf(byName, links, n) == ParentsOf(byName, ix.links, n);
      assert ChildrenOf(byName, links, n) == ChildrenOf(byName, ix.links, n);
    }
  }

  /** A parent that is known already was linked before. */
  lemma LinkKnown(byName: map<string, Member>, ix: Index, p: string, c: string)
    requires SameNames(byName, ix) && p in ParentsOf(byName, ix.links, c)
    ensures Linked(ix, p, c) == ix
  {
    assert ix.links + {Link(p, c)} == ix.links;
  }

  lemma TypeGiven(byName: map<string, Member>, ix: Index, n: string, t: MemberType)
    requires SameNames(byName, ix) && n in byName && Typed(ix, n, t).Some?
    ensures var ix' := Typed(ix, n, t).value;
      && SameNames(byName, ix') && ix'.dns == ix.dns && ix'.blank == ix.blank
      && NodeOf(byName, ix', n) == NodeOf(byName, ix, n).(mType := if t == UnknownType then TypeOf(ix, n) else t)
      && forall x :: x != n ==> NodeOf(byName, ix', x) == NodeOf(byName, ix, x)
  {
    hide ParentsOf, ChildrenOf;
  }

  lemma PairsAreKeys(id: string)
    requires ValidDN(id)
    ensures ValidDN(Before(id, ',')) && Before(id, ',') != "" && id != ""
  {
    FirstPair(id);
    PairHasNoComma(Before(id, ','));
  }

  lemma LeafIsPlain(id: string)
    ensures id != "" ==> Plain(LeafName(id))
    ensures id == "" ==> LeafName(id) == "" && !ValidDN(id)
  {
    if id != "" { LeafNameIsPlain(id); }
  }

  /** The extra keys, a pair and a DN or the empty text, overwrite no name. */
  lemma NodeFiled(members: map<string, Member>, byName: map<string, Member>, ix: Index, id: string, pair: string,
                  m: Member)
    requires Filed(members, byName, ix) && !Known(ix, id) && SameNames(byName, ix)
    requires if ValidDN(id) then ValidDN(pair) && pair != "" else pair == ""
    ensures LeafName(id) !in byName
    ensures Filed(members[LeafName(id) := m][pair := m][DNOfId(id) := m], byName[LeafName(id) := m], Found(ix, id))
  {
    LeafIsPlain(id);
    hide LeafName, ValidDN, TypeOfId;
    var n, dn := LeafName(id), DNOfId(id);
    assert (id != "" ==> Plain(n)) && !Plain(pair) && !Plain(dn) && (dn == "" <==> pair == "")
        && (dn != "" ==> n != "");
    assert n !in byName && (n == "" ==> id == "");
    hide Plain, DNOfId;
    KeysAdded(members, byName, ix, Found(ix, id), n, pair, dn, m);
  }

  predicate NewKeys(n: string, pair: string, dn: string) {
    && !Plain(pair) && !Plain(dn) && (dn == "" <==> pair == "") && (if n == "" then dn == "" else Plain(n))
    && (dn != "" ==> ValidDN(dn) && n == LeafName(dn))
  }

  lemma KeysAdded(members: map<string, Member>, byName: map<string, Member>, ix: Index, ix': Index,
                  n: string, pair: string, dn: string, m: Member)
    requires Filed(members, byName, ix) && n !in byName && NewKeys(n, pair, dn)
    requires ix'.dns == ix.dns[n := dn] && ix'.blank == if dn == "" then Some(n) else ix.blank
    ensures Filed(members[n := m][pair := m][dn := m], byName[n := m], ix')
  {
    hide LeafName, ValidDN;
    var members', byName' := members[n := m][pair := m][dn := m], byName[n := m];
    forall x | x in byName' && x != "" ensures Plain(x) && x in members' && members'[x] == byName'[x] {
      if x != n { assert members[x] == byName[x]; }
    }
    forall k | k in members' && Plain(k) ensures k in byName' {
      if k != n { assert k in members; }
    }
  }

  /** A key is filed exactly if the index knows the id, and leads to the object of its name. */
  lemma FiledIsKnown(members: map<string, Member>, byName: map<string, Member>, ix: Index, id: string)
    requires Filed(members, byName, ix) && SameNames(byName, ix)
    ensures LeafName(id) in members <==> Known(ix, id)
    ensures Known(ix, id) ==> NameOf(ix, id) in byName && members[LeafName(id)] == byName[NameOf(ix, id)]
    ensures !Known(ix, id) ==> NameOf(ix, id) == LeafName(id)
    ensures Known(ix, id) ==> Found(ix, id) == ix
  {
    LeafIsPlain(id);
    hide LeafName, ValidDN;
  }

  lemma FiledStill(members: map<string, Member>, byName: map<string, Member>, ix: Index, ix': Index)
    requires Filed(members, byName, ix) && ix'.dns == ix.dns && ix'.blank == ix.blank
    ensures Filed(members, byName, ix')
  {
    hide LeafName, ValidDN;
  }

  class Directory {
    var members: map<string, Member>
    /** The objects created so far, by their names. */
    ghost var byName: map<string, Member>
    ghost var pool: set<Member>
    ghost var index: Index

    constructor ()
      ensures Valid() && members == map[] && byName == map[] && pool == {} && index == EMPTY
    {
      members, byName, pool, index := map[], map[], {}, EMPTY;
    }

    ghost predicate Pooled()
      reads this, pool
    {
      && (forall n :: n in byName ==> byName[n] in pool && byName[n].name == n)
      && (forall m :: m in pool ==> m.name in byName && byName[m.name] == m)
    }

    ghost predicate Valid()
      reads this, pool
    {
      Pooled() && SameNames(byName, index) && Filed(members, byName, index) && Drawn()
    }

    /** Every object's fields are what the index has. */
    ghost predicate Drawn()
      requires Pooled()
      reads this, pool
    {
      forall n :: n in byName ==> byName[n].View() == NodeOf(byName, index, n)
    }

    /** Every object stays the one its name leads to. */
    twostate predicate Kept()
      reads this, pool
    {
      && old(pool) <= pool && fresh(pool - old(pool)) && (forall m :: m in old(pool) ==> m.name == old(m.name))
      && forall n :: n in old(byName) ==> n in byName && byName[n] == old(byName)[n]
    }

    /** Looks up by the leaf name of the id; a missing member is added under its name, its pair and its DN. */
    method GetByID(id: string) returns (m: Member)
      requires Valid()
      modifies this
      ensures Valid() && Kept() && m in pool && m.name == NameOf(old(index), id)
      ensures index == Found(old(index), id)
      ensures Known(old(index), id) ==> pool == old(pool)
    {
      hide LeafName, ValidDN, TypeOfId, DNOfId, Drawn, NodeOf, ParentsOf, ChildrenOf, Filed, Known, NameOf;
      FiledIsKnown(members, byName, index, id);
      var made := NewMember(id);
      if made.name in members {
        m := members[made.name];
        return;
      }
      m := made;
      Insert(m, id);
    }

    /** The new member's three keys. */
    method Insert(m: Member, ghost id: string)
      requires Valid() && m !in pool && !Known(index, id)
      requires m.name == LeafName(id) && m.dn == DNOfId(id) && m.View() == Node(m.dn, TypeOfId(id), map[], map[])
      requires if ValidDN(id) then ValidDN(m.pair) && m.pair != "" else m.pair == ""
      modifies this
      ensures Valid() && index == Found(old(index), id)
      ensures pool == old(pool) + {m} && byName == old(byName)[m.name := m] && m.name !in old(byName)
    {
      hide LeafName, ValidDN, TypeOfId, NodeOf, DNOfId, Found, Known, Plain, Filed, SameNames;
      ghost var names, ix, name := byName, index, m.name;
      NodeFiled(members, names, ix, id, m.pair, m);
      NodeAdded(names, ix, id, m);
      AddKeys(m);
      byName, pool, index := names[name := m], pool + {m}, Found(ix, id);
      assert Drawn() by {
        forall n | n in names ensures names[n].View() == NodeOf(byName, index, n) { }
      }
    }

    method AddKeys(m: Member)
      modifies this`members
      ensures members == old(members)[m.name := m][m.pair := m][m.dn := m]
    {
      members := members[m.name := m];
      members := members[m.pair := m];
      members := members[m.dn := m];
    }

    /** addParent between two indexed members. */
    method LinkBelow(m: Member, p: Member)
      requires Valid() && m in pool && p in pool
      modifies this`index, m`parents, p`children
      ensures Valid() && index == Linked(old(index), p.name, m.name)
    {
      hide LeafName, ValidDN, Filed, ParentsOf, ChildrenOf;
      ghost var ix := index;
      assert m.View() == NodeOf(byName, ix, m.name) && p.View() == NodeOf(byName, ix, p.name);
      if m.dn == p.dn {
        m.AddParent(p);
        assert m.View() == old(m.View()) && p.View() == old(p.View());
      } else if p.name in m.parents {
        LinkKnown(byName, ix, p.name, m.name);
        m.AddParent(p);
        assert m.View() == old(m.View()) && p.View() == old(p.View());
      } else {
        NewLink(m, p);
      }
    }

    /** What a new link does to its two ends is what it does to the index. */
    twostate lemma LinkDrawn(l: Link)
      requires old(Pooled()) && old(Drawn()) && Pooled() && byName == old(byName)
      requires old(SameNames(byName, index)) && l.parent in byName && l.child in byName && l.parent != l.child
      requires index == old(index).(links := old(index).links + {l})
      requires var m, p := byName[l.child], byName[l.parent];
        && m.View() == old(m.View()).(parents := old(m.parents)[l.parent := p])
        && p.View() == old(p.View()).(children := old(p.children)[l.child := m])
        && forall n :: n in byName && n != l.child && n != l.parent ==> byName[n].View() == old(byName[n].View())
      ensures Drawn()
    {
      hide NodeOf, SameNames;
      LinkAdded(byName, old(index), l.parent, l.child);
      forall n | n in byName ensures byName[n].View() == NodeOf(byName, index, n) {
        assert old(byName[n].View()) == NodeOf(byName, old(index), n);
      }
    }

    method NewLink(m: Member, p: Member)
      requires Valid() && m in pool && p in pool && m.dn != p.dn && p.name !in m.parents
      modifies this`index, m`parents, p`children
      ensures Valid() && index == old(index).(links := old(index).links + {Link(p.name, m.name)})
    {
      hide Filed, NodeOf, Drawn;
      ghost var ix := index;
      m.AddParent(p);
      index := ix.(links := ix.links + {Link(p.name, m.name)});
      FiledStill(members, byName, ix, index);
      LinkDrawn(Link(p.name, m.name));
    }

    /** setMType of an indexed member. */
    method GiveType(m: Member, t: MemberType) returns (ok: bool)
      requires Valid() && m in pool
      modifies this`index, m`mType
      ensures Valid()
      ensures ok <==> Typed(old(index), m.name, t).Some?
      ensures index == if ok then Typed(old(index), m.name, t).value else old(index)
    {
      hide LeafName, ValidDN, Filed, ParentsOf, ChildrenOf, Plain;
      ghost var ix := index;
      assert m.View() == NodeOf(byName, ix, m.name);
      ok := m.SetType(t);
      if ok {
        index := Typed(ix, m.name, t).value;
        TypeGiven(byName, ix, m.name, t);
        FiledStill(members, byName, ix, index);
        hide NodeOf, Typed;
        assert Drawn() by {
          forall n | n in byName ensures byName[n].View() == NodeOf(byName, index, n) {
            if n != m.name { assert byName[n].View() == old(byName[n].View()); }
          }
        }
      } else {
        assert m.View() == old(m.View());
      }
    }

    /** One memberUid: found or added, linked below the group, typed as a user. */
    method AddUser(uid: string, group: Member) returns (ok: bool)
      requires Valid() && group in pool
      modifies this, pool
      ensures Valid() && Kept()
      ensures ok <==> WithUser(old(index), group.name, uid).Some?
      ensures ok ==> index == WithUser(old(index), group.name, uid).value
    {
      hide LeafName, ValidDN, TypeOfId, Valid, Found, Linked, Typed, NameOf;
      var member := GetByID(uid);
      LinkBelow(member, group);
      ok := GiveType(member, UserType);
    }

    /** The users of one entry. */
    method AddUsers(uids: seq<string>, group: Member) returns (ok: bool)
      requires Valid() && group in pool
      modifies this, pool
      ensures Valid() && Kept()
      ensures ok <==> WithUsers(old(index), group.name, uids).Some?
      ensures ok ==> index == WithUsers(old(index), group.name, uids).value
    {
      hide Valid, WithUser;
      for i := 0 to |uids|
        invariant Valid() && Kept() && group in pool
        invariant WithUsers(old(index), group.name, uids[..i]) == Some(index)
      {
        assert uids[..i + 1][..i] == uids[..i];
        ok := AddUser(uids[i], group);
        if !ok {
          UsersFail(old(index), group.name, uids, i + 1);
          return;
        }
      }
      assert uids[..|uids|] == uids;
      return true;
    }

    /** One entry: its group found or added and linked below the base, then its users. */
    method AddEntry(e: Entry, base: Member) returns (ok: bool)
      requires Valid() && base in pool
      modifies this, pool
      ensures Valid() && Kept()
      ensures ok <==> WithEntry(old(index), base.name, e).Some?
      ensures ok ==> index == WithEntry(old(index), base.name, e).value
    {
      hide LeafName, ValidDN, TypeOfId, Valid, Found, Linked, NameOf, WithUsers;
      var group := GetByID(e.dn);
      LinkBelow(group, base);
      ok := AddUsers(e.memberUids, group);
    }

    method AddEntries(entries: seq<Entry>, base: Member) returns (ok: bool)
      requires Valid() && base in pool
      modifies this, pool
      ensures Valid() && Kept()
      ensures ok <==> WithEntries(old(index), base.name, entries).Some?
      ensures ok ==> index == WithEntries(old(index), base.name, entries).value
    {
      hide Valid, WithEntry;
      for i := 0 to |entries|
        invariant Valid() && Kept() && base in pool
        invariant WithEntries(old(index), base.name, entries[..i]) == Some(index)
      {
        assert entries[..i + 1][..i] == entries[..i];
        ok := AddEntry(entries[i], base);
        if !ok {
          EntriesFail(old(index), base.name, entries, i + 1);
          return;
        }
      }
      assert entries[..|entries|] == entries;
      return true;
    }

    /** The base group found or added, then every entry of the search result. */
    method GetMembers(baseDN: string, entries: seq<Entry>) returns (ok: bool, base: Member)
      requires Valid()
      modifies this, pool
      ensures Valid() && Kept() && base in pool && base.name == NameOf(old(index), baseDN)
      ensures ok <==> Searched(old(index), Search(baseDN, entries)).Some?
      ensures ok ==> index == Searched(old(index), Search(baseDN, entries)).value
    {
      hide LeafName, ValidDN, TypeOfId, Valid, Found, NameOf, WithEntries;
      base := GetByID(baseDN);
      ok := AddEntries(entries, base);
    }
  }

  lemma {:induction false} UsersFail(ix: Index, group: string, uids: seq<string>, i: nat)
    requires i <= |uids| && WithUsers(ix, group, uids[..i]).None?
    ensures WithUsers(ix, group, uids).None?
    decreases |uids|
  {
    if i < |uids| {
      var init := uids[..|uids| - 1];
      assert init[..i] == uids[..i];
      UsersFail(ix, group, init, i);
    } else {
      assert uids[..i] == uids;
    }
  }

  lemma {:induction false} EntriesFail(ix: Index, base: string, entries: seq<Entry>, i: nat)
    requires i <= |entries| && WithEntries(ix, base, entries[..i]).None?
    ensures WithEntries(ix, base, entries).None?
    decreases |entries|
  {
    if i < |entries| {
      var init := entries[..|entries| - 1];
      assert init[..i] == entries[..i];
      EntriesFail(ix, base, init, i);
    } else {
      assert entries[..i] == entries;
    }
  }
}
