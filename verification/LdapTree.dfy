/** Listing the memberships below a group. */
module LdapTree {
  import opened LdapText
  import opened Servers
  import opened Ldap

  /** The source keeps a copy of the parent here; only its name is read. */
  datatype Membership = Membership(member: Member, memberOf: Member)

  type Path = seq<string>

  ghost predicate Below(links: set<Link>, p: string, c: string) { Link(p, c) in links }

  function Children(links: set<Link>, root: string): set<string> { set l | l in links && l.parent == root :: l.child }

  /** A walk down child links. */
  ghost predicate Walk(links: set<Link>, p: Path) {
    |p| > 0 && forall i :: 0 <= i < |p| - 1 ==> Below(links, p[i], p[i + 1])
  }

  /** Some walk of at least one link leads there. */
  ghost predicate IsBelow(links: set<Link>, root: string, x: string) {
    exists p :: Walk(links, p) && |p| > 1 && p[0] == root && p[|p| - 1] == x
  }

  /** Everything below a name. */
  ghost function Descendants(links: set<Link>, root: string): set<string> {
    set l | l in links && IsBelow(links, root, l.child) :: l.child
  }

  /** Some walk takes more links than there is room for. */
  ghost predicate Deep(links: set<Link>, root: string, stack: nat) {
    exists p :: Walk(links, p) && p[0] == root && |p| > stack + 1
  }

  ghost predicate NoCycle(links: set<Link>) { forall x :: !IsBelow(links, x, x) }

  /** A walk of at least one link from root whose first step is one of these. */
  ghost predicate Descent(links: set<Link>, root: string, first: set<string>, p: Path) {
    Walk(links, p) && |p| > 1 && p[0] == root && p[1] in first
  }

  predicate EndsWith(p: Path, l: Link) { |p| > 1 && p[|p| - 1] == l.child && p[|p| - 2] == l.parent }

  /** Exactly the descents, each once, and each listed membership is the last link of its descent. */
  ghost predicate Exact(links: set<Link>, root: string, first: set<string>, listed: seq<Link>, ps: seq<Path>) {
    && |listed| == |ps|
    && (forall i :: 0 <= i < |ps| ==> EndsWith(ps[i], listed[i]))
    && (forall i, j :: 0 <= i < j < |ps| ==> ps[i] != ps[j])
    && (forall p :: p in ps <==> Descent(links, root, first, p))
  }

  function Prefixed(root: string, ps: seq<Path>): (r: seq<Path>)
    ensures |r| == |ps| && forall i :: 0 <= i < |ps| ==> r[i] == [root] + ps[i]
  {
    seq(|ps|, i requires 0 <= i < |ps| => [root] + ps[i])
  }

  // ----- walks -----

  lemma WalkTail(links: set<Link>, p: Path)
    requires Walk(links, p) && |p| > 1
    ensures Walk(links, p[1..]) && Below(links, p[0], p[1])
  {
    var q := p[1..];
    forall i | 0 <= i < |q| - 1 ensures Below(links, q[i], q[i + 1]) {
      assert Below(links, p[i + 1], p[i + 1 + 1]);
    }
    assert Below(links, p[0], p[0 + 1]);
  }

  lemma WalkFrom(links: set<Link>, root: string, p: Path)
    requires Walk(links, p) && Below(links, root, p[0])
    ensures Walk(links, [root] + p)
  {
    var q := [root] + p;
    forall i | 0 <= i < |q| - 1 ensures Below(links, q[i], q[i + 1]) {
      if i > 0 { assert Below(links, p[i - 1], p[i - 1 + 1]); }
    }
  }

  lemma WalkPart(links: set<Link>, p: Path, i: nat, j: nat)
    requires Walk(links, p) && i < j <= |p|
    ensures Walk(links, p[i..j])
  {
    var q := p[i..j];
    forall k | 0 <= k < |q| - 1 ensures Below(links, q[k], q[k + 1]) {
      assert Below(links, p[i + k], p[i + k + 1]);
    }
  }

  lemma WalkBetween(links: set<Link>, p: Path, i: nat, j: nat)
    requires Walk(links, p) && i < j < |p|
    ensures IsBelow(links, p[i], p[j])
  {
    WalkPart(links, p, i, j + 1);
    assert p[i..j + 1][0] == p[i] && p[i..j + 1][j - i] == p[j];
  }

  /** A walk followed by a walk from where it ends. */
  lemma WalkOn(links: set<Link>, p: Path, q: Path)
    requires Walk(links, p) && Walk(links, q) && p[|p| - 1] == q[0]
    ensures Walk(links, p + q[1..]) && (p + q[1..])[|p| + |q| - 2] == q[|q| - 1]
  {
    var r := p + q[1..];
    forall i | 0 <= i < |r| - 1 ensures Below(links, r[i], r[i + 1]) {
      if i < |p| - 1 {
        assert Below(links, p[i], p[i + 1]);
      } else {
        assert Below(links, q[i - (|p| - 1)], q[i - (|p| - 1) + 1]);
      }
    }
  }

  lemma WalkMonotone(links: set<Link>, more: set<Link>, p: Path)
    requires Walk(links, p) && links <= more
    ensures Walk(more, p)
  {
    forall i | 0 <= i < |p| - 1 ensures Below(more, p[i], p[i + 1]) { assert Below(links, p[i], p[i + 1]); }
  }

  lemma BelowMonotone(links: set<Link>, more: set<Link>, root: string, x: string)
    requires IsBelow(links, root, x) && links <= more
    ensures IsBelow(more, root, x)
  {
    var p :| Walk(links, p) && |p| > 1 && p[0] == root && p[|p| - 1] == x;
    WalkMonotone(links, more, p);
  }

  lemma BelowByLink(links: set<Link>, p: string, c: string)
    requires Link(p, c) in links
    ensures IsBelow(links, p, c)
  {
    assert Walk(links, [p, c]);
  }

  lemma BelowTransitive(links: set<Link>, a: string, b: string, c: string)
    requires IsBelow(links, a, b) && IsBelow(links, b, c)
    ensures IsBelow(links, a, c)
  {
    var p :| Walk(links, p) && |p| > 1 && p[0] == a && p[|p| - 1] == b;
    var q :| Walk(links, q) && |q| > 1 && q[0] == b && q[|q| - 1] == c;
    WalkOn(links, p, q);
  }

  lemma DescendantsAreBelow(links: set<Link>, root: string, x: string)
    ensures x in Descendants(links, root) <==> IsBelow(links, root, x)
  {
    if IsBelow(links, root, x) {
      var p :| Walk(links, p) && |p| > 1 && p[0] == root && p[|p| - 1] == x;
      assert Below(links, p[|p| - 2], p[|p| - 2 + 1]);
      assert Link(p[|p| - 2], x) in links;
    }
  }

  // ----- depth -----

  lemma DeepStep(links: set<Link>, root: string, stack: nat)
    requires stack > 0
    ensures Deep(links, root, stack) <==> exists c :: Below(links, root, c) && Deep(links, c, stack - 1)
  {
    if Deep(links, root, stack) {
      var p :| Walk(links, p) && p[0] == root && |p| > stack + 1;
      WalkTail(links, p);
      assert Deep(links, p[1], stack - 1) by { assert p[1..][0] == p[1]; }
    }
    if c :| Below(links, root, c) && Deep(links, c, stack - 1) {
      var p :| Walk(links, p) && p[0] == c && |p| > stack - 1 + 1;
      WalkFrom(links, root, p);
      assert ([root] + p)[0] == root;
    }
  }

  lemma DeepBottom(links: set<Link>, root: string)
    ensures Deep(links, root, 0) <==> exists c :: Below(links, root, c)
  {
    if Deep(links, root, 0) {
      var p :| Walk(links, p) && p[0] == root && |p| > 1;
      WalkTail(links, p);
    }
    if c :| Below(links, root, c) {
      assert Walk(links, [root, c]) && [root, c][0] == root;
    }
  }

  /** A cycle that can be reached. */
  ghost predicate Endless(links: set<Link>, root: string) {
    exists x :: (x == root || IsBelow(links, root, x)) && IsBelow(links, x, x)
  }

  /** A walk that reaches no cycle meets every name at most once. */
  lemma WalkMeetsOnce(links: set<Link>, p: Path, names: set<string>)
    requires Walk(links, p) && !Endless(links, p[0]) && forall x :: x in p ==> x in names
    ensures |p| <= |names|
  {
    hide Walk, IsBelow;
    forall i, j | 0 <= i < j < |p| ensures p[i] != p[j] {
      WalkBetween(links, p, i, j);
      if i > 0 { WalkBetween(links, p, 0, i); }
    }
    DistinctFit(p, names);
  }

  lemma {:induction false} DistinctFit(p: Path, names: set<string>)
    requires (forall x :: x in p ==> x in names) && forall i, j :: 0 <= i < j < |p| ==> p[i] != p[j]
    ensures |p| <= |names|
    decreases |p|
  {
    if p != [] {
      var rest := p[1..];
      assert p[0] in p;
      forall x | x in rest ensures x in names - {p[0]} {
        var i :| 0 <= i < |rest| && rest[i] == x;
        assert p[0] != p[i + 1];
      }
      DistinctFit(rest, names - {p[0]});
    }
  }

  ghost function Ends(links: set<Link>): set<string> {
    (set l | l in links :: l.parent) + (set l | l in links :: l.child)
  }

  /** Where no cycle can be reached, there is room for every walk. */
  lemma AcyclicIsShallow(links: set<Link>, root: string, stack: nat)
    requires !Endless(links, root) && stack >= |Ends(links)|
    ensures !Deep(links, root, stack)
  {
    if Deep(links, root, stack) {
      var p :| Walk(links, p) && p[0] == root && |p| > stack + 1;
      forall x | x in p ensures x in Ends(links) {
        var i :| 0 <= i < |p| && p[i] == x;
        if i < |p| - 1 {
          assert Below(links, p[i], p[i + 1]);
        } else {
          assert Below(links, p[i - 1], p[i - 1 + 1]);
        }
      }
      WalkMeetsOnce(links, p, Ends(links));
    }
  }

  /** A listing never ends, whatever the room, if and only if a cycle can be reached from its root. */
  lemma EndlessIff(links: set<Link>, root: string)
    ensures Endless(links, root) <==> forall stack: nat :: Deep(links, root, stack)
  {
    hide IsBelow, Deep;
    if x :| (x == root || IsBelow(links, root, x)) && IsBelow(links, x, x) {
      forall stack: nat ensures Deep(links, root, stack) { CycleIsDeep(links, root, x, stack); }
    } else {
      AcyclicIsShallow(links, root, |Ends(links)|);
    }
  }

  lemma NoCycleEnds(links: set<Link>, root: string)
    requires NoCycle(links)
    ensures !Endless(links, root)
  {
    hide IsBelow;
  }

  /** A cycle that can be reached leaves no room, however much there is. */
  lemma {:induction false} CycleIsDeep(links: set<Link>, root: string, x: string, stack: nat)
    requires (x == root || IsBelow(links, root, x)) && IsBelow(links, x, x)
    ensures Deep(links, root, stack)
    decreases stack
  {
    if x != root {
      BelowTransitive(links, root, x, x);
    }
    var round :| Walk(links, round) && |round| > 1 && round[0] == x && round[|round| - 1] == x;
    var q := CycleWalk(links, root, x, round, stack);
    assert q[0] == root;
  }

  lemma {:induction false} CycleWalk(links: set<Link>, root: string, x: string, round: Path, n: nat) returns (q: Path)
    requires (x == root || IsBelow(links, root, x))
    requires Walk(links, round) && |round| > 1 && round[0] == x && round[|round| - 1] == x
    ensures Walk(links, q) && q[0] == root && q[|q| - 1] == x && |q| > n + 1
    decreases n
  {
    if n > 0 {
      q := CycleWalk(links, root, x, round, n - 1);
    } else if x == root {
      q := [root];
    } else {
      q :| Walk(links, q) && |q| > 1 && q[0] == root && q[|q| - 1] == x;
    }
    WalkOn(links, q, round);
    q := q + round[1..];
  }

  // ----- lists -----

  /** The walks through one child: the link to it, and that link followed by each descent below it. */
  lemma DescentsThrough(links: set<Link>, root: string, child: string, sub: seq<Path>, p: Path)
    requires Below(links, root, child) && forall q :: q in sub <==> Descent(links, child, Children(links, child), q)
    ensures p in [[root, child]] + Prefixed(root, sub) <==> Descent(links, root, {child}, p)
  {
    var all := [[root, child]] + Prefixed(root, sub);
    if p in all {
      var i :| 0 <= i < |all| && all[i] == p;
      if i > 0 {
        assert sub[i - 1] in sub;
        WalkFrom(links, root, sub[i - 1]);
      } else {
        assert Walk(links, p);
      }
    }
    if Descent(links, root, {child}, p) {
      WalkTail(links, p);
      if |p| == 2 {
        assert p == [root, child] == all[0];
      } else {
        WalkTail(links, p[1..]);
        assert Link(child, p[2]) in links;
        assert Descent(links, child, Children(links, child), p[1..]);
        var i :| 0 <= i < |sub| && sub[i] == p[1..];
        assert all[i + 1] == p;
      }
    }
  }

  lemma ThroughChild(links: set<Link>, root: string, child: string, listed: seq<Link>, sub: seq<Path>)
    requires Below(links, root, child) && Exact(links, child, Children(links, child), listed, sub)
    ensures Exact(links, root, {child}, [Link(root, child)] + listed, [[root, child]] + Prefixed(root, sub))
  {
    var ps, all := [[root, child]] + Prefixed(root, sub), [Link(root, child)] + listed;
    forall p ensures p in ps <==> Descent(links, root, {child}, p) { DescentsThrough(links, root, child, sub, p); }
    forall i, j | 0 <= i < j < |ps| ensures ps[i] != ps[j] {
      assert sub[j - 1] in sub;
      if i > 0 {
        assert ps[i][1..] == sub[i - 1] && ps[j][1..] == sub[j - 1];
      }
    }
    hide Descent;
    forall i | 0 <= i < |ps| ensures EndsWith(ps[i], all[i]) {
      if i > 0 { assert EndsWith(sub[i - 1], listed[i - 1]); }
    }
  }

  /** Descents with different first steps are different. */
  lemma JoinExact(links: set<Link>, root: string, a: set<string>, b: set<string>,
                  listed: seq<Link>, ps: seq<Path>, listed': seq<Link>, ps': seq<Path>)
    requires a !! b && Exact(links, root, a, listed, ps) && Exact(links, root, b, listed', ps')
    ensures Exact(links, root, a + b, listed + listed', ps + ps')
  {
    hide Walk, EndsWith;
    var all := ps + ps';
    forall i, j | 0 <= i < j < |all| ensures all[i] != all[j] {
      if i < |ps| && j >= |ps| {
        assert all[i] in ps && all[j] in ps';
      }
    }
    forall p ensures p in all <==> Descent(links, root, a + b, p) {
    }
  }

  lemma NothingListed(links: set<Link>, root: string)
    ensures Exact(links, root, {}, [], [])
  {
  }

  /** One more child: the link to it and what it lists itself. */
  lemma ChildListed(links: set<Link>, root: string, done: set<string>, child: string, listed: seq<Link>, ps: seq<Path>,
                    sub: seq<Link>, subPaths: seq<Path>)
    requires Below(links, root, child) && child !in done && Exact(links, root, done, listed, ps)
    requires Exact(links, child, Children(links, child), sub, subPaths)
    ensures Exact(links, root, done + {child}, listed + ([Link(root, child)] + sub),
                  ps + ([[root, child]] + Prefixed(root, subPaths)))
  {
    hide Exact, Below;
    ThroughChild(links, root, child, sub, subPaths);
    JoinExact(links, root, done, {child}, listed, ps, [Link(root, child)] + sub,
              [[root, child]] + Prefixed(root, subPaths));
  }

  /** A membership that is listed is a link between objects. */
  ghost predicate RealLink(dir: Directory, ms: Membership)
    reads dir, dir.pool
  {
    && ms.memberOf in dir.pool && ms.member in dir.pool
    && ms.member.name in ms.memberOf.children && ms.memberOf.children[ms.member.name] == ms.member
  }

  /** The listed memberships, by names. */
  ghost predicate Spelled(dir: Directory, mss: seq<Membership>, listed: seq<Link>)
    reads dir, dir.pool
  {
    |listed| == |mss| && forall i :: 0 <= i < |mss| ==>
      RealLink(dir, mss[i]) && listed[i] == Link(mss[i].memberOf.name, mss[i].member.name)
  }

  lemma ChildIsFiled(dir: Directory, m: Member)
    requires dir.Valid() && m in dir.pool
    ensures m.children.Keys == Children(dir.index.links, m.name)
    ensures forall k :: k in m.children ==>
      m.children[k] in dir.pool && m.children[k].name == k && Below(dir.index.links, m.name, k)
  {
    hide LeafName, ValidDN, Filed;
    assert m.View() == NodeOf(dir.byName, dir.index, m.name);
    forall k ensures k in m.children <==> k in Children(dir.index.links, m.name) {
      if k in Children(dir.index.links, m.name) {
        assert Link(m.name, k) in dir.index.links;
      }
    }
  }

  /**
   The recursion, with room for so many nested calls; the source has no check, so when they are used up
   the program ends. It ends well exactly if no walk from m needs more. Then each entry is a child link,
   and the entries are, one for one, the walks of at least one link from m.
   */
  method MembershipTree(dir: Directory, m: Member, stack: nat)
    returns (ok: bool, mss: seq<Membership>, ghost listed: seq<Link>, ghost paths: seq<Path>)
    requires dir.Valid() && m in dir.pool
    ensures ok <==> !Deep(dir.index.links, m.name, stack)
    ensures ok ==>
      Spelled(dir, mss, listed) && Exact(dir.index.links, m.name, Children(dir.index.links, m.name), listed, paths)
    decreases stack
  {
    hide Directory.Valid, Exact, Deep, RealLink, Children, Below;
    mss, listed, paths := [], [], [];
    var order := InSomeOrder(m.children.Keys);
    ghost var links := dir.index.links;
    ghost var done: set<string> := {};
    NothingListed(links, m.name);
    ChildIsFiled(dir, m);
    DeepBottom(links, m.name);
    if stack > 0 { DeepStep(links, m.name, stack); }
    for i := 0 to |order|
      invariant done == set k | k in order[..i]
      invariant stack == 0 ==> i == 0
      invariant stack > 0 ==> forall k :: k in done ==> !Deep(links, k, stack - 1)
      invariant Spelled(dir, mss, listed) && Exact(links, m.name, done, listed, paths)
    {
      assert order[i] in m.children && order[i] !in order[..i];
      var member := m.children[order[i]];
      if stack == 0 {
        return false, mss, listed, paths;
      }
      var sub;
      ghost var subListed, subPaths;
      ok, sub, subListed, subPaths := MembershipTree(dir, member, stack - 1);
      if !ok {
        return;
      }
      ChildListed(links, m.name, done, member.name, listed, paths, subListed, subPaths);
      SpelledMore(dir, m, member, mss, listed, sub, subListed);
      mss := mss + ([Membership(member, m)] + sub);
      listed := listed + ([Link(m.name, member.name)] + subListed);
      paths := paths + ([[m.name, member.name]] + Prefixed(m.name, subPaths));
      assert order[..i + 1] == order[..i] + [order[i]];
      done := done + {member.name};
    }
    assert order[..|order|] == order;
    assert done == Children(links, m.name);
    NoChildrenLeft(links, m.name, done, stack);
    return true, mss, listed, paths;
  }

  lemma NoChildrenLeft(links: set<Link>, root: string, done: set<string>, stack: nat)
    requires done == Children(links, root)
    ensures forall c :: Below(links, root, c) ==> c in done
    ensures stack == 0 && done == {} ==> !Deep(links, root, stack)
  {
    DeepBottom(links, root);
  }

  lemma SpelledMore(dir: Directory, m: Member, c: Member, mss: seq<Membership>, listed: seq<Link>,
                    sub: seq<Membership>, subListed: seq<Link>)
    requires Spelled(dir, mss, listed) && Spelled(dir, sub, subListed) && m in dir.pool && c in dir.pool
    requires c.name in m.children && m.children[c.name] == c
    ensures Spelled(dir, mss + ([Membership(c, m)] + sub), listed + ([Link(m.name, c.name)] + subListed))
  {
  }

  /** The names listed as members are exactly those some walk of at least one link leads to. */
  lemma ListedAreDescendants(links: set<Link>, root: string, listed: seq<Link>, paths: seq<Path>)
    requires Exact(links, root, Children(links, root), listed, paths)
    ensures (set l | l in listed :: l.child) == Descendants(links, root)
  {
    forall x ensures x in (set l | l in listed :: l.child) <==> x in Descendants(links, root) {
      DescendantsAreBelow(links, root, x);
      if l :| l in listed && l.child == x {
        var i :| 0 <= i < |listed| && listed[i] == l;
        assert EndsWith(paths[i], listed[i]) && paths[i] in paths;
      }
      if IsBelow(links, root, x) {
        var p :| Walk(links, p) && |p| > 1 && p[0] == root && p[|p| - 1] == x;
        WalkTail(links, p);
        assert Link(root, p[1]) in links;
        assert Descent(links, root, Children(links, root), p);
        var i :| 0 <= i < |paths| && paths[i] == p;
        assert EndsWith(paths[i], listed[i]) && listed[i] in listed;
      }
    }
  }
}
