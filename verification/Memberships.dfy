/** Role memberships stay acyclic, and wanted grants are never refused for closing a cycle. */
module Memberships {
  import opened Options
  import opened Catalog
  import opened Desired
  import opened Progress
  import opened Handlers
  import opened Obstacles

  /** A chain of memberships: each name is a member of the next. */
  ghost predicate Chain(ms: set<Edge>, p: seq<Name>) {
    |p| > 0 && forall i :: 0 <= i < |p| - 1 ==> Edge(p[i], p[i + 1]) in ms
  }

  lemma {:induction false} ReachIsChain(ms: set<Edge>, from: Name, to: Name) returns (p: seq<Name>)
    requires Reach(ms, from, to)
    ensures Chain(ms, p) && p[0] == from && p[|p| - 1] == to
    decreases ms
  {
    if from == to {
      p := [from];
    } else {
      var e :| e in ms && e.member == from && Reach(ms - {e}, e.granted, to);
      var rest := ReachIsChain(ms - {e}, e.granted, to);
      p := [from] + rest;
      forall i | 0 <= i < |p| - 1 ensures Edge(p[i], p[i + 1]) in ms {
        if i > 0 {
          assert Edge(rest[i - 1], rest[i - 1 + 1]) in ms - {e};
        }
      }
    }
  }

  /** A chain that visits no name twice can be followed using every edge at most once. */
  lemma {:induction false} SimpleChainIsReach(ms: set<Edge>, p: seq<Name>)
    requires Chain(ms, p) && forall i, j :: 0 <= i < j < |p| ==> p[i] != p[j]
    ensures Reach(ms, p[0], p[|p| - 1])
    decreases |p|
  {
    if |p| > 1 {
      var e := Edge(p[0], p[0 + 1]);
      assert e in ms;
      var rest := p[1..];
      forall i | 0 <= i < |rest| - 1 ensures Edge(rest[i], rest[i + 1]) in ms - {e} {
        assert Edge(p[i + 1], p[i + 1 + 1]) in ms;
      }
      SimpleChainIsReach(ms - {e}, rest);
    }
  }

  /** Cutting the loops out of a chain. */
  lemma {:induction false} ChainIsReach(ms: set<Edge>, p: seq<Name>)
    requires Chain(ms, p)
    ensures Reach(ms, p[0], p[|p| - 1])
    decreases |p|
  {
    if i, j :| 0 <= i < j < |p| && p[i] == p[j] {
      var q := p[..i] + p[j..];
      forall k | 0 <= k < |q| - 1 ensures Edge(q[k], q[k + 1]) in ms {
        if k + 1 < i {
          assert Edge(p[k], p[k + 1]) in ms;
        } else if k + 1 == i {
          assert Edge(p[k], p[k + 1]) in ms;
        } else {
          var m := k - i + j;
          assert Edge(p[m], p[m + 1]) in ms;
        }
      }
      ChainIsReach(ms, q);
    } else {
      SimpleChainIsReach(ms, p);
    }
  }

  lemma ReachMonotone(ms: set<Edge>, more: set<Edge>, from: Name, to: Name)
    requires Reach(ms, from, to) && ms <= more
    ensures Reach(more, from, to)
  {
    var p := ReachIsChain(ms, from, to);
    assert Chain(more, p);
    ChainIsReach(more, p);
  }

  lemma ReachTransitive(ms: set<Edge>, a: Name, b: Name, c: Name)
    requires Reach(ms, a, b) && Reach(ms, b, c)
    ensures Reach(ms, a, c)
  {
    var p := ReachIsChain(ms, a, b);
    var q := ReachIsChain(ms, b, c);
    var r := p + q[1..];
    forall i | 0 <= i < |r| - 1 ensures Edge(r[i], r[i + 1]) in ms {
      if i < |p| - 1 {
        assert Edge(p[i], p[i + 1]) in ms;
      } else {
        var k := i - |p| + 1;
        assert Edge(q[k], q[k + 1]) in ms;
      }
    }
    ChainIsReach(ms, r);
  }

  /** A path that uses the new edge passes through its ends on old edges alone. */
  lemma {:induction false} ReachWithEdge(ms: set<Edge>, e: Edge, p: seq<Name>)
    requires Chain(ms + {e}, p)
    ensures Reach(ms, p[0], p[|p| - 1]) || (Reach(ms, p[0], e.member) && Reach(ms, e.granted, p[|p| - 1]))
    decreases |p|
  {
    if |p| > 1 {
      var rest := p[1..];
      forall i | 0 <= i < |rest| - 1 ensures Edge(rest[i], rest[i + 1]) in ms + {e} {
        assert Edge(p[i + 1], p[i + 1 + 1]) in ms + {e};
      }
      ReachWithEdge(ms, e, rest);
      var first := Edge(p[0], p[0 + 1]);
      assert first in ms + {e};
      if first in ms {
        var step := [p[0], p[1]];
        assert Chain(ms, step);
        ChainIsReach(ms, step);
        if Reach(ms, rest[0], rest[|rest| - 1]) {
          ReachTransitive(ms, p[0], p[1], p[|p| - 1]);
        } else {
          ReachTransitive(ms, p[0], p[1], e.member);
        }
      }
    }
  }

  lemma GrantKeepsAcyclic(ms: set<Edge>, e: Edge)
    requires Acyclic(ms) && !Reach(ms, e.granted, e.member)
    ensures Acyclic(ms + {e})
  {
    forall f | f in ms + {e} ensures !Reach(ms + {e}, f.granted, f.member) {
      if Reach(ms + {e}, f.granted, f.member) {
        var p := ReachIsChain(ms + {e}, f.granted, f.member);
        ReachWithEdge(ms, e, p);
        if f in ms && !Reach(ms, f.granted, f.member) {
          var step := [f.member, f.granted];
          assert Chain(ms, step);
          ChainIsReach(ms, step);
          ReachTransitive(ms, e.granted, f.member, f.granted);
          ReachTransitive(ms, e.granted, f.granted, e.member);
        }
      }
    }
  }

  lemma SubsetAcyclic(ms: set<Edge>, more: set<Edge>)
    requires Acyclic(more) && ms <= more
    ensures Acyclic(ms)
  {
    forall e | e in ms ensures !Reach(ms, e.granted, e.member) {
      if Reach(ms, e.granted, e.member) { ReachMonotone(ms, more, e.granted, e.member); }
    }
  }

  /** No statement the server accepts closes a membership cycle. */
  lemma StepKeepsAcyclic(w: World, s: Stmt, c: Catalog)
    requires Acyclic(c.members) && Step(w, s, c).Some?
    ensures Acyclic(Step(w, s, c).value.members)
  {
    match s
    case GrantRole(granted, grantee) => GrantKeepsAcyclic(c.members, Edge(grantee, granted));
    case RevokeRole(granted, grantee) => SubsetAcyclic(c.members - {Edge(grantee, granted)}, c.members);
    case DropRole(r) => SubsetAcyclic(WithoutRole(c, r).members, c.members);
    case _ =>
  }

  /** The memberships a specification asks for. */
  ghost function WantedEdges(d: Spec): set<Edge> {
    set g | g in d.grants && g.state != Absent :: Edge(g.grantee.name, g.granted.name)
  }

  lemma WantedEdgesDemanded(d: Spec, e: Edge)
    ensures e in WantedEdges(d) <==> GrantDemanded(d, e)
  {
    if e in WantedEdges(d) {
      var g :| g in d.grants && g.state != Absent && e == Edge(g.grantee.name, g.granted.name);
      var i :| 0 <= i < |d.grants| && d.grants[i] == g;
    }
  }

  lemma BetweenMembers(w: World, d: Spec, a: Catalog, b: Catalog, strict: bool)
    requires Between(w, d, a, b, strict)
    ensures a.members <= b.members <= a.members + WantedEdges(d)
  {
    forall e ensures (e in a.members ==> e in b.members) && (e in b.members ==> e in a.members + WantedEdges(d)) {
      WantedEdgesDemanded(d, e);
      assert Get(w, b, Member(e)) == Get(w, a, Member(e)) || Get(w, b, Member(e)) == Want(w, d, a, Member(e));
    }
  }

  /**
   If the existing memberships and the wanted ones together are acyclic then, at every catalog of every
   run, whatever the list order, no wanted grant that is still missing would close a cycle, and the
   memberships are acyclic; a success ends with exactly the union.
   */
  lemma GrantsNeverCycle(w: World, d: Spec, a: Log, b: Log, ok: bool)
    requires Reconciled(w, d, a, b, ok) && Acyclic(a.cat.members + WantedEdges(d))
    ensures forall i :: |a.trace| <= i < |b.trace| ==> GrantsOpen(d, b.trace[i].after.members)
    ensures GrantsOpen(d, a.cat.members) && GrantsOpen(d, b.cat.members)
    ensures ok ==> b.cat.members == a.cat.members + WantedEdges(d)
  {
    forall i | |a.trace| <= i < |b.trace| ensures GrantsOpen(d, b.trace[i].after.members) {
      BetweenMembers(w, d, a.cat, b.trace[i].after, false);
      GrantsStayOpen(d, b.trace[i].after.members, a.cat.members + WantedEdges(d));
    }
    BetweenMembers(w, d, a.cat, b.cat, ok);
    GrantsStayOpen(d, b.cat.members, a.cat.members + WantedEdges(d));
    GrantsStayOpen(d, a.cat.members, a.cat.members + WantedEdges(d));
    if ok { SuccessIsUnion(w, d, a, b); }
  }

  lemma SuccessIsUnion(w: World, d: Spec, a: Log, b: Log)
    requires Reconciled(w, d, a, b, true)
    ensures b.cat.members == a.cat.members + WantedEdges(d)
  {
    hide Between, Legal, Wf, Sane, WantedEdges, GrantDemanded;
    BetweenMembers(w, d, a.cat, b.cat, true);
    forall e | e in WantedEdges(d) ensures e in b.cat.members {
      WantedEdgesDemanded(d, e);
      assert Held(w, d, b.cat, Member(e));
    }
  }

  /** The memberships are acyclic and no wanted grant would be refused for closing a cycle. */
  ghost predicate GrantsOpen(d: Spec, ms: set<Edge>) {
    Acyclic(ms) && forall e :: e in WantedEdges(d) ==> !Reach(ms, e.granted, e.member)
  }

  lemma GrantsStayOpen(d: Spec, ms: set<Edge>, all: set<Edge>)
    requires Acyclic(all) && ms <= all && WantedEdges(d) <= all
    ensures GrantsOpen(d, ms)
  {
    SubsetAcyclic(ms, all);
    forall e | e in WantedEdges(d) ensures !Reach(ms, e.granted, e.member) {
      if Reach(ms, e.granted, e.member) { ReachMonotone(ms, all, e.granted, e.member); }
    }
  }

  /** At no statement of any run, successful or not, do the memberships have a cycle they did not have before. */
  lemma {:induction false} RunsStayAcyclic(w: World, a: Log, b: Log, i: nat)
    requires Legal(w, a, b) && Acyclic(a.cat.members) && |a.trace| <= i < |b.trace|
    ensures Acyclic(b.trace[i].after.members)
    decreases i
  {
    if i > |a.trace| {
      RunsStayAcyclic(w, a, b, i - 1);
    }
    assert LegalAt(w, a, b, i);
    if b.trace[i].after != Before(a, b, i) {
      StepKeepsAcyclic(w, b.trace[i].stmt, Before(a, b, i));
    }
  }

  /** The converse: from memberships without a cycle no run can succeed whose wanted grants would close one. */
  lemma CyclicGrantsNeverSucceed(w: World, d: Spec, a: Log, b: Log)
    requires Reconciled(w, d, a, b, true) && Acyclic(a.cat.members)
    ensures Acyclic(a.cat.members + WantedEdges(d)) && b.cat.members == a.cat.members + WantedEdges(d)
  {
    hide AllHeld, Between, Acyclic, WantedEdges, Reach;
    SuccessIsUnion(w, d, a, b);
    if |b.trace| > |a.trace| {
      RunsStayAcyclic(w, a, b, |b.trace| - 1);
    }
  }

  // ----- when memberships stop a run -----

  lemma UptoNext(ms: set<Edge>, grants: seq<Grant>, i: nat)
    requires i < |grants|
    ensures MembersUpto(ms, grants, i + 1)
            == MembersUpto(ms, grants, i) + if grants[i].state == Absent then {} else {EdgeOf(grants[i])}
  {
    assert grants[..i + 1] == grants[..i] + [grants[i]];
  }

  /** If no grant is blocked, none of them closes a cycle. */
  lemma {:induction false} UnblockedStaysAcyclic(ms: set<Edge>, grants: seq<Grant>, i: nat)
    requires Acyclic(ms) && !SomeGrantBlocked(ms, grants) && i <= |grants|
    ensures Acyclic(MembersUpto(ms, grants, i))
    decreases i
  {
    hide Acyclic, MembersUpto, Reach;
    if i == 0 {
      assert MembersUpto(ms, grants, 0) == ms by { NoneGrantedYet(ms, grants); }
    } else {
      UnblockedStaysAcyclic(ms, grants, i - 1);
      UptoNext(ms, grants, i - 1);
      var now, e := MembersUpto(ms, grants, i - 1), EdgeOf(grants[i - 1]);
      assert !GrantBlocked(grants[i - 1], now);
      if grants[i - 1].state == Absent || e in now {
        assert MembersUpto(ms, grants, i) == now;
      } else {
        GrantKeepsAcyclic(now, e);
      }
    }
  }

  lemma NoneGrantedYet(ms: set<Edge>, grants: seq<Grant>)
    ensures MembersUpto(ms, grants, 0) == ms
  {
  }

  lemma AllGranted(ms: set<Edge>, d: Spec)
    ensures MembersUpto(ms, d.grants, |d.grants|) == ms + WantedEdges(d)
  {
    assert d.grants[..|d.grants|] == d.grants;
  }

  lemma UptoWanted(ms: set<Edge>, d: Spec, i: nat)
    requires i <= |d.grants|
    ensures MembersUpto(ms, d.grants, i) <= ms + WantedEdges(d)
  {
  }

  /**
   From memberships without a cycle, and whatever the order of the list, grants stop a run exactly if the
   wanted memberships would close a cycle, or one that is not there by its turn has a role that is not
   fit to be granted.
   */
  lemma GrantsBlockedIff(d: Spec, ms: set<Edge>)
    requires Acyclic(ms)
    ensures SomeGrantBlocked(ms, d.grants) <==>
      || !Acyclic(ms + WantedEdges(d))
      || exists i :: 0 <= i < |d.grants| && GrantUnfit(d.grants[i])
                     && EdgeOf(d.grants[i]) !in MembersUpto(ms, d.grants, i)
  {
    hide Reach, MembersUpto, WantedEdges;
    if !SomeGrantBlocked(ms, d.grants) {
      UnblockedStaysAcyclic(ms, d.grants, |d.grants|);
      AllGranted(ms, d);
      forall i | 0 <= i < |d.grants| && GrantUnfit(d.grants[i])
        ensures EdgeOf(d.grants[i]) in MembersUpto(ms, d.grants, i)
      {
        assert !GrantBlocked(d.grants[i], MembersUpto(ms, d.grants, i));
      }
    } else if Acyclic(ms + WantedEdges(d)) {
      var i :| 0 <= i < |d.grants| && GrantBlocked(d.grants[i], MembersUpto(ms, d.grants, i));
      GrantIsWanted(d, i);
      UptoWanted(ms, d, i);
      GrantsStayOpen(d, MembersUpto(ms, d.grants, i), ms + WantedEdges(d));
    }
  }

  lemma GrantIsWanted(d: Spec, i: nat)
    requires i < |d.grants| && d.grants[i].state != Absent
    ensures EdgeOf(d.grants[i]) in WantedEdges(d)
  {
  }
}
