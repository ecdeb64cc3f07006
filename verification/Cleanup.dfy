/** Discarding recovery material: one path, and the paths beneath a discarded directory. */
module Cleanup {
  import opened Tree
  import opened Workspace
  import opened Namespace
  import opened Guard
  import opened Discard
  import opened Crash

  /* ---------- validate, then delete ---------- */

  /** A displaced tree that holds anything else is not touched, whatever calls fail. */
  lemma RejectedDeletesNothing(c: Config, w: World, w': World, p: PackagePath, o: Outcome, faulted: bool)
    requires DiscardRel(c, w, w', p, o, faulted)
    requires Home(w.root, p, 0).Some? && SlotsAt(w.root, p).displaced.Some?
    requires SlotsAt(w.root, p).displaced.value.Dir? && !ValidTree(c, w.effects, SlotsAt(w.root, p).displaced.value, p)
    ensures w' == w && o in {Completed, Indeterminate}
    ensures o == Completed ==> NestedCleanup(c, w, p) == Covered
  {
  }

  /** Whatever a discard removed was recovery material, and the leaf was not touched. */
  lemma OnlyRecoveryMaterialGoes(c: Config, w: World, w': World, p: PackagePath, o: Outcome, faulted: bool)
    requires DiscardRel(c, w, w', p, o, faulted) && Home(w.root, p, 0).Some?
    ensures Home(w'.root, p, 0).Some?
    ensures var s, t := SlotsAt(w.root, p), SlotsAt(w'.root, p);
      && t.leaf == s.leaf && t.prepared == s.prepared
      && (t.displaced != s.displaced ==> s.displaced.Some? && Disposable(c, w.effects, s.displaced.value, p))
      && (t.displaced.Some? && t.displaced != s.displaced ==> Pruned(c, w.effects, s.displaced.value, t.displaced.value, p))
  {
    var s := SlotsAt(w.root, p);
    if Discardable(c, w, p) && s.displaced.value.Dir? {
      ValidIsDisposable(c, w.effects, s.displaced.value, p);
    }
  }

  /** Between two directories the change above `p` leaves the other names of each directory alone. */
  lemma {:induction false} FramedSlotsAbove(a: Node, b: Node, p: Path, q: Path, i: nat)
    requires i < |q| < |p| && q == p[..|q|] && Framed(a, b, p, i)
    ensures Home(a, q, i).Some? && Home(b, q, i).Some?
    ensures var s, t := SlotsIn(Home(a, q, i).value.entries, q), SlotsIn(Home(b, q, i).value.entries, q);
      s.leaf.Some? && t.leaf.Some? && s.prepared == t.prepared && s.displaced == t.displaced
    decreases |q| - i
  {
    assert q[i] == p[i];
    var x := Plain(p[i]);
    if i + 1 == |q| {
      SameEntry(a.entries, b.entries, {x}, Prepared(q));
      SameEntry(a.entries, b.entries, {x}, Displaced(q));
    } else {
      FramedSlotsAbove(a.entries[x], b.entries[x], p, q, i + 1);
    }
  }

  lemma FramedNested(c: Config, w: World, v: World, p: PackagePath)
    requires Framed(w.root, v.root, p, 0) && v.effects == w.effects
    ensures NestedCleanup(c, v, p) == NestedCleanup(c, w, p)
  {
    var d := RootDepth(c, w.effects, p, 1);
    if d.Some? {
      FramedSlotsAbove(w.root, v.root, p, p[..d.value], 0);
    }
  }

  /** After any number of discards stopped anywhere, one whose calls succeed finishes the work. */
  lemma {:induction false} DiscardFinishes(c: Config, vs: seq<World>, v: World, p: PackagePath, o: Outcome)
    requires |vs| > 0 && Home(vs[0].root, p, 0).Some? && Discardable(c, vs[0], p)
    requires NestedCleanup(c, vs[0], p) == Independent && Refreshable(c, vs[0].effects, vs[0].root, p)
    requires forall i :: 0 <= i < |vs| - 1 ==> DiscardStopped(c, vs[i], vs[i + 1].root, p) && vs[i + 1].effects == vs[i].effects
    requires DiscardRel(c, vs[|vs| - 1], v, p, o, false)
    ensures o == Completed && Home(v.root, p, 0).Some?
    ensures SlotsAt(v.root, p) == SlotsAt(vs[0].root, p).(displaced := None)
    ensures Framed(vs[0].root, v.root, p, 0)
    decreases |vs|
  {
    hide Framed, Guarded, Settled, ValidTree, Pruned, RootDepth, Refreshable, CleanupOf;
    if |vs| > 1 {
      FramedNested(c, vs[0], vs[1], p);
      if Discardable(c, vs[1], p) {
        GuardedRefreshable(c, vs[0].effects, vs[1].effects, vs[0].root, vs[1].root, p);
        DiscardFinishes(c, vs[1..], v, p, o);
        FramedTwice(vs[0].root, vs[1].root, v.root, p, 0);
      } else {
        LeftDiscardable(c, vs[0], vs[1], p);
        NothingLeft(c, vs[1..], v, p, o);
      }
    }
  }

  /** A stopped discard leaves either nothing or something that can still be discarded. */
  lemma LeftDiscardable(c: Config, w: World, v: World, p: PackagePath)
    requires DiscardStopped(c, w, v.root, p) && v.effects == w.effects
    requires NestedCleanup(c, w, p) == Independent && Home(w.root, p, 0).Some? && Discardable(c, w, p)
    ensures Home(v.root, p, 0).Some?
    ensures Discardable(c, v, p) || SlotsAt(v.root, p) == SlotsAt(w.root, p).(displaced := None)
  {
    var s, t := SlotsAt(w.root, p), SlotsAt(v.root, p);
    if t.displaced.Some? && t != s {
      if s.displaced.value.Dir? {
        ValidPruned(c, w.effects, s.displaced.value, t.displaced.value, p);
      }
    }
  }

  /** Once nothing is left, discarding changes nothing. */
  lemma {:induction false} NothingLeft(c: Config, vs: seq<World>, v: World, p: PackagePath, o: Outcome)
    requires |vs| > 0 && Home(vs[0].root, p, 0).Some? && Inspect(SlotsAt(vs[0].root, p)) == Clear
    requires NestedCleanup(c, vs[0], p) == Independent
    requires forall i :: 0 <= i < |vs| - 1 ==> DiscardStopped(c, vs[i], vs[i + 1].root, p) && vs[i + 1].effects == vs[i].effects
    requires DiscardRel(c, vs[|vs| - 1], v, p, o, false)
    ensures o == Completed && v.root == vs[0].root
    decreases |vs|
  {
    if |vs| > 1 {
      NothingLeft(c, vs[1..], v, p, o);
    }
  }

  /* ---------- nested coverage ---------- */

  /** `r` is a discarded directory with no other above it. */
  predicate TopRoot(c: Config, l: Ledger, r: PackagePath) {
    CleanupRoot(c, l, r) && RootDepth(c, l, r, 1).None?
  }

  /** The shallowest such directory decides for every path beneath it. */
  lemma TopDecides(c: Config, w: World, r: PackagePath, p: PackagePath)
    requires TopRoot(c, w.effects, r) && Ancestor(r, p)
    ensures NestedCleanup(c, w, p) == CleanupOf(w, r)
  {
    var d := RootDepth(c, w.effects, p, 1);
    assert p[..|r|] == r;
    assert forall j :: 0 < j < |r| ==> r[..j] == p[..j];
    assert d.Some? && d.value == |r|;
  }

  /** While its sidecar remains, discarding anything beneath is refused and changes nothing. */
  lemma SidecarBlocks(c: Config, w: World, w': World, r: PackagePath, p: PackagePath, o: Outcome, faulted: bool)
    requires TopRoot(c, w.effects, r) && Ancestor(r, p)
    requires Home(w.root, r, 0).Some? && SlotsAt(w.root, r).displaced.Some?
    requires DiscardRel(c, w, w', p, o, faulted)
    ensures w' == w && o == Indeterminate
  {
    TopDecides(c, w, r, p);
  }

  /** Once it is discarded, every further discard beneath it completes and changes nothing. */
  lemma {:induction false} DiscardedCovers(c: Config, w: World, vs: seq<World>, r: PackagePath, ps: seq<PackagePath>,
                                           os: seq<Outcome>, faulted: bool, k: nat)
    requires TopRoot(c, w.effects, r) && Home(w.root, r, 0).Some?
    requires Inspect(SlotsAt(w.root, r)) == RemovedWithDisplacedOld
    requires |vs| == |ps| + 1 && |os| == |ps| && DiscardRel(c, w, vs[0], r, Completed, faulted)
    requires forall i :: 0 <= i < |ps| ==> Ancestor(r, ps[i]) && DiscardRel(c, vs[i], vs[i + 1], ps[i], os[i], false)
    requires k <= |ps|
    ensures vs[k] == vs[0] && forall i :: 0 <= i < k ==> os[i] == Completed
  {
    if k == 0 {
    } else {
      DiscardedCovers(c, w, vs, r, ps, os, faulted, k - 1);
      TopDecides(c, vs[k - 1], r, ps[k - 1]);
    }
  }
}
