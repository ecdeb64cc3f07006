/** Owners and modes above a path, and the ledger entries they depend on, while one operation runs. */
module Guard {
  import opened Tree
  import opened Workspace
  import opened Namespace

  lemma RetainMentions(l: Ledger, p: PackagePath, incoming: bool)
    requires !Contradicts(l, p, incoming)
    ensures exists d :: Effect(p, incoming, d) in Retain(l, p, incoming)
    ensures Mentions(Retain(l, p, incoming), p)
  {
    if Mentions(l, p) {
      var i :| 0 <= i < |l| && l[i].path == p;
      assert l[i] == Effect(p, incoming, l[i].completed);
    } else {
      assert Retain(l, p, incoming)[|l|] == Effect(p, incoming, false);
    }
  }

  lemma ActivatedAfter(l: Ledger, p: PackagePath, incoming: bool, q: PackagePath)
    requires !Contradicts(l, p, incoming)
    ensures q != p ==> (Activated(Complete(Retain(l, p, incoming), p), q) <==> Activated(l, q))
    ensures q != p ==> (Withdrawn(Complete(Retain(l, p, incoming), p), q) <==> Withdrawn(l, q))
    ensures Effect(p, incoming, true) in Complete(Retain(l, p, incoming), p)
    ensures Mentions(Complete(Retain(l, p, incoming), p), p)
    ensures !Contradicts(Complete(Retain(l, p, incoming), p), p, incoming)
  {
    var m := Retain(l, p, incoming);
    var f := Complete(m, p);
    RetainMentions(l, p, incoming);
    var i :| 0 <= i < |m| && m[i].path == p;
    assert m[i].incoming == incoming;
    assert f[i] == Effect(p, incoming, true);
    if q != p {
      forall b: bool
        ensures Effect(q, b, true) in f <==> Effect(q, b, true) in l
      {
        if Effect(q, b, true) in l {
          var j :| 0 <= j < |l| && l[j] == Effect(q, b, true);
          assert m[j] == l[j] && f[j] == l[j];
        }
        if Effect(q, b, true) in f {
          var j :| 0 <= j < |f| && f[j] == Effect(q, b, true);
          assert m[j] == Effect(q, b, true) && l[j] == m[j];
        }
      }
    }
  }

  /** An operation activates no directory above its own path. */
  lemma RetainedAbove(l: Ledger, p: PackagePath, incoming: bool)
    requires !Contradicts(l, p, incoming)
    ensures SameAbove(l, Complete(Retain(l, p, incoming), p), p)
  {
    forall k | 0 < k < |p|
      ensures Activated(l, p[..k]) <==> Activated(Complete(Retain(l, p, incoming), p), p[..k])
    {
      ActivatedAfter(l, p, incoming, p[..k]);
    }
  }

  lemma GuardedRefreshable(c: Config, l: Ledger, m: Ledger, a: Node, b: Node, p: PackagePath)
    requires Refreshable(c, l, a, p) && Guarded(c, l, a, b, p) && SameAbove(l, m, p)
    ensures Refreshable(c, m, b, p)
  {
    forall k | 0 < k < |p|
      ensures AncestorRefreshable(c, m, At(b, p[..k], 0), p[..k])
    {
      assert AncestorRefreshable(c, l, At(a, p[..k], 0), p[..k]);
    }
  }

  lemma GuardedTwice(c: Config, l: Ledger, a: Node, b: Node, d: Node, p: PackagePath)
    requires Guarded(c, l, a, b, p) && Guarded(c, l, b, d, p)
    ensures Guarded(c, l, a, d, p)
  {
    forall k | 0 <= k < |p|
      ensures OwnersNear(At(a, p[..k], 0), At(d, p[..k], 0), Aim(c, l, p[..k]))
    {
      assert OwnersNear(At(a, p[..k], 0), At(b, p[..k], 0), Aim(c, l, p[..k])) && OwnersNear(At(b, p[..k], 0), At(d, p[..k], 0), Aim(c, l, p[..k]));
    }
  }

  lemma SettledGuarded(c: Config, l: Ledger, a: Node, b: Node, p: PackagePath)
    requires Settled(map[], a, b, p, 0)
    ensures Guarded(c, l, a, b, p)
  {
    forall k | 0 <= k < |p|
      ensures OwnersNear(At(a, p[..k], 0), At(b, p[..k], 0), Aim(c, l, p[..k]))
    {
      SettledAbove(map[], a, b, p, k, 0);
    }
  }

  /** Goals between what the directories carry and what a refresh gives them. */
  ghost predicate OwnerGoals(c: Config, l: Ledger, goals: map<Path, Meta>, a: Node, p: PackagePath) {
    forall k :: 0 <= k < |p| && p[..k] in goals ==>
      At(a, p[..k], 0).Some? && Near(At(a, p[..k], 0).value.meta, goals[p[..k]], Aim(c, l, p[..k]))
  }

  /** A target on the way of a refresh. */
  ghost predicate Refreshing(c: Config, l: Ledger, a: Node, b: Node, p: PackagePath) {
    Drifted(a, b, p, 0) && Guarded(c, l, a, b, p)
  }

  lemma RefreshedIsRefreshing(c: Config, l: Ledger, goals: map<Path, Meta>, a: Node, b: Node, p: PackagePath)
    requires Refreshed(goals, a, b, p, 0) && OwnerGoals(c, l, goals, a, p)
    ensures Refreshing(c, l, a, b, p)
  {
    RefreshedIsDrifted(goals, a, b, p, 0);
    forall k | 0 <= k < |p|
      ensures OwnersNear(At(a, p[..k], 0), At(b, p[..k], 0), Aim(c, l, p[..k]))
    {
      RefreshedAbove(goals, a, b, p, k, 0);
    }
  }

  /** What a change of the slots and a refresh after it leave. */
  lemma RefreshingTouched(c: Config, l: Ledger, start: Node, before: Node, b: Node, p: PackagePath)
    requires Settled(map[], start, before, p, 0) && Home(before, p, 0).Some? && Refreshing(c, l, before, b, p)
    ensures Home(b, p, 0).Some? && Touched(c, l, start, b, p, SlotsAt(before, p))
  {
    SettledIsFramed(map[], start, before, p, 0);
    FramedDrifted(start, before, b, p, 0);
    DriftedHome(before, b, p, 0);
    SettledGuarded(c, l, start, before, p);
    GuardedTwice(c, l, start, before, b, p);
  }

  lemma ReplaceTouched(c: Config, l: Ledger, a: Node, p: PackagePath, s: Slots, t: Time)
    requires Home(a, p, 0).Some?
    ensures Touched(c, l, a, Replace(a, p, 0, s, t), p, s)
  {
    ReplaceSettled(a, p, 0, s, t);
    SettledIsFramed(map[], a, Replace(a, p, 0, s, t), p, 0);
    SettledGuarded(c, l, a, Replace(a, p, 0, s, t), p);
  }

  /** The target with the slots of `p` as they were at one of the visited moments. */
  ghost predicate RanThrough(c: Config, start: Node, b: Node, p: PackagePath, visited: set<Moment>) {
    exists m :: m in visited && Touched(c, [], start, b, p, m.slots)
  }

  lemma TouchedMore(c: Config, l: Ledger, m: Ledger, a: Node, b: Node, p: PackagePath, s: Slots)
    requires Touched(c, l, a, b, p, s) && (l == [] || SameAbove(l, m, p))
    ensures Touched(c, m, a, b, p, s)
  {
  }

  /** Before its first call an operation has changed nothing. */
  lemma Untouching(c: Config, l: Ledger, a: Node, p: PackagePath)
    requires Home(a, p, 0).Some?
    ensures Touched(c, l, a, a, p, SlotsAt(a, p))
  {
    SameRoot(a, p, 0);
  }

  lemma SameRoot(a: Node, p: Path, i: nat)
    requires i < |p| && Home(a, p, i).Some?
    ensures Framed(a, a, p, i)
    decreases |p| - i
  {
    if i + 1 < |p| {
      SameRoot(a.entries[Plain(p[i])], p, i + 1);
    }
  }
}
