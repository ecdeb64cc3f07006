/** What the outcomes of a discard mean: which directory decides, what is deleted, what is left. */
module DiscardOutcomes {
  import opened Tree
  import opened Workspace
  import opened Namespace
  import opened Discard
  import opened Outcomes
  import opened RunCleanup
  import opened Cleanup

  /** The object is a sidecar tree of this attempt, at every depth. */
  ghost predicate OwnTree(c: Config, l: Ledger, n: Node, path: Path)
    decreases n
  {
    n.Dir? && forall x | x in n.entries ::
      OwnSidecar(c, l, path, x, n.entries[x]) && (n.entries[x].Dir? ==> OwnTree(c, l, n.entries[x], x.path))
  }

  lemma {:induction false} TreeMeans(c: Config, l: Ledger, n: Node, path: Path)
    ensures OwnTree(c, l, n, path) <==> ValidTree(c, l, n, path)
    decreases n
  {
    if n.Leaf? {
    } else {
      forall x | x in n.entries
        ensures OwnSidecar(c, l, path, x, n.entries[x]) <==> RecoveryChild(c, l, path, x) && KindAgrees(c, x, n.entries[x])
        ensures x.Displaced? ==> (OwnTree(c, l, n.entries[x], x.path) <==> ValidTree(c, l, n.entries[x], x.path))
      {
        SidecarMeans(c, l, path, x, n.entries[x]);
        if x.Displaced? {
          TreeMeans(c, l, n.entries[x], x.path);
        }
      }
    }
  }

  /** A displaced object may go when nothing is prepared beside it and it is of the observed type; as a
      directory, when it holds sidecars of this attempt alone. */
  lemma DiscardableMeans(c: Config, w: World, p: PackagePath)
    requires Home(w.root, p, 0).Some?
    ensures Discardable(c, w, p) <==>
      var s := SlotsAt(w.root, p);
      && s.displaced.Some? && s.prepared.None? && PresentAt(c, p)
      && (match c.admitted[p].fact
          case Folder(_) => s.displaced.value.Dir?
          case File(kind, _, _) => s.displaced.value.Leaf? && s.displaced.value.kind == kind)
      && (s.displaced.value.Dir? ==> OwnTree(c, w.effects, s.displaced.value, p))
  {
    var s := SlotsAt(w.root, p);
    if s.displaced.Some? {
      TreeMeans(c, w.effects, s.displaced.value, p);
    }
  }

  /** Nothing is in `b` that is not in `a`; every file that is in both is the same, and every directory but for its time. */
  ghost predicate Within(a: Node, b: Node)
    decreases b
  {
    if b.Leaf? then b == a
    else a.Dir? && a.ino == b.ino && SameOwner(a.meta, b.meta) && forall x | x in b.entries :: x in a.entries && Within(a.entries[x], b.entries[x])
  }

  lemma {:induction false} SameWithin(n: Node)
    ensures Within(n, n)
  {
    if n.Dir? {
      forall x | x in n.entries
        ensures Within(n.entries[x], n.entries[x])
      {
        SameWithin(n.entries[x]);
      }
    }
  }

  lemma {:induction false} PrunedWithin(c: Config, l: Ledger, a: Node, b: Node, path: Path)
    requires Pruned(c, l, a, b, path)
    ensures Within(a, b)
    decreases b
  {
    forall x | x in b.entries
      ensures Within(a.entries[x], b.entries[x])
    {
      if b.entries[x] == a.entries[x] {
        SameWithin(a.entries[x]);
      } else {
        PrunedWithin(c, l, a.entries[x], b.entries[x], x.path);
      }
    }
  }

  /** Whatever outcome a discard has, it touches a displaced object only when that is a file or a tree of this
      attempt's sidecars, and it only takes things away. */
  lemma OnlyOwnGoes(c: Config, w: World, w': World, p: PackagePath, o: Outcome, faulted: bool)
    requires DiscardRel(c, w, w', p, o, faulted) && Home(w.root, p, 0).Some?
    ensures Home(w'.root, p, 0).Some? && o in {Completed, Indeterminate, Threw}
    ensures w'.effects == w.effects && w'.next == w.next
    ensures var s, t := SlotsAt(w.root, p), SlotsAt(w'.root, p);
      && t.leaf == s.leaf && t.prepared == s.prepared
      && (t != s ==> s.displaced.Some? && (s.displaced.value.Dir? ==> OwnTree(c, w.effects, s.displaced.value, p)))
      && (t.displaced.Some? ==> s.displaced.Some? && Within(s.displaced.value, t.displaced.value))
  {
    OnlyRecoveryMaterialGoes(c, w, w', p, o, faulted);
    var s, t := SlotsAt(w.root, p), SlotsAt(w'.root, p);
    if s.displaced.Some? {
      TreeMeans(c, w.effects, s.displaced.value, p);
      SameWithin(s.displaced.value);
      if t.displaced.Some? && t.displaced != s.displaced {
        PrunedWithin(c, w.effects, s.displaced.value, t.displaced.value, p);
      }
    }
  }

  /** Whatever decided, a discard that completed leaves no displaced object of a path whose directory can
      be opened, and touches neither the leaf nor what else can be opened. */
  lemma ClearedByDiscard(c: Config, w: World, w': World, p: PackagePath, faulted: bool)
    requires DiscardRel(c, w, w', p, Completed, faulted)
    ensures Home(w.root, p, 0).Some? <==> Home(w'.root, p, 0).Some?
    ensures Home(w'.root, p, 0).Some? ==>
      SlotsAt(w'.root, p).displaced.None? && SlotsAt(w'.root, p).leaf == SlotsAt(w.root, p).leaf
  {
    var d := RootDepth(c, w.effects, p, 1);
    if d.Some? {
      HomeThrough(w.root, p[..d.value], p, 0);
    }
  }

  /** The directories above `p` that completed captured removals took away, the shallowest of them first:
      while it is displaced or out of reach, nothing is discarded beneath it; once it is discarded itself,
      there is nothing left to do; and when it stands again the displaced object of `p` goes, as it does
      when there is no such directory. */
  lemma TopAnswers(c: Config, w: World, w': World, r: PackagePath, p: PackagePath, o: Outcome, faulted: bool)
    requires TopRoot(c, w.effects, r) && Ancestor(r, p) && DiscardRel(c, w, w', p, o, faulted)
    ensures Home(w.root, r, 0).None? || !NoSidecar(SlotsAt(w.root, r)) ==> w' == w && o == Indeterminate
    ensures Home(w.root, r, 0).Some? && NoSidecar(SlotsAt(w.root, r)) && SlotsAt(w.root, r).leaf.None? ==>
      w' == w && o == (if faulted then Indeterminate else Completed)
    ensures Home(w.root, r, 0).Some? && NoSidecar(SlotsAt(w.root, r)) && SlotsAt(w.root, r).leaf.Some? && !faulted ==>
      Discards(c, w, w', p, o)
  {
    TopDecides(c, w, r, p);
  }

  lemma NoTopAnswers(c: Config, w: World, w': World, p: PackagePath, o: Outcome)
    requires forall k :: 0 < k < |p| ==> !CleanupRoot(c, w.effects, p[..k])
    requires DiscardRel(c, w, w', p, o, false)
    ensures Discards(c, w, w', p, o)
  {
  }

  /** A discard that no directory above decides, without a failing call. */
  ghost predicate Discards(c: Config, w: World, w': World, p: PackagePath, o: Outcome) {
    && (Home(w.root, p, 0).None? ==> w' == w && o == Threw)
    && (Home(w.root, p, 0).Some? && NoSidecar(SlotsAt(w.root, p)) ==> w' == w && o == Completed)
    && (Home(w.root, p, 0).Some? && !NoSidecar(SlotsAt(w.root, p)) && !Discardable(c, w, p) ==> w' == w && o == Indeterminate)
    && (Home(w.root, p, 0).Some? && Discardable(c, w, p) && Refreshable(c, w.effects, w.root, p) ==>
          o == Completed && Home(w'.root, p, 0).Some? && SlotsAt(w'.root, p) == Slots(SlotsAt(w.root, p).leaf, None, None))
  }

  /** Such a directory was removed, by a completed operation of this attempt, and captured. */
  lemma TopMeans(c: Config, l: Ledger, q: Path)
    ensures CleanupRoot(c, l, q) <==>
      && q != [] && (exists i :: 0 <= i < |l| && l[i] == Effect(q, false, true))
      && q in c.captures && PresentAt(c, q) && c.admitted[q].fact.Folder?
  {
  }
}
