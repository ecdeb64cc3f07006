/** What discarding recovery material may do.

  A displaced directory holds the sidecars of the captured removals completed beneath it, to
  any depth.  It is validated as a whole before anything in it is removed.
 */
module Discard {
  import opened Tree
  import opened Workspace
  import opened Namespace

  /** At every depth: only sidecars of completed captured removals, each of its admitted kind. */
  predicate ValidTree(c: Config, l: Ledger, n: Node, path: Path) {
    && n.Dir?
    && forall x | x in n.entries ::
         && RecoveryChild(c, l, path, x) && KindAgrees(c, x, n.entries[x])
         && (n.entries[x].Dir? ==> ValidTree(c, l, n.entries[x], x.path))
  }

  /** The object and everything beneath it is recovery material of this attempt. */
  predicate Disposable(c: Config, l: Ledger, n: Node, path: Path) {
    n.Dir? ==> forall x | x in n.entries :: RecoveryChild(c, l, path, x) && Disposable(c, l, n.entries[x], x.path)
  }

  /** `b` is `a` with some of its recovery material removed, from the bottom up. */
  ghost predicate Pruned(c: Config, l: Ledger, a: Node, b: Node, path: Path)
    decreases a
  {
    && a.Dir? && b.Dir? && a.ino == b.ino && SameOwner(a.meta, b.meta)
    && (forall x | x in b.entries ::
          && x in a.entries
          && (b.entries[x] == a.entries[x] || (RecoveryChild(c, l, path, x) && Pruned(c, l, a.entries[x], b.entries[x], x.path))))
    && (forall x | x in a.entries && x !in b.entries :: RecoveryChild(c, l, path, x) && Disposable(c, l, a.entries[x], x.path))
  }

  /** A directory that has been emptied held nothing but recovery material. */
  lemma PrunedEmpty(c: Config, l: Ledger, a: Node, b: Node, path: Path)
    requires Pruned(c, l, a, b, path) && b.entries == map[]
    ensures Disposable(c, l, a, path)
  {
  }

  /** What is left of a valid tree is a valid tree. */
  lemma {:induction false} ValidPruned(c: Config, l: Ledger, a: Node, b: Node, path: Path)
    requires ValidTree(c, l, a, path) && Pruned(c, l, a, b, path)
    ensures ValidTree(c, l, b, path)
    decreases a
  {
    forall x | x in b.entries
      ensures RecoveryChild(c, l, path, x) && KindAgrees(c, x, b.entries[x])
      ensures b.entries[x].Dir? ==> ValidTree(c, l, b.entries[x], x.path)
    {
      if b.entries[x] != a.entries[x] {
        ValidPruned(c, l, a.entries[x], b.entries[x], x.path);
      }
    }
  }

  lemma {:induction false} ValidIsDisposable(c: Config, l: Ledger, n: Node, path: Path)
    requires ValidTree(c, l, n, path)
    ensures Disposable(c, l, n, path)
  {
    forall x | x in n.entries
      ensures Disposable(c, l, n.entries[x], x.path)
    {
      if n.entries[x].Dir? {
        ValidIsDisposable(c, l, n.entries[x], x.path);
      }
    }
  }

  /* ---------- the shallowest discarded directory above a path ---------- */

  datatype Nested = Independent | Covered | Blocked

  /** A completed captured removal of an admitted directory. */
  predicate CleanupRoot(c: Config, l: Ledger, q: Path) {
    q != [] && Withdrawn(l, q) && q in c.captures && DirectoryAt(c, q)
  }

  /** The depth of the first such directory above `p`, from depth `k` on. */
  function RootDepth(c: Config, l: Ledger, p: Path, k: nat): (d: Option<nat>)
    requires 0 < k <= |p|
    ensures d.Some? ==> k <= d.value < |p| && CleanupRoot(c, l, p[..d.value])
    ensures d.Some? ==> forall j :: k <= j < d.value ==> !CleanupRoot(c, l, p[..j])
    ensures d.None? ==> forall j :: k <= j < |p| ==> !CleanupRoot(c, l, p[..j])
    decreases |p| - k
  {
    if k == |p| then None
    else if CleanupRoot(c, l, p[..k]) then Some(k)
    else RootDepth(c, l, p, k + 1)
  }

  function CleanupOf(w: World, q: PackagePath): Nested {
    if Home(w.root, q, 0).None? then Blocked
    else
      var s := SlotsAt(w.root, q);
      if Inspect(s) != Clear then Blocked else if s.leaf.Some? then Independent else Covered
  }

  function NestedCleanup(c: Config, w: World, p: PackagePath): Nested {
    var d := RootDepth(c, w.effects, p, 1);
    if d.None? then Independent else CleanupOf(w, p[..d.value])
  }

  /** The length of the text of a path: its components and the separators between them. */
  function TextSize(p: Path): nat {
    if p == [] then 0 else |p[0]| + 1 + TextSize(p[1..])
  }

  /** Of two directories above one path the one with the shorter text is the shallower. */
  lemma {:induction false} ShorterTextIsShallower(p: Path, j: nat, k: nat)
    requires j <= |p| && k <= |p|
    ensures TextSize(p[..j]) < TextSize(p[..k]) <==> j < k
    decreases |p|
  {
    if p != [] {
      if j > 0 && k > 0 {
        assert p[..j][1..] == p[1..][..j - 1] && p[..k][1..] == p[1..][..k - 1];
        ShorterTextIsShallower(p[1..], j - 1, k - 1);
      }
    }
  }

  /* ---------- discard_recovery ---------- */

  /** The displaced object may go: a completed change left it, of the admitted kind, and a
      directory holds nothing but recovery material. */
  predicate Discardable(c: Config, w: World, p: PackagePath)
    requires Home(w.root, p, 0).Some?
  {
    var s := SlotsAt(w.root, p);
    && Inspect(s) in {RemovedWithDisplacedOld, PublishedWithDisplacedOld}
    && PresentAt(c, p)
    && KindAgrees(c, Displaced(p), s.displaced.value)
    && (s.displaced.value.Dir? ==> ValidTree(c, w.effects, s.displaced.value, p))
  }

  /** Every state of the slots in which a discard, or a crash inside it, can leave them. */
  ghost predicate DiscardSpan(c: Config, w: World, p: PackagePath, t: Slots)
    requires Home(w.root, p, 0).Some?
  {
    var s := SlotsAt(w.root, p);
    || t == s
    || (&& Discardable(c, w, p)
        && (|| t == s.(displaced := None)
            || (&& t.displaced.Some? && t == s.(displaced := t.displaced)
                && Pruned(c, w.effects, s.displaced.value, t.displaced.value, p))))
  }

  /** A target in which a discard returned, gave up or crashed, at any call. */
  ghost predicate DiscardStopped(c: Config, w: World, v: Node, p: PackagePath) {
    if NestedCleanup(c, w, p) != Independent || Home(w.root, p, 0).None? || !Discardable(c, w, p) then v == w.root
    else Home(v, p, 0).Some? && Touched(c, w.effects, w.root, v, p, SlotsAt(v, p)) && DiscardSpan(c, w, p, SlotsAt(v, p))
  }

  ghost predicate DiscardCompleted(c: Config, w: World, w': World, p: PackagePath)
    requires Home(w.root, p, 0).Some? && Home(w'.root, p, 0).Some?
  {
    && Discardable(c, w, p)
    && Settled(Goals(c, w.effects), w.root, w'.root, p, 0)
    && SlotsAt(w'.root, p) == SlotsAt(w.root, p).(displaced := None)
  }

  ghost predicate DiscardRel(c: Config, w: World, w': World, p: PackagePath, o: Outcome, faulted: bool) {
    match NestedCleanup(c, w, p)
    case Blocked => w' == w && o == Indeterminate
    case Covered => w' == w && o == (if faulted then Indeterminate else Completed)
    case Independent =>
      || (faulted && w' == w && o == Indeterminate)
      || (Home(w.root, p, 0).None? && w' == w && o == Threw)
      || (Home(w.root, p, 0).Some? && DiscardRun(c, w, w', p, o, faulted))
  }

  ghost predicate DiscardRun(c: Config, w: World, w': World, p: PackagePath, o: Outcome, faulted: bool)
    requires Home(w.root, p, 0).Some?
  {
    if Inspect(SlotsAt(w.root, p)) == Clear then w' == w && o == Completed
    else if !Discardable(c, w, p) then w' == w && o == Indeterminate
    else
      && w'.effects == w.effects && w'.next == w.next
      && o in {Completed, Indeterminate, Threw}
      && DiscardStopped(c, w, w'.root, p) && Home(w'.root, p, 0).Some?
      && (o == Completed ==> DiscardCompleted(c, w, w', p))
      && (o == Threw ==> Misrecorded(c, w.effects, p))
      && (!faulted && Refreshable(c, w.effects, w.root, p) ==> o == Completed)
  }

  /* ---------- removal inside an open directory ---------- */

  class OpenDirectory {
    var node: Node
    var faulted: bool
    ghost var visited: set<Node>

    constructor (n: Node)
      ensures node == n && !faulted && visited == {n}
    {
      node, faulted, visited := n, false, {n};
    }

    /** The directory after one of its entries changed. */
    method Update(entries: map<Name, Node>)
      requires node.Dir?
      modifies this`node, this`visited
      ensures node.Dir? && node.ino == old(node).ino && SameOwner(node.meta, old(node).meta) && node.entries == entries
      ensures visited == old(visited) + {node}
    {
      var t: Time := *;
      node := Dir(node.ino, node.meta.(mtime := t), entries);
      visited := visited + {node};
    }

    method UnlinkAt(x: Name, directory: bool) returns (ok: bool)
      requires node.Dir? && x in node.entries
      modifies this
      ensures ok ==> && node.Dir? && node.ino == old(node).ino && SameOwner(node.meta, old(node).meta)
                     && node.entries == old(node).entries - {x} && faulted == old(faulted)
                     && old(node).entries[x].Dir? == directory && Removable(Some(old(node).entries[x]))
      ensures !ok ==> node == old(node)
      ensures !ok && !faulted ==> old(node).entries[x].Dir? != directory || !Removable(Some(old(node).entries[x]))
      ensures old(faulted) ==> faulted
      ensures visited == old(visited) + (if ok then {node} else {})
    {
      if * {
        faulted := true;
        return false;
      }
      if node.entries[x].Dir? != directory || !Removable(Some(node.entries[x])) {
        return false;
      }
      Update(node.entries - {x});
      return true;
    }
  }
}
