/** Which directories an operation hands to the durability authority. */
module Registration {
  import opened Tree
  import opened Workspace
  import opened Namespace

  /** The directory that holds the names of `p`. */
  function Parent(p: PackagePath): Path { p[..|p| - 1] }

  predicate SameMeta(a: Option<Node>, b: Option<Node>) {
    a.Some? && b.Some? && a.value.meta == b.value.meta
  }

  /** Each of the first `n` directories above `p` that has other metadata in `b` than in `a` was handed over. */
  ghost predicate AboveHanded(a: Node, b: Node, p: PackagePath, n: nat, handed: set<Path>) {
    forall k :: 0 <= k < n && k < |p| && !SameMeta(At(a, p[..k], 0), At(b, p[..k], 0)) ==> p[..k] in handed
  }

  /** Whatever an operation on `p` changed between `a` and `b` was handed over: every directory above whose
      metadata is another one and, when the names of `p` are, the `place` of the change.  When that was
      `lost` the directory that holds the names is excepted. */
  ghost predicate Accounted(a: Node, b: Node, p: PackagePath, place: Path, handed: set<Path>, lost: bool)
    requires Home(a, p, 0).Some? && Home(b, p, 0).Some?
  {
    && AboveHanded(a, b, p, |p| - 1, handed)
    && (lost || (AboveHanded(a, b, p, |p|, handed) && (SlotsAt(a, p) != SlotsAt(b, p) ==> place in handed)))
  }

  /** The calls on the three names handed over what they changed: the directory that holds the names, or
      the directory at `p` itself when only its metadata is another one. */
  predicate Placed(s: Slots, t: Slots, sameTime: bool, p: PackagePath, place: Path, handed: set<Path>) {
    if place == Parent(p) then place in handed || (sameTime && t == s)
    else place == p && sameTime && (t == s || place in handed)
  }

  /** Goals that say something new were handed over. */
  ghost predicate GoalsHanded(goals: map<Path, Meta>, a: Node, p: PackagePath, handed: set<Path>) {
    forall k :: 0 <= k < |p| && p[..k] in goals && p[..k] !in handed ==>
      At(a, p[..k], 0).Some? && At(a, p[..k], 0).value.meta == goals[p[..k]]
  }

  lemma RefreshedHanded(goals: map<Path, Meta>, a: Node, b: Node, p: PackagePath, handed: set<Path>)
    requires Refreshed(goals, a, b, p, 0) && GoalsHanded(goals, a, p, handed)
    ensures AboveHanded(a, b, p, |p|, handed)
  {
    forall k | 0 <= k < |p| && p[..k] !in handed
      ensures SameMeta(At(a, p[..k], 0), At(b, p[..k], 0))
    {
      RefreshedAbove(goals, a, b, p, k, 0);
    }
  }

  /** A change of the names of `p` and the refresh after it. */
  lemma ChangeAccounted(a: Node, b: Node, d: Node, p: PackagePath, s: Slots, t: Time, place: Path, handed: set<Path>, lost: bool)
    requires Home(a, p, 0).Some? && b == Replace(a, p, 0, s, t) && Home(b, p, 0).Some? && Home(d, p, 0).Some?
    requires SlotsAt(d, p) == s && AboveHanded(b, d, p, |p|, handed)
    requires lost || Placed(SlotsAt(a, p), s, t == Home(a, p, 0).value.meta.mtime, p, place, handed)
    ensures Accounted(a, d, p, place, handed, lost)
  {
    forall k | 0 <= k < |p| && p[..k] !in handed && (k + 1 < |p| || t == Home(a, p, 0).value.meta.mtime)
      ensures SameMeta(At(a, p[..k], 0), At(d, p[..k], 0))
    {
      ReplaceMeta(a, p, k, 0, s, t);
      assert SameMeta(At(b, p[..k], 0), At(d, p[..k], 0));
    }
  }

  lemma AccountedMore(a: Node, b: Node, p: PackagePath, place: Path, handed: set<Path>, less: bool, lost: bool)
    requires Home(a, p, 0).Some? && Home(b, p, 0).Some? && (less ==> lost)
    ensures Accounted(a, b, p, place, handed, less) ==> Accounted(a, b, p, place, handed, lost)
  {
  }

  lemma {:induction false} ReplaceMeta(a: Node, p: Path, k: nat, i: nat, s: Slots, t: Time)
    requires i <= k < |p| && Home(a, p, i).Some?
    requires k + 1 < |p| || t == Home(a, p, i).value.meta.mtime
    ensures SameMeta(At(a, p[..k], i), At(Replace(a, p, i, s, t), p[..k], i))
    decreases |p| - i
  {
    if i == k {
      assert At(a, p[..k], i) == Some(a);
    } else {
      ReplaceMeta(a.entries[Plain(p[i])], p, k, i + 1, s, t);
    }
  }

  /* ---------- where each operation changes something ---------- */

  /** An update in place changes the directory at `p`, any other publication the one that holds its names. */
  function PublicationPlace(c: Config, w: World, p: PackagePath): Path {
    if EntryAt(c, p).Some? && Home(w.root, p, 0).Some? && UpdatesInPlace(EntryAt(c, p).value, SlotsAt(w.root, p)) then p else Parent(p)
  }

  /** The preparation of the entry keeps a descriptor of the new object. */
  predicate PublishesDescriptor(c: Config, p: PackagePath) {
    EntryAt(c, p).Some? && (EntryAt(c, p).value.kind.RegularEntry? || EntryAt(c, p).value.kind.DirectoryEntry?)
  }

  predicate RecoversDescriptor(fact: Fact, anchor: Option<PackagePath>) {
    fact.Folder? || (fact.kind == Regular && anchor.None?)
  }

  function RecoveryPlace(c: Config, w: World, p: PackagePath): Path {
    if Home(w.root, p, 0).Some? && DirectoryAt(c, p) && Inspect(SlotsAt(w.root, p)) == Clear
       && SlotsAt(w.root, p).leaf.Some? && SlotsAt(w.root, p).leaf.value.Dir? then p else Parent(p)
  }

  /** A recovery that only takes a prepared name away hands nothing over, and one that rebuilds an object
      without a descriptor may fail to. */
  predicate RecoveryUnseen(c: Config, w: World, p: PackagePath, faulted: bool)
    requires Home(w.root, p, 0).Some?
  {
    match Inspect(SlotsAt(w.root, p))
    case PreparedOnly => true
    case Clear => faulted && PresentAt(c, p) && !RecoversDescriptor(c.admitted[p].fact, c.admitted[p].anchor)
    case _ => false
  }

  lemma PublicationPlaces(c: Config, w: World, p: PackagePath)
    ensures PublicationPlace(c, w, p) in {p, Parent(p)}
  {
  }

  lemma RecoveryPlaces(c: Config, w: World, p: PackagePath, less: bool, faulted: bool)
    requires Home(w.root, p, 0).Some? && (less ==> faulted)
    ensures RecoveryPlace(c, w, p) in {p, Parent(p)}
    ensures RecoveryUnseen(c, w, p, less) ==> RecoveryUnseen(c, w, p, faulted)
  {
  }

  lemma PlacedMore(s: Slots, t: Slots, sameTime: bool, p: PackagePath, place: Path, less: set<Path>, handed: set<Path>)
    requires less <= handed
    ensures Placed(s, t, sameTime, p, place, less) ==> Placed(s, t, sameTime, p, place, handed)
  {
  }
}
