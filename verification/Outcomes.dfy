/** What the outcomes of the operations mean to someone who looks at the target: types, metadata,
  contents and names, spelled out case by case. */
module Outcomes {
  import opened Tree
  import opened Workspace
  import opened Namespace
  import opened Guard
  import opened Undo
  import opened Refinement

  /* ---------- what an object looks like ---------- */

  /** The object has the recorded type, metadata and content. */
  predicate Looks(n: Node, fact: Fact) {
    match fact
    case Folder(meta) => n.Dir? && n.meta == meta
    case File(kind, meta, content) => n.Leaf? && n.kind == kind && n.meta == meta && n.content == content
  }

  predicate IsFile(n: Node, kind: Kind, meta: Meta, content: Content) {
    n.Leaf? && n.kind == kind && n.meta == meta && n.content == content
  }

  /** The object is what an entry other than a hard link describes. */
  predicate LooksIncoming(n: Node, e: Entry) {
    match e.kind
    case RegularEntry => IsFile(n, Regular, e.meta, e.content)
    case DirectoryEntry => n.Dir? && n.meta == e.meta
    case SymlinkEntry => IsFile(n, Symlink, e.meta, e.content)
    case FifoEntry => IsFile(n, Fifo, e.meta, e.content)
    case CharacterDeviceEntry => IsFile(n, CharacterDevice, e.meta, e.content)
    case BlockDeviceEntry => IsFile(n, BlockDevice, e.meta, e.content)
    case HardlinkEntry => false
  }

  /** The object carries the link's metadata and is the regular file at the anchor. */
  predicate LooksLinked(root: Node, n: Node, e: Entry) {
    var a := At(root, e.anchor, 0);
    && e.kind.HardlinkEntry? && n.Leaf? && n.kind == Regular && n.meta == e.meta
    && a.Some? && a.value.Leaf? && a.value.kind == Regular && a.value.ino == n.ino
  }

  /** The three names hold one object each. */
  predicate AllTaken(s: Slots) { s.leaf.Some? && s.prepared.Some? && s.displaced.Some? }

  predicate NoSidecar(s: Slots) { s.prepared.None? && s.displaced.None? }

  /* ---------- admission ---------- */

  /** A path is still admitted when it shows what was observed: nothing, or an object of the observed type,
      metadata and content which, as a member of a hard-link group, is the file its anchor's displaced name
      holds, or its leaf when nothing is displaced. */
  lemma AdmitMeans(root: Node, p: PackagePath, o: Observation)
    ensures o.Unknown? ==> Admit(root, p, o) == No
    ensures o.Absent? ==> Admit(root, p, o) == (if At(root, p, 0).None? then Yes else No)
    ensures o.Present? && !(At(root, p, 0).Some? && Looks(At(root, p, 0).value, o.fact)) ==> Admit(root, p, o) == No
    ensures o.Present? && o.anchor.None? && At(root, p, 0).Some? && Looks(At(root, p, 0).value, o.fact) ==> Admit(root, p, o) == Yes
    ensures o.Present? && o.anchor.Some? && At(root, p, 0).Some? && Looks(At(root, p, 0).value, o.fact) ==>
      if Home(root, o.anchor.value, 0).None? then Admit(root, p, o) == Throws
      else
        var n, s := At(root, p, 0).value, SlotsAt(root, o.anchor.value);
        var a := if s.displaced.Some? then s.displaced else s.leaf;
        Admit(root, p, o) == if n.Leaf? && n.kind == Regular && a.Some? && a.value.Leaf? && a.value.kind == Regular
                                && a.value.ino == n.ino && !AllTaken(s) then Yes else No
  {
    var x := At(root, p, 0);
    if o.Present? && x.Some? {
      assert FactOf(x.value) == o.fact <==> Looks(x.value, o.fact);
    }
  }

  /* ---------- publication ---------- */

  /** The old object is moved aside: one of the other sort, or a captured one that is no directory. */
  predicate GivesWayTo(c: Config, p: PackagePath, s: Slots, directory: bool) {
    s.leaf.Some? && (s.leaf.value.Dir? != directory || (!s.leaf.value.Dir? && p in c.captures))
  }

  /** What a completed publication leaves at the three names: the anchor's file for a hard link; an existing
      directory with its contents and the incoming metadata; otherwise a new object of the incoming type,
      metadata and content.  The old object is at the displaced name when it had to give way, and the
      prepared name is free but for the link of a file over itself. */
  lemma PublishedLooks(c: Config, w: World, w': World, p: PackagePath, faulted: bool)
    requires WellFormed(c) && Sound(w) && PublishRel(c, w, w', p, Completed, faulted)
    ensures PublishCompleted(c, w, w', p)
    ensures c.image.Some? && p in c.image.value && NoSidecar(SlotsAt(w.root, p))
    ensures SlotsAt(w'.root, p).leaf.Some?
    ensures var e, s, t := c.image.value[p], SlotsAt(w.root, p), SlotsAt(w'.root, p);
      && t.displaced == (if GivesWayTo(c, p, s, e.kind.DirectoryEntry?) then s.leaf else None)
      && (e.kind.HardlinkEntry? ==> RegularFile(At(w.root, e.anchor, 0)) && t.leaf == At(w.root, e.anchor, 0))
      && (!e.kind.HardlinkEntry? ==> LooksIncoming(t.leaf.value, e) && t.prepared.None?)
      && (t.prepared.Some? ==> t.prepared == t.leaf == s.leaf)
    ensures var e, s, t := c.image.value[p], SlotsAt(w.root, p), SlotsAt(w'.root, p);
      e.kind.DirectoryEntry? ==>
        if s.leaf.Some? && s.leaf.value.Dir? then t.leaf.value.ino == s.leaf.value.ino && t.leaf.value.entries == s.leaf.value.entries
        else t.leaf.value.ino == w.next && t.leaf.value.entries == map[]
    ensures var e, t := c.image.value[p], SlotsAt(w'.root, p);
      !e.kind.DirectoryEntry? && !e.kind.HardlinkEntry? ==> t.leaf.value.ino == w.next
  {
    assert PublishCompleted(c, w, w', p);
    hide PublishRel, Settled, Goals, Home, At, Complete, Retain, Admit, GroupedImage, Distinct;
    var e := c.image.value[p];
    AtHome(w.root, p, 0);
    var files :| Numbered(w.root, w.next, files);
    NumberedAt(w.root, p, 0, w.next, files);
    NumberedAt(w.root, e.anchor, 0, w.next, files);
  }

  /** A refused publication changes nothing, and the refusal says why. */
  lemma RefusedPublication(c: Config, w: World, w': World, p: PackagePath, o: Outcome, faulted: bool)
    requires PublishRel(c, w, w', p, o, faulted)
    ensures c.image.None? || p !in c.image.value || p !in c.admitted || Home(w.root, p, 0).None? ==> w' == w && o == Threw
    ensures c.image.Some? && p in c.image.value && p in c.admitted && Home(w.root, p, 0).Some? ==>
      if !NoSidecar(SlotsAt(w.root, p)) then w' == w && o == Failed
      else match Admit(w.root, p, c.admitted[p])
        case No => w' == w && o == Indeterminate
        case Throws => w' == w && o == Threw
        case Yes => (exists i :: 0 <= i < |w.effects| && w.effects[i].path == p && !w.effects[i].incoming) ==> w' == w && o == Threw
  {
  }

  /** A publication that was let in completes, when no call fails, exactly when the old object can give way
      and the incoming one can be built. */
  lemma PublishesWhen(c: Config, w: World, w': World, p: PackagePath, o: Outcome)
    requires PublishRel(c, w, w', p, o, false) && PublishStarts(c, w, p)
    requires Refreshable(c, Complete(Retain(w.effects, p, true), p), w.root, p)
    ensures o == Completed <==>
      var e, s := c.image.value[p], SlotsAt(w.root, p);
      || (e.kind.DirectoryEntry? && s.leaf.Some? && s.leaf.value.Dir?)
      || (&& (GivesWayTo(c, p, s, e.kind.DirectoryEntry?) ==> s.leaf.value.Leaf? || s.leaf.value.entries == map[])
          && (e.kind.RegularEntry? ==> c.payloads)
          && (e.kind.SymlinkEntry? ==> e.meta.mode == 0x1ff)
          && (e.kind.HardlinkEntry? ==>
               && e.anchor != [] && At(w.root, e.anchor, 0).Some?
               && At(w.root, e.anchor, 0).value.Leaf? && At(w.root, e.anchor, 0).value.kind == Regular))
  {
    var e := c.image.value[p];
    if e.kind.HardlinkEntry? && e.anchor != [] {
      AtHome(w.root, e.anchor, 0);
    }
  }

  /** One that does not complete leaves the leaf and the displaced name alone, and fails; only an anchor whose
      directory cannot be opened makes it throw. */
  lemma FailsWhen(c: Config, w: World, w': World, p: PackagePath, o: Outcome)
    requires PublishRel(c, w, w', p, o, false) && PublishStarts(c, w, p) && o != Completed
    requires Refreshable(c, Complete(Retain(w.effects, p, true), p), w.root, p)
    ensures var e := c.image.value[p];
      o == if e.kind.HardlinkEntry? && (e.anchor == [] || Home(w.root, e.anchor, 0).None?) then Threw else Failed
    ensures Home(w.root, p, 0).Some? && Home(w'.root, p, 0).Some?
    ensures SlotsAt(w'.root, p).leaf == SlotsAt(w.root, p).leaf && SlotsAt(w'.root, p).displaced.None?
  {
  }

  /* ---------- removal ---------- */

  /** A removal completes only when the admitted object is gone from its name: to the displaced name when
      the path is captured, altogether when it is not. */
  lemma CompletedRemoval(c: Config, w: World, w': World, p: PackagePath, directory: bool, o: Outcome, faulted: bool)
    requires RemoveRel(c, w, w', p, directory, o, faulted) && o == Completed
    ensures RemoveCompleted(c, w, w', p)
    ensures PresentAt(c, p) && At(w.root, p, 0).Some? && Looks(At(w.root, p, 0).value, c.admitted[p].fact)
    ensures At(w.root, p, 0).value.Dir? == directory && At(w'.root, p, 0).None?
    ensures Home(w.root, p, 0).Some? && Home(w'.root, p, 0).Some?
    ensures SlotsAt(w'.root, p) == Slots(None, None, if p in c.captures then At(w.root, p, 0) else None)
    ensures directory ==> (p !in c.captures ==> At(w.root, p, 0).value.entries == map[])
  {
    AtHome(w.root, p, 0);
    AtHome(w'.root, p, 0);
    AdmitMeans(w.root, p, c.admitted[p]);
  }

  /** A name beneath `path` that a completed captured removal of this attempt left. */
  ghost predicate OwnName(c: Config, l: Ledger, path: Path, x: Name) {
    && x.Displaced? && |x.path| == |path| + 1 && x.path[..|path|] == path && path != []
    && (exists i :: 0 <= i < |l| && l[i] == Effect(x.path, false, true))
    && x.path in c.captures
  }

  /** Such a name, and the object of the observed type. */
  ghost predicate OwnSidecar(c: Config, l: Ledger, path: Path, x: Name, n: Node) {
    && OwnName(c, l, path, x) && PresentAt(c, x.path)
    && match c.admitted[x.path].fact
       case Folder(_) => n.Dir?
       case File(kind, _, _) => n.Leaf? && n.kind == kind
  }

  /** A removal that was let in completes, when no call fails, exactly when the object is no directory, or
      an empty one, or a captured one that holds only such names. */
  lemma RemovesWhen(c: Config, w: World, w': World, p: PackagePath, directory: bool, o: Outcome)
    requires RemoveRel(c, w, w', p, directory, o, false) && RemoveStarts(c, w, p, directory)
    requires Refreshable(c, Complete(Retain(w.effects, p, false), p), w.root, p)
    ensures At(w.root, p, 0).Some?
    ensures o == Completed <==>
      var n := At(w.root, p, 0).value;
      n.Leaf? || n.entries == map[] || (p in c.captures && forall x :: x in n.entries ==> OwnSidecar(c, w.effects, p, x, n.entries[x]))
    ensures o in {Completed, ConditionalRetained, Indeterminate}
  {
    AtHome(w.root, p, 0);
    var n := At(w.root, p, 0).value;
    if n.Dir? {
      forall x | x in n.entries
        ensures OwnSidecar(c, w.effects, p, x, n.entries[x]) <==> RecoveryChild(c, w.effects, p, x) && KindAgrees(c, x, n.entries[x])
      {
        SidecarMeans(c, w.effects, p, x, n.entries[x]);
      }
    }
  }

  /** One that does not complete changes nothing.  What makes the directory stay is a name of somebody else, or any
      name when it is not captured; an own name of the wrong type leaves the matter open. */
  lemma StaysWhen(c: Config, w: World, w': World, p: PackagePath, directory: bool, o: Outcome)
    requires RemoveRel(c, w, w', p, directory, o, false) && RemoveStarts(c, w, p, directory) && o != Completed
    requires Refreshable(c, Complete(Retain(w.effects, p, false), p), w.root, p)
    ensures w'.root == w.root && directory && At(w.root, p, 0).Some? && At(w.root, p, 0).value.Dir?
    ensures var entries := At(w.root, p, 0).value.entries;
      && entries != map[] && o in {ConditionalRetained, Indeterminate}
      && (p !in c.captures ==> o == ConditionalRetained)
      && (p in c.captures && o == ConditionalRetained ==> exists x :: x in entries && !OwnName(c, w.effects, p, x))
      && (o == Indeterminate ==> exists x :: x in entries && OwnName(c, w.effects, p, x) && !OwnSidecar(c, w.effects, p, x, entries[x]))
  {
    AtHome(w.root, p, 0);
    var n := At(w.root, p, 0).value;
    assert n.Dir?;
    if p in c.captures {
      if o == ConditionalRetained {
        var x :| x in n.entries && !RecoveryChild(c, w.effects, p, x);
        SidecarMeans(c, w.effects, p, x, n.entries[x]);
        assert !OwnName(c, w.effects, p, x);
      } else {
        var x :| x in n.entries && RecoveryChild(c, w.effects, p, x) && !KindAgrees(c, x, n.entries[x]);
        SidecarMeans(c, w.effects, p, x, n.entries[x]);
        assert OwnName(c, w.effects, p, x);
      }
    }
  }

  /** Whatever calls failed, only a directory is conditionally retained, unchanged, and something that is no sidecar of
      this attempt is in it, or anything at all when it is not captured. */
  lemma RetainedMeans(c: Config, w: World, w': World, p: PackagePath, directory: bool, faulted: bool)
    requires RemoveRel(c, w, w', p, directory, ConditionalRetained, faulted)
    ensures directory && w'.root == w.root && At(w.root, p, 0).Some? && At(w.root, p, 0).value.Dir?
    ensures var entries := At(w.root, p, 0).value.entries;
      && entries != map[]
      && (p in c.captures ==> exists x :: x in entries && !OwnSidecar(c, w.effects, p, x, entries[x]))
  {
    AtHome(w.root, p, 0);
    var n := At(w.root, p, 0).value;
    if p in c.captures {
      var x :| x in n.entries && !(RecoveryChild(c, w.effects, p, x) && KindAgrees(c, x, n.entries[x]));
      SidecarMeans(c, w.effects, p, x, n.entries[x]);
    }
  }

  lemma SidecarMeans(c: Config, l: Ledger, path: Path, x: Name, n: Node)
    ensures OwnName(c, l, path, x) <==> RecoveryChild(c, l, path, x)
    ensures OwnSidecar(c, l, path, x, n) <==> RecoveryChild(c, l, path, x) && KindAgrees(c, x, n)
  {
    if RecoveryChild(c, l, path, x) {
      assert x.path[..|path|] == path;
    }
  }

  /** A refused removal changes nothing, and the refusal says why. */
  lemma RefusedRemoval(c: Config, w: World, w': World, p: PackagePath, directory: bool, o: Outcome, faulted: bool)
    requires RemoveRel(c, w, w', p, directory, o, faulted)
    ensures !PresentAt(c, p) || c.admitted[p].fact.Folder? != directory || Home(w.root, p, 0).None? ==> w' == w && o == Threw
    ensures PresentAt(c, p) && c.admitted[p].fact.Folder? == directory && Home(w.root, p, 0).Some? ==>
      if !NoSidecar(SlotsAt(w.root, p)) then w' == w && o == Indeterminate
      else match Admit(w.root, p, c.admitted[p])
        case No => w' == w && o == Indeterminate
        case Throws => w' == w && o == Threw
        case Yes => (exists i :: 0 <= i < |w.effects| && w.effects[i].path == p && w.effects[i].incoming) ==> w' == w && o == Threw
  {
  }

  /* ---------- the ledger ---------- */

  /** An operation that was let in leaves one entry of its path in the ledger, completed when it completes and as it
      was when it fails, and every entry of another path as it was. */
  lemma OperationLedger(c: Config, w: World, w': World, p: PackagePath, incoming: bool, directory: bool, o: Outcome, faulted: bool)
    requires incoming ==> PublishStarts(c, w, p) && PublishRel(c, w, w', p, o, faulted)
    requires !incoming ==> RemoveStarts(c, w, p, directory) && RemoveRel(c, w, w', p, directory, o, faulted)
    ensures w'.next == (if incoming then w.next + 1 else w.next) && exists d :: Effect(p, incoming, d) in w'.effects
    ensures o == Completed ==> Effect(p, incoming, true) in w'.effects
    ensures o in {Failed, ConditionalRetained} ==> (Effect(p, incoming, true) in w'.effects <==> Effect(p, incoming, true) in w.effects)
    ensures forall x: Effect :: x.path != p ==> (x in w'.effects <==> x in w.effects)
  {
    hide Settled, PublishStopped, RemoveStopped, Quiet, Publishes, RemovalAllowed, Refreshable, Home;
    var m := Retain(w.effects, p, incoming);
    RetainMentions(w.effects, p, incoming);
    ActivatedAfter(w.effects, p, incoming, p);
    Elsewhere(w.effects, m, Complete(m, p), p, incoming);
  }

  lemma Elsewhere(l: Ledger, m: Ledger, f: Ledger, p: PackagePath, incoming: bool)
    requires m == Retain(l, p, incoming) && f == Complete(m, p) && !Contradicts(l, p, incoming)
    ensures forall x: Effect :: x.path != p ==> (x in m <==> x in l) && (x in f <==> x in l)
    ensures Effect(p, incoming, true) in m <==> Effect(p, incoming, true) in l
  {
    forall x: Effect | x.path != p
      ensures (x in m <==> x in l) && (x in f <==> x in l)
    {
      if x in l {
        var i :| 0 <= i < |l| && l[i] == x;
        assert m[i] == x && f[i] == x;
      }
      if x in f {
        var i :| 0 <= i < |f| && f[i] == x;
        assert m[i] == x && l[i] == x;
      }
    }
  }

  /* ---------- recovery ---------- */

  /** A recovery that does not complete, though no call failed, throws only when the directory of a hard-link anchor
      cannot be opened or the observed object is of a type that cannot be built; otherwise it leaves the matter
      open.  So it does with all three names taken, with an object beside a sidecar that cannot be removed, and
      without a sidecar when the ledger does not mention the path or no exact capture is held. */
  lemma RefusedRecovery(c: Config, w: World, w': World, p: PackagePath, o: Outcome)
    requires RecoverRel(c, w, w', p, o, false) && o != Completed
    requires p in c.admitted && Home(w.root, p, 0).Some? && Refreshable(c, w.effects, w.root, p)
    ensures o in {Indeterminate, Threw}
    ensures o == Threw ==> c.admitted[p].Present? && (c.admitted[p].anchor.Some? || !Buildable(c.admitted[p].fact))
    ensures var s := SlotsAt(w.root, p);
      && (AllTaken(s) ==> o == Indeterminate && Home(w'.root, p, 0).Some? && SlotsAt(w'.root, p) == s)
      && (s.displaced.Some? && !(Removable(s.prepared) && Removable(s.leaf)) ==> o == Indeterminate)
      && (NoSidecar(s) && Admit(w.root, p, c.admitted[p]) == No && (forall i :: 0 <= i < |w.effects| ==> w.effects[i].path != p) ==>
            o == Indeterminate && Home(w'.root, p, 0).Some? && SlotsAt(w'.root, p) == s)
      && (NoSidecar(s) && Admit(w.root, p, c.admitted[p]) == No && !(p in c.captures && c.captures[p]) ==> o == Indeterminate)
      && (NoSidecar(s) && Admit(w.root, p, c.admitted[p]) == Throws ==> o == Threw)
  {
  }

  /** An object of this type can be made from a capture. */
  predicate Buildable(fact: Fact) {
    fact.Folder? || fact.kind in {Regular, Symlink, Fifo, CharacterDevice, BlockDevice}
  }

  /* ---------- exceptions ---------- */

  /** Some directory above `p` was published by this attempt from an entry that is no directory's, or was observed as
      something else before an attempt that has not published it. */
  ghost predicate WronglyRecorded(c: Config, l: Ledger, p: PackagePath) {
    exists k :: 0 < k < |p| &&
      if Effect(p[..k], true, true) in l then c.image.Some? && (p[..k] in c.image.value ==> c.image.value[p[..k]].kind != DirectoryEntry)
      else p[..k] in c.admitted && c.admitted[p[..k]].Present? && c.admitted[p[..k]].fact.File?
  }

  lemma WrongMeans(c: Config, l: Ledger, p: PackagePath)
    ensures Misrecorded(c, l, p) <==> WronglyRecorded(c, l, p)
  {
    if k :| 0 < k < |p| && MisrecordedAt(c, l, p[..k]) {
      assert Effect(p[..k], true, true) in l <==> Activated(l, p[..k]);
    }
    forall k | 0 < k < |p| && Effect(p[..k], true, true) in l && c.image.Some? && (p[..k] in c.image.value ==> c.image.value[p[..k]].kind != DirectoryEntry)
      ensures MisrecordedAt(c, l, p[..k])
    {
    }
    forall k | 0 < k < |p| && Effect(p[..k], true, true) !in l && p[..k] in c.admitted && c.admitted[p[..k]].Present? && c.admitted[p[..k]].fact.File?
      ensures MisrecordedAt(c, l, p[..k])
    {
    }
  }

  /** Once the object is in its place, or gone, only such a record makes an operation throw. */
  lemma ThrowsMeans(c: Config, w: World, w': World, p: PackagePath, directory: bool, faulted: bool)
    ensures RemoveStarts(c, w, p, directory) && RemoveRel(c, w, w', p, directory, Threw, faulted) ==> WronglyRecorded(c, w'.effects, p)
    ensures PublishStarts(c, w, p) && Publishes(c, w, p) && PublishRel(c, w, w', p, Threw, false) ==> WronglyRecorded(c, w'.effects, p)
    ensures p in c.admitted && Home(w.root, p, 0).Some? && Recovers(c, w, p) && RecoverRel(c, w, w', p, Threw, false) ==>
      WronglyRecorded(c, w'.effects, p)
  {
    WrongMeans(c, w'.effects, p);
    hide WronglyRecorded, Settled, PublishStopped, RemoveStopped, RecoverStopped, PublishCompleted, Refreshable, Quiet, Recovers, Publishes;
    if RemoveStarts(c, w, p, directory) && RemoveRel(c, w, w', p, directory, Threw, faulted) {
      SameRecord(c, w.effects, p, false);
    }
    if PublishStarts(c, w, p) && PublishRel(c, w, w', p, Threw, false) {
      SameRecord(c, w.effects, p, true);
    }
  }

  lemma SameRecord(c: Config, l: Ledger, p: PackagePath, incoming: bool)
    requires !Contradicts(l, p, incoming)
    ensures Misrecorded(c, Complete(Retain(l, p, incoming), p), p) ==> Misrecorded(c, Retain(l, p, incoming), p)
  {
    var m := Retain(l, p, incoming);
    Elsewhere(l, m, Complete(m, p), p, incoming);
    if k :| 0 < k < |p| && MisrecordedAt(c, Complete(m, p), p[..k]) {
      assert MisrecordedAt(c, m, p[..k]);
    }
  }

  /* ---------- where an operation can stop ---------- */

  /** Each part of the metadata is one of two. */
  predicate OldOrNew(m: Meta, a: Meta, b: Meta) {
    && (m.mode == a.mode || m.mode == b.mode) && (m.mtime == a.mtime || m.mtime == b.mtime)
    && ((m.uid == a.uid && m.gid == a.gid) || (m.uid == b.uid && m.gid == b.gid))
  }

  /** Wherever a publication over anything but a directory in place stops, the old object still stands there, or it is
      at the displaced name and nothing stands there, or the publication is done. */
  lemma StoppedPublication(c: Config, w: World, v: Node, p: PackagePath)
    requires PublishStopped(c, w, v, p) && PublishStarts(c, w, p) && Home(v, p, 0).Some?
    requires var e, s := c.image.value[p], SlotsAt(w.root, p); !(e.kind.DirectoryEntry? && s.leaf.Some? && s.leaf.value.Dir?)
    ensures var e, s, t := c.image.value[p], SlotsAt(w.root, p), SlotsAt(v, p);
      || (t.leaf == s.leaf && t.displaced.None?)
      || (&& GivesWayTo(c, p, s, e.kind.DirectoryEntry?) && t.leaf.None? && t.displaced == s.leaf
          && (s.leaf.value.Dir? ==> s.leaf.value.entries == map[]))
      || (&& t.leaf.Some? && t.displaced == (if GivesWayTo(c, p, s, e.kind.DirectoryEntry?) then s.leaf else None)
          && if e.kind.HardlinkEntry? then t.leaf == At(w.root, e.anchor, 0) else LooksIncoming(t.leaf.value, e))
    ensures var x := SlotsAt(v, p).prepared; x.Some? && x.value.Dir? ==> x.value.entries == map[]
  {
    hide Touched;
  }

  /** Wherever an update in place stops, it is the same directory with the same contents, and each part of its
      metadata is the old or the incoming one. */
  lemma StoppedUpdate(c: Config, w: World, v: Node, p: PackagePath)
    requires PublishStopped(c, w, v, p) && PublishStarts(c, w, p) && Home(v, p, 0).Some?
    requires var e, s := c.image.value[p], SlotsAt(w.root, p); e.kind.DirectoryEntry? && s.leaf.Some? && s.leaf.value.Dir?
    ensures var e, s, t := c.image.value[p], SlotsAt(w.root, p), SlotsAt(v, p);
      && t.displaced.None? && t.leaf.Some? && t.leaf.value.Dir?
      && t.leaf.value.ino == s.leaf.value.ino && t.leaf.value.entries == s.leaf.value.entries
      && OldOrNew(t.leaf.value.meta, s.leaf.value.meta, e.meta)
  {
    hide Touched;
  }

  /** Wherever a removal stops, nothing has happened yet or it is done. */
  lemma StoppedRemoval(c: Config, w: World, v: Node, p: PackagePath, directory: bool)
    requires RemoveStopped(c, w, v, p, directory) && RemoveStarts(c, w, p, directory) && Home(v, p, 0).Some?
    ensures var s, t := SlotsAt(w.root, p), SlotsAt(v, p);
      t == s || t == Slots(None, None, if p in c.captures then s.leaf else None)
  {
    hide Touched;
  }

  /** Wherever the recovery of a displaced object stops, that is still at the displaced name, the leaf as it was or
      gone, or it is back at the leaf with nothing beside it. */
  lemma StoppedRecovery(c: Config, w: World, v: Node, p: PackagePath)
    requires RecoverStopped(c, w, v, p) && p in c.admitted && Home(w.root, p, 0).Some? && Home(v, p, 0).Some?
    requires SlotsAt(w.root, p).displaced.Some?
    ensures var s, t := SlotsAt(w.root, p), SlotsAt(v, p);
      || (t.displaced == s.displaced && (t.leaf == s.leaf || t.leaf.None?) && (t.prepared == s.prepared || t.prepared.None?))
      || t == Slots(s.displaced, None, None)
    ensures AllTaken(SlotsAt(w.root, p)) ==> SlotsAt(v, p) == SlotsAt(w.root, p)
  {
    hide Touched;
  }

  /** Without a sidecar a recovery changes the names of a path only when that is not as admitted and the ledger mentions
      it: it takes away an object it published over nothing and still recognises, or works from an exact capture. */
  lemma StoppedClearRecovery(c: Config, w: World, v: Node, p: PackagePath)
    requires RecoverStopped(c, w, v, p) && p in c.admitted && Home(w.root, p, 0).Some? && Home(v, p, 0).Some?
    requires NoSidecar(SlotsAt(w.root, p)) && SlotsAt(v, p) != SlotsAt(w.root, p)
    ensures Admit(w.root, p, c.admitted[p]) == No && SlotsAt(v, p).displaced.None?
    ensures exists i :: 0 <= i < |w.effects| && w.effects[i].path == p
    ensures c.admitted[p].Present? ==> p in c.captures && c.captures[p]
    ensures !c.admitted[p].Present? ==>
      && c.admitted[p].Absent? && (forall i :: 0 <= i < |w.effects| && w.effects[i].path == p ==> w.effects[i].incoming)
      && SlotsAt(v, p) == Slots(None, None, None) && c.image.Some? && p in c.image.value
      && SlotsAt(w.root, p).leaf.Some?
      && var e, n := c.image.value[p], SlotsAt(w.root, p).leaf.value;
         if e.kind.HardlinkEntry? then LooksLinked(w.root, n, e) else LooksIncoming(n, e)
  {
    hide Touched;
    AtHome(w.root, p, 0);
  }

  /** A recovery leaves the ledger as it is, and is never conditional. */
  lemma RecoveryLedger(c: Config, w: World, w': World, p: PackagePath, o: Outcome, faulted: bool)
    requires RecoverRel(c, w, w', p, o, faulted)
    ensures w'.effects == w.effects && o != ConditionalRetained
    ensures p in c.admitted && Home(w.root, p, 0).Some? ==> w'.next == w.next + 1
  {
  }

  /* ---------- replay ---------- */

  /** A recorded publication is entered exactly when the target still shows the incoming object, its time
      exempted for a directory, and no removal of the path was entered. */
  lemma ReplayedPublication(c: Config, root: Node, l: Ledger, p: PackagePath)
    requires p in c.admitted
    ensures Replay(c, root, l, p, ActivateIncoming, Completed).Some? <==>
      && Home(root, p, 0).Some? && !AllTaken(SlotsAt(root, p))
      && c.image.Some? && p in c.image.value && At(root, p, 0).Some?
      && (var e, n := c.image.value[p], At(root, p, 0).value;
          if e.kind.HardlinkEntry? then LooksLinked(root, n, e)
          else LooksIncoming(n, e.(meta := e.meta.(mtime := if e.kind.DirectoryEntry? then n.meta.mtime else e.meta.mtime))))
      && (forall i :: 0 <= i < |l| && l[i].path == p ==> l[i].incoming)
  {
  }

  /** A recorded removal is entered exactly when directories lead to the place where the object was, or to a
      missing one, nothing is there, and no publication of the path was entered. */
  lemma ReplayedRemoval(c: Config, root: Node, l: Ledger, p: PackagePath, plan: Planned)
    requires p in c.admitted && plan in {RemoveObserved, RemoveDirectoryIfEmpty}
    ensures Replay(c, root, l, p, plan, Completed).Some? <==>
      && At(root, p, 0).None? && (forall k :: 0 <= k < |p| ==> !HitsFile(root, p, 0, k))
      && (forall i :: 0 <= i < |l| && l[i].path == p ==> !l[i].incoming)
  {
    WalkEnds(root, p, 0);
    AtHome(root, p, 0);
  }

  /** What the other results do to the ledger. */
  lemma ReplayedRest(c: Config, root: Node, l: Ledger, p: PackagePath, plan: Planned, o: Outcome)
    ensures p !in c.admitted ==> Replay(c, root, l, p, plan, o).None?
    ensures p in c.admitted && (plan == LeaveAlone || o in {Failed, ConditionalRetained}) ==> Replay(c, root, l, p, plan, o) == Some(l)
    ensures p in c.admitted && plan != LeaveAlone && o == Indeterminate ==>
      Replay(c, root, l, p, plan, o) ==
        if exists i :: 0 <= i < |l| && l[i].path == p && l[i].incoming != (plan == ActivateIncoming) then None
        else if exists i :: 0 <= i < |l| && l[i].path == p then Some(l)
        else Some(l + [Effect(p, plan == ActivateIncoming, false)])
  {
  }
}
