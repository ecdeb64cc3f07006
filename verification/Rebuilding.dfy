/** What a capture gives back once its displaced object is gone. */
module Rebuilding {
  import opened Tree
  import opened Workspace
  import opened Namespace
  import opened Guard
  import opened Discard
  import opened Undo
  import opened Refinement
  import opened RunCleanup
  import opened Cleanup
  import opened DiscardOutcomes
  import opened HardLinks
  import opened Outcomes

  /** The object can be made again from its metadata and content. */
  predicate CanBuild(fact: Fact) {
    Buildable(fact) && (fact.File? && fact.kind == Symlink ==> fact.meta.mode == 0x1ff)
  }

  /** Whatever stands at the leaf can be replaced by an object of the observed sort, or brought to it. */
  predicate GivesRoom(leaf: Option<Node>, fact: Fact) {
    leaf.Some? ==> if leaf.value.Dir? then fact.Folder? || leaf.value.entries == map[] else fact.File?
  }

  /** An exact capture of the path is held, and the ledger says that the attempt changed it. */
  predicate Restorable(c: Config, w: World, p: PackagePath) {
    && PresentAt(c, p) && p in c.captures && c.captures[p]
    && exists i :: 0 <= i < |w.effects| && w.effects[i].path == p
  }

  lemma FreshLeaf(w: World, p: PackagePath)
    requires Sound(w) && Home(w.root, p, 0).Some?
    ensures SlotsAt(w.root, p).leaf.Some? ==> SlotsAt(w.root, p).leaf.value.ino != w.next
  {
    var files :| Numbered(w.root, w.next, files);
    NumberedAt(w.root, p, 0, w.next, files);
  }

  /** What recovery aims at then. */
  lemma RebuiltSlots(c: Config, w: World, p: PackagePath)
    requires Restorable(c, w, p) && c.admitted[p].anchor.None? && CanBuild(c.admitted[p].fact) && Sound(w)
    requires Home(w.root, p, 0).Some? && NoSidecar(SlotsAt(w.root, p)) && GivesRoom(SlotsAt(w.root, p).leaf, c.admitted[p].fact)
    ensures var t := RecoverySlots(c, w, p);
      t.Some? && NoSidecar(t.value) && t.value.leaf.Some? && Looks(t.value.leaf.value, c.admitted[p].fact)
    ensures c.admitted[p].fact.Folder? ==>
      var leaf := SlotsAt(w.root, p).leaf;
      RecoverySlots(c, w, p).value.leaf.value.entries == if leaf.Some? && leaf.value.Dir? then leaf.value.entries else map[]
  {
    FreshLeaf(w, p);
    AtHome(w.root, p, 0);
    AdmitMeans(w.root, p, c.admitted[p]);
    hide At, Home, Admit;
  }

  /** A recovery that puts an object in place that looks as it did completes. */
  lemma LooksRecovered(c: Config, w: World, w': World, p: PackagePath, o: Outcome)
    requires PresentAt(c, p) && c.admitted[p].anchor.None? && Home(w.root, p, 0).Some? && RecoverySlots(c, w, p).Some?
    requires var t := RecoverySlots(c, w, p).value; t.leaf.Some? && Looks(t.leaf.value, c.admitted[p].fact)
    requires Refreshable(c, w.effects, w.root, p) && RecoverRel(c, w, w', p, o, false)
    ensures o == Completed && Home(w'.root, p, 0).Some? && SlotsAt(w'.root, p) == RecoverySlots(c, w, p).value
    ensures At(w'.root, p, 0) == SlotsAt(w'.root, p).leaf
  {
    var t, r := RecoverySlots(c, w, p).value, AfterRecovery(c, w, p);
    ReplaceSettled(w.root, p, 0, t, Home(w.root, p, 0).value.meta.mtime);
    AtHome(r, p, 0);
    AdmitMeans(r, p, c.admitted[p]);
    AtHome(w'.root, p, 0);
    hide Settled, Framed, Refreshable, Guarded, RecoverStopped, RecoverRefusal, Misrecorded, RecoverySlots, Admit;
  }

  /** Without a sidecar to return, recovery makes the captured object again: an object of the observed type,
      metadata and content stands at the leaf, whatever had taken its place, and a directory that still
      stands keeps what it holds. */
  lemma CaptureRebuilds(c: Config, w: World, w': World, p: PackagePath, o: Outcome)
    requires Restorable(c, w, p) && c.admitted[p].anchor.None? && CanBuild(c.admitted[p].fact) && Sound(w)
    requires Home(w.root, p, 0).Some? && NoSidecar(SlotsAt(w.root, p)) && GivesRoom(SlotsAt(w.root, p).leaf, c.admitted[p].fact)
    requires Refreshable(c, w.effects, w.root, p) && RecoverRel(c, w, w', p, o, false)
    ensures o == Completed && At(w'.root, p, 0).Some? && Looks(At(w'.root, p, 0).value, c.admitted[p].fact)
    ensures Home(w'.root, p, 0).Some? && NoSidecar(SlotsAt(w'.root, p))
    ensures c.admitted[p].fact.Folder? ==>
      var leaf := SlotsAt(w.root, p).leaf;
      At(w'.root, p, 0).value.entries == if leaf.Some? && leaf.value.Dir? then leaf.value.entries else map[]
  {
    hide Refreshable, RecoverRel, RecoverySlots, At, Home;
    RebuiltSlots(c, w, p);
    LooksRecovered(c, w, w', p, o);
  }

  /* ---------- members of a hard-link group ---------- */

  /** The regular file of the group's anchor: at its leaf while that is untouched, at its displaced name
      while something was moved in the place of the file, or is about to be. */
  predicate AnchorHolds(s: Slots, fact: Fact, n: Node) {
    && Looks(n, fact)
    && if NoSidecar(s) then s.leaf == Some(n)
       else
         && s.displaced == Some(n) && (s.leaf.Some? <==> s.prepared.None?)
         && (s.leaf.Some? ==> !Looks(s.leaf.value, fact))
  }

  /** Recovery aims at one more link of that file. */
  lemma MemberSlots(c: Config, w: World, p: PackagePath, a: PackagePath, n: Node)
    requires Restorable(c, w, p) && c.admitted[p].anchor == Some(a) && a != p && Sound(w)
    requires PresentAt(c, a) && c.admitted[a].anchor.None? && c.admitted[a].fact == c.admitted[p].fact
    requires c.admitted[p].fact.File? && c.admitted[p].fact.kind == Regular
    requires Home(w.root, a, 0).Some? && AnchorHolds(SlotsAt(w.root, a), c.admitted[p].fact, n)
    requires Home(w.root, p, 0).Some? && NoSidecar(SlotsAt(w.root, p)) && GivesRoom(SlotsAt(w.root, p).leaf, c.admitted[p].fact)
    ensures RecoverySlots(c, w, p) == Some(Slots(Some(n), None, None))
  {
    AtHome(w.root, p, 0);
    AtHome(w.root, a, 0);
    AdmitMeans(w.root, p, c.admitted[p]);
    AdmitMeans(w.root, a, c.admitted[a]);
    SameFile(w, p, a, n);
    hide Admit, At, Home;
  }

  /** A member is rebuilt as one more link of that file. */
  lemma MemberRebuilds(c: Config, w: World, w': World, p: PackagePath, a: PackagePath, n: Node, o: Outcome)
    requires Restorable(c, w, p) && c.admitted[p].anchor == Some(a) && a != p && Sound(w)
    requires PresentAt(c, a) && c.admitted[a].anchor.None? && c.admitted[a].fact == c.admitted[p].fact
    requires c.admitted[p].fact.File? && c.admitted[p].fact.kind == Regular
    requires Home(w.root, a, 0).Some? && AnchorHolds(SlotsAt(w.root, a), c.admitted[p].fact, n)
    requires Home(w.root, p, 0).Some? && NoSidecar(SlotsAt(w.root, p)) && GivesRoom(SlotsAt(w.root, p).leaf, c.admitted[p].fact)
    requires Refreshable(c, w.effects, w.root, p) && RecoverRel(c, w, w', p, o, false)
    ensures o == Completed && At(w'.root, p, 0) == Some(n)
    ensures Home(w'.root, p, 0).Some? && NoSidecar(SlotsAt(w'.root, p))
  {
    MemberSlots(c, w, p, a, n);
    hide Settled, Framed, Refreshable, Guarded, RecoverRefusal, Misrecorded, RecoverySlots, RecoverSpan, Admit;
    var t, r := RecoverySlots(c, w, p).value, AfterRecovery(c, w, p);
    ReplaceSettled(w.root, p, 0, t, Home(w.root, p, 0).value.meta.mtime);
    SettledIsFramed(map[], w.root, r, p, 0);
    AtHome(r, p, 0);
    AnchorUntouched(w.root, r, p, a, c.admitted[p].fact, n);
    AdmitMeans(r, p, c.admitted[p]);
    assert RecoverCompleted(c, w, w', p);
    AtHome(w'.root, p, 0);
  }

  /** A leaf that is a link of the anchor's file is that file. */
  lemma SameFile(w: World, p: PackagePath, a: PackagePath, n: Node)
    requires Sound(w) && Home(w.root, p, 0).Some? && Home(w.root, a, 0).Some?
    requires n.Leaf? && Some(n) in {SlotsAt(w.root, a).leaf, SlotsAt(w.root, a).displaced}
    ensures var x := SlotsAt(w.root, p).leaf; x.Some? && x.value.Leaf? && x.value.ino == n.ino ==> x.value == n
  {
    var files :| Numbered(w.root, w.next, files);
    NumberedAt(w.root, p, 0, w.next, files);
    NumberedAt(w.root, a, 0, w.next, files);
  }

  /** Putting an object in the place of nothing, a file or an empty directory leaves the anchor's file. */
  lemma AnchorUntouched(x: Node, y: Node, p: PackagePath, a: PackagePath, fact: Fact, n: Node)
    requires Framed(x, y, p, 0) && Home(x, p, 0).Some? && Home(x, a, 0).Some? && a != p
    requires fact.File? && AnchorHolds(SlotsAt(x, a), fact, n)
    requires SlotsAt(x, p).leaf.Some? && SlotsAt(x, p).leaf.value.Dir? ==> SlotsAt(x, p).leaf.value.entries == map[]
    ensures Home(y, a, 0).Some? && !AllTaken(SlotsAt(y, a))
    ensures var s := SlotsAt(y, a); (if s.displaced.Some? then s.displaced else s.leaf) == Some(n)
  {
    if p <= a {
      HomeThrough(x, p, a, 0);
    } else if a <= p {
      HomeThrough(x, a, p, 0);
      FramedSlotsAbove(x, y, p, a, 0);
    } else {
      Beside(x, y, a, p);
    }
  }

  /* ---------- removed, discarded, and made again ---------- */

  lemma StillFit(c: Config, l: Ledger, m: Ledger, a: Node, b: Node, p: PackagePath)
    requires Refreshable(c, l, a, p) && Settled(Goals(c, m), a, b, p, 0) && SameAbove(l, m, p)
    ensures Refreshable(c, m, b, p)
  {
    forall k | 0 < k < |p|
      ensures AncestorRefreshable(c, m, At(b, p[..k], 0), p[..k])
    {
      assert AncestorRefreshable(c, l, At(a, p[..k], 0), p[..k]);
      SettledAbove(Goals(c, m), a, b, p, k, 0);
    }
  }

  lemma StillSound(w: World, v: World, p: PackagePath)
    requires Sound(w) && v.next == w.next && Framed(w.root, v.root, p, 0)
    requires Home(w.root, p, 0).Some? && Home(v.root, p, 0).Some?
    requires SlotsAt(v.root, p) == Slots(None, None, None)
    ensures Sound(v)
  {
    var files :| Numbered(w.root, w.next, files);
    NumberedFramed(w.root, v.root, p, 0, w.next, files);
  }

  /** A captured object that was removed, and whose recovery material was discarded, still comes back as
      it was observed. */
  lemma DiscardedComesBack(c: Config, w: World, w1: World, w2: World, w3: World, p: PackagePath, o: Outcome, faulted: bool)
    requires RemoveCompleted(c, w, w1, p) && Sound(w) && Refreshable(c, w.effects, w.root, p)
    requires p in c.captures && c.captures[p] && c.admitted[p].anchor.None? && CanBuild(c.admitted[p].fact)
    requires DiscardRel(c, w1, w2, p, Completed, faulted) && RecoverRel(c, w2, w3, p, o, false)
    ensures o == Completed && At(w3.root, p, 0).Some? && Looks(At(w3.root, p, 0).value, c.admitted[p].fact)
  {
    hide RecoverRel, Recovers, RecoverySlots, Guarded;
    StepLedger(c, w, w1, p, false);
    RetainedAbove(w.effects, p, false);
    StillFit(c, w.effects, w1.effects, w.root, w1.root, p);
    ActivatedAfter(w.effects, p, false, p);
    CompletedDiscard(c, w1, w2, p, faulted);
    StillFit(c, w1.effects, w2.effects, w1.root, w2.root, p);
    SettledIsFramed(Goals(c, w1.effects), w.root, w1.root, p, 0);
    SettledIsFramed(Goals(c, w2.effects), w1.root, w2.root, p, 0);
    StepSound(c, w, w1, p, false);
    StillSound(w1, w2, p);
    var i :| 0 <= i < |w2.effects| && w2.effects[i].path == p;
    CaptureRebuilds(c, w2, w3, p, o);
  }

  lemma CompletedDiscard(c: Config, w1: World, w2: World, p: PackagePath, faulted: bool)
    requires DiscardRel(c, w1, w2, p, Completed, faulted) && Home(w1.root, p, 0).Some?
    requires SlotsAt(w1.root, p).displaced.Some? && SlotsAt(w1.root, p).leaf.None? && SlotsAt(w1.root, p).prepared.None?
    ensures w2.effects == w1.effects && w2.next == w1.next && Settled(Goals(c, w2.effects), w1.root, w2.root, p, 0)
    ensures Home(w2.root, p, 0).Some? && SlotsAt(w2.root, p) == Slots(None, None, None)
  {
    ClearedByDiscard(c, w1, w2, p, faulted);
  }

  /* ---------- inode numbers after a recovery ---------- */

  /** What recovery puts at the three names is old, new, or one more link of an old file. */
  lemma RecoveredNumbered(c: Config, w: World, p: PackagePath, files: map<nat, Node>)
    requires RecoverySlots(c, w, p).Some? && Numbered(w.root, w.next + 1, files)
    requires c.admitted[p].Present? && EntryOf(c.admitted[p].fact).Some? ==>
      var x := Finished(EntryOf(c.admitted[p].fact).value, w.next); x.Leaf? ==> w.next in files && files[w.next] == x
    ensures SlotsNumbered(RecoverySlots(c, w, p).value, w.next + 1, files)
  {
    hide Home, At, Matches, Admit;
    var s := SlotsAt(w.root, p);
    NumberedAt(w.root, p, 0, w.next + 1, files);
    if c.admitted[p].Present? {
      if c.admitted[p].anchor.Some? {
        NumberedAt(w.root, c.admitted[p].anchor.value, 0, w.next + 1, files);
      }
      if s.leaf.Some? && s.leaf.value.Dir? {
        MetaNumbered(s.leaf.value, c.admitted[p].fact.meta, w.next + 1, files);
      }
    }
  }

  /** A completed recovery keeps inode numbers below the next new one, and links of one inode the same file. */
  lemma RecoverSound(c: Config, w: World, w': World, p: PackagePath, faulted: bool)
    requires Sound(w) && RecoverRel(c, w, w', p, Completed, faulted)
    ensures Sound(w')
  {
    hide Settled, Framed, RecoverySlots, RecoverSpan, RecoverRefusal, Numbered, Refreshable, Misrecorded, Admit;
    var files :| Numbered(w.root, w.next, files);
    var o := c.admitted[p];
    var x := if o.Present? && EntryOf(o.fact).Some? then Finished(EntryOf(o.fact).value, w.next) else w.root;
    NumberedMore(w.root, w.next, files, x);
    RecoveredNumbered(c, w, p, files[w.next := x]);
    SettledIsFramed(Goals(c, w.effects), w.root, w'.root, p, 0);
    NumberedFramed(w.root, w'.root, p, 0, w'.next, files[w.next := x]);
  }
}
