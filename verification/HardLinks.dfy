/** Recovering the anchor and a member of an old hard-link group. */
module HardLinks {
  import opened Tree
  import opened Workspace
  import opened Namespace
  import opened Undo
  import opened RunCleanup
  import opened ActiveNamespaces

  /** The admitted regular file of the path stands at its displaced name and nothing blocks its way back. */
  ghost predicate OldAside(c: Config, v: World, p: PackagePath) {
    && PresentAt(c, p) && Home(v.root, p, 0).Some?
    && var s := SlotsAt(v.root, p);
       && Inspect(s) in {DisplacedOld, RemovedWithDisplacedOld, PublishedWithDisplacedOld}
       && Removable(s.leaf) && Removable(s.prepared)
       && RegularFile(s.displaced) && FactOf(s.displaced.value) == c.admitted[p].fact
  }

  /** Anchor and member are both displaced; they are links of one old file. */
  ghost predicate GroupAside(c: Config, v: World, anchor: PackagePath, member: PackagePath) {
    && anchor != member && OldAside(c, v, anchor) && OldAside(c, v, member)
    && c.admitted[anchor].anchor.None? && c.admitted[member].anchor == Some(anchor)
    && SlotsAt(v.root, anchor).displaced.value.ino == SlotsAt(v.root, member).displaced.value.ino
  }

  lemma Apart(c: Config, v: World, p: PackagePath, q: PackagePath)
    requires OldAside(c, v, p) && OldAside(c, v, q) && p != q
    ensures !(p <= q)
  {
    if p <= q {
      HomeThrough(v.root, p, q, 0);
    }
  }

  /** The names of one path while those of another change. */
  lemma Beside(a: Node, b: Node, p: PackagePath, q: PackagePath)
    requires Framed(a, b, q, 0) && !(q <= p) && !(p <= q) && Home(a, p, 0).Some?
    ensures Home(b, p, 0).Some? && SlotsAt(b, p) == SlotsAt(a, p)
  {
    FramedSlotsBeside(a, b, q, p, 0);
    var k := Diverge(q, p);
    FramedElsewhere(a, b, q, p, k, 0);
    AtHome(a, p, 0);
    AtHome(b, p, 0);
  }

  /** Recovering the anchor, whatever has become of the member. */
  lemma AnchorRecovers(c: Config, v: World, v': World, anchor: PackagePath, member: PackagePath, o: Outcome)
    requires OldAside(c, v, anchor) && c.admitted[anchor].anchor.None?
    requires !(member <= anchor) && !(anchor <= member) && Home(v.root, member, 0).Some?
    requires RecoverRel(c, v, v', anchor, o, false) && Refreshable(c, v.effects, v.root, anchor)
    ensures o == Completed && Admit(v'.root, anchor, c.admitted[anchor]) == Yes
    ensures Home(v'.root, anchor, 0).Some? && SlotsAt(v'.root, anchor) == Slots(SlotsAt(v.root, anchor).displaced, None, None)
    ensures Home(v'.root, member, 0).Some? && SlotsAt(v'.root, member) == SlotsAt(v.root, member)
  {
    var s := SlotsAt(v.root, anchor);
    var r := AfterRecovery(c, v, anchor);
    ReplaceSettled(v.root, anchor, 0, Slots(s.displaced, None, None), Home(v.root, anchor, 0).value.meta.mtime);
    AtHome(r, anchor, 0);
    assert Recovers(c, v, anchor);
    Beside(v.root, v'.root, member, anchor);
  }

  /** Recovering the member while the anchor is still displaced, or once it is back. */
  lemma MemberRecovers(c: Config, v: World, v': World, anchor: PackagePath, member: PackagePath, o: Outcome)
    requires OldAside(c, v, member) && c.admitted[member].anchor == Some(anchor) && anchor != member
    requires Home(v.root, anchor, 0).Some? && Inspect(SlotsAt(v.root, anchor)) != Contradictory
    requires RegularFile(AnchorObject(SlotsAt(v.root, anchor)))
    requires AnchorObject(SlotsAt(v.root, anchor)).value.ino == SlotsAt(v.root, member).displaced.value.ino
    requires !(member <= anchor) && !(anchor <= member)
    requires RecoverRel(c, v, v', member, o, false) && Refreshable(c, v.effects, v.root, member)
    ensures o == Completed && Admit(v'.root, member, c.admitted[member]) == Yes
    ensures Home(v'.root, member, 0).Some? && SlotsAt(v'.root, member) == Slots(SlotsAt(v.root, member).displaced, None, None)
    ensures Home(v'.root, anchor, 0).Some? && SlotsAt(v'.root, anchor) == SlotsAt(v.root, anchor)
  {
    var s := SlotsAt(v.root, member);
    var r := AfterRecovery(c, v, member);
    ReplaceSettled(v.root, member, 0, Slots(s.displaced, None, None), Home(v.root, member, 0).value.meta.mtime);
    SettledIsFramed(map[], v.root, r, member, 0);
    AtHome(r, member, 0);
    Beside(v.root, r, anchor, member);
    assert Recovers(c, v, member);
    Beside(v.root, v'.root, anchor, member);
  }

  /** A completed recovery of one path leaves the directories above another fit to be refreshed. */
  lemma StillRefreshable(c: Config, v: World, v1: World, first: PackagePath, second: PackagePath)
    requires first in c.admitted && Home(v.root, first, 0).Some? && Home(v1.root, first, 0).Some?
    requires RecoverCompleted(c, v, v1, first) && v1.effects == v.effects
    requires !(first <= second) && !(second <= first) && Refreshable(c, v.effects, v.root, second)
    ensures Refreshable(c, v1.effects, v1.root, second)
  {
    SettledIsFramed(Goals(c, v.effects), v.root, v1.root, first, 0);
    forall k | 0 < k < |second|
      ensures AncestorRefreshable(c, v1.effects, At(v1.root, second[..k], 0), second[..k])
    {
      var q := second[..k];
      assert AncestorRefreshable(c, v.effects, At(v.root, q, 0), q);
      if q <= first {
        assert q == first[..k];
        SettledAbove(Goals(c, v.effects), v.root, v1.root, first, k, 0);
      } else {
        assert first <= q ==> first <= second;
        var j := Diverge(first, q);
        FramedElsewhere(v.root, v1.root, first, q, j, 0);
      }
    }
  }

  /** In either order both recoveries complete, each own admission check succeeding on the way,
      and both names end as links of the one old inode without any sidecar. */
  lemma GroupRecovers(c: Config, v: World, v1: World, v2: World, anchor: PackagePath, member: PackagePath,
                      anchorFirst: bool, o1: Outcome, o2: Outcome)
    requires GroupAside(c, v, anchor, member)
    requires var first, second := if anchorFirst then anchor else member, if anchorFirst then member else anchor;
      RecoverRel(c, v, v1, first, o1, false) && RecoverRel(c, v1, v2, second, o2, false)
    requires Refreshable(c, v.effects, v.root, anchor) && Refreshable(c, v.effects, v.root, member)
    ensures o1 == Completed && o2 == Completed
    ensures Home(v2.root, anchor, 0).Some? && Home(v2.root, member, 0).Some?
    ensures SlotsAt(v2.root, anchor) == Slots(SlotsAt(v.root, anchor).displaced, None, None)
    ensures SlotsAt(v2.root, member) == Slots(SlotsAt(v.root, member).displaced, None, None)
    ensures SlotsAt(v2.root, anchor).leaf.value.ino == SlotsAt(v2.root, member).leaf.value.ino
    ensures Admit(v1.root, if anchorFirst then anchor else member, c.admitted[if anchorFirst then anchor else member]) == Yes
    ensures Admit(v2.root, anchor, c.admitted[anchor]) == Yes && Admit(v2.root, member, c.admitted[member]) == Yes
  {
    hide RecoverySlots, Settled, Framed, Recovers, Refreshable;
    Apart(c, v, anchor, member);
    Apart(c, v, member, anchor);
    AtHome(v2.root, anchor, 0);
    AtHome(v2.root, member, 0);
    if anchorFirst {
      AnchorRecovers(c, v, v1, anchor, member, o1);
      StillRefreshable(c, v, v1, anchor, member);
      MemberRecovers(c, v1, v2, anchor, member, o2);
    } else {
      MemberRecovers(c, v, v1, anchor, member, o1);
      StillRefreshable(c, v, v1, member, anchor);
      AnchorRecovers(c, v1, v2, anchor, member, o2);
    }
  }

  /** The operation on a captured regular file moves it aside. */
  lemma StepMovesAside(c: Config, w: World, w': World, p: PackagePath, incoming: bool)
    requires WellFormed(c) && Step(c, w, w', p, incoming) && Recoverable(c, p)
    requires PresentAt(c, p) && c.admitted[p].fact.File? && c.admitted[p].fact.kind == Regular
    ensures OldAside(c, w', p) && SlotsAt(w'.root, p).displaced == SlotsAt(w.root, p).leaf
  {
    AtHome(w.root, p, 0);
    AdmittedLeaf(c, w, p);
  }

  /** Operating on anchor and member one after the other, in either order, sets the stage. */
  lemma GroupMovesAside(c: Config, w: World, w1: World, w2: World, anchor: PackagePath, member: PackagePath,
                        anchorFirst: bool, i1: bool, i2: bool)
    requires WellFormed(c) && anchor != member && Recoverable(c, anchor) && Recoverable(c, member)
    requires PresentAt(c, anchor) && c.admitted[anchor].fact.File? && c.admitted[anchor].fact.kind == Regular
    requires PresentAt(c, member) && c.admitted[anchor].anchor.None? && c.admitted[member].anchor == Some(anchor)
    requires var first, second := if anchorFirst then anchor else member, if anchorFirst then member else anchor;
      Step(c, w, w1, first, i1) && Step(c, w1, w2, second, i2)
    ensures GroupAside(c, w2, anchor, member)
  {
    hide Settled, Step;
    var first, second := if anchorFirst then anchor else member, if anchorFirst then member else anchor;
    StepMovesAside(c, w, w1, first, i1);
    StepMovesAside(c, w1, w2, second, i2);
    StepLedger(c, w1, w2, second, i2);
    SettledIsFramed(Goals(c, w2.effects), w1.root, w2.root, second, 0);
    AtHome(w1.root, second, 0);
    AdmittedLeaf(c, w1, second);
    if first <= second {
      HomeThrough(w1.root, first, second, 0);
    }
    if second <= first {
      HomeThrough(w1.root, second, first, 0);
    }
    Beside(w1.root, w2.root, first, second);
    if !anchorFirst {
      AtHome(w.root, member, 0);
      AnchorKeepsInode(c, w, w1, anchor, member, i1);
    }
  }

  /** While the member is moved aside its anchor keeps the inode the member was admitted with. */
  lemma AnchorKeepsInode(c: Config, w: World, w1: World, anchor: PackagePath, member: PackagePath, incoming: bool)
    requires Step(c, w, w1, member, incoming) && PresentAt(c, member) && c.admitted[member].anchor == Some(anchor)
    requires !(member <= anchor) && !(anchor <= member) && Home(w1.root, anchor, 0).Some?
    requires Inspect(SlotsAt(w1.root, anchor)) == Clear && SlotsAt(w1.root, anchor).leaf.Some?
    ensures SlotsAt(w.root, member).leaf.Some?
    ensures SlotsAt(w1.root, anchor).leaf.value.ino == SlotsAt(w.root, member).leaf.value.ino
  {
    StepLedger(c, w, w1, member, incoming);
    SettledIsFramed(Goals(c, w1.effects), w.root, w1.root, member, 0);
    FramedSlotsBeside(w.root, w1.root, member, anchor, 0);
    Beside(w.root, w1.root, anchor, member);
    AtHome(w.root, member, 0);
  }
}
