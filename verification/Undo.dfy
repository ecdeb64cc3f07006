/** Recovery undoes completed operations, one after the other. */
module Undo {
  import opened Tree
  import opened Workspace
  import opened Namespace
  import opened Guard
  import opened Erasure

  /* ---------- what every completed operation keeps ---------- */

  /** One completed operation: a publication or a removal. */
  ghost predicate Step(c: Config, w: World, w': World, p: PackagePath, incoming: bool) {
    if incoming then PublishCompleted(c, w, w', p) else RemoveCompleted(c, w, w', p)
  }

  /** Only regular files are admitted as members of a hard-link group, only present objects are captured,
      and the image passed its own validation. */
  ghost predicate WellFormed(c: Config) {
    && (forall q :: PresentAt(c, q) && c.admitted[q].anchor.Some? ==>
          c.admitted[q].fact.File? && c.admitted[q].fact.kind == Regular)
    && (forall q :: q in c.captures ==> PresentAt(c, q))
    && GroupedImage(c.image)
  }

  /** Every admitted directory in place carries exactly the metadata its refresh would restore. */
  ghost predicate Steady(c: Config, w: World) {
    forall q: PackagePath :: q in c.admitted && At(w.root, q, 0).Some? && At(w.root, q, 0).value.Dir? ==>
      GoalOf(c, w.effects, q) == Some(At(w.root, q, 0).value.meta)
  }

  lemma StepLedger(c: Config, w: World, w': World, p: PackagePath, incoming: bool)
    requires Step(c, w, w', p, incoming)
    ensures w'.effects == Complete(Retain(w.effects, p, incoming), p) && !Contradicts(w.effects, p, incoming)
    ensures forall q: PackagePath :: q != p ==> GoalOf(c, w'.effects, q) == GoalOf(c, w.effects, q)
    ensures incoming ==> Activated(w'.effects, p)
    ensures Settled(Goals(c, w'.effects), w.root, w'.root, p, 0)
    ensures Admissible(c, w, p)
  {
    forall q: PackagePath | q != p
      ensures GoalOf(c, w'.effects, q) == GoalOf(c, w.effects, q)
    {
      ActivatedAfter(w.effects, p, incoming, q);
    }
    ActivatedAfter(w.effects, p, incoming, p);
  }

  /** Where a completed operation leaves the object of any other path. */
  lemma StepElsewhere(c: Config, w: World, w': World, p: PackagePath, incoming: bool, q: PackagePath)
    requires Step(c, w, w', p, incoming) && q != p && !Ancestor(q, p)
    ensures At(w'.root, q, 0) == At(w.root, q, 0) || (Ancestor(p, q) && At(w'.root, q, 0).None?)
  {
    StepLedger(c, w, w', p, incoming);
    SettledIsFramed(Goals(c, w'.effects), w.root, w'.root, p, 0);
    if p <= q {
      AtThrough(w.root, p, q, 0);
      AtThrough(w'.root, p, q, 0);
      AtHome(w.root, p, 0);
      AtHome(w'.root, p, 0);
      assert |p| < |q|;
    } else {
      assert q <= p ==> |q| < |p| || q == p;
      var k := Diverge(p, q);
      FramedElsewhere(w.root, w'.root, p, q, k, 0);
    }
  }

  /** Self-inflicted time drift never survives a completed operation. */
  lemma SteadyStep(c: Config, w: World, w': World, p: PackagePath, incoming: bool)
    requires WellFormed(c) && Steady(c, w) && Step(c, w, w', p, incoming)
    ensures Steady(c, w')
  {
    StepLedger(c, w, w', p, incoming);
    forall q: PackagePath | q in c.admitted && At(w'.root, q, 0).Some? && At(w'.root, q, 0).value.Dir?
      ensures GoalOf(c, w'.effects, q) == Some(At(w'.root, q, 0).value.meta)
    {
      if q == p {
        AtHome(w.root, p, 0);
        AtHome(w'.root, p, 0);
      } else if Ancestor(q, p) {
        SettledAbove(Goals(c, w'.effects), w.root, w'.root, p, |q|, 0);
        assert q == p[..|q|];
        assert q in Goals(c, w'.effects);
      } else {
        StepElsewhere(c, w, w', p, incoming, q);
      }
    }
  }

  /* ---------- one recovery undoes one operation ---------- */

  /** An old object at the path is held by a capture that can restore it exactly. */
  predicate Recoverable(c: Config, p: PackagePath) {
    PresentAt(c, p) ==> p in c.captures && c.captures[p]
  }

  /** A new hard link of an absent path joins an anchor that already carries the incoming metadata. */
  predicate Anchored(c: Config, w: World, p: PackagePath, incoming: bool) {
    var e := EntryAt(c, p);
    incoming && !PresentAt(c, p) && e.Some? && e.value.kind.HardlinkEntry? ==>
      var n := At(w.root, e.value.anchor, 0);
      n.Some? && n.value.meta == e.value.meta
  }

  /** The ledger in force during recovery says what the operation's own ledger said. */
  ghost predicate Agrees(c: Config, w: World, l: Ledger, p: PackagePath, incoming: bool) {
    && Distinct(l)
    && (forall i :: 0 <= i < |l| ==> l[i].path in c.admitted)
    && Effect(p, incoming, true) in l
    && (forall k :: 0 < k < |p| ==> GoalOf(c, l, p[..k]) == GoalOf(c, w.effects, p[..k]))
  }

  lemma AgreesAt(l: Ledger, p: PackagePath, incoming: bool)
    requires Distinct(l) && Effect(p, incoming, true) in l
    ensures Mentions(l, p) && !Contradicts(l, p, incoming)
  {
    var i :| 0 <= i < |l| && l[i] == Effect(p, incoming, true);
    forall j | 0 <= j < |l| && l[j].path == p
      ensures j == i
    {
    }
  }

  lemma SteadyAbove(c: Config, w: World, l: Ledger, p: PackagePath, incoming: bool, k: nat)
    requires WellFormed(c) && Steady(c, w) && Agrees(c, w, l, p, incoming) && k < |p|
    requires Home(w.root, p, 0).Some?
    ensures At(w.root, p[..k], 0).Some? && At(w.root, p[..k], 0).value.Dir?
    ensures p[..k] in c.admitted.Keys ==>
      && p[..k] in Goals(c, l) && Goals(c, l)[p[..k]] == At(w.root, p[..k], 0).value.meta
      && GoalOf(c, w.effects, p[..k]) == Some(At(w.root, p[..k], 0).value.meta)
  {
    SameRoot(w.root, p, 0);
    FramedAbove(w.root, w.root, p, k, 0);
    if k == 0 {
      assert p[..k] == [];
    }
  }

  lemma FramedAbove(a: Node, b: Node, p: Path, k: nat, i: nat)
    requires i <= k < |p| && Framed(a, b, p, i)
    ensures At(a, p[..k], i).Some? && At(a, p[..k], i).value.Dir?
    ensures At(b, p[..k], i).Some? && At(b, p[..k], i).value.Dir?
    ensures At(a, p[..k], i).value.ino == At(b, p[..k], i).value.ino
    decreases |p| - i
  {
    if i < k {
      FramedAbove(a.entries[Plain(p[i])], b.entries[Plain(p[i])], p, k, i + 1);
    }
  }

  /** The three shapes of a completed operation on a path whose old object is recoverable. */
  datatype Shape = MovedAside | UpdatedInPlace | FromNothing

  ghost predicate Shaped(c: Config, w: World, w': World, p: PackagePath, incoming: bool, shape: Shape)
    requires Home(w.root, p, 0).Some? && Home(w'.root, p, 0).Some?
  {
    var s, s' := SlotsAt(w.root, p), SlotsAt(w'.root, p);
    && s.prepared.None? && s.displaced.None? && s'.prepared.None?
    && match shape
       case MovedAside =>
         PresentAt(c, p) && s.leaf.Some? && s'.displaced == s.leaf && Removable(s'.leaf)
       case UpdatedInPlace =>
         && incoming && PresentAt(c, p) && c.admitted[p].fact.Folder? && s.leaf.Some? && s.leaf.value.Dir?
         && c.admitted[p].fact.meta == s.leaf.value.meta
         && s'.leaf.Some? && s'.displaced.None?
         && s'.leaf.value == WithMeta(s.leaf.value, s'.leaf.value.meta)
       case FromNothing =>
         incoming && p in c.admitted && c.admitted[p] == Absent && s.leaf.None? && s'.leaf.Some? && s'.displaced.None? && Removable(s'.leaf)
  }

  lemma StepShape(c: Config, w: World, w': World, p: PackagePath, incoming: bool) returns (shape: Shape)
    requires WellFormed(c) && Step(c, w, w', p, incoming) && Recoverable(c, p)
    ensures Shaped(c, w, w', p, incoming, shape)
  {
    var s := SlotsAt(w.root, p);
    AtHome(w.root, p, 0);
    if s.leaf.None? {
      shape := FromNothing;
    } else if incoming && UpdatesInPlace(EntryAt(c, p).value, s) {
      shape := UpdatedInPlace;
    } else {
      shape := MovedAside;
    }
  }

  /** The slots an operation started from are the slots recovery plans for. */
  lemma PlanRestores(c: Config, w: World, w': World, v: World, p: PackagePath, incoming: bool, shape: Shape)
    requires WellFormed(c) && Step(c, w, w', p, incoming) && Recoverable(c, p) && Anchored(c, w, p, incoming)
    requires Shaped(c, w, w', p, incoming, shape)
    requires Erase(w'.root, [], c.admitted.Keys) == Erase(v.root, [], c.admitted.Keys)
    requires Agrees(c, w, v.effects, p, incoming)
    ensures Home(v.root, p, 0).Some? && RecoverySlots(c, v, p).Some?
    ensures EraseSlots(RecoverySlots(c, v, p).value, p, c.admitted.Keys) == EraseSlots(SlotsAt(w.root, p), p, c.admitted.Keys)
  {
    hide Settled, Home, At, Goals, Matches;
    var tracked := c.admitted.Keys;
    SlotsErased(w'.root, v.root, p, tracked);
    var s, s', t := SlotsAt(w.root, p), SlotsAt(w'.root, p), SlotsAt(v.root, p);
    match shape
    case MovedAside =>
      EraseRemovable(s'.leaf, t.leaf, p, tracked);
      assert Inspect(t) in {RemovedWithDisplacedOld, PublishedWithDisplacedOld};
    case UpdatedInPlace =>
      AgreesAt(v.effects, p, incoming);
      AtHome(v.root, p, 0);
      UpdateUndone(s, s', t, p, tracked, c.admitted[p].fact.meta);
      AdmitFolder(c, w, v, p);
    case FromNothing =>
      AgreesAt(v.effects, p, incoming);
      AtHome(v.root, p, 0);
      EraseRemovable(s'.leaf, t.leaf, p, tracked);
      EraseMatches(w'.root, v.root, p, EntryAt(c, p).value, false, tracked);
      PublishedMatches(c, w, w', p);
  }

  lemma SlotsErased(a: Node, b: Node, p: PackagePath, tracked: set<Path>)
    requires Erase(a, [], tracked) == Erase(b, [], tracked) && Home(a, p, 0).Some?
    ensures Home(b, p, 0).Some?
    ensures EraseSlots(SlotsAt(a, p), p, tracked) == EraseSlots(SlotsAt(b, p), p, tracked)
  {
    assert p[..0] == [];
    EraseHome(a, p, 0, tracked);
    EraseHome(b, p, 0, tracked);
  }

  lemma EraseRemovable(a: Option<Node>, b: Option<Node>, p: Path, tracked: set<Path>)
    requires EraseOption(a, p, tracked) == EraseOption(b, p, tracked)
    ensures Removable(a) == Removable(b)
  {
    if a.Some? && a.value.Dir? {
      assert Erase(a.value, p, tracked).entries.Keys == a.value.entries.Keys;
      assert Erase(b.value, p, tracked).entries.Keys == b.value.entries.Keys;
      assert a.value.entries == map[] <==> a.value.entries.Keys == {};
      assert b.value.entries == map[] <==> b.value.entries.Keys == {};
    }
  }

  lemma UpdateUndone(s: Slots, s': Slots, t: Slots, p: Path, tracked: set<Path>, m: Meta)
    requires p in tracked && s.leaf.Some? && s.leaf.value.Dir? && s.leaf.value.meta == m
    requires s'.leaf.Some? && s'.leaf.value == WithMeta(s.leaf.value, s'.leaf.value.meta)
    requires EraseOption(s'.leaf, p, tracked) == EraseOption(t.leaf, p, tracked)
    ensures t.leaf.Some? && t.leaf.value.Dir?
    ensures EraseOption(Some(WithMeta(t.leaf.value, m)), p, tracked) == EraseOption(s.leaf, p, tracked)
  {
  }

  /** An admitted directory has no hard-link anchor to consult. */
  lemma AdmitFolder(c: Config, w: World, v: World, p: PackagePath)
    requires WellFormed(c) && PresentAt(c, p) && c.admitted[p].fact.Folder?
    requires Home(v.root, p, 0).Some?
    ensures var n := SlotsAt(v.root, p).leaf;
      Admit(v.root, p, c.admitted[p]) == if n.Some? && FactOf(n.value) == c.admitted[p].fact then Yes else No
  {
    AtHome(v.root, p, 0);
  }

  /** An object published where nothing was is recognised as the incoming one. */
  lemma PublishedMatches(c: Config, w: World, w': World, p: PackagePath)
    requires WellFormed(c) && PublishCompleted(c, w, w', p) && SlotsAt(w.root, p).leaf.None? && Anchored(c, w, p, true)
    requires !PresentAt(c, p)
    ensures Matches(w'.root, p, EntryAt(c, p).value, false)
  {
    var e := EntryAt(c, p).value;
    AtHome(w.root, p, 0);
    AtHome(w'.root, p, 0);
    if e.kind.HardlinkEntry? {
      AnchorStays(c, w, w', p, e);
    }
  }

  lemma AnchorStays(c: Config, w: World, w': World, p: PackagePath, e: Entry)
    requires WellFormed(c) && PublishCompleted(c, w, w', p) && EntryAt(c, p) == Some(e) && e.kind.HardlinkEntry?
    requires SlotsAt(w.root, p).leaf.None?
    ensures RegularFile(At(w.root, e.anchor, 0)) && At(w'.root, e.anchor, 0) == At(w.root, e.anchor, 0)
  {
    SettledIsFramed(Goals(c, w'.effects), w.root, w'.root, p, 0);
    AtHome(w.root, p, 0);
    FileStays(w.root, w'.root, p, e.anchor);
  }

  /** A change at a path where nothing was touches no file. */
  lemma FileStays(a: Node, b: Node, p: PackagePath, q: Path)
    requires Framed(a, b, p, 0) && At(a, p, 0).None? && RegularFile(At(a, q, 0))
    ensures At(b, q, 0) == At(a, q, 0)
  {
    if q <= p {
      assert |q| < |p| by { assert q != p; }
      if |q| < |p| {
        assert q == p[..|q|];
        FramedAbove(a, b, p, |q|, 0);
      }
    } else if p <= q {
      AtThrough(a, p, q, 0);
    } else {
      var k := Diverge(p, q);
      FramedElsewhere(a, b, p, q, k, 0);
    }
  }

  /** The restored target passes the admission check before its ancestors are refreshed. */
  lemma RestoredIsAdmitted(c: Config, w: World, w': World, v: World, p: PackagePath, incoming: bool)
    requires WellFormed(c) && Steady(c, w) && Step(c, w, w', p, incoming)
    requires Erase(w'.root, [], c.admitted.Keys) == Erase(v.root, [], c.admitted.Keys)
    requires Agrees(c, w, v.effects, p, incoming)
    requires Home(v.root, p, 0).Some? && RecoverySlots(c, v, p).Some?
    requires EraseSlots(RecoverySlots(c, v, p).value, p, c.admitted.Keys) == EraseSlots(SlotsAt(w.root, p), p, c.admitted.Keys)
    ensures Recovers(c, v, p)
  {
    hide Step, Settled, RecoverySlots, Admit, Admissible, Retain, Complete, Erase, EraseSlots, Steady, WellFormed;
    StepLedger(c, w, w', p, incoming);
    var t := Home(v.root, p, 0).value.meta.mtime;
    var s := RecoverySlots(c, v, p).value;
    var r := Replace(v.root, p, 0, s, t);
    ReplaceSettled(v.root, p, 0, s, t);
    var tracked, less := c.admitted.Keys, c.admitted.Keys - (set k | 0 <= k < |p| :: p[..k]);
    EraseTwice(w'.root, [], less, tracked);
    EraseTwice(v.root, [], less, tracked);
    EraseSlotsTwice(s, SlotsAt(w.root, p), p, less, tracked);
    assert p[..0] == [];
    forall k | 0 <= k < |p|
      ensures p[..k] !in less
      ensures p[..k] in Goals(c, w'.effects) ==>
        && At(w.root, p[..k], 0).Some? && At(w.root, p[..k], 0).value.Dir?
        && SameOwner(At(w.root, p[..k], 0).value.meta, Goals(c, w'.effects)[p[..k]])
    {
      SteadyAbove(c, w, v.effects, p, incoming, k);
    }
    Cancel(Goals(c, w'.effects), map[], w.root, w'.root, v.root, r, p, 0, less);
    assert p in less by {
      assert forall k :: 0 <= k < |p| ==> |p[..k]| == k;
    }
    EraseAdmit(w.root, r, p, c.admitted[p], less);
  }

  lemma EraseSlotsTwice(s: Slots, t: Slots, p: Path, less: set<Path>, tracked: set<Path>)
    requires less <= tracked && EraseSlots(s, p, tracked) == EraseSlots(t, p, tracked)
    ensures EraseSlots(s, p, less) == EraseSlots(t, p, less)
  {
    EraseOptionTwice(s.leaf, t.leaf, p, less, tracked);
    EraseOptionTwice(s.prepared, t.prepared, p, less, tracked);
    EraseOptionTwice(s.displaced, t.displaced, p, less, tracked);
  }

  lemma EraseOptionTwice(a: Option<Node>, b: Option<Node>, p: Path, less: set<Path>, tracked: set<Path>)
    requires less <= tracked && EraseOption(a, p, tracked) == EraseOption(b, p, tracked)
    ensures EraseOption(a, p, less) == EraseOption(b, p, less)
  {
    if a.Some? {
      EraseTwice(a.value, p, less, tracked);
      EraseTwice(b.value, p, less, tracked);
    }
  }

  /** No tracked directory above the path stands in the way of its refresh. */
  lemma SteadyRefreshable(c: Config, w: World, w': World, v: World, p: PackagePath, incoming: bool)
    requires WellFormed(c) && Steady(c, w) && Step(c, w, w', p, incoming)
    requires Erase(w'.root, [], c.admitted.Keys) == Erase(v.root, [], c.admitted.Keys)
    requires Agrees(c, w, v.effects, p, incoming)
    ensures Refreshable(c, v.effects, v.root, p)
  {
    StepLedger(c, w, w', p, incoming);
    var tracked := c.admitted.Keys;
    forall k | 0 < k < |p|
      ensures AncestorRefreshable(c, v.effects, At(v.root, p[..k], 0), p[..k])
    {
      var q: PackagePath := p[..k];
      SteadyAbove(c, w, v.effects, p, incoming, k);
      SettledAbove(Goals(c, w'.effects), w.root, w'.root, p, k, 0);
      assert q[..0] == [];
      EraseAt(w'.root, q, 0, tracked);
      EraseAt(v.root, q, 0, tracked);
      if q in c.admitted {
        assert q in Goals(c, w'.effects);
      }
    }
  }

  /** Recovering right after a completed operation, without a failing call, puts everything back. */
  lemma UndoStep(c: Config, w: World, w': World, v: World, v': World, p: PackagePath, incoming: bool, o: Outcome)
    requires WellFormed(c) && Steady(c, w) && Step(c, w, w', p, incoming)
    requires Recoverable(c, p) && Anchored(c, w, p, incoming)
    requires Erase(w'.root, [], c.admitted.Keys) == Erase(v.root, [], c.admitted.Keys)
    requires Agrees(c, w, v.effects, p, incoming)
    requires RecoverRel(c, v, v', p, o, false)
    ensures o == Completed && v'.effects == v.effects
    ensures Erase(v'.root, [], c.admitted.Keys) == Erase(w.root, [], c.admitted.Keys)
  {
    StepLedger(c, w, w', p, incoming);
    var shape := StepShape(c, w, w', p, incoming);
    PlanRestores(c, w, w', v, p, incoming, shape);
    RestoredIsAdmitted(c, w, w', v, p, incoming);
    SteadyRefreshable(c, w, w', v, p, incoming);
    assert RecoverCompleted(c, v, v', p);
    assert p[..0] == [];
    forall k | 0 <= k < |p|
      ensures p[..k] in c.admitted.Keys ==>
        && At(w.root, p[..k], 0).Some? && At(w.root, p[..k], 0).value.Dir?
        && p[..k] in Goals(c, v.effects) && At(w.root, p[..k], 0).value.meta == Goals(c, v.effects)[p[..k]]
    {
      SteadyAbove(c, w, v.effects, p, incoming, k);
    }
    Cancel(Goals(c, w'.effects), Goals(c, v.effects), w.root, w'.root, v.root, v'.root, p, 0, c.admitted.Keys);
  }

  /* ---------- whole runs ---------- */

  datatype Op = Op(path: PackagePath, incoming: bool)

  /** `ws[i]` is the state before the `i`-th operation; every operation completed. */
  ghost predicate Run(c: Config, ws: seq<World>, ops: seq<Op>) {
    && |ws| == |ops| + 1
    && (forall i :: 0 <= i < |ops| ==> Step(c, ws[i], ws[i + 1], ops[i].path, ops[i].incoming))
  }

  /** The attempt starts with an empty ledger on the target it admitted. */
  ghost predicate Fresh(c: Config, w: World) {
    && w.effects == []
    && forall q: PackagePath :: q in c.admitted ==> Admit(w.root, q, c.admitted[q]) == Yes
  }

  predicate DistinctPaths(ops: seq<Op>) {
    forall i, j :: 0 <= i < j < |ops| ==> ops[i].path != ops[j].path
  }

  /** A directory is activated before any work beneath it. */
  predicate ActivatedFirst(ops: seq<Op>) {
    forall i, j :: 0 <= i < j < |ops| && ops[j].incoming ==> !Ancestor(ops[j].path, ops[i].path)
  }

  /** Every path has one operation, and its old object can be restored exactly. */
  predicate Orderly(c: Config, ops: seq<Op>) {
    DistinctPaths(ops) && forall i :: 0 <= i < |ops| ==> Recoverable(c, ops[i].path)
  }

  function Record(ops: seq<Op>): Ledger {
    seq(|ops|, i requires 0 <= i < |ops| => Effect(ops[i].path, ops[i].incoming, true))
  }

  lemma {:induction false} RunLedger(c: Config, ws: seq<World>, ops: seq<Op>, k: nat)
    requires Run(c, ws, ops) && DistinctPaths(ops) && ws[0].effects == [] && k <= |ops|
    ensures ws[k].effects == Record(ops[..k])
  {
    hide Step;
    if k == 0 {
    } else {
      RunLedger(c, ws, ops, k - 1);
      var p, incoming := ops[k - 1].path, ops[k - 1].incoming;
      StepLedger(c, ws[k - 1], ws[k], p, incoming);
      var l := Record(ops[..k - 1]);
      assert !Mentions(l, p);
      assert Retain(l, p, incoming) == l + [Effect(p, incoming, false)];
    }
  }

  lemma FreshIsSteady(c: Config, w: World)
    requires Fresh(c, w)
    ensures Steady(c, w)
  {
  }

  lemma {:induction false} RunSteady(c: Config, ws: seq<World>, ops: seq<Op>, k: nat)
    requires WellFormed(c) && Run(c, ws, ops) && Steady(c, ws[0]) && k <= |ops|
    ensures Steady(c, ws[k])
  {
    if k == 0 {
    } else {
      RunSteady(c, ws, ops, k - 1);
      SteadyStep(c, ws[k - 1], ws[k], ops[k - 1].path, ops[k - 1].incoming);
    }
  }

  /** Whatever a run did beneath an admitted directory, the attempt still recognises it: as the
      directory it admitted or, once activated, as the incoming one down to its time. */
  lemma DriftNeverBlocks(c: Config, ws: seq<World>, ops: seq<Op>, k: nat, q: PackagePath)
    requires WellFormed(c) && Run(c, ws, ops) && Fresh(c, ws[0]) && k <= |ops|
    requires q in c.admitted && At(ws[k].root, q, 0).Some? && At(ws[k].root, q, 0).value.Dir?
    ensures !Activated(ws[k].effects, q) ==> Admit(ws[k].root, q, c.admitted[q]) == Yes
    ensures Activated(ws[k].effects, q) ==> EntryAt(c, q).Some? && Matches(ws[k].root, q, EntryAt(c, q).value, false)
  {
    FreshIsSteady(c, ws[0]);
    RunSteady(c, ws, ops, k);
    assert GoalOf(c, ws[k].effects, q) == Some(At(ws[k].root, q, 0).value.meta);
  }

  /** The final ledger says about the directories above the `k`-th path what its own did. */
  lemma RunAgrees(c: Config, ws: seq<World>, ops: seq<Op>, k: nat)
    requires Run(c, ws, ops) && DistinctPaths(ops) && ActivatedFirst(ops) && ws[0].effects == [] && k < |ops|
    ensures Agrees(c, ws[k], Record(ops), ops[k].path, ops[k].incoming)
  {
    RunLedger(c, ws, ops, k);
    var l, p := Record(ops), ops[k].path;
    assert l[k] == Effect(p, ops[k].incoming, true);
    forall i | 0 <= i < |l|
      ensures l[i].path in c.admitted
    {
      StepLedger(c, ws[i], ws[i + 1], ops[i].path, ops[i].incoming);
    }
    forall d | 0 < d < |p|
      ensures GoalOf(c, l, p[..d]) == GoalOf(c, ws[k].effects, p[..d])
    {
      var q: PackagePath := p[..d];
      assert Ancestor(q, p);
      assert Activated(l, q) <==> Activated(ws[k].effects, q) by {
        if Activated(l, q) {
          var j :| 0 <= j < |l| && l[j] == Effect(q, true, true);
          assert j < k;
          assert ws[k].effects[j] == l[j];
        }
        if Activated(ws[k].effects, q) {
          var j :| 0 <= j < k && ws[k].effects[j] == Effect(q, true, true);
          assert l[j] == ws[k].effects[j];
        }
      }
    }
  }

  /** `vs[i]` is the state once the operations from the `i`-th on have been recovered, last first. */
  ghost predicate Rollback(c: Config, vs: seq<World>, ops: seq<Op>, os: seq<Outcome>) {
    && |vs| == |ops| + 1 && |os| == |ops|
    && (forall i :: 0 <= i < |ops| ==> RecoverRel(c, vs[i + 1], vs[i], ops[i].path, os[i], false))
  }

  /** The recoveries reach the targets of the run again, one after the other, from any target that
      equals the last one and with any ledger that says of every path what the run's own said. */
  lemma {:induction false} RollbackTo(c: Config, ws: seq<World>, ops: seq<Op>, vs: seq<World>, os: seq<Outcome>, k: nat)
    requires WellFormed(c) && Run(c, ws, ops) && Orderly(c, ops) && Fresh(c, ws[0])
    requires forall i :: 0 <= i < |ops| ==> Anchored(c, ws[i], ops[i].path, ops[i].incoming)
    requires Rollback(c, vs, ops, os) && k <= |ops|
    requires Erase(vs[|ops|].root, [], c.admitted.Keys) == Erase(ws[|ops|].root, [], c.admitted.Keys)
    requires forall i :: 0 <= i < |ops| ==> Agrees(c, ws[i], vs[|ops|].effects, ops[i].path, ops[i].incoming)
    ensures forall i :: k <= i < |ops| ==> os[i] == Completed
    ensures vs[k].effects == vs[|ops|].effects
    ensures Erase(vs[k].root, [], c.admitted.Keys) == Erase(ws[k].root, [], c.admitted.Keys)
    decreases |ops| - k
  {
    hide Step, Erase, Agrees, Anchored, Recoverable;
    if k < |ops| {
      RollbackTo(c, ws, ops, vs, os, k + 1);
      FreshIsSteady(c, ws[0]);
      RunSteady(c, ws, ops, k);
      UndoStep(c, ws[k], ws[k + 1], vs[k + 1], vs[k], ops[k].path, ops[k].incoming, os[k]);
    }
  }

  /** No reserved name anywhere. */
  predicate Bare(n: Node) {
    n.Dir? ==> forall x | x in n.entries :: x.Plain? && Bare(n.entries[x])
  }

  lemma {:induction false} EraseBare(n: Node, at: Path, tracked: set<Path>)
    ensures Bare(Erase(n, at, tracked)) == Bare(n)
  {
    if n.Leaf? {
    } else {
      var m := Erase(n, at, tracked);
      forall x | x in n.entries
        ensures Bare(m.entries[x]) == Bare(n.entries[x])
      {
        EraseBare(n.entries[x], PathOf(at, x), tracked);
      }
    }
  }
}
