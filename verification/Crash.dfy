/** What a crash, or a failing call, at any point of an operation leaves behind. */
module Crash {
  import opened Tree
  import opened Workspace
  import opened Namespace
  import opened Drift
  import opened Guard
  import opened Undo

  /* ---------- convergence ---------- */

  /** `t` still holds the object that stood at the leaf of `s`, and everything in its way is removable. */
  ghost predicate Convergent(s: Slots, t: Slots) {
    || (Untouched(s, t) && Removable(t.prepared))
    || (s.leaf.Some? && t.displaced == s.leaf && Removable(t.leaf) && Removable(t.prepared)
        && (t.leaf.None? || t.prepared.None?))
  }

  /** A publication that moves its old object aside, or never gets that far, can be recovered from. */
  lemma PublishConverges(c: Config, w: World, p: PackagePath, t: Slots)
    requires PublishStarts(c, w, p) && PublishSpan(c, w, p, t)
    requires var e, s := EntryAt(c, p).value, SlotsAt(w.root, p); !UpdatesInPlace(e, s) && MovesAside(c, p, e, s)
    ensures Convergent(SlotsAt(w.root, p), t)
  {
  }

  lemma RemoveConverges(c: Config, w: World, p: PackagePath, t: Slots)
    requires Home(w.root, p, 0).Some? && SlotsAt(w.root, p).leaf.Some? && Inspect(SlotsAt(w.root, p)) == Clear
    requires p in c.captures && RemoveSpan(c, w, p, t)
    ensures Convergent(SlotsAt(w.root, p), t)
  {
  }

  /** A completed publication leaves its prepared name behind exactly when it linked the anchor's file
      over a leaf that is that very file: the rename of two links of one file does nothing. */
  lemma PreparedLeftIff(c: Config, w: World, w': World, p: PackagePath)
    requires PublishCompleted(c, w, w', p)
    ensures var e, s := EntryAt(c, p).value, SlotsAt(w.root, p);
      SlotsAt(w'.root, p).prepared.Some? <==>
        !UpdatesInPlace(e, s) && !MovesAside(c, p, e, s) && s.leaf.Some? && s.leaf.value.ino == Incoming(w, e).value.ino
  {
    var e, s := EntryAt(c, p).value, SlotsAt(w.root, p);
    assert Publishes(c, w, p) && (UpdatesInPlace(e, s) || Incoming(w, e).Some?);
  }

  /** An uncaptured file that already is a link of its anchor, published as that very hard link: the
      publication completes and the prepared name stays. */
  lemma PreparedStays() returns (c: Config, w: World, w': World, p: PackagePath)
    ensures GroupedImage(c.image) && PublishCompleted(c, w, w', p) && SlotsAt(w'.root, p).prepared.Some?
  {
    p := ["a"];
    var anchor: PackagePath := ["b"];
    var meta := Meta(420, 0, 0, Time(0, 0));
    var link, file := Entry(HardlinkEntry, meta, Nothing, anchor), Entry(RegularEntry, meta, Bytes([]), []);
    var n := Leaf(1, Regular, meta, Bytes([]));
    c := Config(map[p := Present(FactOf(n), Some(anchor)), anchor := Present(FactOf(n), None)], map[],
                Some(map[p := link, anchor := file]), true);
    w := World(Dir(0, meta, map[Plain("a") := n, Plain("b") := n]), [], 2);
    var s := Slots(Some(n), Some(n), None);
    LinkedPublishes(c, w, p, anchor, n, link);
    hide PublishStarts, Publishes, PublishedSlots, Settled, Framed, Admissible;
    w' := World(Replace(w.root, p, 0, s, meta.mtime), Complete(Retain([], p, true), p), 3);
    ReplaceSettled(w.root, p, 0, s, meta.mtime);
    ParentUntracked(Goals(c, w'.effects), w.root, w'.root, p);
  }

  lemma LinkedPublishes(c: Config, w: World, p: PackagePath, anchor: PackagePath, n: Node, link: Entry)
    requires |p| == 1 && |anchor| == 1 && p != anchor && RegularFile(Some(n)) && w.effects == []
    requires w.root.Dir? && w.root.entries == map[Plain(p[0]) := n, Plain(anchor[0]) := n]
    requires p in c.admitted && c.admitted[p] == Present(FactOf(n), Some(anchor)) && p !in c.captures
    requires EntryAt(c, p) == Some(link) && link.kind.HardlinkEntry? && link.anchor == anchor
    ensures PublishStarts(c, w, p) && Publishes(c, w, p) && PublishedSlots(c, w, p, link) == Slots(Some(n), Some(n), None)
  {
    LinkedAdmit(w.root, n, p, anchor);
    hide Admit;
  }

  lemma ParentUntracked(goals: map<Path, Meta>, a: Node, b: Node, p: PackagePath)
    requires |p| == 1 && p[..0] !in goals && Settled(map[], a, b, p, 0)
    ensures Settled(goals, a, b, p, 0)
  {
  }

  lemma LinkedAdmit(root: Node, n: Node, p: PackagePath, anchor: PackagePath)
    requires |p| == 1 && |anchor| == 1 && RegularFile(Some(n))
    requires root.Dir? && root.entries == map[Plain(p[0]) := n, Plain(anchor[0]) := n]
    ensures At(root, p, 0) == Some(n) && At(root, anchor, 0) == Some(n)
    ensures Home(root, p, 0) == Some(root) && Home(root, anchor, 0) == Some(root)
    ensures Admit(root, p, Present(FactOf(n), Some(anchor))) == Yes
  {
  }

  /** A framed change that keeps the slots is a drift. */
  lemma {:induction false} FramedSameSlots(a: Node, b: Node, p: Path, i: nat)
    requires i < |p| && Framed(a, b, p, i)
    requires Home(a, p, i).Some? && Home(b, p, i).Some?
    requires SlotsIn(Home(a, p, i).value.entries, p) == SlotsIn(Home(b, p, i).value.entries, p)
    ensures Drifted(a, b, p, i)
    decreases |p| - i
  {
    if i + 1 == |p| {
      SameSlots(a.entries, b.entries, p);
    } else {
      FramedSameSlots(a.entries[Plain(p[i])], b.entries[Plain(p[i])], p, i + 1);
    }
  }

  lemma {:induction false} FramedTwice(a: Node, b: Node, c: Node, p: Path, i: nat)
    requires i < |p| && Framed(a, b, p, i) && Framed(b, c, p, i)
    ensures Framed(a, c, p, i)
    decreases |p| - i
  {
    if i + 1 == |p| {
    } else {
      FramedTwice(a.entries[Plain(p[i])], b.entries[Plain(p[i])], c.entries[Plain(p[i])], p, i + 1);
    }
  }

  /** An admitted directory whose capture is exact, with other metadata than it had. */
  predicate MetaChanged(c: Config, p: PackagePath, s: Slots, t: Slots) {
    && DirectoryAt(c, p) && p in c.captures && c.captures[p]
    && s.leaf.Some? && s.leaf.value.Dir? && t.leaf.Some?
    && t == s.(leaf := Some(WithMeta(s.leaf.value, t.leaf.value.meta)))
  }

  /** The incoming object stands where nothing was. */
  predicate Appeared(c: Config, v: Node, p: PackagePath, s: Slots, t: Slots) {
    && p in c.admitted && c.admitted[p] == Absent && s.leaf.None? && Removable(t.leaf) && t == s.(leaf := t.leaf)
    && EntryAt(c, p).Some? && Matches(v, p, EntryAt(c, p).value, false)
  }

  /** Where the target stands after a crash: only the slots of `p` and the metadata of the directories
      above it moved, and those have no owner and mode but their own or the incoming ones.  `known` says
      that the ledger in force still tells the change from a stranger's. */
  ghost predicate Interrupted(c: Config, w: World, v: Node, p: PackagePath, known: bool) {
    && Home(w.root, p, 0).Some? && Home(v, p, 0).Some?
    && Touched(c, w.effects, w.root, v, p, SlotsAt(v, p))
    && var s, t := SlotsAt(w.root, p), SlotsAt(v, p);
       Convergent(s, t) || (known && (MetaChanged(c, p, s, t) || Appeared(c, v, p, s, t)))
  }

  /** The ledger mentions the path, and only as one with an incoming object. */
  predicate Remembered(l: Ledger, p: PackagePath) { Mentions(l, p) && !Contradicts(l, p, true) }

  /** The plan of a recovery from an interrupted state is the state before the operation. */
  lemma InterruptedPlan(c: Config, w: World, v: World, p: PackagePath, known: bool)
    requires WellFormed(c) && Admissible(c, w, p) && Interrupted(c, w, v.root, p, known) && (known ==> Remembered(v.effects, p))
    ensures Recovers(c, v, p) && RecoverySlots(c, v, p) == Some(SlotsAt(w.root, p))
  {
    PlanIsBefore(c, w, v, p, known);
    var s := SlotsAt(w.root, p);
    var r := AfterRecovery(c, v, p);
    ReplaceSettled(v.root, p, 0, s, Home(v.root, p, 0).value.meta.mtime);
    SettledIsFramed(map[], v.root, r, p, 0);
    FramedTwice(w.root, v.root, r, p, 0);
    FramedSameSlots(w.root, r, p, 0);
    DriftedAdmit(w.root, r, p, c.admitted[p]);
  }

  lemma PlanIsBefore(c: Config, w: World, v: World, p: PackagePath, known: bool)
    requires WellFormed(c) && Admissible(c, w, p) && Interrupted(c, w, v.root, p, known) && (known ==> Remembered(v.effects, p))
    ensures RecoverySlots(c, v, p) == Some(SlotsAt(w.root, p))
  {
    var s, t := SlotsAt(w.root, p), SlotsAt(v.root, p);
    AtHome(w.root, p, 0);
    AtHome(v.root, p, 0);
    if s == t {
      FramedSameSlots(w.root, v.root, p, 0);
      DriftedAdmit(w.root, v.root, p, c.admitted[p]);
    }
  }

  lemma TouchedTwice(c: Config, l: Ledger, m: Ledger, a: Node, b: Node, d: Node, p: PackagePath, s: Slots, t: Slots)
    requires Touched(c, l, a, b, p, s) && Touched(c, m, b, d, p, t) && SameAbove(l, m, p)
    ensures Touched(c, l, a, d, p, t)
  {
    FramedTwice(a, b, d, p, 0);
    GuardedTwice(c, l, a, b, d, p);
  }

  /** An interrupted recovery can itself be recovered from. */
  lemma AttemptStaysInterrupted(c: Config, w: World, v: World, x: Node, p: PackagePath, known: bool)
    requires WellFormed(c) && Admissible(c, w, p) && Interrupted(c, w, v.root, p, known)
    requires RecoverStopped(c, v, x, p) && SameAbove(w.effects, v.effects, p)
    ensures Interrupted(c, w, x, p, known)
  {
    var s, t, u := SlotsAt(w.root, p), SlotsAt(v.root, p), SlotsAt(x, p);
    TouchedTwice(c, w.effects, v.effects, w.root, v.root, x, p, t, u);
    if s == t {
      FramedSameSlots(w.root, v.root, p, 0);
      DriftedAdmit(w.root, v.root, p, c.admitted[p]);
    }
    if u == t && Appeared(c, v.root, p, s, t) {
      FramedSameSlots(v.root, x, p, 0);
      DriftedMatches(v.root, x, p, EntryAt(c, p).value);
    }
  }

  lemma DriftedMatches(a: Node, b: Node, p: PackagePath, e: Entry)
    requires Drifted(a, b, p, 0) && Matches(a, p, e, false)
    ensures Matches(b, p, e, false)
  {
    DriftedLeaf(a, b, p);
    if e.kind.HardlinkEntry? && e.anchor != [] {
      DriftedSlots(a, b, p, e.anchor, 0);
      AtHome(a, e.anchor, 0);
      AtHome(b, e.anchor, 0);
    }
  }

  predicate Carries(n: Option<Node>, m: Meta) {
    n.Some? && n.value.Dir? && n.value.meta == m
  }

  /** Every tracked directory above `p` carries the metadata its refresh restores. */
  ghost predicate GoalsAbove(c: Config, l: Ledger, n: Node, p: PackagePath) {
    forall k :: 0 < k < |p| && p[..k] in Goals(c, l) ==> Carries(At(n, p[..k], 0), Goals(c, l)[p[..k]])
  }

  lemma SettledGoals(c: Config, l: Ledger, a: Node, b: Node, p: PackagePath)
    requires Settled(Goals(c, l), a, b, p, 0)
    ensures GoalsAbove(c, l, b, p)
  {
    forall k | 0 < k < |p| && p[..k] in Goals(c, l)
      ensures Carries(At(b, p[..k], 0), Goals(c, l)[p[..k]])
    {
      SettledAbove(Goals(c, l), a, b, p, k, 0);
    }
  }

  /** Stop an operation in an interrupted state, stop any number of recoveries anywhere, and then let one
      run whose calls succeed: the admitted object is back at the leaf, both sidecars are gone, tracked
      directories above carry their metadata, and nothing else differs but metadata above the path. */
  lemma {:induction false} CrashConvergence(c: Config, w: World, vs: seq<World>, v: World, p: PackagePath, known: bool, o: Outcome)
    requires WellFormed(c) && Admissible(c, w, p) && Refreshable(c, w.effects, w.root, p)
    requires |vs| > 0 && Interrupted(c, w, vs[0].root, p, known)
    requires forall i :: 0 <= i < |vs| ==> SameAbove(w.effects, vs[i].effects, p) && (known ==> Remembered(vs[i].effects, p))
    requires forall i :: 0 <= i < |vs| - 1 ==> RecoverStopped(c, vs[i], vs[i + 1].root, p)
    requires RecoverRel(c, vs[|vs| - 1], v, p, o, false)
    ensures o == Completed && v.effects == vs[|vs| - 1].effects
    ensures Home(v.root, p, 0).Some? && SlotsAt(v.root, p) == SlotsAt(w.root, p) && Inspect(SlotsAt(v.root, p)) == Clear
    ensures Admit(v.root, p, c.admitted[p]) == Yes
    ensures Drifted(w.root, v.root, p, 0) && Guarded(c, w.effects, w.root, v.root, p) && GoalsAbove(c, v.effects, v.root, p)
    decreases |vs|
  {
    hide Framed, Settled, Drifted, Guarded, GoalsAbove, RecoverSpan, RecoverySlots, Convergent, Refreshable, SameAbove, Admit, AfterRecovery;
    hide WellFormed, MetaChanged, Appeared, Remembered;
    if |vs| == 1 {
      InterruptedPlan(c, w, vs[0], p, known);
      GuardedRefreshable(c, w.effects, vs[0].effects, w.root, vs[0].root, p);
      TouchedTwice(c, w.effects, vs[0].effects, w.root, vs[0].root, v.root, p, SlotsAt(vs[0].root, p), SlotsAt(v.root, p));
      FramedSameSlots(w.root, v.root, p, 0);
      SettledGoals(c, v.effects, vs[0].root, v.root, p);
    } else {
      AttemptStaysInterrupted(c, w, vs[0], vs[1].root, p, known);
      CrashConvergence(c, w, vs[1..], v, p, known, o);
    }
  }

  /** Without its ledger entry, a change that left no sidecar cannot be told from a stranger's. */
  lemma ForgottenChange(c: Config, v: World, v': World, p: PackagePath, o: Outcome, faulted: bool)
    requires p in c.admitted && Home(v.root, p, 0).Some? && Inspect(SlotsAt(v.root, p)) == Clear
    requires Admit(v.root, p, c.admitted[p]) != Yes && !Mentions(v.effects, p)
    requires RecoverRel(c, v, v', p, o, faulted)
    ensures o != Completed && SlotsAt(v'.root, p) == SlotsAt(v.root, p)
  {
  }

  /* ---------- operations that stop anywhere ---------- */

  datatype Act = Publish(path: PackagePath) | Remove(path: PackagePath, directory: bool) | Recover(path: PackagePath)

  /** A target one operation leaves when it returns, fails or crashes, at any call. */
  ghost predicate Stopped(c: Config, w: World, v: Node, a: Act) {
    match a
    case Publish(q) => PublishStopped(c, w, v, q)
    case Remove(q, directory) => RemoveStopped(c, w, v, q, directory)
    case Recover(q) => RecoverStopped(c, w, v, q)
  }

  /** The operation is let in. */
  ghost predicate Starts(c: Config, w: World, a: Act) {
    match a
    case Publish(p) => PublishStarts(c, w, p)
    case Remove(p, directory) => RemoveStarts(c, w, p, directory)
    case Recover(_) => false
  }

  /** It moves the old object of its path aside, and so leaves a sidecar or nothing. */
  ghost predicate Displacing(c: Config, w: World, a: Act)
    requires Starts(c, w, a)
  {
    match a
    case Publish(p) => var e, s := EntryAt(c, p).value, SlotsAt(w.root, p); !UpdatesInPlace(e, s) && MovesAside(c, p, e, s)
    case Remove(_, _) => true
  }

  lemma StoppedIsInterrupted(c: Config, w: World, a: Act, v: Node)
    requires WellFormed(c) && Starts(c, w, a) && Stopped(c, w, v, a)
    requires Recoverable(c, a.path) && Anchored(c, w, a.path, a.Publish?)
    ensures Admissible(c, w, a.path) && Interrupted(c, w, v, a.path, !Displacing(c, w, a))
  {
    var p := a.path;
    var s, t := SlotsAt(w.root, p), SlotsAt(v, p);
    AtHome(w.root, p, 0);
    AtHome(v, p, 0);
    if a.Remove? {
      RemoveConverges(c, w, p, t);
    } else if Displacing(c, w, a) {
      PublishConverges(c, w, p, t);
    } else {
      UndisplacedStops(c, w, v, p);
    }
  }

  lemma UndisplacedStops(c: Config, w: World, v: Node, p: PackagePath)
    requires WellFormed(c) && PublishStarts(c, w, p) && PublishStopped(c, w, v, p)
    requires Recoverable(c, p) && Anchored(c, w, p, true) && !Displacing(c, w, Publish(p))
    ensures Home(v, p, 0).Some?
    ensures var s, t := SlotsAt(w.root, p), SlotsAt(v, p);
      Convergent(s, t) || MetaChanged(c, p, s, t) || Appeared(c, v, p, s, t)
  {
    var e, s, t := EntryAt(c, p).value, SlotsAt(w.root, p), SlotsAt(v, p);
    AtHome(w.root, p, 0);
    AtHome(v, p, 0);
    if !UpdatesInPlace(e, s) && s.leaf.None? && e.kind.HardlinkEntry? && t.leaf.Some? && Publishes(c, w, p) {
      FileStays(w.root, v, p, e.anchor);
    }
  }

  /** Stop any operation on a recoverable path at any call, stop any number of recoveries at any call, then
      let one recovery run without a failing call: it completes and the path is as it was admitted.  A
      change that left no sidecar needs its ledger entry for that. */
  lemma CrashedOperationRecovers(c: Config, w: World, a: Act, vs: seq<World>, v: World, o: Outcome)
    requires WellFormed(c) && Recoverable(c, a.path) && Anchored(c, w, a.path, a.Publish?)
    requires Starts(c, w, a) && Refreshable(c, w.effects, w.root, a.path)
    requires |vs| > 0 && Stopped(c, w, vs[0].root, a)
    requires forall i :: 0 <= i < |vs| ==>
      SameAbove(w.effects, vs[i].effects, a.path) && (Displacing(c, w, a) || Remembered(vs[i].effects, a.path))
    requires forall i :: 0 <= i < |vs| - 1 ==> RecoverStopped(c, vs[i], vs[i + 1].root, a.path)
    requires RecoverRel(c, vs[|vs| - 1], v, a.path, o, false)
    ensures o == Completed && v.effects == vs[|vs| - 1].effects
    ensures Home(v.root, a.path, 0).Some? && SlotsAt(v.root, a.path) == SlotsAt(w.root, a.path)
    ensures Inspect(SlotsAt(v.root, a.path)) == Clear && Admit(v.root, a.path, c.admitted[a.path]) == Yes
    ensures Drifted(w.root, v.root, a.path, 0) && Guarded(c, w.effects, w.root, v.root, a.path)
    ensures GoalsAbove(c, v.effects, v.root, a.path)
  {
    hide WellFormed, Recoverable, Anchored, Starts, Stopped, Displacing, Admissible, RecoverStopped, RecoverRel, Interrupted, SameAbove;
    StoppedIsInterrupted(c, w, a, vs[0].root);
    CrashConvergence(c, w, vs, v, a.path, !Displacing(c, w, a), o);
  }

  /** An update in place that stopped after its last call. */
  lemma UpdateStops(c: Config, w: World, p: PackagePath, t: Slots)
    requires PublishStarts(c, w, p) && UpdatesInPlace(EntryAt(c, p).value, SlotsAt(w.root, p))
    requires t == SlotsAt(w.root, p).(leaf := Some(WithMeta(SlotsAt(w.root, p).leaf.value, EntryAt(c, p).value.meta)))
    ensures var v := Replace(w.root, p, 0, t, Home(w.root, p, 0).value.meta.mtime);
      PublishStopped(c, w, v, p) && Home(v, p, 0).Some? && SlotsAt(v, p) == t && At(v, p, 0) == t.leaf
  {
    var v := Replace(w.root, p, 0, t, Home(w.root, p, 0).value.meta.mtime);
    ReplaceTouched(c, w.effects, w.root, p, t, Home(w.root, p, 0).value.meta.mtime);
    AtHome(v, p, 0);
  }

  /** A captured directory whose update in place stopped after its last call, under the ledger a restart
      rebuilds from the results before: no recovery of it completes. */
  lemma ForgottenUpdate() returns (c: Config, w: World, v: World, p: PackagePath)
    ensures WellFormed(c) && Recoverable(c, p) && PublishStarts(c, w, p)
    ensures PublishStopped(c, w, v.root, p) && v.effects == w.effects
    ensures forall v', o, faulted :: RecoverRel(c, v, v', p, o, faulted) ==> o != Completed
  {
    hide PublishStopped, RecoverRel, Replace;
    p := ["a"];
    var before, updated := Meta(493, 0, 0, Time(0, 0)), Meta(448, 0, 0, Time(0, 0));
    var n := Dir(1, before, map[]);
    c := Config(map[p := Present(Folder(before), None)], map[p := true],
                Some(map[p := Entry(DirectoryEntry, updated, Nothing, [])]), true);
    w := World(Dir(0, before, map[Plain("a") := n]), [], 2);
    assert At(w.root, p, 0) == Some(n) && Home(w.root, p, 0) == Some(w.root);
    var t := Slots(Some(WithMeta(n, updated)), None, None);
    UpdateStops(c, w, p, t);
    v := World(Replace(w.root, p, 0, t, before.mtime), [], 2);
    forall v', o, faulted | RecoverRel(c, v, v', p, o, faulted)
      ensures o != Completed
    {
      ForgottenChange(c, v, v', p, o, faulted);
    }
  }
}
