/** Discarding after a whole run: every sidecar goes and nothing else changes. */
module RunCleanup {
  import opened Tree
  import opened Workspace
  import opened Namespace
  import opened Guard
  import opened Discard
  import opened Undo
  import opened Refinement
  import opened ActiveNamespaces
  import opened Cleanup

  /* ---------- where sidecars stand ---------- */

  /** A displaced object an operation of this attempt left, fit to be discarded. */
  ghost predicate Tended(c: Config, l: Ledger, n: Node, q: Path) {
    && q != [] && Mentions(l, q) && KindAgrees(c, Displaced(q), n)
    && (n.Dir? ==> ValidTree(c, l, n, q))
  }

  /** Every sidecar reached through ordinary names is such an object, beside its own leaf. */
  ghost predicate Tidy(c: Config, l: Ledger, n: Node, at: Path) {
    n.Dir? ==> forall x | x in n.entries ::
      match x
      case Plain(s) => Tidy(c, l, n.entries[x], at + [s])
      case Prepared(_) => false
      case Displaced(q) => Tended(c, l, n.entries[x], q) && q[..|q| - 1] == at
  }

  ghost predicate SlotsTidy(c: Config, l: Ledger, s: Slots, p: PackagePath) {
    && s.prepared.None?
    && (s.leaf.Some? ==> Tidy(c, l, s.leaf.value, p))
    && (s.displaced.Some? ==> Tended(c, l, s.displaced.value, p))
  }

  ghost predicate Grows(l: Ledger, m: Ledger) {
    && (forall q: Path :: q != [] && Mentions(l, q) ==> Mentions(m, q))
    && (forall q: Path :: q != [] && Withdrawn(l, q) ==> Withdrawn(m, q))
  }

  lemma {:induction false} ValidMore(c: Config, l: Ledger, m: Ledger, n: Node, path: Path)
    requires Grows(l, m) && ValidTree(c, l, n, path)
    ensures ValidTree(c, m, n, path)
    decreases n
  {
    forall x | x in n.entries && n.entries[x].Dir?
      ensures ValidTree(c, m, n.entries[x], x.path)
    {
      ValidMore(c, l, m, n.entries[x], x.path);
    }
  }

  lemma {:induction false} TidyMore(c: Config, l: Ledger, m: Ledger, n: Node, at: Path)
    requires Grows(l, m) && Tidy(c, l, n, at)
    ensures Tidy(c, m, n, at)
    decreases n
  {
    if n.Leaf? {
    } else {
      forall x | x in n.entries
        ensures x.Plain? ==> Tidy(c, m, n.entries[x], at + [x.text])
        ensures x.Displaced? ==> Tended(c, m, n.entries[x], x.path)
      {
        if x.Plain? {
          TidyMore(c, l, m, n.entries[x], at + [x.text]);
        } else if n.entries[x].Dir? {
          ValidMore(c, l, m, n.entries[x], x.path);
        }
      }
    }
  }

  lemma {:induction false} TidyAt(c: Config, l: Ledger, n: Node, p: PackagePath, i: nat)
    requires i < |p| && Tidy(c, l, n, p[..i]) && Home(n, p, i).Some?
    ensures SlotsTidy(c, l, SlotsIn(Home(n, p, i).value.entries, p), p)
    decreases |p| - i
  {
    assert p[..i] + [p[i]] == p[..i + 1];
    if i + 1 == |p| {
      assert p[..i + 1] == p;
    } else {
      TidyAt(c, l, n.entries[Plain(p[i])], p, i + 1);
    }
  }

  lemma {:induction false} TidyFramed(c: Config, l: Ledger, a: Node, b: Node, p: PackagePath, i: nat)
    requires i < |p| && Framed(a, b, p, i) && Tidy(c, l, a, p[..i])
    requires Home(b, p, i).Some? && SlotsTidy(c, l, SlotsIn(Home(b, p, i).value.entries, p), p)
    ensures Tidy(c, l, b, p[..i])
    decreases |p| - i
  {
    assert p[..i] + [p[i]] == p[..i + 1];
    var gone := if i + 1 == |p| then Names(p) else {Plain(p[i])};
    if i + 1 == |p| {
      assert p[..i + 1] == p;
      assert p[..|p| - 1] == p[..i];
    } else {
      TidyFramed(c, l, a.entries[Plain(p[i])], b.entries[Plain(p[i])], p, i + 1);
    }
    forall x | x in b.entries
      ensures match x
              case Plain(s) => Tidy(c, l, b.entries[x], p[..i] + [s])
              case Prepared(_) => false
              case Displaced(q) => Tended(c, l, b.entries[x], q) && q[..|q| - 1] == p[..i]
    {
      if x !in gone {
        SameEntry(a.entries, b.entries, gone, x);
      }
    }
  }

  lemma {:induction false} BareIsTidy(c: Config, l: Ledger, n: Node, at: Path)
    requires Bare(n)
    ensures Tidy(c, l, n, at)
    decreases n
  {
    if n.Leaf? {
    } else {
      forall x | x in n.entries
        ensures x.Plain? && Tidy(c, l, n.entries[x], at + [x.text])
      {
        BareIsTidy(c, l, n.entries[x], at + [x.text]);
      }
    }
  }

  /** What a captured directory holds when it may be removed is a valid recovery tree. */
  lemma LogicallyEmptyIsValid(c: Config, l: Ledger, n: Node, p: PackagePath)
    requires n.Dir? && Tidy(c, l, n, p) && LogicallyEmpty(c, l, p, n.entries)
    ensures ValidTree(c, l, n, p)
  {
  }

  lemma StepGrows(c: Config, w: World, w': World, p: PackagePath, incoming: bool)
    requires Step(c, w, w', p, incoming)
    ensures Grows(w.effects, w'.effects) && Mentions(w'.effects, p)
    ensures Withdrawn(w'.effects, p) <==> !incoming
    ensures forall q: PackagePath :: Mentions(w'.effects, q) ==> q == p || Mentions(w.effects, q)
  {
    hide Step, Retain, Complete;
    StepLedger(c, w, w', p, incoming);
    forall q: PackagePath
      ensures Mentions(w.effects, q) ==> Mentions(w'.effects, q)
      ensures Withdrawn(w.effects, q) ==> Withdrawn(w'.effects, q)
      ensures Mentions(w'.effects, q) ==> q == p || Mentions(w.effects, q)
    {
      LedgerGrows(w.effects, p, incoming, q);
    }
    LedgerGrows(w.effects, p, incoming, p);
  }

  lemma LedgerGrows(l: Ledger, p: PackagePath, incoming: bool, q: PackagePath)
    requires !Contradicts(l, p, incoming)
    ensures var m := Complete(Retain(l, p, incoming), p);
      && Mentions(m, p) && (Withdrawn(m, p) <==> !incoming)
      && (Mentions(l, q) ==> Mentions(m, q)) && (Withdrawn(l, q) ==> Withdrawn(m, q))
      && (Mentions(m, q) ==> q == p || Mentions(l, q))
  {
    var m := Complete(Retain(l, p, incoming), p);
    ActivatedAfter(l, p, incoming, q);
    if Mentions(l, q) {
      var i :| 0 <= i < |l| && l[i].path == q;
      assert m[i].path == q;
    }
    if Mentions(m, q) {
      var i :| 0 <= i < |m| && m[i].path == q;
      assert Retain(l, p, incoming)[i].path == q;
    }
    if Withdrawn(l, q) && q == p {
      var i :| 0 <= i < |l| && l[i] == Effect(q, false, true);
      assert m[i] == Effect(q, false, true);
    }
  }

  lemma TidyStep(c: Config, w: World, w': World, p: PackagePath, incoming: bool)
    requires WellFormed(c) && Step(c, w, w', p, incoming) && Recoverable(c, p) && Tidy(c, w.effects, w.root, [])
    ensures Tidy(c, w'.effects, w'.root, [])
  {
    var l := w'.effects;
    StepLedger(c, w, w', p, incoming);
    StepGrows(c, w, w', p, incoming);
    SettledIsFramed(Goals(c, l), w.root, w'.root, p, 0);
    assert p[..0] == [];
    TidyAt(c, w.effects, w.root, p, 0);
    TidyMore(c, w.effects, l, w.root, []);
    TidyAt(c, l, w.root, p, 0);
    var s := SlotsAt(w.root, p);
    AtHome(w.root, p, 0);
    if s.leaf.Some? {
      AdmittedLeaf(c, w, p);
      if s.leaf.value.Dir? && !incoming && p in c.captures {
        LogicallyEmptyIsValid(c, w.effects, s.leaf.value, p);
        ValidMore(c, w.effects, l, s.leaf.value, p);
      }
    }
    assert SlotsTidy(c, l, SlotsAt(w'.root, p), p);
    TidyFramed(c, l, w.root, w'.root, p, 0);
  }

  /* ---------- every operated path keeps its place ---------- */

  /** Directories that a framed change does not run through keep their names. */
  lemma {:induction false} FramedSlotsBeside(a: Node, b: Node, p: Path, q: Path, i: nat)
    requires i < |p| && i < |q| && p[..i] == q[..i] && Framed(a, b, p, i) && !(p <= q)
    ensures Home(a, q, i).Some? <==> Home(b, q, i).Some?
    ensures Home(a, q, i).Some? ==>
      var s, t := SlotsIn(Home(a, q, i).value.entries, q), SlotsIn(Home(b, q, i).value.entries, q);
      (s.leaf.Some? <==> t.leaf.Some?) && s.prepared == t.prepared && s.displaced == t.displaced
    decreases |p| - i
  {
    var x := Plain(p[i]);
    var gone := if i + 1 == |p| then Names(p) else {x};
    if q[i] == p[i] {
      assert p[..i + 1] == p[..i] + [p[i]] == q[..i + 1];
      assert i + 1 == |p| ==> p <= q;
      if i + 1 < |q| {
        FramedSlotsBeside(a.entries[x], b.entries[x], p, q, i + 1);
      }
    } else {
      SameEntry(a.entries, b.entries, gone, Plain(q[i]));
    }
    if i + 1 == |q| {
      SameEntry(a.entries, b.entries, gone, Prepared(q));
      SameEntry(a.entries, b.entries, gone, Displaced(q));
    }
  }

  /** Beneath `p` the walk continues from the leaf of `p`. */
  lemma {:induction false} HomeThrough(n: Node, p: Path, q: Path, i: nat)
    requires i < |p| < |q| && p == q[..|p|]
    ensures Home(n, q, i) ==
      if Home(n, p, i).Some? && SlotsIn(Home(n, p, i).value.entries, p).leaf.Some?
      then Home(SlotsIn(Home(n, p, i).value.entries, p).leaf.value, q, |p|) else None
    decreases |p| - i
  {
    assert q[i] == p[i];
    if i + 1 < |p| && n.Dir? && Plain(p[i]) in n.entries {
      HomeThrough(n.entries[Plain(p[i])], p, q, i + 1);
    }
  }

  /** The path lies in a directory that was itself removed and captured, or still has its home. */
  ghost predicate Housed(c: Config, w: World, q: PackagePath) {
    || RootDepth(c, w.effects, q, 1).Some?
    || (&& Home(w.root, q, 0).Some?
        && (Withdrawn(w.effects, q) ==> SlotsAt(w.root, q).leaf.None?))
  }

  /** Until it is discarded, something of the path still stands in its home. */
  ghost predicate Held(c: Config, w: World, q: PackagePath) {
    && Housed(c, w, q)
    && (RootDepth(c, w.effects, q, 1).None? ==>
          SlotsAt(w.root, q).leaf.Some? || SlotsAt(w.root, q).displaced.Some?)
  }

  lemma RootsGrow(c: Config, l: Ledger, m: Ledger, q: PackagePath)
    requires Grows(l, m) && RootDepth(c, l, q, 1).Some?
    ensures RootDepth(c, m, q, 1).Some?
  {
    var d := RootDepth(c, l, q, 1).value;
    assert CleanupRoot(c, m, q[..d]);
  }

  lemma HeldStep(c: Config, w: World, w': World, p: PackagePath, incoming: bool, q: PackagePath)
    requires WellFormed(c) && Step(c, w, w', p, incoming) && Recoverable(c, p)
    requires q != p ==> Held(c, w, q)
    ensures Held(c, w', q)
  {
    StepLedger(c, w, w', p, incoming);
    StepGrows(c, w, w', p, incoming);
    SettledIsFramed(Goals(c, w'.effects), w.root, w'.root, p, 0);
    AtHome(w.root, p, 0);
    if q != p {
      ActivatedAfter(w.effects, p, incoming, q);
      if RootDepth(c, w.effects, q, 1).Some? {
        RootsGrow(c, w.effects, w'.effects, q);
      } else if p <= q {
        assert Ancestor(p, q);
        HeldBeneath(c, w, w', p, incoming, q);
      } else {
        FramedSlotsBeside(w.root, w'.root, p, q, 0);
      }
    }
  }

  lemma HeldBeneath(c: Config, w: World, w': World, p: PackagePath, incoming: bool, q: PackagePath)
    requires WellFormed(c) && Step(c, w, w', p, incoming) && Recoverable(c, p)
    requires Held(c, w, q) && RootDepth(c, w.effects, q, 1).None? && Ancestor(p, q)
    requires Withdrawn(w'.effects, q) <==> Withdrawn(w.effects, q)
    requires Withdrawn(w'.effects, p) <==> !incoming
    ensures Held(c, w', q)
  {
    HomeThrough(w.root, p, q, 0);
    HomeThrough(w'.root, p, q, 0);
    var s := SlotsAt(w.root, p);
    AdmittedDirectory(c, w, w', p, incoming);
    if !incoming {
      assert p == q[..|p|];
      assert CleanupRoot(c, w'.effects, p);
    } else {
      assert s.leaf.value.entries != map[];
      assert UpdatesInPlace(EntryAt(c, p).value, s);
    }
  }

  lemma AdmittedDirectory(c: Config, w: World, w': World, p: PackagePath, incoming: bool)
    requires Step(c, w, w', p, incoming) && SlotsAt(w.root, p).leaf.Some?
    ensures PresentAt(c, p) && SlotsAt(w.root, p).leaf.value.Dir? == c.admitted[p].fact.Folder?
  {
    AtHome(w.root, p, 0);
    AdmittedLeaf(c, w, p);
  }

  /* ---------- what a run leaves ---------- */

  /** Every admitted directory in place has the owner and the mode its refresh would restore. */
  ghost predicate Owned(c: Config, w: World) {
    forall q: PackagePath :: q in c.admitted && At(w.root, q, 0).Some? && At(w.root, q, 0).value.Dir? ==>
      GoalOf(c, w.effects, q).Some? && SameOwner(At(w.root, q, 0).value.meta, GoalOf(c, w.effects, q).value)
  }

  ghost predicate Orderable(c: Config, w: World) {
    && Owned(c, w) && Tidy(c, w.effects, w.root, [])
    && (forall i :: 0 <= i < |w.effects| ==> w.effects[i].path in c.admitted)
    && (forall q: PackagePath :: Mentions(w.effects, q) ==> Housed(c, w, q))
  }

  lemma SteadyIsOwned(c: Config, w: World)
    requires Steady(c, w)
    ensures Owned(c, w)
  {
    forall q: PackagePath | q in c.admitted && At(w.root, q, 0).Some? && At(w.root, q, 0).value.Dir?
      ensures GoalOf(c, w.effects, q).Some? && SameOwner(At(w.root, q, 0).value.meta, GoalOf(c, w.effects, q).value)
    {
      assert GoalOf(c, w.effects, q) == Some(At(w.root, q, 0).value.meta);
    }
  }

  lemma RunAdmitted(c: Config, ws: seq<World>, ops: seq<Op>, k: nat)
    requires Run(c, ws, ops) && k <= |ops|
    ensures forall i :: 0 <= i < |Record(ops[..k])| ==> Record(ops[..k])[i].path in c.admitted
  {
    assert forall i :: 0 <= i < k ==> ops[..k][i] == ops[i];
    forall i | 0 <= i < k
      ensures ops[i].path in c.admitted
    {
      StepLedger(c, ws[i], ws[i + 1], ops[i].path, ops[i].incoming);
    }
  }

  lemma {:induction false} RunLeaves(c: Config, ws: seq<World>, ops: seq<Op>, k: nat)
    requires WellFormed(c) && Run(c, ws, ops) && Orderly(c, ops) && Fresh(c, ws[0]) && Bare(ws[0].root)
    requires k <= |ops|
    ensures Steady(c, ws[k]) && Orderable(c, ws[k]) && ws[k].effects == Record(ops[..k])
    ensures forall q: PackagePath :: Mentions(ws[k].effects, q) ==> Held(c, ws[k], q)
  {
    hide Step, Steady, Owned, Tidy, Bare, Recoverable, Anchored, RootDepth, WellFormed, Admit;
    RunLedger(c, ws, ops, k);
    FreshIsSteady(c, ws[0]);
    RunSteady(c, ws, ops, k);
    SteadyIsOwned(c, ws[k]);
    if k == 0 {
      BareIsTidy(c, [], ws[0].root, []);
    } else {
      RunLeaves(c, ws, ops, k - 1);
      var p, incoming := ops[k - 1].path, ops[k - 1].incoming;
      StepLedger(c, ws[k - 1], ws[k], p, incoming);
      StepGrows(c, ws[k - 1], ws[k], p, incoming);
      TidyStep(c, ws[k - 1], ws[k], p, incoming);
      forall q: PackagePath | Mentions(ws[k].effects, q)
        ensures Held(c, ws[k], q)
      {
        HeldStep(c, ws[k - 1], ws[k], p, incoming, q);
      }
      RunAdmitted(c, ws, ops, k);
    }
  }

  /* ---------- one discard ---------- */

  lemma OwnedIsRefreshable(c: Config, w: World, p: PackagePath)
    requires Owned(c, w) && Home(w.root, p, 0).Some?
    requires forall i :: 0 <= i < |w.effects| ==> w.effects[i].path in c.admitted
    ensures Refreshable(c, w.effects, w.root, p)
    ensures forall k :: 0 <= k < |p| ==> At(w.root, p[..k], 0).Some? && At(w.root, p[..k], 0).value.Dir?
    ensures forall k :: 0 <= k < |p| && p[..k] in Goals(c, w.effects) ==>
      SameOwner(At(w.root, p[..k], 0).value.meta, Goals(c, w.effects)[p[..k]])
    ensures forall k :: 0 <= k < |p| && IsActivated(w.effects, p[..k]) ==> p[..k] in Goals(c, w.effects)
  {
    SameRoot(w.root, p, 0);
    forall k | 0 <= k < |p|
      ensures k > 0 ==> AncestorRefreshable(c, w.effects, At(w.root, p[..k], 0), p[..k])
      ensures At(w.root, p[..k], 0).Some? && At(w.root, p[..k], 0).value.Dir?
      ensures IsActivated(w.effects, p[..k]) ==> p[..k] in Goals(c, w.effects)
    {
      FramedAbove(w.root, w.root, p, k, 0);
      if k > 0 && Activated(w.effects, p[..k]) {
        var i :| 0 <= i < |w.effects| && w.effects[i] == Effect(p[..k], true, true);
        assert w.effects[i].path in c.admitted;
      }
    }
  }

  /** No sidecar of the path is left in its home. */
  ghost predicate Cleared(w: World, q: PackagePath) {
    Home(w.root, q, 0).Some? ==> SlotsAt(w.root, q).displaced.None?
  }

  /** The names of any other path after a change at `p` that keeps the leaf of `p`. */
  lemma OtherSlots(w: World, w': World, p: PackagePath, q: PackagePath)
    requires Framed(w.root, w'.root, p, 0) && Home(w.root, p, 0).Some? && Home(w'.root, p, 0).Some?
    requires SlotsAt(w'.root, p).leaf == SlotsAt(w.root, p).leaf && q != p
    ensures Home(w.root, q, 0).Some? <==> Home(w'.root, q, 0).Some?
    ensures Home(w.root, q, 0).Some? ==>
      var s, t := SlotsAt(w.root, q), SlotsAt(w'.root, q);
      (s.leaf.Some? <==> t.leaf.Some?) && s.displaced == t.displaced
  {
    if p <= q {
      HomeThrough(w.root, p, q, 0);
      HomeThrough(w'.root, p, q, 0);
    } else {
      FramedSlotsBeside(w.root, w'.root, p, q, 0);
    }
  }

  /** A discard, wherever it stops, keeps what a run leaves, shows no change and brings no sidecar back. */
  lemma StoppedDiscard(c: Config, w: World, w': World, p: PackagePath)
    requires Orderable(c, w) && DiscardStopped(c, w, w'.root, p) && w'.effects == w.effects
    ensures Orderable(c, w') && Hide(w'.root) == Hide(w.root)
    ensures forall q: PackagePath :: Cleared(w, q) ==> Cleared(w', q)
  {
    hide Steady, Tidy, Hide, Housed, Discardable, Owned, Pruned;
    if w'.root == w.root {
      SameTarget(c, w, w');
    } else {
      StoppedSlots(c, w, w', p);
      StoppedOwners(c, w, w', p);
      StoppedOwned(c, w, w', p);
      StoppedView(w, w', p);
      DiscardLeaves(c, w, w', p);
    }
  }

  lemma SameTarget(c: Config, w: World, w': World)
    requires Orderable(c, w) && w'.root == w.root && w'.effects == w.effects
    ensures Orderable(c, w') && forall q: PackagePath :: Cleared(w, q) ==> Cleared(w', q)
  {
    forall q: PackagePath | Housed(c, w, q)
      ensures Housed(c, w', q)
    {
    }
  }

  /** What a stopped discard leaves of the three names is again fit to be discarded. */
  lemma StoppedSlots(c: Config, w: World, w': World, p: PackagePath)
    requires Orderable(c, w) && DiscardStopped(c, w, w'.root, p) && w'.root != w.root
    ensures Home(w.root, p, 0).Some? && Home(w'.root, p, 0).Some?
    ensures Touched(c, w.effects, w.root, w'.root, p, SlotsAt(w'.root, p))
    ensures SlotsTidy(c, w.effects, SlotsAt(w'.root, p), p)
    ensures SlotsAt(w'.root, p).leaf == SlotsAt(w.root, p).leaf
    ensures SlotsAt(w.root, p).displaced.None? ==> SlotsAt(w'.root, p).displaced.None?
  {
    var s, t := SlotsAt(w.root, p), SlotsAt(w'.root, p);
    TidyAtRoot(c, w, p);
    if t.displaced.Some? && t != s {
      if s.displaced.value.Dir? {
        ValidPruned(c, w.effects, s.displaced.value, t.displaced.value, p);
      }
    }
  }

  lemma StoppedOwners(c: Config, w: World, w': World, p: PackagePath)
    requires Orderable(c, w) && Home(w.root, p, 0).Some? && Home(w'.root, p, 0).Some?
    requires Touched(c, w.effects, w.root, w'.root, p, SlotsAt(w'.root, p))
    ensures OwnersAgree(w.root, w'.root, p, 0)
  {
    OwnedIsRefreshable(c, w, p);
    forall k | 0 <= k < |p|
      ensures OwnersKept(At(w.root, p[..k], 0), At(w'.root, p[..k], 0))
    {
      assert OwnersNear(At(w.root, p[..k], 0), At(w'.root, p[..k], 0), Aim(c, w.effects, p[..k]));
      assert IsActivated(w.effects, p[..k]) ==> p[..k] in Goals(c, w.effects);
    }
  }

  lemma StoppedOwned(c: Config, w: World, w': World, p: PackagePath)
    requires Owned(c, w) && Framed(w.root, w'.root, p, 0) && OwnersAgree(w.root, w'.root, p, 0) && w'.effects == w.effects
    requires Home(w.root, p, 0).Some? && Home(w'.root, p, 0).Some? && SlotsAt(w'.root, p).leaf == SlotsAt(w.root, p).leaf
    ensures Owned(c, w')
  {
    forall q: PackagePath | q in c.admitted && At(w'.root, q, 0).Some? && At(w'.root, q, 0).value.Dir?
      ensures GoalOf(c, w'.effects, q).Some? && SameOwner(At(w'.root, q, 0).value.meta, GoalOf(c, w'.effects, q).value)
    {
      if Ancestor(q, p) {
        FramedAbove(w.root, w'.root, p, |q|, 0);
        assert q == p[..|q|];
        assert OwnersKept(At(w.root, p[..|q|], 0), At(w'.root, p[..|q|], 0));
      } else {
        LeafKeptElsewhere(w.root, w'.root, p, q);
      }
      assert GoalOf(c, w.effects, q).Some?;
    }
  }

  /** A framed change that keeps the leaf moves no object but the directories above. */
  lemma LeafKeptElsewhere(a: Node, b: Node, p: PackagePath, q: PackagePath)
    requires Framed(a, b, p, 0) && !Ancestor(q, p)
    requires Home(a, p, 0).Some? && Home(b, p, 0).Some? && SlotsAt(b, p).leaf == SlotsAt(a, p).leaf
    ensures At(b, q, 0) == At(a, q, 0)
  {
    AtHome(a, p, 0);
    AtHome(b, p, 0);
    if p <= q {
      AtThrough(a, p, q, 0);
      AtThrough(b, p, q, 0);
    } else {
      assert q <= p ==> |q| < |p| || q == p;
      var k := Diverge(p, q);
      FramedElsewhere(a, b, p, q, k, 0);
    }
  }

  lemma StoppedView(w: World, w': World, p: PackagePath)
    requires Framed(w.root, w'.root, p, 0) && OwnersAgree(w.root, w'.root, p, 0)
    requires Home(w.root, p, 0).Some? && Home(w'.root, p, 0).Some? && SlotsAt(w'.root, p).leaf == SlotsAt(w.root, p).leaf
    ensures Hide(w'.root) == Hide(w.root)
  {
    HideFramed(w.root, w'.root, p, 0);
    AtHome(w.root, p, 0);
    HideAt(w.root, p, 0);
    StoreSame(Hide(w.root), p, 0);
  }

  /** A discard without a failing call is one that may have stopped. */
  lemma FinishedIsStopped(c: Config, w: World, w': World, p: PackagePath, o: Outcome)
    requires DiscardRel(c, w, w', p, o, false)
    ensures DiscardStopped(c, w, w'.root, p) && w'.effects == w.effects
  {
    if Home(w.root, p, 0).Some? {
      SameRoot(w.root, p, 0);
    }
  }

  /** Without a failing call the directories above are brought back to their very metadata. */
  lemma FinishedIsSteady(c: Config, w: World, w': World, p: PackagePath, o: Outcome)
    requires Steady(c, w) && Orderable(c, w) && DiscardRel(c, w, w', p, o, false) && o == Completed
    ensures Steady(c, w')
  {
    if w'.root != w.root {
      SettledIsFramed(Goals(c, w.effects), w.root, w'.root, p, 0);
      forall q: PackagePath | q in c.admitted && At(w'.root, q, 0).Some? && At(w'.root, q, 0).value.Dir?
        ensures GoalOf(c, w'.effects, q) == Some(At(w'.root, q, 0).value.meta)
      {
        if Ancestor(q, p) {
          assert q == p[..|q|];
          SettledAbove(Goals(c, w.effects), w.root, w'.root, p, |q|, 0);
          assert GoalOf(c, w.effects, q).Some?;
        } else {
          LeafKeptElsewhere(w.root, w'.root, p, q);
        }
      }
    } else {
      forall q: PackagePath | q in c.admitted && At(w'.root, q, 0).Some? && At(w'.root, q, 0).value.Dir?
        ensures GoalOf(c, w'.effects, q) == Some(At(w'.root, q, 0).value.meta)
      {
        assert GoalOf(c, w.effects, q) == Some(At(w.root, q, 0).value.meta);
      }
    }
  }

  /** A discard without a failing call, once the discarded directory above it is gone, completes
      and leaves no sidecar of the path. */
  lemma DiscardOne(c: Config, w: World, w': World, p: PackagePath, o: Outcome)
    requires WellFormed(c) && Orderable(c, w) && Mentions(w.effects, p)
    requires forall r: PackagePath :: TopRoot(c, w.effects, r) && Ancestor(r, p) ==> Cleared(w, r)
    requires DiscardRel(c, w, w', p, o, false)
    ensures o == Completed && Orderable(c, w') && w'.effects == w.effects
    ensures Cleared(w', p) && forall q: PackagePath :: Cleared(w, q) ==> Cleared(w', q)
    ensures Hide(w'.root) == Hide(w.root)
  {
    FinishedIsStopped(c, w, w', p, o);
    StoppedDiscard(c, w, w', p);
    var d := RootDepth(c, w.effects, p, 1);
    if d.Some? {
      CoveredDiscard(c, w, p, p[..d.value]);
    } else {
      TidyAtRoot(c, w, p);
      if Inspect(SlotsAt(w.root, p)) != Clear {
        assert Discardable(c, w, p);
        OwnedIsRefreshable(c, w, p);
      }
    }
  }

  lemma TidyAtRoot(c: Config, w: World, p: PackagePath)
    requires Tidy(c, w.effects, w.root, []) && Home(w.root, p, 0).Some?
    ensures SlotsTidy(c, w.effects, SlotsAt(w.root, p), p)
  {
    assert p[..0] == [];
    TidyAt(c, w.effects, w.root, p, 0);
  }

  lemma CoveredDiscard(c: Config, w: World, p: PackagePath, r: PackagePath)
    requires Orderable(c, w) && Ancestor(r, p) && RootDepth(c, w.effects, p, 1) == Some(|r|)
    requires TopRoot(c, w.effects, r) ==> Cleared(w, r)
    ensures NestedCleanup(c, w, p) == Covered && Cleared(w, p)
  {
    var l := w.effects;
    assert forall j :: 0 < j < |r| ==> r[..j] == p[..j];
    assert RootDepth(c, l, r, 1).None?;
    var i :| 0 <= i < |l| && l[i] == Effect(r, false, true);
    assert Mentions(l, r) by { assert l[i].path == r; }
    assert Housed(c, w, r);
    TidyAtRoot(c, w, r);
    HomeThrough(w.root, r, p, 0);
  }

  lemma DiscardLeaves(c: Config, w: World, w': World, p: PackagePath)
    requires Orderable(c, w) && Home(w.root, p, 0).Some? && Home(w'.root, p, 0).Some?
    requires Framed(w.root, w'.root, p, 0) && w'.effects == w.effects && Owned(c, w')
    requires var s, t := SlotsAt(w.root, p), SlotsAt(w'.root, p);
      t.leaf == s.leaf && SlotsTidy(c, w.effects, t, p) && (s.displaced.None? ==> t.displaced.None?)
    ensures Orderable(c, w') && forall q: PackagePath :: Cleared(w, q) ==> Cleared(w', q)
  {
    assert p[..0] == [];
    TidyFramed(c, w.effects, w.root, w'.root, p, 0);
    forall q: PackagePath
      ensures Cleared(w, q) ==> Cleared(w', q)
      ensures Housed(c, w, q) ==> Housed(c, w', q)
    {
      if q != p {
        OtherSlots(w, w', p, q);
      }
    }
  }

  /* ---------- all of them ---------- */

  ghost predicate Discards(c: Config, vs: seq<World>, ps: seq<PackagePath>, os: seq<Outcome>) {
    && |vs| == |ps| + 1 && |os| == |ps|
    && (forall i :: 0 <= i < |ps| ==> DiscardRel(c, vs[i], vs[i + 1], ps[i], os[i], false))
  }

  /** A directory is discarded before anything beneath it. */
  predicate ParentsFirst(ps: seq<PackagePath>) {
    forall i, j :: 0 <= i < j < |ps| ==> !Ancestor(ps[j], ps[i])
  }

  lemma {:induction false} DiscardedSoFar(c: Config, vs: seq<World>, ps: seq<PackagePath>, os: seq<Outcome>, k: nat)
    requires WellFormed(c) && Discards(c, vs, ps, os) && ParentsFirst(ps) && Orderable(c, vs[0]) && k <= |ps|
    requires Steady(c, vs[0])
    requires forall q: PackagePath :: Mentions(vs[0].effects, q) <==> q in ps
    ensures Orderable(c, vs[k]) && Steady(c, vs[k]) && vs[k].effects == vs[0].effects && Hide(vs[k].root) == Hide(vs[0].root)
    ensures forall i :: 0 <= i < k ==> os[i] == Completed && Cleared(vs[k], ps[i])
  {
    hide Cleared, DiscardRel, Orderable, Steady, Hide, RootDepth, WellFormed;
    if k == 0 {
    } else {
      DiscardedSoFar(c, vs, ps, os, k - 1);
      var v, p := vs[k - 1], ps[k - 1];
      forall r: PackagePath | TopRoot(c, v.effects, r) && Ancestor(r, p)
        ensures Cleared(v, r)
      {
        var i :| 0 <= i < |v.effects| && v.effects[i] == Effect(r, false, true);
        assert Mentions(vs[0].effects, r);
        var j :| 0 <= j < |ps| && ps[j] == r;
        assert j < k - 1;
      }
      DiscardOne(c, v, vs[k], p, os[k - 1]);
      FinishedIsSteady(c, v, vs[k], p, os[k - 1]);
    }
  }

  /** Without a reachable sidecar no reserved name is left. */
  lemma {:induction false} BareFrom(c: Config, w: World, n: Node, at: Path)
    requires At(w.root, at, 0) == Some(n) && Tidy(c, w.effects, n, at)
    requires forall q: PackagePath :: Mentions(w.effects, q) ==> Cleared(w, q)
    ensures Bare(n)
    decreases n
  {
    if n.Leaf? {
    } else {
      forall x | x in n.entries
        ensures x.Plain? && Bare(n.entries[x])
      {
        if x.Plain? {
          AtParent(w.root, at, x.text, 0, n);
          BareFrom(c, w, n.entries[x], at + [x.text]);
        } else {
          var q := x.path;
          assert q == at + [q[|q| - 1]];
          AtParent(w.root, at, q[|q| - 1], 0, n);
        }
      }
    }
  }

  lemma {:induction false} AtParent(root: Node, at: Path, s: string, i: nat, n: Node)
    requires i <= |at| && At(root, at, i) == Some(n) && n.Dir?
    ensures Home(root, at + [s], i) == Some(n)
    ensures At(root, at + [s], i) == Find(n.entries, Plain(s))
    decreases |at| - i
  {
    if i < |at| {
      AtParent(root.entries[Plain(at[i])], at, s, i + 1, n);
    }
  }

  /** Once every path of a run is discarded, a directory before what is beneath it and without a
      failing call: every discard completed, no reserved name is left anywhere, and the target
      shows the same as when the run ended. */
  lemma WholeRunCleanup(c: Config, ws: seq<World>, ops: seq<Op>, vs: seq<World>, ps: seq<PackagePath>, os: seq<Outcome>)
    requires WellFormed(c) && Run(c, ws, ops) && Orderly(c, ops) && Fresh(c, ws[0]) && Bare(ws[0].root)
    requires Discards(c, vs, ps, os) && vs[0] == ws[|ops|] && ParentsFirst(ps)
    requires forall q: PackagePath :: q in ps <==> exists i :: 0 <= i < |ops| && ops[i].path == q
    ensures forall i :: 0 <= i < |ps| ==> os[i] == Completed
    ensures Bare(vs[|ps|].root)
    ensures Hide(vs[|ps|].root) == Hide(ws[|ops|].root)
    ensures Steady(c, vs[|ps|])
  {
    RunLeaves(c, ws, ops, |ops|);
    assert ops[..|ops|] == ops;
    var l := Record(ops);
    forall q: PackagePath
      ensures Mentions(l, q) <==> q in ps
    {
      if Mentions(l, q) {
        var i :| 0 <= i < |l| && l[i].path == q;
        assert ops[i].path == q;
      }
      if q in ps {
        var i :| 0 <= i < |ops| && ops[i].path == q;
        assert l[i].path == q;
      }
    }
    DiscardedSoFar(c, vs, ps, os, |ps|);
    var v := vs[|ps|];
    BareFrom(c, v, v.root, []);
  }

  /* ---------- all of them, with attempts cut short ---------- */

  /** One attempt to discard a path; without a failing call it returns `outcome`, otherwise it may have
      stopped anywhere. */
  datatype Discarding = Discarding(path: PackagePath, undisturbed: bool, outcome: Outcome)

  ghost predicate Attempts(c: Config, vs: seq<World>, ts: seq<Discarding>) {
    && |vs| == |ts| + 1
    && forall i :: 0 <= i < |ts| ==>
         if ts[i].undisturbed then DiscardRel(c, vs[i], vs[i + 1], ts[i].path, ts[i].outcome, false)
         else DiscardStopped(c, vs[i], vs[i + 1].root, ts[i].path) && vs[i + 1].effects == vs[i].effects
  }

  /** Every path of the ledger has an undisturbed attempt, at the place `final` names, and that of a
      directory comes before those of the paths beneath it. */
  ghost predicate Scheduled(l: Ledger, ts: seq<Discarding>, final: map<PackagePath, nat>) {
    && (forall q: PackagePath :: Mentions(l, q) ==>
          q in final && final[q] < |ts| && ts[final[q]].path == q && ts[final[q]].undisturbed)
    && (forall q: PackagePath, r: PackagePath :: Mentions(l, q) && Mentions(l, r) && Ancestor(r, q) ==> final[r] < final[q])
  }

  lemma {:induction false} AttemptedSoFar(c: Config, vs: seq<World>, ts: seq<Discarding>, final: map<PackagePath, nat>, k: nat)
    requires WellFormed(c) && Attempts(c, vs, ts) && Orderable(c, vs[0]) && Scheduled(vs[0].effects, ts, final) && k <= |ts|
    ensures Orderable(c, vs[k]) && vs[k].effects == vs[0].effects && Hide(vs[k].root) == Hide(vs[0].root)
    ensures forall q: PackagePath :: Mentions(vs[0].effects, q) && final[q] < k ==> ts[final[q]].outcome == Completed && Cleared(vs[k], q)
  {
    hide Cleared, DiscardRel, DiscardStopped, Orderable, Hide, RootDepth, WellFormed, Mentions;
    if k == 0 {
    } else {
      AttemptedSoFar(c, vs, ts, final, k - 1);
      var v, p := vs[k - 1], ts[k - 1].path;
      if ts[k - 1].undisturbed {
        FinishedIsStopped(c, v, vs[k], p, ts[k - 1].outcome);
      }
      StoppedDiscard(c, v, vs[k], p);
      if Mentions(v.effects, p) && final[p] == k - 1 {
        forall r: PackagePath | TopRoot(c, v.effects, r) && Ancestor(r, p)
          ensures Cleared(v, r)
        {
          TopIsMentioned(c, v.effects, r);
        }
        DiscardOne(c, v, vs[k], p, ts[k - 1].outcome);
      }
    }
  }

  lemma TopIsMentioned(c: Config, l: Ledger, r: PackagePath)
    requires TopRoot(c, l, r)
    ensures Mentions(l, r)
  {
    var i :| 0 <= i < |l| && l[i] == Effect(r, false, true);
    assert l[i].path == r;
  }

  /** After a run, any number of attempts to discard its paths may stop at any call, in any order; once
      every path has had an attempt without a failing call, a directory before what is beneath it, those
      have completed, no reserved name is left anywhere, and the target shows the same as before. */
  lemma CutShortCleanup(c: Config, ws: seq<World>, ops: seq<Op>, vs: seq<World>, ts: seq<Discarding>, final: map<PackagePath, nat>)
    requires WellFormed(c) && Run(c, ws, ops) && Orderly(c, ops) && Fresh(c, ws[0]) && Bare(ws[0].root)
    requires Attempts(c, vs, ts) && vs[0] == ws[|ops|] && Scheduled(Record(ops), ts, final)
    ensures forall i :: 0 <= i < |ops| ==> ops[i].path in final && final[ops[i].path] < |ts| && ts[final[ops[i].path]].outcome == Completed
    ensures Bare(vs[|ts|].root)
    ensures Hide(vs[|ts|].root) == Hide(ws[|ops|].root)
  {
    RunLeaves(c, ws, ops, |ops|);
    assert ops[..|ops|] == ops;
    var l := Record(ops);
    AttemptedSoFar(c, vs, ts, final, |ts|);
    forall i | 0 <= i < |ops|
      ensures Mentions(l, ops[i].path)
    {
      assert l[i].path == ops[i].path;
    }
    var v := vs[|ts|];
    BareFrom(c, v, v.root, []);
  }
}
