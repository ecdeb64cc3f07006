/** Recovering a whole run in reverse order, also when its last operation was cut short. */
module WholeRun {
  import opened Tree
  import opened Workspace
  import opened Namespace
  import opened Drift
  import opened Erasure
  import opened Undo
  import opened Crash
  import opened RunCleanup
  import opened Restart

  /* ---------- every operation completed ---------- */

  /** A new hard link whose anchor an earlier operation of the run published joins an anchor that
      carries its metadata. */
  lemma AnchorInPlace(c: Config, ws: seq<World>, ops: seq<Op>, j: nat, i: nat, op: Op)
    requires Restartable(c, ws, ops) && j < i <= |ops|
    requires EntryAt(c, op.path).Some? && EntryAt(c, op.path).value.kind.HardlinkEntry?
    requires ops[j] == Op(EntryAt(c, op.path).value.anchor, true)
    ensures Anchored(c, ws[i], op.path, op.incoming)
  {
    EffectsStay(c, ws, ops, j, i);
  }

  /** When anchors are published before their members, this holds of every operation. */
  lemma OrderAnchors(c: Config, ws: seq<World>, ops: seq<Op>, i: nat)
    requires Restartable(c, ws, ops) && i < |ops|
    ensures Anchored(c, ws[i], ops[i].path, ops[i].incoming)
  {
    var e := EntryAt(c, ops[i].path);
    if ops[i].incoming && e.Some? && e.value.kind.HardlinkEntry? {
      var j :| 0 <= j < i && ops[j].incoming && ops[j].path == e.value.anchor;
      AnchorInPlace(c, ws, ops, j, i, ops[i]);
    }
  }

  lemma LastAnchored(c: Config, ws: seq<World>, ops: seq<Op>, op: Op)
    requires Restartable(c, ws, ops) && AnchorsFirst(c, ops + [op])
    ensures Anchored(c, ws[|ops|], op.path, op.incoming)
  {
    var all, e := ops + [op], EntryAt(c, op.path);
    assert all[|ops|] == op;
    if op.incoming && e.Some? && e.value.kind.HardlinkEntry? {
      var j :| 0 <= j < |ops| && all[j].incoming && all[j].path == e.value.anchor;
      assert all[j] == ops[j];
      AnchorInPlace(c, ws, ops, j, |ops|, op);
    }
  }

  /** What recovering the paths of a run in reverse order restores. */
  ghost predicate Reinstated(c: Config, before: Node, after: Node) {
    && Erase(after, [], c.admitted.Keys) == Erase(before, [], c.admitted.Keys)
    && (forall q: PackagePath :: q in c.admitted ==> Admit(after, q, c.admitted[q]) == Yes)
    && (Bare(before) ==> Bare(after))
  }

  lemma ErasedIsReinstated(c: Config, before: World, after: Node)
    requires Fresh(c, before) && Erase(after, [], c.admitted.Keys) == Erase(before.root, [], c.admitted.Keys)
    ensures Reinstated(c, before.root, after)
  {
    var tracked := c.admitted.Keys;
    forall q: PackagePath | q in c.admitted
      ensures Admit(after, q, c.admitted[q]) == Yes
    {
      EraseAdmit(after, before.root, q, c.admitted[q], tracked);
    }
    EraseBare(after, [], tracked);
    EraseBare(before.root, [], tracked);
  }

  /** Recovering the paths of a run in reverse order always completes, restores every admitted
      observation and every old object, and leaves no sidecar behind. */
  lemma WholeRunUndo(c: Config, ws: seq<World>, ops: seq<Op>, vs: seq<World>, os: seq<Outcome>)
    requires Restartable(c, ws, ops) && ActivatedFirst(ops)
    requires Rollback(c, vs, ops, os) && vs[|ops|] == ws[|ops|]
    ensures forall i :: 0 <= i < |ops| ==> os[i] == Completed
    ensures Reinstated(c, ws[0].root, vs[0].root)
  {
    RunLedger(c, ws, ops, |ops|);
    assert ops[..|ops|] == ops;
    forall i | 0 <= i < |ops|
      ensures Anchored(c, ws[i], ops[i].path, ops[i].incoming)
      ensures Agrees(c, ws[i], vs[|ops|].effects, ops[i].path, ops[i].incoming)
    {
      OrderAnchors(c, ws, ops, i);
      RunAgrees(c, ws, ops, i);
    }
    RollbackTo(c, ws, ops, vs, os, 0);
    ErasedIsReinstated(c, ws[0], vs[0].root);
  }

  /* ---------- the last operation was cut short ---------- */

  /** The ledger while an operation on `p` runs, or as a restart rebuilds it from the results before. */
  predicate During(l: Ledger, m: Ledger, p: PackagePath, incoming: bool) {
    m in {l, Retain(l, p, incoming), Complete(Retain(l, p, incoming), p)}
  }

  lemma DuringActivates(l: Ledger, m: Ledger, p: PackagePath, incoming: bool, q: PackagePath)
    requires During(l, m, p, incoming) && !Mentions(l, p)
    ensures Activated(m, q) <==> Activated(l, q) || (q == p && incoming && m == Complete(Retain(l, p, incoming), p))
    ensures m == l || (|m| == |l| + 1 && m[..|l|] == l && m[|l|].path == p)
  {
    var r := Retain(l, p, incoming);
    assert r == l + [Effect(p, incoming, false)];
    if m == Complete(r, p) && m != l {
      assert m == l + [Effect(p, incoming, true)];
    }
    assert Activated(m, q) ==> exists i :: 0 <= i < |m| && m[i] == Effect(q, true, true);
  }

  /** The ledger of the cut-short operation says of every earlier path what the run's own said. */
  lemma DuringAgrees(c: Config, ws: seq<World>, ops: seq<Op>, op: Op, m: Ledger, i: nat)
    requires Run(c, ws, ops) && DistinctPaths(ops + [op]) && ActivatedFirst(ops + [op]) && ws[0].effects == []
    requires During(Record(ops), m, op.path, op.incoming) && op.path in c.admitted && i < |ops|
    ensures Agrees(c, ws[i], m, ops[i].path, ops[i].incoming)
  {
    var l, p := Record(ops), ops[i].path;
    EarlierOps(ops, op);
    RunAgrees(c, ws, ops, i);
    DuringActivates(l, m, op.path, op.incoming, op.path);
    assert l[i] == Effect(p, ops[i].incoming, true) && m[i] == l[i];
    forall k | 0 < k < |p|
      ensures GoalOf(c, m, p[..k]) == GoalOf(c, l, p[..k])
    {
      assert Ancestor(p[..k], p);
      DuringActivates(l, m, op.path, op.incoming, p[..k]);
    }
  }

  lemma EarlierOps(ops: seq<Op>, op: Op)
    requires DistinctPaths(ops + [op]) && ActivatedFirst(ops + [op])
    ensures DistinctPaths(ops) && ActivatedFirst(ops) && !Mentions(Record(ops), op.path)
    ensures op.incoming ==> forall i :: 0 <= i < |ops| ==> !Ancestor(op.path, ops[i].path)
  {
    var all := ops + [op];
    assert forall i :: 0 <= i < |ops| ==> all[i] == ops[i];
    assert all[|ops|] == op;
  }

  /** A drift that leaves every tracked directory its metadata, and every other its owner and mode. */
  lemma {:induction false} DriftErased(a: Node, b: Node, p: Path, i: nat, tracked: set<Path>)
    requires i < |p| && Drifted(a, b, p, i)
    requires forall k :: i <= k < |p| ==>
      var x, y := At(a, p[..k], i), At(b, p[..k], i);
      x.Some? && y.Some? && EraseMeta(x.value.meta, p[..k], tracked) == EraseMeta(y.value.meta, p[..k], tracked)
    ensures Erase(a, p[..i], tracked) == Erase(b, p[..i], tracked)
    decreases |p| - i
  {
    var at, x0 := p[..i], Plain(p[i]);
    var ea, eb := Erase(a, at, tracked), Erase(b, at, tracked);
    assert At(a, p[..i], i) == Some(a) && At(b, p[..i], i) == Some(b);
    assert at + [p[i]] == p[..i + 1];
    forall x
      ensures Find(ea.entries, x) == Find(eb.entries, x)
    {
      EraseEntry(a, at, tracked, x);
      EraseEntry(b, at, tracked, x);
      if i + 1 < |p| {
        if x == x0 {
          forall k | i + 1 <= k < |p|
            ensures At(a.entries[x], p[..k], i + 1) == At(a, p[..k], i) && At(b.entries[x], p[..k], i + 1) == At(b, p[..k], i)
          {
          }
          DriftErased(a.entries[x], b.entries[x], p, i + 1, tracked);
        } else {
          SameEntry(a.entries, b.entries, {x0}, x);
        }
      }
    }
    SameMap(ea.entries, eb.entries);
  }

  /** The target a recovered operation leaves equals the one it started from, up to untracked times. */
  lemma RecoveredErased(c: Config, w: World, v: World, p: PackagePath)
    requires Steady(c, w) && forall i :: 0 <= i < |w.effects| ==> w.effects[i].path in c.admitted
    requires Home(w.root, p, 0).Some? && SameAbove(w.effects, v.effects, p)
    requires Drifted(w.root, v.root, p, 0) && Guarded(c, w.effects, w.root, v.root, p) && GoalsAbove(c, v.effects, v.root, p)
    ensures Erase(v.root, [], c.admitted.Keys) == Erase(w.root, [], c.admitted.Keys)
  {
    var tracked := c.admitted.Keys;
    SteadyIsOwned(c, w);
    OwnedIsRefreshable(c, w, p);
    assert p[..0] == [];
    forall k | 0 <= k < |p|
      ensures At(w.root, p[..k], 0).Some? && At(v.root, p[..k], 0).Some?
      ensures EraseMeta(At(w.root, p[..k], 0).value.meta, p[..k], tracked) == EraseMeta(At(v.root, p[..k], 0).value.meta, p[..k], tracked)
    {
      DriftedAbove(w.root, v.root, p, k, 0);
      var q := p[..k];
      if q in tracked {
        assert k > 0;
        assert GoalOf(c, w.effects, q) == Some(At(w.root, q, 0).value.meta);
        assert q in Goals(c, v.effects);
        assert Carries(At(v.root, p[..k], 0), Goals(c, v.effects)[p[..k]]);
      } else {
        assert !IsActivated(w.effects, q);
        assert OwnersNear(At(w.root, p[..k], 0), At(v.root, p[..k], 0), Aim(c, w.effects, q));
      }
    }
    DriftErased(w.root, v.root, p, 0, tracked);
  }

  lemma DuringRemembers(l: Ledger, m: Ledger, p: PackagePath)
    requires During(l, m, p, true) && !Mentions(l, p) && m != l
    ensures Remembered(m, p)
  {
    var r := Retain(l, p, true);
    assert r == l + [Effect(p, true, false)];
    assert m[|l|].path == p && m[|l|].incoming;
    assert forall i :: 0 <= i < |l| ==> m[i].path == l[i].path && l[i].path != p;
  }

  /** After a run, stop one more operation at any call, stop any number of its recoveries at any call, let
      one of them run without a failing call, and then recover the paths of the run in reverse order: every
      recovery completes and the target is as it was before the run.  A change that left no sidecar needs
      the ledger that was in force when it stopped. */
  lemma CutShortRunUndo(c: Config, ws: seq<World>, ops: seq<Op>, a: Act, xs: seq<World>, o: Outcome,
                        vs: seq<World>, os: seq<Outcome>)
    requires Restartable(c, ws, ops) && Starts(c, ws[|ops|], a) && Recoverable(c, a.path)
    requires var all := ops + [Op(a.path, a.Publish?)]; DistinctPaths(all) && ActivatedFirst(all) && AnchorsFirst(c, all)
    requires |xs| > 0 && Stopped(c, ws[|ops|], xs[0].root, a)
    requires forall i :: 0 <= i < |xs| ==>
      && During(ws[|ops|].effects, xs[i].effects, a.path, a.Publish?)
      && (Displacing(c, ws[|ops|], a) || xs[i].effects != ws[|ops|].effects)
    requires forall i :: 0 <= i < |xs| - 1 ==> RecoverStopped(c, xs[i], xs[i + 1].root, a.path)
    requires Rollback(c, vs, ops, os) && RecoverRel(c, xs[|xs| - 1], vs[|ops|], a.path, o, false)
    ensures o == Completed && forall i :: 0 <= i < |ops| ==> os[i] == Completed
    ensures Reinstated(c, ws[0].root, vs[0].root)
  {
    hide Step, Stopped, RecoverStopped, RecoverRel, Erase, Guarded, GoalsAbove, Drifted, Agrees, Admit, Remembered, AnchorsFirst;
    var w, p, op := ws[|ops|], a.path, Op(a.path, a.Publish?);
    EarlierOps(ops, op);
    LastAnchored(c, ws, ops, op);
    RunLedger(c, ws, ops, |ops|);
    assert ops[..|ops|] == ops;
    FreshIsSteady(c, ws[0]);
    RunSteady(c, ws, ops, |ops|);
    LedgerAdmitted(c, ws, ops);
    assert Admissible(c, w, p) && Home(w.root, p, 0).Some?;
    SteadyIsOwned(c, w);
    OwnedIsRefreshable(c, w, p);
    forall i | 0 <= i < |xs|
      ensures SameAbove(w.effects, xs[i].effects, p)
      ensures Displacing(c, w, a) || Remembered(xs[i].effects, p)
    {
      DuringAbove(w.effects, xs[i].effects, p, a.Publish?);
      if !Displacing(c, w, a) {
        DuringRemembers(w.effects, xs[i].effects, p);
      }
    }
    CrashedOperationRecovers(c, w, a, xs, vs[|ops|], o);
    RecoveredErased(c, w, vs[|ops|], p);
    forall i | 0 <= i < |ops|
      ensures Anchored(c, ws[i], ops[i].path, ops[i].incoming)
      ensures Agrees(c, ws[i], vs[|ops|].effects, ops[i].path, ops[i].incoming)
    {
      OrderAnchors(c, ws, ops, i);
      DuringAgrees(c, ws, ops, op, vs[|ops|].effects, i);
    }
    RollbackTo(c, ws, ops, vs, os, 0);
    ErasedIsReinstated(c, ws[0], vs[0].root);
  }

  lemma DuringAbove(l: Ledger, m: Ledger, p: PackagePath, incoming: bool)
    requires During(l, m, p, incoming) && !Mentions(l, p)
    ensures SameAbove(l, m, p)
  {
    forall k | 0 < k < |p|
      ensures Activated(l, p[..k]) <==> Activated(m, p[..k])
    {
      DuringActivates(l, m, p, incoming, p[..k]);
    }
  }

  lemma LedgerAdmitted(c: Config, ws: seq<World>, ops: seq<Op>)
    requires Run(c, ws, ops) && DistinctPaths(ops) && ws[0].effects == []
    ensures forall i :: 0 <= i < |ops| ==> ws[|ops|].effects == Record(ops) && Record(ops)[i].path in c.admitted
  {
    RunLedger(c, ws, ops, |ops|);
    assert ops[..|ops|] == ops;
    forall i | 0 <= i < |ops|
      ensures Record(ops)[i].path in c.admitted
    {
      StepLedger(c, ws[i], ws[i + 1], ops[i].path, ops[i].incoming);
    }
  }
}
