/** Rebuilding the ledger of an attempt in a new process. */
module Restart {
  import opened Tree
  import opened Workspace
  import opened Namespace
  import opened Guard
  import opened Undo
  import opened ActiveNamespaces
  import opened RunCleanup

  /** A recorded result; what the plan asked of its path is looked up in the frozen request. */
  datatype Result = Result(path: PackagePath, outcome: Outcome)

  predicate ChangesTarget(plan: Planned, o: Outcome) {
    o == Completed && plan != LeaveAlone
  }

  /** The ledger after the first `k` results; none when one of them is refused. */
  function ReplayAll(c: Config, root: Node, plans: map<PackagePath, Planned>, results: seq<Result>, k: nat): Option<Ledger>
    requires k <= |results|
  {
    if k == 0 then Some([])
    else
      var l := ReplayAll(c, root, plans, results, k - 1);
      var r := results[k - 1];
      if l.None? then None
      else if r.path in plans && ChangesTarget(plans[r.path], r.outcome) then Replay(c, root, l.value, r.path, plans[r.path], r.outcome)
      else l
  }

  /** Binding the active namespace of a reopened attempt: every recorded result that changed the
      target is checked against it and entered again, in order. */
  method EnsureActiveNamespace(c: Config, target: Node, next: nat, plans: map<PackagePath, Planned>, results: seq<Result>)
    returns (ok: bool, bound: ActiveNamespace)
    requires forall i :: 0 <= i < |results| ==> results[i].outcome != Threw
    ensures bound.Valid() && fresh(bound) && bound.config == c && bound.root == target
    ensures ok == ReplayAll(c, target, plans, results, |results|).Some?
    ensures ok ==> bound.effects == ReplayAll(c, target, plans, results, |results|).value
  {
    hide Replay, Established;
    bound := new ActiveNamespace(c, target, next);
    for i := 0 to |results|
      invariant bound.Valid() && fresh(bound) && bound.config == c && bound.root == target
      invariant ReplayAll(c, target, plans, results, i) == Some(bound.effects)
    {
      var r := results[i];
      if r.path in plans && ChangesTarget(plans[r.path], r.outcome) {
        ok := bound.RetainCompletedEffect(r.path, plans[r.path], r.outcome);
        if !ok {
          Refused(c, target, plans, results, i + 1, |results|);
          return;
        }
      }
    }
    ok := true;
  }

  lemma {:induction false} Refused(c: Config, root: Node, plans: map<PackagePath, Planned>, results: seq<Result>, k: nat, n: nat)
    requires k <= n <= |results| && ReplayAll(c, root, plans, results, k).None?
    ensures ReplayAll(c, root, plans, results, n).None?
  {
    if k < n {
      Refused(c, root, plans, results, k, n - 1);
    }
  }

  /* ---------- what a run keeps visible ---------- */

  /** A completed operation takes no object away but the one at its own path. */
  lemma ObjectStays(c: Config, w: World, w': World, q: PackagePath, incoming: bool, a: Path)
    requires WellFormed(c) && Step(c, w, w', q, incoming) && Recoverable(c, q)
    requires a != q && a != [] && At(w.root, a, 0).Some?
    ensures At(w'.root, a, 0).Some?
    ensures !Ancestor(a, q) ==> At(w'.root, a, 0) == At(w.root, a, 0)
    ensures Ancestor(a, q) ==> At(w.root, a, 0).value.Dir? && At(w'.root, a, 0).value.Dir?
  {
    StepLedger(c, w, w', q, incoming);
    SettledIsFramed(Goals(c, w'.effects), w.root, w'.root, q, 0);
    if Ancestor(a, q) {
      assert a == q[..|a|];
      FramedAbove(w.root, w'.root, q, |a|, 0);
    } else {
      StepElsewhere(c, w, w', q, incoming, a);
      if Ancestor(q, a) {
        AtThrough(w.root, q, a, 0);
        AtThrough(w'.root, q, a, 0);
        AtHome(w.root, q, 0);
        AtHome(w'.root, q, 0);
        AdmittedDirectory(c, w, w', q, incoming);
        var n := SlotsAt(w.root, q).leaf.value;
        assert Plain(a[|q|]) in n.entries;
        assert incoming && UpdatesInPlace(EntryAt(c, q).value, SlotsAt(w.root, q));
      }
    }
  }

  /** The incoming object of an activated path is in place and nothing is prepared beside it. */
  ghost predicate Visible(c: Config, w: World, p: PackagePath) {
    && p in c.admitted && Activated(w.effects, p)
    && EntryAt(c, p).Some? && Matches(w.root, p, EntryAt(c, p).value, true)
    && Home(w.root, p, 0).Some? && SlotsAt(w.root, p).prepared.None?
  }

  lemma PublishVisible(c: Config, w: World, w': World, p: PackagePath)
    requires WellFormed(c) && PublishCompleted(c, w, w', p) && Recoverable(c, p)
    requires EntryAt(c, p).value.kind.HardlinkEntry? ==> Visible(c, w, EntryAt(c, p).value.anchor)
    ensures Visible(c, w', p)
  {
    var e, s := EntryAt(c, p).value, SlotsAt(w.root, p);
    StepLedger(c, w, w', p, true);
    AtHome(w.root, p, 0);
    AtHome(w'.root, p, 0);
    if s.leaf.Some? {
      AdmittedLeaf(c, w, p);
    }
    if e.kind.HardlinkEntry? {
      ObjectStays(c, w, w', p, true, e.anchor);
    }
  }

  lemma VisibleStep(c: Config, w: World, w': World, q: PackagePath, incoming: bool, p: PackagePath)
    requires WellFormed(c) && Steady(c, w) && Step(c, w, w', q, incoming) && Recoverable(c, q)
    requires Visible(c, w, p) && p != q
    requires EntryAt(c, p).value.kind.HardlinkEntry? ==> EntryAt(c, p).value.anchor != q
    ensures Visible(c, w', p)
  {
    hide Settled, Framed, PublishCompleted, RemoveCompleted, Recoverable, WellFormed;
    var e := EntryAt(c, p).value;
    StepLedger(c, w, w', q, incoming);
    ActivatedAfter(w.effects, q, incoming, p);
    SettledIsFramed(Goals(c, w'.effects), w.root, w'.root, q, 0);
    ObjectStays(c, w, w', q, incoming, p);
    if e.kind.DirectoryEntry? {
      SteadyStep(c, w, w', q, incoming);
      assert GoalOf(c, w'.effects, p) == Some(At(w'.root, p, 0).value.meta);
    }
    if e.kind.HardlinkEntry? {
      ObjectStays(c, w, w', q, incoming, e.anchor);
    }
    AtHome(w'.root, p, 0);
    if q <= p {
      HomeThrough(w.root, q, p, 0);
      HomeThrough(w'.root, q, p, 0);
      KeptDirectory(c, w, w', q, incoming, p);
    } else {
      FramedSlotsBeside(w.root, w'.root, q, p, 0);
    }
  }

  /** A directory that still shows something is only ever updated in place. */
  lemma KeptDirectory(c: Config, w: World, w': World, q: PackagePath, incoming: bool, a: Path)
    requires WellFormed(c) && Step(c, w, w', q, incoming) && Recoverable(c, q)
    requires Ancestor(q, a) && At(w.root, a, 0).Some?
    ensures SlotsAt(w.root, q).leaf.Some? && SlotsAt(w'.root, q).leaf.Some?
    ensures SlotsAt(w.root, q).leaf.value.Dir? && SlotsAt(w'.root, q).leaf.value.Dir?
    ensures SlotsAt(w'.root, q).leaf.value.entries == SlotsAt(w.root, q).leaf.value.entries
  {
    AtThrough(w.root, q, a, 0);
    AtHome(w.root, q, 0);
    AdmittedDirectory(c, w, w', q, incoming);
    assert Plain(a[|q|]) in SlotsAt(w.root, q).leaf.value.entries;
  }

  /** The first missing name on the way to `p` belongs to an object that was moved aside. */
  ghost predicate Gone(n: Node, p: Path, i: nat)
    requires i < |p|
    decreases |p| - i
  {
    && n.Dir?
    && if Plain(p[i]) in n.entries then i + 1 < |p| && Gone(n.entries[Plain(p[i])], p, i + 1)
       else Displaced(p[..i + 1]) in n.entries
  }

  lemma {:induction false} GoneIsEstablished(n: Node, p: PackagePath, i: nat)
    requires i < |p| && Gone(n, p, i)
    ensures WalkTo(n, p, i) != NotDirectory
    ensures Home(n, p, i).Some? ==> SlotsIn(Home(n, p, i).value.entries, p).leaf.None?
    decreases |p| - i
  {
    if Plain(p[i]) in n.entries {
      GoneIsEstablished(n.entries[Plain(p[i])], p, i + 1);
    }
  }

  /** What a change of the slots of `q` must respect for `p` to stay gone. */
  ghost predicate StaysGone(s: Slots, t: Slots, q: Path, p: Path) {
    Ancestor(q, p) ==>
      && (s.leaf.None? ==> s.displaced.None?)
      && (s.leaf.Some? && Gone(s.leaf.value, p, |q|) ==>
            if t.leaf.Some? then Gone(t.leaf.value, p, |q|) else t.displaced.Some?)
  }

  lemma {:induction false} GoneFramed(a: Node, b: Node, q: Path, p: Path, i: nat)
    requires i < |q| && i < |p| && p[..i] == q[..i] && q != p
    requires Framed(a, b, q, i) && Gone(a, p, i)
    requires Home(a, q, i).Some? && Home(b, q, i).Some?
    requires StaysGone(SlotsIn(Home(a, q, i).value.entries, q), SlotsIn(Home(b, q, i).value.entries, q), q, p)
    ensures Gone(b, p, i)
    decreases |q| - i
  {
    var leaf, aside := Plain(p[i]), Displaced(p[..i + 1]);
    assert i + 1 == |p| ==> p == p[..i] + [p[i]];
    assert i + 1 == |q| ==> q == q[..i] + [q[i]];
    if i + 1 == |q| {
      if p[i] == q[i] {
        assert p[..i + 1] == q;
      } else {
        assert p[..i + 1] != q by { assert p[..i + 1][i] != q[i]; }
        SameEntry(a.entries, b.entries, Names(q), leaf);
        SameEntry(a.entries, b.entries, Names(q), aside);
      }
    } else {
      var x := Plain(q[i]);
      SameEntry(a.entries, b.entries, {x}, aside);
      if p[i] == q[i] {
        assert p[..i + 1] == q[..i + 1];
        GoneFramed(a.entries[x], b.entries[x], q, p, i + 1);
      } else {
        SameEntry(a.entries, b.entries, {x}, leaf);
      }
    }
  }

  lemma GoneStep(c: Config, w: World, w': World, q: PackagePath, incoming: bool, p: PackagePath)
    requires WellFormed(c) && Step(c, w, w', q, incoming) && Recoverable(c, q)
    requires q != p && Gone(w.root, p, 0)
    ensures Gone(w'.root, p, 0)
  {
    StepLedger(c, w, w', q, incoming);
    SettledIsFramed(Goals(c, w'.effects), w.root, w'.root, q, 0);
    var s := SlotsAt(w.root, q);
    AtHome(w.root, q, 0);
    if Ancestor(q, p) && s.leaf.Some? && Gone(s.leaf.value, p, |q|) {
      AdmittedDirectory(c, w, w', q, incoming);
      assert !Removable(s.leaf);
      GoneMeta(s.leaf.value, p, |q|);
    }
    GoneFramed(w.root, w'.root, q, p, 0);
  }

  lemma GoneMeta(n: Node, p: Path, i: nat)
    requires i < |p| && Gone(n, p, i)
    ensures forall m :: Gone(WithMeta(n, m), p, i)
  {
  }

  lemma RemovedIsGone(c: Config, w: World, w': World, p: PackagePath)
    requires WellFormed(c) && RemoveCompleted(c, w, w', p) && Recoverable(c, p)
    ensures Gone(w'.root, p, 0)
  {
    HomeIsGone(w'.root, p, 0);
  }

  lemma {:induction false} HomeIsGone(n: Node, p: PackagePath, i: nat)
    requires i < |p| && Home(n, p, i).Some?
    requires var s := SlotsIn(Home(n, p, i).value.entries, p); s.leaf.None? && s.displaced.Some?
    ensures Gone(n, p, i)
    decreases |p| - i
  {
    if i + 1 == |p| {
      assert p[..i + 1] == p;
    } else {
      HomeIsGone(n.entries[Plain(p[i])], p, i + 1);
    }
  }

  /* ---------- the rebuilt ledger ---------- */

  /** A hard-link anchor is published before its members. */
  ghost predicate AnchorsFirst(c: Config, ops: seq<Op>) {
    forall i :: 0 <= i < |ops| && ops[i].incoming && EntryAt(c, ops[i].path).Some? && EntryAt(c, ops[i].path).value.kind.HardlinkEntry? ==>
      exists j :: 0 <= j < i && ops[j].incoming && ops[j].path == EntryAt(c, ops[i].path).value.anchor
  }

  ghost predicate Restartable(c: Config, ws: seq<World>, ops: seq<Op>) {
    && WellFormed(c)
    && Run(c, ws, ops) && Orderly(c, ops) && AnchorsFirst(c, ops) && Fresh(c, ws[0])
  }

  /** Every effect of a run stays visible until the run ends. */
  lemma {:induction false} EffectsStay(c: Config, ws: seq<World>, ops: seq<Op>, i: nat, k: nat)
    requires Restartable(c, ws, ops) && i < k <= |ops|
    ensures if ops[i].incoming then Visible(c, ws[k], ops[i].path) else Gone(ws[k].root, ops[i].path, 0)
    decreases k, i
  {
    hide Gone, Steady, WellFormed, Recoverable, RemoveCompleted, Matches;
    var p := ops[i].path;
    FreshIsSteady(c, ws[0]);
    RunSteady(c, ws, ops, k - 1);
    var e := EntryAt(c, p);
    if ops[i].incoming && e.Some? && e.value.kind.HardlinkEntry? {
      var j :| 0 <= j < i && ops[j].incoming && ops[j].path == e.value.anchor;
      if k == i + 1 {
        EffectsStay(c, ws, ops, j, i);
      }
    }
    if k == i + 1 {
      if ops[i].incoming {
        PublishVisible(c, ws[i], ws[k], p);
      } else {
        RemovedIsGone(c, ws[i], ws[k], p);
      }
    } else {
      EffectsStay(c, ws, ops, i, k - 1);
      if ops[i].incoming {
        VisibleStep(c, ws[k - 1], ws[k], ops[k - 1].path, ops[k - 1].incoming, p);
      } else {
        GoneStep(c, ws[k - 1], ws[k], ops[k - 1].path, ops[k - 1].incoming, p);
      }
    }
  }

  /** The operations among the first `k` recorded results, in order. */
  function Performed(plans: map<PackagePath, Planned>, results: seq<Result>, k: nat): seq<Op>
    requires k <= |results|
  {
    if k == 0 then []
    else
      var r := results[k - 1];
      if r.path in plans && ChangesTarget(plans[r.path], r.outcome)
      then Performed(plans, results, k - 1) + [Op(r.path, plans[r.path].ActivateIncoming?)]
      else Performed(plans, results, k - 1)
  }

  lemma {:induction false} PerformedGrows(plans: map<PackagePath, Planned>, results: seq<Result>, j: nat, k: nat)
    requires j <= k <= |results|
    ensures Performed(plans, results, j) <= Performed(plans, results, k)
  {
    if j < k {
      PerformedGrows(plans, results, j, k - 1);
    }
  }

  lemma {:induction false} ReplayedSoFar(c: Config, ws: seq<World>, ops: seq<Op>, plans: map<PackagePath, Planned>,
                                         results: seq<Result>, k: nat)
    requires Restartable(c, ws, ops) && Performed(plans, results, |results|) == ops && k <= |results|
    ensures ReplayAll(c, ws[|ops|].root, plans, results, k) == Some(Record(Performed(plans, results, k)))
  {
    assert Record([]) == [];
    if k == 0 {
    } else {
      ReplayedSoFar(c, ws, ops, plans, results, k - 1);
      PerformedGrows(plans, results, k, |results|);
      var r := results[k - 1];
      if r.path in plans && ChangesTarget(plans[r.path], r.outcome) {
        var i := |Performed(plans, results, k - 1)|;
        assert ops[i] == Performed(plans, results, k)[i];
        assert Performed(plans, results, k - 1) == ops[..i] && Performed(plans, results, k) == ops[..i + 1];
        ReplayOne(c, ws, ops, i, plans[r.path]);
      }
    }
  }

  lemma ReplayOne(c: Config, ws: seq<World>, ops: seq<Op>, i: nat, plan: Planned)
    requires Restartable(c, ws, ops) && i < |ops| && plan != LeaveAlone && plan.ActivateIncoming? == ops[i].incoming
    ensures Replay(c, ws[|ops|].root, Record(ops[..i]), ops[i].path, plan, Completed) == Some(Record(ops[..i + 1]))
  {
    hide Step, Fresh, AnchorsFirst, WellFormed, Recoverable, Gone, Matches, Settled, Goals, Admissible, GoalOf;
    var l, p, incoming := Record(ops[..i]), ops[i].path, ops[i].incoming;
    EffectsStay(c, ws, ops, i, |ops|);
    StepLedger(c, ws[i], ws[i + 1], p, incoming);
    if !incoming {
      GoneIsEstablished(ws[|ops|].root, p, 0);
    }
    assert Established(c, ws[|ops|].root, p, incoming);
    assert !Mentions(l, p);
    assert Retain(l, p, incoming) == l + [Effect(p, incoming, false)];
    assert Complete(Retain(l, p, incoming), p) == Record(ops[..i + 1]);
  }

  /** After a crash between operations, replaying the recorded results succeeds and rebuilds the
      very ledger the lost process held, in the same order. */
  lemma RestartRebuilds(c: Config, ws: seq<World>, ops: seq<Op>, plans: map<PackagePath, Planned>, results: seq<Result>)
    requires Restartable(c, ws, ops) && Performed(plans, results, |results|) == ops
    ensures ReplayAll(c, ws[|ops|].root, plans, results, |results|) == Some(ws[|ops|].effects)
  {
    ReplayedSoFar(c, ws, ops, plans, results, |results|);
    RunLedger(c, ws, ops, |ops|);
    assert ops[..|ops|] == ops;
  }
}
