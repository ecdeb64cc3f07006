/** The attempt-bound mechanism itself: a target tree, a ledger of effects, and the operations
  that run the workspace programs on them. */
module ActiveNamespaces {
  import opened Tree
  import opened Workspace
  import opened Namespace
  import opened Drift
  import opened Guard
  import opened Registration
  import opened Discard

  datatype RefreshResult = Done | NotDone | RefreshThrew

  lemma SetMetaNoop(b: Node, p: Path, k: nat, i: nat, m: Meta)
    requires i <= k < |p| && Home(b, p, i).Some?
    requires At(b, p[..k], i).Some? && At(b, p[..k], i).value.Dir? && At(b, p[..k], i).value.meta == m
    ensures SetMeta(b, p, k, i, m) == b
    decreases |p| - i
  {
    if i < k {
      SetMetaNoop(b.entries[Plain(p[i])], p, k, i + 1, m);
    }
  }

  /** The check an image must pass before a namespace is bound to it. */
  method ValidateHardLinks(image: map<PackagePath, Entry>) returns (ok: bool)
    ensures ok == GroupedImage(Some(image))
  {
    var todo := image.Keys;
    while todo != {}
      invariant todo <= image.Keys
      invariant forall q :: q in image && q !in todo && image[q].kind.HardlinkEntry? ==> Grouped(image, image[q])
    {
      var q :| q in todo;
      todo := todo - {q};
      if image[q].kind.HardlinkEntry? && !Grouped(image, image[q]) {
        return false;
      }
    }
    return true;
  }

  datatype Contents = Empty | RecoveryWorkspaceOnly | NonEmpty | Unclear

  class ActiveNamespace {
    const config: Config
    var root: Node
    var effects: Ledger
    var next: nat
    var faulted: bool
    /** The directories the last operation handed to the durability authority. */
    var handed: set<Path>
    /** The target before the last operation and after each of its calls: where a crash can leave it. */
    ghost var trail: set<Node>
    /** A call of the last publication that was to undo an earlier one has failed. */
    ghost var stuck: bool

    ghost predicate Valid()
      reads this
    {
      && Distinct(effects)
      && (forall i :: 0 <= i < |effects| ==> effects[i].path in config.admitted)
    }

    ghost function State(): World
      reads this
    {
      World(root, effects, next)
    }

    constructor (c: Config, target: Node, n: nat)
      ensures Valid() && config == c && State() == World(target, [], n)
    {
      config, root, effects, next, faulted, handed, trail, stuck := c, target, [], n, false, {}, {target}, false;
    }

    method RetainDirty(q: Path)
      modifies this`handed
      ensures handed == old(handed) + {q}
    {
      handed := handed + {q};
    }

    /* ---------- ledger ---------- */

    method RetainEffect(p: PackagePath, incoming: bool) returns (ok: bool)
      requires Valid() && p in config.admitted
      modifies this`effects
      ensures Valid()
      ensures ok == !Contradicts(old(effects), p, incoming)
      ensures effects == if ok then Retain(old(effects), p, incoming) else old(effects)
    {
      for i := 0 to |effects|
        invariant forall j :: 0 <= j < i ==> effects[j].path != p
      {
        if effects[i].path == p {
          return effects[i].incoming == incoming;
        }
      }
      effects := effects + [Effect(p, incoming, false)];
      return true;
    }

    method CompleteEffect(p: PackagePath)
      requires Valid() && Mentions(effects, p)
      modifies this`effects
      ensures Valid() && effects == Complete(old(effects), p)
    {
      var i := 0;
      while effects[i].path != p
        invariant i < |effects|
        invariant forall j :: 0 <= j < i ==> effects[j].path != p
        decreases |effects| - i
      {
        i := i + 1;
      }
      effects := effects[i := effects[i].(completed := true)];
    }

    /* ---------- the directories above a changed path ---------- */

    /** Every target recorded since `before` is `start` with directories above `p` refreshed. */
    ghost predicate Recorded(before: set<Node>, start: Node, p: PackagePath)
      reads this
    {
      forall r :: r in trail ==> r in before || Refreshing(config, effects, start, r, p)
    }

    method SetTime(p: PackagePath, k: nat, m: Meta, ghost start: Node, ghost goals: map<Path, Meta>)
      requires 0 < k < |p| && Refreshed(goals, start, root, p, 0)
      requires OwnerGoals(config, effects, goals[p[..k] := m], start, p)
      modifies this`root, this`trail
      ensures Refreshed(goals[p[..k] := m], start, root, p, 0) && Refreshing(config, effects, start, root, p)
      ensures trail == old(trail) + {root}
    {
      SetMetaRefreshed(goals, start, root, p, k, 0, m);
      root := SetMeta(root, p, k, 0, m);
      trail := trail + {root};
      RefreshedIsRefreshing(config, effects, goals[p[..k] := m], start, root, p);
    }

    /** The owner, the mode and the time of an activated directory, one call each. */
    method ApplyMetadata(p: PackagePath, k: nat, m: Meta, ghost start: Node, ghost goals: map<Path, Meta>) returns (ok: bool)
      requires 0 < k < |p| && Refreshed(goals, start, root, p, 0)
      requires Activated(effects, p[..k]) && GoalOf(config, effects, p[..k]) == Some(m) && OwnerGoals(config, effects, goals, start, p)
      modifies this`root, this`faulted, this`trail
      ensures Refreshing(config, effects, start, root, p) && Recorded(old(trail), start, p)
      ensures old(root) in old(trail) ==> root in trail && old(trail) <= trail
      ensures ok ==> faulted == old(faulted) && Refreshed(goals[p[..k] := m], start, root, p, 0)
      ensures ok ==> OwnerGoals(config, effects, goals[p[..k] := m], start, p)
      ensures !ok ==> faulted
    {
      hide Refreshed, Refreshing, SetMeta;
      RefreshedIsRefreshing(config, effects, goals, start, root, p);
      if * { faulted := true; return false; }
      var owned := HeldMeta(p, k, start, goals).(uid := m.uid, gid := m.gid);
      SetTime(p, k, owned, start, goals);
      if * { faulted := true; return false; }
      var moded := owned.(mode := m.mode);
      SetTime(p, k, moded, start, goals[p[..k] := owned]);
      assert goals[p[..k] := owned][p[..k] := moded] == goals[p[..k] := moded];
      if * { faulted := true; return false; }
      SetTime(p, k, m, start, goals[p[..k] := moded]);
      assert goals[p[..k] := moded][p[..k] := m] == goals[p[..k] := m];
      return true;
    }

    /** The metadata of a directory above `p`. */
    function HeldMeta(p: PackagePath, k: nat, ghost start: Node, ghost goals: map<Path, Meta>): (m: Meta)
      requires 0 < k < |p| && Refreshed(goals, start, root, p, 0) && OwnerGoals(config, effects, goals, start, p)
      reads this
      ensures At(start, p[..k], 0).Some? && Near(At(start, p[..k], 0).value.meta, m, Aim(config, effects, p[..k]))
    {
      RefreshedAbove(goals, start, root, p, k, 0);
      At(root, p[..k], 0).value.meta
    }

    /** On the way of a refresh that began at `start`: the directories named in `goals` have theirs. */
    ghost predicate Midway(p: PackagePath, start: Node, goals: map<Path, Meta>, before: set<Node>)
      reads this
    {
      && Refreshed(goals, start, root, p, 0) && OwnerGoals(config, effects, goals, start, p)
      && Recorded(before, start, p) && root in trail && before <= trail
      && GoalsHanded(goals, start, p, handed)
      && (forall q: Path :: q in goals ==> q != [] && GoalOf(config, effects, q) == Some(goals[q]))
    }

    /** An admitted directory whose owner and mode are as admitted gets its admitted time back. */
    method RestoreAdmitted(p: PackagePath, q: PackagePath, fact: Fact, ghost start: Node, ghost goals: map<Path, Meta>, ghost before: set<Node>)
      returns (r: RefreshResult)
      requires Ancestor(q, p) && PresentAt(config, q) && !Activated(effects, q) && config.admitted[q].fact == fact
      requires q !in goals && Midway(p, start, goals, before)
      modifies this`root, this`faulted, this`trail, this`handed
      ensures Refreshing(config, effects, start, root, p) && Recorded(before, start, p) && root in trail && before <= trail
      ensures r == Done ==> fact.Folder? && At(start, q, 0).Some? && SameOwner(At(start, q, 0).value.meta, fact.meta)
      ensures r == Done ==> Midway(p, start, goals[q := fact.meta], before) && faulted == old(faulted)
      ensures r == Done ==> handed == old(handed) + if At(start, q, 0).value.meta == fact.meta then {} else {q}
      ensures r != Done ==> root == old(root) && handed == old(handed)
      ensures r == RefreshThrew ==> Misrecorded(config, effects, p)
      ensures r != Done ==> faulted || !Refreshable(config, effects, start, p)
      ensures old(faulted) ==> faulted
    {
      hide Refreshing, Drifted, Home, Refreshed, SetMeta, Refreshable;
      assert p[..|q|] == q;
      RefreshedIsRefreshing(config, effects, goals, start, root, p);
      RefreshedAbove(goals, start, root, p, |q|, 0);
      RefreshedIsDrifted(goals, start, root, p, 0);
      DriftedHome(start, root, p, 0);
      if * { faulted := true; return NotDone; }
      if fact.File? {
        NotRefreshable(p, start, q);
        assert MisrecordedAt(config, effects, p[..|q|]);
        return RefreshThrew;
      }
      var current := At(root, q, 0).value.meta;
      if !SameOwner(current, fact.meta) {
        NotRefreshable(p, start, q);
        return NotDone;
      }
      if current.mtime == fact.meta.mtime {
        SetMetaNoop(root, p, |q|, 0, fact.meta);
        SetMetaRefreshed(goals, start, root, p, |q|, 0, fact.meta);
      } else {
        if * { faulted := true; return NotDone; }
        SetTime(p, |q|, fact.meta, start, goals);
        RetainDirty(q);
      }
      return Done;
    }

    /** The directories that were activated, in the order of the ledger. */
    method RefreshActivated(p: PackagePath, ghost start: Node, ghost before: set<Node>) returns (r: RefreshResult, ghost goals: map<Path, Meta>)
      requires Valid() && config.image.Some? && Midway(p, start, map[], before)
      modifies this`root, this`faulted, this`trail, this`handed
      ensures r == Done ==> Midway(p, start, goals, before) && ActivatedAbove(p, goals, |effects|) && faulted == old(faulted)
      ensures r == Done ==> forall q: Path :: q in goals ==> q != [] && Activated(effects, q)
      ensures r != Done ==> Refreshing(config, effects, start, root, p) && Recorded(before, start, p) && root in trail && before <= trail
      ensures r != Done ==> faulted || !Refreshable(config, effects, start, p)
      ensures HandedTracked(old(handed))
      ensures old(faulted) ==> faulted
      ensures r == RefreshThrew ==> Misrecorded(config, effects, p)
    {
      hide Refreshed, Refreshing, SetMeta, Refreshable, OwnerGoals;
      goals := map[];
      for i := 0 to |effects|
        invariant Midway(p, start, goals, before) && faulted == old(faulted)
        invariant forall q: Path :: q in goals ==> q != [] && Activated(effects, q)
        invariant ActivatedAbove(p, goals, i) && HandedTracked(old(handed))
      {
        var e := effects[i];
        if e.incoming && e.completed && Ancestor(e.path, p) {
          assert Activated(effects, e.path) by { assert e == Effect(e.path, true, true); }
          RefreshedIsRefreshing(config, effects, goals, start, root, p);
          assert p[..|e.path|] == e.path;
          var entry := EntryAt(config, e.path);
          if entry.None? || !entry.value.kind.DirectoryEntry? {
            NotRefreshable(p, start, e.path);
            assert MisrecordedAt(config, effects, p[..|e.path|]);
            return RefreshThrew, goals;
          }
          if * { faulted := true; return NotDone, goals; }
          var applied := ApplyMetadata(p, |e.path|, entry.value.meta, start, goals);
          if !applied {
            return NotDone, goals;
          }
          RetainDirty(e.path);
          goals := goals[p[..|e.path|] := entry.value.meta];
        }
      }
      return Done, goals;
    }

    /** Whatever was handed over since is a directory that has metadata to carry. */
    ghost predicate HandedTracked(before: set<Path>)
      reads this
    {
      before <= handed && forall q :: q in handed ==> q in before || q in Goals(config, effects)
    }

    lemma NotRefreshable(p: PackagePath, start: Node, q: PackagePath)
      requires Ancestor(q, p) && !AncestorRefreshable(config, effects, At(start, q, 0), q)
      ensures !Refreshable(config, effects, start, p)
    {
      assert p[..|q|] == q;
    }

    method RefreshAncestors(p: PackagePath) returns (r: RefreshResult)
      requires Valid() && Home(root, p, 0).Some? && root in trail
      modifies this`root, this`faulted, this`trail, this`handed
      ensures Refreshing(config, effects, old(root), root, p) && Recorded(old(trail), old(root), p)
      ensures root in trail && old(trail) <= trail && HandedTracked(old(handed))
      ensures r == Done ==> Refreshed(Goals(config, effects), old(root), root, p, 0) && AboveHanded(old(root), root, p, |p|, handed)
      ensures !faulted && Refreshable(config, effects, old(root), p) ==> r == Done
      ensures old(faulted) ==> faulted
      ensures r == RefreshThrew ==> Misrecorded(config, effects, p)
    {
      hide Refreshed, Refreshing, Drifted, SetMeta, Refreshable, AncestorRefreshable, OwnerGoals, GoalsHanded, AboveHanded;
      ghost var start, before := root, trail;
      ghost var goals: map<Path, Meta> := map[];
      RefreshedNothing(root, p, 0);
      NothingYet(p, start);
      RefreshedIsRefreshing(config, effects, goals, start, root, p);
      if config.image.Some? {
        r, goals := RefreshActivated(p, start, before);
        if r != Done {
          return;
        }
      }
      r := RefreshAdmitted(p, start, before, goals);
    }

    lemma NothingYet(p: PackagePath, start: Node)
      ensures OwnerGoals(config, effects, map[], start, p) && GoalsHanded(map[], start, p, handed)
    {
    }

    /** The admitted directories that were not activated, in any order. */
    method RefreshAdmitted(p: PackagePath, ghost start: Node, ghost before: set<Node>, ghost activated: map<Path, Meta>)
      returns (r: RefreshResult)
      requires Valid() && Midway(p, start, activated, before)
      requires config.image.Some? ==> ActivatedAbove(p, activated, |effects|)
      requires forall q: Path :: q in activated ==> q != [] && Activated(effects, q)
      modifies this`root, this`faulted, this`trail, this`handed
      ensures Refreshing(config, effects, start, root, p) && Recorded(before, start, p)
      ensures root in trail && before <= trail && HandedTracked(old(handed))
      ensures r == Done ==> Refreshed(Goals(config, effects), start, root, p, 0) && AboveHanded(start, root, p, |p|, handed)
      ensures r != Done ==> faulted || !Refreshable(config, effects, start, p)
      ensures r == Done ==> faulted == old(faulted)
      ensures old(faulted) ==> faulted
      ensures r == RefreshThrew ==> Misrecorded(config, effects, p)
    {
      hide Refreshed, Refreshing, Refreshable, OwnerGoals, AboveHanded, Midway, Recorded;
      ghost var goals := activated;
      var todo := config.admitted.Keys;
      while todo != {}
        invariant todo <= config.admitted.Keys
        invariant Midway(p, start, goals, before) && faulted == old(faulted) && HandedTracked(old(handed))
        invariant config.image.Some? ==> ActivatedAbove(p, goals, |effects|)
        invariant forall q :: q in goals && !Activated(effects, q) ==> q in config.admitted && q !in todo
        invariant forall q :: q in config.admitted && q !in todo && Ancestor(q, p) && !Activated(effects, q) && PresentAt(config, q) ==> q in goals
      {
        var q :| q in todo;
        todo := todo - {q};
        if Ancestor(q, p) && PresentAt(config, q) && !Activated(effects, q) {
          r := RestoreAdmitted(p, q, config.admitted[q].fact, start, goals, before);
          if r != Done {
            return;
          }
          goals := goals[q := config.admitted[q].fact.meta];
        }
      }
      MidwayEnds(p, start, goals, before);
      return Done;
    }

    lemma MidwayEnds(p: PackagePath, start: Node, goals: map<Path, Meta>, before: set<Node>)
      requires Valid() && Midway(p, start, goals, before)
      requires config.image.Some? ==> ActivatedAbove(p, goals, |effects|)
      requires forall q :: q in goals && !Activated(effects, q) ==> q in config.admitted
      requires forall q :: q in config.admitted && Ancestor(q, p) && !Activated(effects, q) && PresentAt(config, q) ==> q in goals
      ensures Refreshing(config, effects, start, root, p) && Recorded(before, start, p) && root in trail && before <= trail
      ensures Refreshed(Goals(config, effects), start, root, p, 0) && AboveHanded(start, root, p, |p|, handed)
    {
      hide Refreshed, Refreshing, OwnerGoals, AboveHanded, GoalsHanded, Goals;
      RefreshedIsRefreshing(config, effects, goals, start, root, p);
      RefreshedHanded(goals, start, root, p, handed);
      FullyRefreshed(p, goals);
      RefreshedAgree(goals, Goals(config, effects), start, root, p, 0);
    }

    /** The directories above `p` activated by the first `n` effects have their goal. */
    ghost predicate ActivatedAbove(p: PackagePath, goals: map<Path, Meta>, n: nat)
      reads this
    {
      forall j :: 0 <= j < n && j < |effects| && effects[j].incoming && effects[j].completed && Ancestor(effects[j].path, p) ==>
        effects[j].path in goals
    }

    lemma FullyRefreshed(p: PackagePath, goals: map<Path, Meta>)
      requires Valid()
      requires forall q: Path :: q in goals ==> q != [] && GoalOf(config, effects, q) == Some(goals[q])
      requires config.image.Some? ==> ActivatedAbove(p, goals, |effects|)
      requires forall q :: q in goals && !Activated(effects, q) ==> q in config.admitted
      requires forall q :: q in config.admitted && Ancestor(q, p) && !Activated(effects, q) && PresentAt(config, q) ==> q in goals
      ensures forall k :: 0 <= k < |p| ==>
        && (p[..k] in goals <==> p[..k] in Goals(config, effects))
        && (p[..k] in goals ==> goals[p[..k]] == Goals(config, effects)[p[..k]])
    {
      forall k | 0 <= k < |p|
        ensures p[..k] in goals <==> p[..k] in Goals(config, effects)
        ensures p[..k] in goals ==> goals[p[..k]] == Goals(config, effects)[p[..k]]
      {
        var q := p[..k];
        if k > 0 {
          if Activated(effects, q) {
            var j :| 0 <= j < |effects| && effects[j] == Effect(q, true, true);
            assert effects[j].path in config.admitted;
            assert config.image.Some? ==> effects[j].path in goals;
          }
        } else {
          assert q == [];
        }
      }
    }

    /** Every target recorded since `before` is `start` with the slots `s` at `p`, and refreshed above. */
    ghost predicate Settling(before: set<Node>, start: Node, p: PackagePath, s: Slots)
      reads this
    {
      forall r :: r in trail ==> r in before || Touched(config, effects, start, r, p, s)
    }

    /** The refresh after a change of the slots of `p` since `start`, and the outcome it decides. */
    method RefreshAbove(p: PackagePath, ghost start: Node) returns (o: Outcome)
      requires Valid() && Home(root, p, 0).Some? && Settled(map[], start, root, p, 0) && root in trail
      modifies this`root, this`faulted, this`trail, this`handed
      ensures HandedTracked(old(handed)) && (o == Completed ==> AboveHanded(old(root), root, p, |p|, handed))
      ensures o in {Completed, Indeterminate, Threw}
      ensures Drifted(old(root), root, p, 0)
      ensures Touched(config, effects, start, root, p, SlotsAt(old(root), p))
      ensures Settling(old(trail), start, p, SlotsAt(old(root), p)) && root in trail && old(trail) <= trail
      ensures o == Completed ==> Settled(Goals(config, effects), start, root, p, 0)
      ensures !faulted && Refreshable(config, effects, start, p) ==> o == Completed
      ensures old(faulted) ==> faulted
      ensures o == Threw ==> Misrecorded(config, effects, p)
    {
      var before := root;
      var r := RefreshAncestors(p);
      RefreshingTouched(config, effects, start, before, root, p);
      forall x | x in trail && Refreshing(config, effects, before, x, p)
        ensures Touched(config, effects, start, x, p, SlotsAt(before, p))
      {
        RefreshingTouched(config, effects, start, before, x, p);
      }
      if Refreshable(config, effects, start, p) {
        SettledGuarded(config, effects, start, before, p);
        GuardedRefreshable(config, effects, effects, start, before, p);
      }
      if r == Done {
        SettledRefreshed(Goals(config, effects), start, before, root, p, 0);
      }
      return match r case Done => Completed case NotDone => Indeterminate case RefreshThrew => Threw;
    }

    /* ---------- operations ---------- */

    /** Every target recorded since `before` is `start` with one of the visited slots at `p`. */
    ghost predicate Running(before: set<Node>, start: Node, p: PackagePath, visited: set<Moment>)
      reads this
    {
      forall r :: r in trail ==> r in before || RanThrough(config, start, r, p, visited)
    }

    /** The target after the calls that ran on the slots of `p`, and the targets between them. */
    method Close(p: PackagePath, ws: PathWorkspace)
      requires Home(root, p, 0).Some? && ws.Now() in ws.visited
      modifies this`root, this`trail
      ensures root == Replace(old(root), p, 0, ws.slots, ws.mtime)
      ensures Settled(map[], old(root), root, p, 0)
      ensures Touched(config, [], old(root), root, p, ws.slots)
      ensures root in trail && old(trail) <= trail && Running(old(trail), old(root), p, ws.visited)
    {
      hide Framed, Settled, Guarded, Replace, Home;
      ReplaceSettled(root, p, 0, ws.slots, ws.mtime);
      ghost var start := root;
      forall m | m in ws.visited
        ensures RanThrough(config, start, Replace(start, p, 0, m.slots, m.mtime), p, ws.visited)
      {
        ReplaceTouched(config, [], start, p, m.slots, m.mtime);
      }
      ReplaceTouched(config, [], start, p, ws.slots, ws.mtime);
      trail := trail + set m | m in ws.visited :: Replace(start, p, 0, m.slots, m.mtime);
      root := Replace(root, p, 0, ws.slots, ws.mtime);
      assert root == Replace(start, p, 0, ws.Now().slots, ws.Now().mtime);
    }

    /** The ledger entry of a completed change of the slots of `p`, then the directories above it. */
    method Finish(p: PackagePath, incoming: bool, ghost start: Node, ghost l: Ledger, ghost slots: Slots, ghost mtime: Time,
                  ghost place: Path, ghost lost: bool) returns (o: Outcome)
      requires Valid() && p in config.admitted
      requires exists d :: Effect(p, incoming, d) in effects
      requires Home(start, p, 0).Some? && root == Replace(start, p, 0, slots, mtime) && Settled(map[], start, root, p, 0)
      requires Home(root, p, 0).Some? && SlotsAt(root, p) == slots && root in trail
      requires SameAbove(l, Complete(effects, p), p) && place in {p, Parent(p)}
      requires lost || Placed(SlotsAt(start, p), slots, mtime == Home(start, p, 0).value.meta.mtime, p, place, handed)
      modifies this`root, this`effects, this`faulted, this`trail, this`handed
      ensures Valid() && effects == Complete(old(effects), p)
      ensures o in {Completed, Indeterminate, Threw}
      ensures root in trail && old(trail) <= trail && forall r :: r in trail ==> r in old(trail) || Touched(config, l, start, r, p, slots)
      ensures Touched(config, l, start, root, p, slots)
      ensures o == Completed ==> Settled(Goals(config, effects), start, root, p, 0)
      ensures o == Completed ==> Accounted(start, root, p, place, handed, lost)
      ensures !faulted && Refreshable(config, effects, start, p) ==> o == Completed
      ensures old(faulted) ==> faulted
      ensures o == Threw ==> Misrecorded(config, effects, p)
    {
      hide Framed, Settled, Guarded, Home, Replace, Accounted, AboveHanded, Placed, Refreshable, Complete, Goals;
      ghost var changed, before := root, handed;
      CompleteEffect(p);
      o := RefreshAbove(p, start);
      forall r | Touched(config, effects, start, r, p, slots)
        ensures Touched(config, l, start, r, p, slots)
      {
        TouchedMore(config, effects, l, start, r, p, slots);
      }
      if o == Completed {
        PlacedMore(SlotsAt(start, p), slots, mtime == Home(start, p, 0).value.meta.mtime, p, place, before, handed);
        ChangeAccounted(start, changed, root, p, slots, mtime, place, handed, lost);
      }
    }

    method PublishIncoming(p: PackagePath) returns (o: Outcome)
      requires Valid()
      modifies this
      ensures Valid()
      ensures PublishRel(config, old(State()), State(), p, o, faulted)
      ensures o == Completed ==>
        Accounted(old(root), root, p, PublicationPlace(config, old(State()), p), handed, faulted && !PublishesDescriptor(config, p))
      ensures old(root) in trail && root in trail
      ensures forall r :: r in trail ==> PublishStopped(config, old(State()), r, p)
      ensures o == Failed && !stuck && Home(old(root), p, 0).Some? ==> Home(root, p, 0).Some? && SlotsAt(root, p) == SlotsAt(old(root), p)
    {
      faulted, handed, trail, stuck := false, {}, {root}, false;
      if EntryAt(config, p).None? || p !in config.admitted || Home(root, p, 0).None? {
        return Threw;
      }
      if Inspect(SlotsAt(root, p)) != Clear {
        Untouching(config, effects, root, p);
        return Failed;
      }
      var admission := Admit(root, p, config.admitted[p]);
      if admission != Yes {
        return if admission == No then Indeterminate else Threw;
      }
      var retained := RetainEffect(p, true);
      if !retained {
        return Threw;
      }
      o := PublishAdmitted(p, EntryAt(config, p).value, old(effects));
    }

    method PublishAdmitted(p: PackagePath, e: Entry, ghost l: Ledger) returns (o: Outcome)
      requires Valid() && !faulted && trail == {root}
      requires PublishStarts(config, World(root, l, next), p) && EntryAt(config, p) == Some(e) && effects == Retain(l, p, true)
      modifies this
      ensures Valid()
      ensures PublishRel(config, World(old(root), l, old(next)), State(), p, o, faulted)
      ensures o == Completed ==>
        Accounted(old(root), root, p, PublicationPlace(config, World(old(root), l, old(next)), p), handed, faulted && !PublishesDescriptor(config, p))
      ensures old(root) in trail && root in trail
      ensures forall r :: r in trail ==> PublishStopped(config, World(old(root), l, old(next)), r, p)
      ensures o == Failed && !stuck ==> Home(root, p, 0).Some? && SlotsAt(root, p) == SlotsAt(old(root), p)
    {
      hide Framed, Settled, Guarded, Home, PublishedSlots, Publishes, MovesAside, Refreshable, Misrecorded;
      hide Accounted, AboveHanded, Placed, PublicationPlace, PublishesDescriptor, Replace, Goals;
      hide PublishFailure, UpdatesInPlace, Admit, PublishSpan;
      ghost var w := World(root, l, next);
      UnpublishedSpan(config, w, p);
      RetainMentions(l, p, true);
      RetainedAbove(l, p, true);
      Untouching(config, l, root, p);
      var ws := new PathWorkspace(SlotsAt(root, p), Home(root, p, 0).value.meta.mtime, next);
      o := RunPublication(ws, p, e, l);
      next := next + 1;
      faulted, stuck := ws.faulted, ws.stuck;
      Close(p, ws);
      forall r | r in trail
        ensures PublishStopped(config, w, r, p)
      {
        if r != w.root {
          var m :| m in ws.visited && Touched(config, [], w.root, r, p, m.slots);
          TouchedMore(config, [], l, w.root, r, p, m.slots);
        }
      }
      TouchedMore(config, [], l, w.root, root, p, ws.slots);
      if o == Completed {
        ghost var lost, place := faulted && !PublishesDescriptor(config, p), PublicationPlace(config, w, p);
        PublicationPlaces(config, w, p);
        o := Finish(p, true, w.root, l, ws.slots, ws.mtime, place, lost);
        if o == Completed {
          AccountedMore(w.root, root, p, place, handed, lost, faulted && !PublishesDescriptor(config, p));
        }
      }
    }

    /** The calls of a publication on the slots of its path. */
    method RunPublication(ws: PathWorkspace, p: PackagePath, e: Entry, ghost l: Ledger) returns (o: Outcome)
      requires PublishStarts(config, World(root, l, next), p) && EntryAt(config, p) == Some(e)
      requires ws.slots == SlotsAt(root, p) && ws.visited == {ws.Now()} && !ws.faulted && !ws.stuck
      modifies ws, this`handed
      ensures o == Completed && !(ws.faulted && !PublishesDescriptor(config, p)) ==>
        Placed(old(ws.slots), ws.slots, ws.mtime == old(ws.mtime), p, PublicationPlace(config, World(root, l, next), p), handed)
      ensures var w := World(root, l, next);
        && o in {Completed, Failed, Indeterminate, Threw}
        && (o == Completed ==> Publishes(config, w, p) && ws.slots == PublishedSlots(config, w, p, e))
        && (o == Failed ==> Untouched(old(ws.slots), ws.slots))
        && (!ws.faulted && Publishes(config, w, p) ==> o == Completed)
        && (!ws.faulted && !Publishes(config, w, p) ==> o == PublishFailure(config, p, root) && Untouched(old(ws.slots), ws.slots))
        && PublishSpan(config, w, p, ws.slots)
        && (forall m :: m in ws.visited ==> PublishSpan(config, w, p, m.slots))
      ensures ws.Now() in ws.visited
      ensures handed <= old(handed) + {PublicationPlace(config, World(root, l, next), p)} && (o != Completed ==> handed == old(handed))
      ensures o != Completed && (o == Failed || !UpdatesInPlace(e, old(ws.slots))) && !ws.stuck ==> ws.slots == old(ws.slots)
    {
      assert ws.slots.prepared.None? && ws.slots.displaced.None?;
      hide Admit, Contradicts, GroupedImage, Admissible, Inspect, PublishStarts;
      var s := ws.slots;
      if UpdatesInPlace(e, ws.slots) {
        o := ws.UpdateDirectory(e.meta);
        if o == Completed && ws.slots != s {
          RetainDirty(p);
        }
        return;
      }
      var built := PrepareIncoming(ws, e, next);
      if built != Built.Ready {
        return if built == Thrown then Threw else Failed;
      }
      o := ws.PublishPrepared(e.kind.DirectoryEntry?, p in config.captures);
      if o == Completed {
        RetainPublished(ws, p, e.kind.RegularEntry? || e.kind.DirectoryEntry?);
      }
    }

    /** The descriptor of the published object, when its preparation kept one, lies on the filesystem of
        the directory that holds its name; that of the directory is duplicated, and nobody is told when
        that fails. */
    method RetainPublished(ws: PathWorkspace, p: PackagePath, descriptor: bool)
      modifies ws`faulted, this`handed
      ensures old(handed) <= handed && (Parent(p) in handed || (ws.faulted && !descriptor))
      ensures old(ws.faulted) ==> ws.faulted
      ensures handed <= old(handed) + {Parent(p)}
    {
      if descriptor {
        RetainDirty(Parent(p));
      }
      if * {
        ws.faulted := true;
      } else {
        RetainDirty(Parent(p));
      }
    }

    /** One way of preparing an object for each type of entry. */
    method PrepareIncoming(ws: PathWorkspace, e: Entry, ino: nat) returns (b: Built)
      requires ws.slots.prepared.None?
      modifies ws
      ensures var w := World(root, [], ino);
        && (b == Built.Ready ==>
             && Preparable(config, w, e) && ws.faulted == old(ws.faulted)
             && ws.slots == old(ws.slots).(prepared := Incoming(w, e)))
        && (b != Built.Ready ==> Untouched(old(ws.slots), ws.slots) && Removable(ws.slots.prepared))
        && (!ws.faulted ==> (b == Built.Ready) == Preparable(config, w, e) && (b != Built.Ready ==> ws.slots == old(ws.slots)))
        && (!ws.faulted && b != Built.Ready ==>
             b == if e.kind.HardlinkEntry? && (e.anchor == [] || Home(root, e.anchor, 0).None?) then Thrown else NotReady)
      ensures b != Built.Ready && !ws.stuck ==> ws.slots == old(ws.slots)
      ensures old(ws.stuck) ==> ws.stuck
      ensures old(ws.faulted) ==> ws.faulted
      ensures old(ws.Now() in ws.visited) ==> ws.Now() in ws.visited
      ensures forall m :: m in ws.visited ==>
                || m in old(ws.visited)
                || (Untouched(old(ws.slots), m.slots) && Removable(m.slots.prepared))
    {
      if e.kind.HardlinkEntry? {
        if e.anchor == [] || Home(root, e.anchor, 0).None? {
          return Thrown;
        }
        var ok := ws.LinkPrepared(At(root, e.anchor, 0));
        return if ok then Built.Ready else NotReady;
      }
      if e.kind.RegularEntry? && !config.payloads {
        return NotReady;
      }
      var blank: Meta := *;
      var stages := Stages(e, ino, blank);
      var accept := e.kind.SymlinkEntry? ==> e.meta.mode == SYMLINK_MODE;
      b := ws.Prepare(stages, if e.kind.RegularEntry? then 1 else |stages|, e.kind.DirectoryEntry?, accept);
    }

    /** The path of the completed captured removal that a directory entry belongs to. */
    method CompletedCapturedRemovalChild(path: Path, x: Name) returns (r: Option<PackagePath>)
      ensures r.Some? <==> RecoveryChild(config, effects, path, x)
      ensures r.Some? ==> x == Displaced(r.value)
    {
      for i := 0 to |effects|
        invariant forall j :: 0 <= j < i ==>
          effects[j].incoming || !effects[j].completed || effects[j].path !in config.captures
          || path == [] || effects[j].path[..|effects[j].path| - 1] != path || x != Displaced(effects[j].path)
      {
        var e := effects[i];
        if e.incoming || !e.completed || e.path !in config.captures {
          continue;
        }
        if path == [] || e.path[..|e.path| - 1] != path {
          continue;
        }
        if x == Displaced(e.path) {
          assert Withdrawn(effects, e.path) by { assert e == Effect(e.path, false, true); }
          return Some(e.path);
        }
      }
      return None;
    }

    /** Entries are read in any order and reading stops at the first one that decides. */
    method LogicalDirectoryContents(entries: map<Name, Node>, path: PackagePath) returns (r: Contents)
      requires Valid()
      modifies this`faulted
      ensures r == Empty ==> entries == map[]
      ensures r == RecoveryWorkspaceOnly ==> entries != map[]
      ensures r in {Empty, RecoveryWorkspaceOnly} ==> LogicallyEmpty(config, effects, path, entries) && faulted == old(faulted)
      ensures r == NonEmpty ==> faulted == old(faulted) && HoldsForeign(config, effects, path, entries)
      ensures r == Unclear ==> faulted || HoldsMistyped(config, effects, path, entries)
      ensures !faulted ==> (r in {Empty, RecoveryWorkspaceOnly} <==> LogicallyEmpty(config, effects, path, entries))
      ensures old(faulted) ==> faulted
    {
      if * { faulted := true; return Unclear; }
      var todo := entries.Keys;
      while todo != {}
        invariant todo <= entries.Keys
        invariant faulted == old(faulted)
        invariant forall x :: x in entries && x !in todo ==> RecoveryChild(config, effects, path, x) && KindAgrees(config, x, entries[x])
      {
        var x :| x in todo;
        todo := todo - {x};
        var child := CompletedCapturedRemovalChild(path, x);
        if child.None? {
          return NonEmpty;
        }
        if !KindAgrees(config, x, entries[x]) {
          return Unclear;
        }
      }
      return if entries == map[] then Empty else RecoveryWorkspaceOnly;
    }

    method Remove(p: PackagePath, directory: bool) returns (o: Outcome)
      requires Valid()
      modifies this
      ensures Valid()
      ensures RemoveRel(config, old(State()), State(), p, directory, o, faulted)
      ensures o == Completed ==> Accounted(old(root), root, p, Parent(p), handed, false)
      ensures old(root) in trail && root in trail
      ensures forall r :: r in trail ==> RemoveStopped(config, old(State()), r, p, directory)
    {
      faulted, handed, trail := false, {}, {root};
      if !PresentAt(config, p) || config.admitted[p].fact.Folder? != directory || Home(root, p, 0).None? {
        return Threw;
      }
      if Inspect(SlotsAt(root, p)) != Clear {
        return Indeterminate;
      }
      var admission := Admit(root, p, config.admitted[p]);
      if admission != Yes {
        return if admission == No then Indeterminate else Threw;
      }
      var retained := RetainEffect(p, false);
      if !retained {
        return Threw;
      }
      o := RemoveAdmitted(p, directory, old(effects));
    }

    method RemoveAdmitted(p: PackagePath, directory: bool, ghost l: Ledger) returns (o: Outcome)
      requires Valid() && p in config.admitted && !faulted && trail == {root}
      requires RemoveStarts(config, World(root, l, next), p, directory) && effects == Retain(l, p, false)
      modifies this
      ensures Valid()
      ensures RemoveRun(config, World(old(root), l, old(next)), State(), p, directory, o, faulted)
      ensures o == Completed ==> Accounted(old(root), root, p, Parent(p), handed, false)
      ensures old(root) in trail && root in trail
      ensures forall r :: r in trail ==> RemoveStopped(config, World(old(root), l, old(next)), r, p, directory)
    {
      hide Framed, Settled, Guarded, Home, Misrecorded;
      ghost var w := World(root, l, next);
      RetainMentions(l, p, false);
      RetainedAbove(l, p, false);
      AdmittedLeaf(config, w, p);
      Untouching(config, l, root, p);
      RemovalLedger(config, w, p);
      var s := SlotsAt(root, p);
      var ws := new PathWorkspace(s, Home(root, p, 0).value.meta.mtime, next);
      o := RunRemoval(ws, p, directory);
      if o == Completed {
        Close(p, ws);
        forall r | r in trail
          ensures RemoveStopped(config, w, r, p, directory)
        {
          if r != w.root {
            var m :| m in ws.visited && Touched(config, [], w.root, r, p, m.slots);
            TouchedMore(config, [], l, w.root, r, p, m.slots);
          }
        }
        RetainDirty(Parent(p));
        o := Finish(p, false, w.root, l, ws.slots, ws.mtime, Parent(p), false);
      }
    }

    /** The single call that takes the admitted object out of the namespace. */
    method RunRemoval(ws: PathWorkspace, p: PackagePath, directory: bool) returns (o: Outcome)
      requires Valid() && Home(root, p, 0).Some? && ws.slots == SlotsAt(root, p)
      requires ws.visited == {ws.Now()} && !ws.faulted && !faulted && Inspect(ws.slots) == Clear
      requires ws.slots.leaf.Some? && ws.slots.leaf.value.Dir? == directory
      modifies ws, this`faulted
      ensures var w := World(root, effects, next);
        var s := old(ws.slots);
        && o in {Completed, Failed, ConditionalRetained, Indeterminate}
        && (o == Completed ==> RemovalAllowed(config, w, p) && ws.slots == RemovedSlots(config, p, s) && !faulted)
        && (o != Completed ==> ws.slots == s)
        && (o == ConditionalRetained ==> directory && !RemovalAllowed(config, w, p))
        && (!faulted && RemovalAllowed(config, w, p) ==> o == Completed)
        && (!faulted && !RemovalAllowed(config, w, p) ==> Stays(config, w, p, o))
        && (forall m :: m in ws.visited ==> m.slots in {s, ws.slots})
      ensures ws.Now() in ws.visited
    {
      var failure := Gone;
      if p in config.captures {
        if directory {
          var contents := LogicalDirectoryContents(ws.slots.leaf.value.entries, p);
          if contents == Unclear {
            return Indeterminate;
          }
          if contents == NonEmpty {
            return ConditionalRetained;
          }
        }
        var moved := ws.RenameAt(LeafName, DisplacedName);
        failure := if moved then Gone else Refused;
      } else {
        failure := ws.UnlinkAt(LeafName, directory);
      }
      faulted := ws.faulted;
      if failure == Gone {
        return Completed;
      }
      return if directory && failure == NotEmpty then ConditionalRetained else Failed;
    }

    /* ---------- recover ---------- */

    method Recover(p: PackagePath) returns (o: Outcome)
      requires Valid()
      modifies this
      ensures Valid()
      ensures RecoverRel(config, old(State()), State(), p, o, faulted)
      ensures o == Completed ==>
        Accounted(old(root), root, p, RecoveryPlace(config, old(State()), p), handed, RecoveryUnseen(config, old(State()), p, faulted))
      ensures o == Completed && Inspect(SlotsAt(old(root), p)) == PreparedOnly ==> handed <= Goals(config, effects).Keys
      ensures old(root) in trail && root in trail
      ensures forall r :: r in trail ==> RecoverStopped(config, old(State()), r, p)
    {
      hide Framed, Settled, Guarded, Home, RecoverRun, RecoverStopped, Accounted, RecoveryPlace, RecoveryUnseen;
      faulted, handed, trail := false, {}, {root};
      if p !in config.admitted || Home(root, p, 0).None? {
        NotOpened(config, State(), p);
        return Threw;
      }
      o := RecoverOpened(p);
    }

    method RecoverOpened(p: PackagePath) returns (o: Outcome)
      requires Valid() && p in config.admitted && Home(root, p, 0).Some? && !faulted && handed == {} && trail == {root}
      modifies this
      ensures Valid()
      ensures RecoverRun(config, old(State()), State(), p, o, faulted)
      ensures o == Completed ==>
        Accounted(old(root), root, p, RecoveryPlace(config, old(State()), p), handed, RecoveryUnseen(config, old(State()), p, faulted))
      ensures o == Completed && Inspect(SlotsAt(old(root), p)) == PreparedOnly ==> handed <= Goals(config, effects).Keys
      ensures old(root) in trail && root in trail
      ensures forall r :: r in trail ==> RecoverStopped(config, old(State()), r, p)
    {
      hide Framed, Settled, Guarded, Home, RecoverSpan, RecoverySlots, Goals, AboveHanded, Accounted, Placed, RecoveryPlace, RecoveryUnseen;
      hide RecoverRefusal, Misrecorded, Refreshable;
      ghost var w := State();
      Untouching(config, effects, root, p);
      UnrecoveredSpan(config, w, p);
      var ws := new PathWorkspace(SlotsAt(root, p), Home(root, p, 0).value.meta.mtime, next);
      var proceed;
      proceed, o := RunRecovery(ws, p);
      next := next + 1;
      faulted := ws.faulted;
      Close(p, ws);
      forall r | r in trail
        ensures RecoverStopped(config, w, r, p)
      {
        if r != w.root {
          var m :| m in ws.visited && Touched(config, [], w.root, r, p, m.slots);
          TouchedMore(config, [], w.effects, w.root, r, p, m.slots);
        }
      }
      TouchedMore(config, [], w.effects, w.root, root, p, ws.slots);
      if proceed {
        o := FinishRecovery(p, w, ws.slots, ws.mtime, ws.faulted);
      }
    }

    /** The admission check and the refresh after the calls of a recovery. */
    method FinishRecovery(p: PackagePath, ghost w: World, ghost slots: Slots, ghost mtime: Time, ghost less: bool) returns (o: Outcome)
      requires Valid() && p in config.admitted && Home(w.root, p, 0).Some? && w.effects == effects
      requires root == Replace(w.root, p, 0, slots, mtime) && Home(root, p, 0).Some? && SlotsAt(root, p) == slots
      requires Settled(map[], w.root, root, p, 0) && RecoverySlots(config, w, p) == Some(slots)
      requires root in trail && forall r :: r in trail ==> RecoverStopped(config, w, r, p)
      requires less ==> faulted
      requires !RecoveryUnseen(config, w, p, less) ==>
        Placed(SlotsAt(w.root, p), slots, mtime == Home(w.root, p, 0).value.meta.mtime, p, RecoveryPlace(config, w, p), handed)
      modifies this`root, this`faulted, this`trail, this`handed
      ensures o in {Completed, Indeterminate, Threw} && Home(root, p, 0).Some?
      ensures root in trail && old(trail) <= trail && forall r :: r in trail ==> RecoverStopped(config, w, r, p)
      ensures o == Completed ==> RecoverCompleted(config, w, State(), p)
      ensures !faulted && Recovers(config, w, p) && Refreshable(config, effects, w.root, p) ==> o == Completed
      ensures !Recovers(config, w, p) ==> o == RecoverRefusal(config, w, p)
      ensures o == Completed ==>
        Accounted(w.root, root, p, RecoveryPlace(config, w, p), handed, RecoveryUnseen(config, w, p, faulted))
      ensures HandedTracked(old(handed))
      ensures old(faulted) ==> faulted
      ensures Recovers(config, w, p) && o == Threw ==> Misrecorded(config, effects, p)
    {
      hide Framed, Settled, Guarded, Home, RecoverSpan, RecoverySlots, Goals, AboveHanded, Accounted, Placed, RecoveryPlace, RecoveryUnseen;
      ghost var changed, before := root, handed;
      ReplaceDrifted(w.root, p, 0, slots, mtime, Home(w.root, p, 0).value.meta.mtime);
      DriftedAdmit(root, AfterRecovery(config, w, p), p, config.admitted[p]);
      o := CompletedRecovery(p, w.root);
      if o == Completed {
        RecoveryPlaces(config, w, p, less, faulted);
        PlacedMore(SlotsAt(w.root, p), slots, mtime == Home(w.root, p, 0).value.meta.mtime, p, RecoveryPlace(config, w, p), before, handed);
        ChangeAccounted(w.root, changed, root, p, slots, mtime, RecoveryPlace(config, w, p), handed,
                        RecoveryUnseen(config, w, p, faulted));
      }
    }

    /** Recovery is only claimed once the admitted observation holds again. */
    method CompletedRecovery(p: PackagePath, ghost start: Node) returns (o: Outcome)
      requires Valid() && p in config.admitted && Home(root, p, 0).Some? && root in trail
      requires Settled(map[], start, root, p, 0)
      modifies this`root, this`faulted, this`trail, this`handed
      ensures HandedTracked(old(handed)) && (o == Completed ==> AboveHanded(old(root), root, p, |p|, handed))
      ensures o in {Completed, Indeterminate, Threw}
      ensures Touched(config, effects, start, root, p, SlotsAt(old(root), p))
      ensures Settling(old(trail), start, p, SlotsAt(old(root), p)) && root in trail && old(trail) <= trail
      ensures o == Completed ==> Admit(old(root), p, config.admitted[p]) == Yes
      ensures o == Completed ==> Admit(root, p, config.admitted[p]) == Yes
      ensures o == Completed ==> Settled(Goals(config, effects), start, root, p, 0)
      ensures !faulted && Admit(old(root), p, config.admitted[p]) == Yes && Refreshable(config, effects, start, p) ==> o == Completed
      ensures Admit(old(root), p, config.admitted[p]) == No ==> o == Indeterminate
      ensures Admit(old(root), p, config.admitted[p]) == Throws ==> o == Threw
      ensures old(faulted) ==> faulted
      ensures Admit(old(root), p, config.admitted[p]) == Yes && o == Threw ==> Misrecorded(config, effects, p)
    {
      SettledIsFramed(map[], start, root, p, 0);
      SettledGuarded(config, effects, start, root, p);
      var admission := Admit(root, p, config.admitted[p]);
      if admission != Yes {
        return if admission == No then Indeterminate else Threw;
      }
      ghost var before := root;
      o := RefreshAbove(p, start);
      DriftedAdmit(before, root, p, config.admitted[p]);
    }

    /** The calls of a recovery on the slots of its path. */
    method RunRecovery(ws: PathWorkspace, p: PackagePath) returns (proceed: bool, o: Outcome)
      requires p in config.admitted && Home(root, p, 0).Some?
      requires ws.slots == SlotsAt(root, p) && ws.visited == {ws.Now()} && !ws.faulted
      modifies ws, this`handed
      ensures proceed && !RecoveryUnseen(config, State(), p, ws.faulted) ==>
        Placed(old(ws.slots), ws.slots, ws.mtime == old(ws.mtime), p, RecoveryPlace(config, State(), p), handed)
      ensures Inspect(old(ws.slots)) == PreparedOnly ==> handed == old(handed)
      ensures !proceed ==> o in {Failed, Indeterminate, Threw}
      ensures proceed ==> RecoverySlots(config, State(), p) == Some(ws.slots)
      ensures !ws.faulted && RecoverySlots(config, State(), p).Some? ==> proceed
      ensures !ws.faulted && !proceed ==> o == RecoverRefusal(config, State(), p)
      ensures RecoverSpan(config, State(), p, ws.slots)
      ensures ws.Now() in ws.visited && forall m :: m in ws.visited ==> RecoverSpan(config, State(), p, m.slots)
      ensures handed <= old(handed) + {RecoveryPlace(config, State(), p)} && (!proceed ==> handed == old(handed))
    {
      o := Indeterminate;
      proceed := false;
      match Inspect(ws.slots)
      case Contradictory =>
      case PreparedOnly =>
        var r := ws.RemoveLeaf(PreparedName);
        proceed := r != RemovalRefused;
      case Clear =>
        proceed, o := RunClearRecovery(ws, p);
      case _ =>
        proceed := ws.RestoreDisplaced();
        if proceed {
          RetainDirty(Parent(p));
        }
    }

    /** No sidecar is left: recovery undoes what the ledger says was done in place or from nothing. */
    method RunClearRecovery(ws: PathWorkspace, p: PackagePath) returns (proceed: bool, o: Outcome)
      requires p in config.admitted && Home(root, p, 0).Some?
      requires ws.slots == SlotsAt(root, p) && Inspect(ws.slots) == Clear && !ws.faulted
      modifies ws, this`handed
      ensures proceed && !RecoveryUnseen(config, State(), p, ws.faulted) ==>
        Placed(old(ws.slots), ws.slots, ws.mtime == old(ws.mtime), p, RecoveryPlace(config, State(), p), handed)
      ensures !proceed ==> o in {Failed, Indeterminate, Threw}
      ensures proceed ==> RecoverySlots(config, State(), p) == Some(ws.slots)
      ensures !ws.faulted && RecoverySlots(config, State(), p).Some? ==> proceed
      ensures !ws.faulted && !proceed ==> o == RecoverRefusal(config, State(), p)
      ensures RecoverSpan(config, State(), p, ws.slots)
      ensures old(ws.Now() in ws.visited) ==> ws.Now() in ws.visited
      ensures forall m :: m in ws.visited ==> m in old(ws.visited) || RecoverSpan(config, State(), p, m.slots)
      ensures handed <= old(handed) + {RecoveryPlace(config, State(), p)} && (!proceed ==> handed == old(handed))
    {
      o := Indeterminate;
      proceed := false;
      var admission := Admit(root, p, config.admitted[p]);
      if admission == Yes {
        return true, o;
      }
      if admission == Throws {
        return false, Threw;
      }
      if !Mentions(effects, p) {
        return;
      }
      match config.admitted[p]
      case Unknown =>
      case Absent =>
        var e := EntryAt(config, p);
        if Contradicts(effects, p, true) || e.None? || !Matches(root, p, e.value, false) {
          return;
        }
        AtHome(root, p, 0);
        var r := ws.RemoveLeaf(LeafName);
        proceed := r != RemovalRefused;
        if proceed {
          RetainDirty(Parent(p));
        }
      case Present(fact, anchor) =>
        if p !in config.captures || !config.captures[p] {
          return;
        }
        if fact.Folder? && ws.slots.leaf.Some? && ws.slots.leaf.value.Dir? {
          var s := ws.slots;
          o := ws.UpdateDirectory(fact.meta);
          proceed := o == Completed;
          if proceed && ws.slots != s {
            RetainDirty(p);
          }
          return;
        }
        proceed, o := RebuildCaptured(ws, p, fact, anchor);
    }

    /** The captured object is made again and takes the place of whatever can be removed. */
    method RebuildCaptured(ws: PathWorkspace, p: PackagePath, fact: Fact, anchor: Option<PackagePath>) returns (proceed: bool, o: Outcome)
      requires p in config.admitted && config.admitted[p] == Present(fact, anchor) && Home(root, p, 0).Some?
      requires ws.slots == SlotsAt(root, p) && Inspect(ws.slots) == Clear && !ws.faulted && Rebuilds(config, State(), p)
      modifies ws, this`handed
      ensures proceed && !RecoveryUnseen(config, State(), p, ws.faulted) ==>
        Placed(old(ws.slots), ws.slots, ws.mtime == old(ws.mtime), p, RecoveryPlace(config, State(), p), handed)
      ensures !proceed ==> o in {Failed, Indeterminate, Threw}
      ensures proceed ==> RecoverySlots(config, State(), p) == Some(ws.slots)
      ensures !ws.faulted && RecoverySlots(config, State(), p).Some? ==> proceed
      ensures !ws.faulted && !proceed ==> o == RecoverRefusal(config, State(), p)
      ensures RecoverSpan(config, State(), p, ws.slots)
      ensures old(ws.Now() in ws.visited) ==> ws.Now() in ws.visited
      ensures forall m :: m in ws.visited ==> m in old(ws.visited) || RecoverSpan(config, State(), p, m.slots)
      ensures handed <= old(handed) + {RecoveryPlace(config, State(), p)} && (!proceed ==> handed == old(handed))
    {
      hide Admit;
      proceed := false;
      ThrownIsNotBuilt(config, State(), fact, anchor);
      var built := PrepareCapture(ws, fact, anchor);
      if built != Built.Ready {
        return false, if built == Thrown then Threw else Indeterminate;
      }
      o := ws.PublishRecovery(ws.slots.prepared.value.Dir?);
      proceed := o == Completed;
      if proceed {
        RetainPublished(ws, p, RecoversDescriptor(fact, anchor));
      }
    }

    method PrepareCapture(ws: PathWorkspace, fact: Fact, anchor: Option<PackagePath>) returns (b: Built)
      requires ws.slots.prepared.None?
      modifies ws
      ensures b == Built.Ready ==>
        && ws.slots == old(ws.slots).(prepared := Rebuilt(config, State(), fact, anchor))
        && ws.slots.prepared.Some? && Removable(ws.slots.prepared) && ws.faulted == old(ws.faulted)
      ensures !ws.faulted && Rebuilt(config, State(), fact, anchor).Some? ==> b == Built.Ready
      ensures !ws.faulted && b != Built.Ready ==> b == if RebuildThrows(config, root, fact, anchor) then Thrown else NotReady
      ensures (Untouched(old(ws.slots), ws.slots) && Removable(ws.slots.prepared)) || b == Built.Ready
      ensures old(ws.Now() in ws.visited) ==> ws.Now() in ws.visited
      ensures forall m :: m in ws.visited ==>
        m in old(ws.visited) || (Untouched(old(ws.slots), m.slots) && Removable(m.slots.prepared))
      ensures old(ws.faulted) ==> ws.faulted
    {
      if fact.File? && fact.kind == Regular && anchor.Some? {
        ThrownIsNotBuilt(config, State(), fact, anchor);
        if RebuildThrows(config, root, fact, anchor) {
          return Thrown;
        }
        var source := GroupSource(config, root, anchor.value);
        if source.None? {
          return NotReady;
        }
        var ok := ws.LinkPrepared(source);
        return if ok then Built.Ready else NotReady;
      }
      var e := EntryOf(fact);
      if e.None? {
        return Thrown;
      }
      var blank: Meta := *;
      var stages := Stages(e.value, next, blank);
      var accept := e.value.kind.SymlinkEntry? ==> fact.meta.mode == SYMLINK_MODE;
      b := ws.Prepare(stages, if e.value.kind.RegularEntry? then 1 else |stages|, e.value.kind.DirectoryEntry?, accept);
    }

    /* ---------- restart ---------- */

    /** One result of an earlier process; `ok` is false where the operation throws. */
    method RetainCompletedEffect(p: PackagePath, plan: Planned, o: Outcome) returns (ok: bool)
      requires Valid() && o != Threw
      modifies this`effects
      ensures Valid()
      ensures ok == Replay(config, root, old(effects), p, plan, o).Some?
      ensures effects == if ok then Replay(config, root, old(effects), p, plan, o).value else old(effects)
    {
      if p !in config.admitted {
        return false;
      }
      var incoming := plan.ActivateIncoming?;
      var removal := plan in {RemoveObserved, RemoveDirectoryIfEmpty};
      if !incoming && !removal {
        return true;
      }
      if o in {Failed, ConditionalRetained} {
        return true;
      }
      if o == Indeterminate {
        ok := RetainEffect(p, incoming);
        return;
      }
      var established := false;
      var walk := WalkTo(root, p, 0);
      if incoming {
        if walk != Opened || Inspect(SlotsAt(root, p)) == Contradictory || EntryAt(config, p).None? {
          return false;
        }
        established := Matches(root, p, EntryAt(config, p).value, true);
      } else if walk == Opened {
        if Inspect(SlotsAt(root, p)) == Contradictory {
          return false;
        }
        established := SlotsAt(root, p).leaf.None?;
      } else {
        established := walk == Missing;
      }
      if !established {
        return false;
      }
      ok := RetainEffect(p, incoming);
      if ok {
        RetainMentions(old(effects), p, incoming);
        CompleteEffect(p);
      }
    }

    /* ---------- discard ---------- */

    /** Every entry, at every depth, is read and checked before anything is removed. */
    method ValidateRecoveryTree(n: Node, path: PackagePath) returns (valid: bool)
      modifies this`faulted
      ensures valid ==> ValidTree(config, effects, n, path) && faulted == old(faulted)
      ensures !faulted ==> valid == ValidTree(config, effects, n, path)
      ensures old(faulted) ==> faulted
      decreases n
    {
      if * { faulted := true; return false; }
      if !n.Dir? {
        return false;
      }
      var todo := n.entries.Keys;
      while todo != {}
        invariant todo <= n.entries.Keys
        invariant faulted == old(faulted)
        invariant forall x :: x in n.entries && x !in todo ==>
          && RecoveryChild(config, effects, path, x) && KindAgrees(config, x, n.entries[x])
          && (n.entries[x].Dir? ==> ValidTree(config, effects, n.entries[x], x.path))
      {
        var x :| x in todo;
        todo := todo - {x};
        var child := CompletedCapturedRemovalChild(path, x);
        if child.None? || !PresentAt(config, child.value) || !KindAgrees(config, x, n.entries[x]) {
          return false;
        }
        if config.admitted[child.value].fact.Folder? {
          var below := ValidateRecoveryTree(n.entries[x], child.value);
          if !below {
            return false;
          }
        }
      }
      return true;
    }

    /** The recovery children of an open directory; nothing is removed when another name stands there. */
    method ListRecovery(dir: OpenDirectory, path: PackagePath) returns (readable: bool, children: seq<PackagePath>)
      requires dir.node.Dir?
      modifies dir`faulted
      ensures readable ==> Listed(children, dir.node.entries, path) && dir.faulted == old(dir.faulted)
      ensures !dir.faulted ==> readable == forall x :: x in dir.node.entries ==> RecoveryChild(config, effects, path, x)
      ensures old(dir.faulted) ==> dir.faulted
    {
      children := [];
      if * { dir.faulted := true; return false, children; }
      var todo := dir.node.entries.Keys;
      while todo != {}
        invariant todo <= dir.node.entries.Keys && dir.faulted == old(dir.faulted)
        invariant Listed(children, dir.node.entries - todo, path)
      {
        var x :| x in todo;
        todo := todo - {x};
        var child := CompletedCapturedRemovalChild(path, x);
        if child.None? {
          return false, children;
        }
        children := children + [child.value];
      }
      return true, children;
    }

    ghost predicate Listed(children: seq<PackagePath>, entries: map<Name, Node>, path: PackagePath)
      reads this
    {
      && (forall i, j :: 0 <= i < j < |children| ==> children[i] != children[j])
      && (forall i :: 0 <= i < |children| ==>
            RecoveryChild(config, effects, path, Displaced(children[i])) && Displaced(children[i]) in entries)
      && (forall x :: x in entries ==> x.Displaced? && x.path in children)
    }

    method RemoveRecoveryTree(dir: OpenDirectory, path: PackagePath) returns (ok: bool)
      modifies dir
      ensures dir.node == old(dir.node) || Pruned(config, effects, old(dir.node), dir.node, path)
      ensures ok ==> dir.node.Dir? && dir.node.entries == map[] && Pruned(config, effects, old(dir.node), dir.node, path)
      ensures ok ==> dir.faulted == old(dir.faulted)
      ensures !dir.faulted && ValidTree(config, effects, old(dir.node), path) ==> ok
      ensures old(dir.faulted) ==> dir.faulted
      ensures forall t :: t in dir.visited ==> t in old(dir.visited) || Pruned(config, effects, old(dir.node), t, path)
      decreases dir.node, 1
    {
      hide Pruned;
      if * { dir.faulted := true; return false; }
      if !dir.node.Dir? {
        return false;
      }
      var readable, children := ListRecovery(dir, path);
      if !readable {
        return false;
      }
      ok := RemoveListed(dir, path, children);
    }

    method RemoveListed(dir: OpenDirectory, path: PackagePath, children: seq<PackagePath>) returns (ok: bool)
      requires dir.node.Dir? && Listed(children, dir.node.entries, path)
      modifies dir
      ensures dir.node.Dir? && Pruned(config, effects, old(dir.node), dir.node, path)
      ensures ok ==> dir.node.entries == map[] && dir.faulted == old(dir.faulted)
      ensures !dir.faulted && ValidTree(config, effects, old(dir.node), path) ==> ok
      ensures old(dir.faulted) ==> dir.faulted
      ensures forall t :: t in dir.visited ==> t in old(dir.visited) || Pruned(config, effects, old(dir.node), t, path)
      decreases dir.node, 0
    {
      hide Pruned, ValidTree, RecoveryChild, KindAgrees;
      ghost var start := dir.node;
      PrunedSame(start, path);
      for i := 0 to |children|
        invariant Emptied(start, dir.node, children, i)
        invariant Pruned(config, effects, start, dir.node, path)
        invariant dir.faulted == old(dir.faulted)
        invariant forall t :: t in dir.visited ==> t in old(dir.visited) || Pruned(config, effects, start, t, path)
      {
        ghost var before := dir.node;
        var removed := RemoveRecoveryChild(dir, path, children[i]);
        forall t | Pruned(config, effects, before, t, path)
          ensures Pruned(config, effects, start, t, path)
        {
          PrunedRest(start, before, t, path);
        }
        if !removed {
          if ValidTree(config, effects, start, path) {
            ValidChild(start, path, Displaced(children[i]));
          }
          return false;
        }
      }
      assert dir.node.entries.Keys == {};
      return true;
    }

    lemma PrunedSame(n: Node, path: PackagePath)
      requires n.Dir?
      ensures Pruned(config, effects, n, n, path)
    {
    }

    lemma ValidChild(n: Node, path: PackagePath, x: Name)
      requires ValidTree(config, effects, n, path) && x in n.entries && x.Displaced? && x.path != []
      ensures KindAgrees(config, x, n.entries[x]) && (n.entries[x].Dir? ==> ValidTree(config, effects, n.entries[x], x.path))
    {
    }

    /** The first `i` children are gone and the others untouched. */
    ghost predicate Emptied(start: Node, n: Node, children: seq<PackagePath>, i: nat)
      requires start.Dir?
    {
      && n.Dir?
      && (forall x :: x in n.entries ==> x in start.entries && n.entries[x] == start.entries[x])
      && (forall j :: i <= j < |children| ==> Displaced(children[j]) in n.entries)
      && (forall j :: 0 <= j < i && j < |children| ==> Displaced(children[j]) !in n.entries)
    }

    lemma PrunedRest(start: Node, mid: Node, t: Node, path: PackagePath)
      requires start.Dir? && mid.Dir? && (forall x :: x in mid.entries ==> x in start.entries && mid.entries[x] == start.entries[x])
      requires Pruned(config, effects, start, mid, path) && Pruned(config, effects, mid, t, path)
      ensures Pruned(config, effects, start, t, path)
    {
    }

    method RemoveRecoveryChild(dir: OpenDirectory, path: PackagePath, child: PackagePath) returns (ok: bool)
      requires dir.node.Dir? && Displaced(child) in dir.node.entries
      requires RecoveryChild(config, effects, path, Displaced(child))
      modifies dir
      ensures dir.node.Dir? && Pruned(config, effects, old(dir.node), dir.node, path)
      ensures ok ==> dir.node.entries == old(dir.node).entries - {Displaced(child)} && dir.faulted == old(dir.faulted)
      ensures !dir.faulted && KindAgrees(config, Displaced(child), old(dir.node).entries[Displaced(child)])
        && (old(dir.node).entries[Displaced(child)].Dir? ==> ValidTree(config, effects, old(dir.node).entries[Displaced(child)], child))
        ==> ok
      ensures old(dir.faulted) ==> dir.faulted
      ensures forall t :: t in dir.visited ==> t in old(dir.visited) || Pruned(config, effects, old(dir.node), t, path)
      decreases dir.node.entries[Displaced(child)], 2
    {
      hide RecoveryChild, Pruned, Disposable;
      var x := Displaced(child);
      ghost var start := dir.node;
      PrunedSame(start, path);
      if !PresentAt(config, child) {
        return false;
      }
      if config.admitted[child].fact.File? {
        ok := dir.UnlinkAt(x, false);
        if ok {
          LeafDisposable(start.entries[x], child);
          PrunedAway(start, path, x, dir.node);
        }
        return;
      }
      var sub := new OpenDirectory(dir.node.entries[x]);
      ok := RemoveRecoveryTree(sub, child);
      dir.faulted := dir.faulted || sub.faulted;
      PrunedBelow(start, path, x, sub.visited + {sub.node});
      dir.visited := dir.visited + set t | t in sub.visited && t != start.entries[x] :: start.(entries := start.entries[x := t]);
      dir.Update(dir.node.entries[x := sub.node]);
      PrunedMeta(start, path, start.(entries := start.entries[x := sub.node]), dir.node);
      if ok {
        PrunedEmpty(config, effects, start.entries[x], sub.node, child);
        ok := dir.UnlinkAt(x, true);
        if ok {
          PrunedAway(start, path, x, dir.node);
        }
      }
    }

    lemma LeafDisposable(n: Node, path: PackagePath)
      requires !n.Dir?
      ensures Disposable(config, effects, n, path)
    {
    }

    lemma PrunedBelow(start: Node, path: PackagePath, x: Name, seen: set<Node>)
      requires start.Dir? && x in start.entries && RecoveryChild(config, effects, path, x)
      ensures forall t :: t in seen && (t == start.entries[x] || Pruned(config, effects, start.entries[x], t, x.path)) ==>
        Pruned(config, effects, start, start.(entries := start.entries[x := t]), path)
    {
    }

    lemma PrunedMeta(start: Node, path: PackagePath, a: Node, b: Node)
      requires Pruned(config, effects, start, a, path)
      requires b.Dir? && b.ino == a.ino && SameOwner(b.meta, a.meta) && b.entries == a.entries
      ensures Pruned(config, effects, start, b, path)
    {
    }

    lemma PrunedAway(start: Node, path: PackagePath, x: Name, b: Node)
      requires start.Dir? && x in start.entries && RecoveryChild(config, effects, path, x)
      requires Disposable(config, effects, start.entries[x], x.path)
      requires b.Dir? && b.ino == start.ino && SameOwner(b.meta, start.meta) && b.entries == start.entries - {x}
      ensures Pruned(config, effects, start, b, path)
    {
    }

    /** The ledger is scanned in order; the directory with the shortest text is the shallowest. */
    method NestedCleanupState(p: PackagePath) returns (r: Nested)
      modifies this`faulted
      ensures r != Blocked ==> faulted == old(faulted)
      ensures !faulted || r != Blocked ==> r == NestedCleanup(config, State(), p)
      ensures r == Blocked ==> NestedCleanup(config, State(), p) == Blocked || (faulted && RootDepth(config, effects, p, 1).Some?)
      ensures old(faulted) ==> faulted
    {
      var top: Option<PackagePath> := None;
      for i := 0 to |effects|
        invariant top.Some? ==> Ancestor(top.value, p) && CleanupRoot(config, effects, top.value)
        invariant forall j :: 0 <= j < i && IsRoot(effects[j], p) ==> top.Some? && TextSize(top.value) <= TextSize(effects[j].path)
      {
        var e := effects[i];
        if e.incoming || !e.completed || !Ancestor(e.path, p) || e.path !in config.captures || !DirectoryAt(config, e.path) {
          continue;
        }
        assert e == Effect(e.path, false, true);
        if top.None? || TextSize(e.path) < TextSize(top.value) {
          top := Some(e.path);
        }
      }
      ShallowestRoot(p, top);
      if top.None? {
        return Independent;
      }
      if * { faulted := true; return Blocked; }
      if Home(root, top.value, 0).None? {
        return Blocked;
      }
      var s := SlotsAt(root, top.value);
      return if Inspect(s) != Clear then Blocked else if s.leaf.Some? then Independent else Covered;
    }

    predicate IsRoot(e: Effect, p: PackagePath) {
      !e.incoming && e.completed && Ancestor(e.path, p) && e.path in config.captures && DirectoryAt(config, e.path)
    }

    lemma ShallowestRoot(p: PackagePath, top: Option<PackagePath>)
      requires top.Some? ==> Ancestor(top.value, p) && CleanupRoot(config, effects, top.value)
      requires forall j :: 0 <= j < |effects| && IsRoot(effects[j], p) ==> top.Some? && TextSize(top.value) <= TextSize(effects[j].path)
      ensures top.None? <==> RootDepth(config, effects, p, 1).None?
      ensures top.Some? ==> top.value == p[..RootDepth(config, effects, p, 1).value]
    {
      var d := RootDepth(config, effects, p, 1);
      assert top.Some? ==> top.value == p[..|top.value|];
      if d.Some? {
        var q := p[..d.value];
        var j :| 0 <= j < |effects| && effects[j] == Effect(q, false, true);
        assert IsRoot(effects[j], p);
        ShorterTextIsShallower(p, d.value, |top.value|);
      }
    }

    method DiscardRecovery(p: PackagePath) returns (o: Outcome)
      requires Valid()
      modifies this
      ensures Valid()
      ensures DiscardRel(config, old(State()), State(), p, o, faulted)
      ensures o == Completed && root != old(root) ==>
        Home(root, p, 0).Some? && Home(old(root), p, 0).Some? && Accounted(old(root), root, p, Parent(p), handed, false)
      ensures old(root) in trail && root in trail
      ensures forall r :: r in trail ==> DiscardStopped(config, old(State()), r, p)
    {
      hide Pruned, Settled, Framed, CleanupOf, ValidTree, Guarded;
      faulted, handed, trail := false, {}, {root};
      if Home(root, p, 0).Some? {
        Untouching(config, effects, root, p);
      }
      var nested := NestedCleanupState(p);
      if nested == Covered {
        return Completed;
      }
      if nested == Blocked {
        return Indeterminate;
      }
      if Home(root, p, 0).None? {
        return Threw;
      }
      var s := SlotsAt(root, p);
      if Inspect(s) == Clear {
        return Completed;
      }
      if Inspect(s) !in {RemovedWithDisplacedOld, PublishedWithDisplacedOld} || !PresentAt(config, p) {
        return Indeterminate;
      }
      if !KindAgrees(config, Displaced(p), s.displaced.value) {
        return Indeterminate;
      }
      if config.admitted[p].fact.Folder? {
        var valid := ValidateRecoveryTree(s.displaced.value, p);
        if !valid {
          return Indeterminate;
        }
      }
      o := DiscardValidated(p);
    }

    method DiscardValidated(p: PackagePath) returns (o: Outcome)
      requires Valid() && Home(root, p, 0).Some? && Discardable(config, State(), p) && !faulted && trail == {root}
      requires NestedCleanup(config, State(), p) == Independent
      modifies this
      ensures Valid()
      ensures DiscardRun(config, old(State()), State(), p, o, faulted)
      ensures o == Completed ==> Accounted(old(root), root, p, Parent(p), handed, false)
      ensures old(root) in trail && root in trail
      ensures forall r :: r in trail ==> DiscardStopped(config, old(State()), r, p)
    {
      hide Pruned, Settled, Framed, NestedCleanup, ValidTree, Guarded, Misrecorded;
      ghost var w := State();
      Untouching(config, effects, root, p);
      var ws := new PathWorkspace(SlotsAt(root, p), Home(root, p, 0).value.meta.mtime, next);
      var gone := RunDiscard(ws, p);
      faulted := ws.faulted;
      Close(p, ws);
      forall r | r in trail
        ensures DiscardStopped(config, w, r, p)
      {
        if r != w.root {
          var m :| m in ws.visited && Touched(config, [], w.root, r, p, m.slots);
          TouchedMore(config, [], w.effects, w.root, r, p, m.slots);
        }
      }
      TouchedMore(config, [], w.effects, w.root, root, p, ws.slots);
      if !gone {
        return Indeterminate;
      }
      ghost var slots, changed := ws.slots, root;
      RetainDirty(Parent(p));
      o := RefreshAbove(p, w.root);
      if o == Completed {
        ChangeAccounted(w.root, changed, root, p, slots, ws.mtime, Parent(p), handed, false);
      }
    }

    method RunDiscard(ws: PathWorkspace, p: PackagePath) returns (gone: bool)
      requires Home(root, p, 0).Some? && Discardable(config, State(), p)
      requires ws.slots == SlotsAt(root, p) && ws.visited == {ws.Now()} && !ws.faulted
      modifies ws
      ensures gone ==> ws.slots == old(ws.slots).(displaced := None) && !ws.faulted
      ensures !ws.faulted ==> gone
      ensures DiscardSpan(config, State(), p, ws.slots)
      ensures ws.Now() in ws.visited && forall m :: m in ws.visited ==> DiscardSpan(config, State(), p, m.slots)
    {
      var s := ws.slots;
      if config.admitted[p].fact.File? {
        var r := ws.RemoveLeaf(DisplacedName);
        return r == Removed;
      }
      var dir := new OpenDirectory(s.displaced.value);
      var ok := RemoveRecoveryTree(dir, p);
      ws.Step(s.(displaced := Some(dir.node)));
      ws.visited := ws.visited + set t | t in dir.visited :: Moment(s.(displaced := Some(t)), ws.mtime);
      ws.faulted := dir.faulted;
      if !ok {
        return false;
      }
      var u := ws.UnlinkAt(DisplacedName, true);
      return u == Gone;
    }
  }

  /** Retaining an attempted removal does not change what counts as recovery material. */
  lemma RemovalLedger(c: Config, w: World, p: PackagePath)
    requires Home(w.root, p, 0).Some? && SlotsAt(w.root, p).leaf.Some?
    ensures RemovalAllowed(c, w.(effects := Retain(w.effects, p, false)), p) == RemovalAllowed(c, w, p)
  {
    var l := w.effects;
    forall q: PackagePath
      ensures Withdrawn(Retain(l, p, false), q) <==> Withdrawn(l, q)
    {
      if !Mentions(l, p) {
        assert Retain(l, p, false) == l + [Effect(p, false, false)];
      }
    }
    var n := SlotsAt(w.root, p).leaf.value;
    if n.Dir? {
      forall x | x in n.entries
        ensures RecoveryChild(c, Retain(l, p, false), p, x) <==> RecoveryChild(c, l, p, x)
      {
      }
    }
  }

  lemma NotOpened(c: Config, w: World, p: PackagePath)
    requires p !in c.admitted || Home(w.root, p, 0).None?
    ensures RecoverStopped(c, w, w.root, p)
  {
  }

  lemma UnpublishedSpan(c: Config, w: World, p: PackagePath)
    requires PublishStarts(c, w, p)
    ensures PublishSpan(c, w, p, SlotsAt(w.root, p))
  {
    hide Admit, Home;
  }

  lemma UnrecoveredSpan(c: Config, w: World, p: PackagePath)
    requires p in c.admitted && Home(w.root, p, 0).Some?
    ensures RecoverSpan(c, w, p, SlotsAt(w.root, p))
  {
  }

  /** The object an admitted present observation vouches for. */
  lemma AdmittedLeaf(c: Config, w: World, p: PackagePath)
    requires PresentAt(c, p) && Admissible(c, w, p)
    ensures SlotsAt(w.root, p).leaf.Some?
    ensures FactOf(SlotsAt(w.root, p).leaf.value) == c.admitted[p].fact
    ensures SlotsAt(w.root, p).leaf.value.Dir? == c.admitted[p].fact.Folder?
  {
    AtHome(w.root, p, 0);
  }
}
