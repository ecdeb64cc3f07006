/** The durability authority of the active namespace: which filesystems its changes touched and
  which of them passed a barrier since. */
module Durability {
  import opened Tree
  import opened Workspace
  import opened Namespace
  import opened Guard
  import opened Registration

  datatype Event =
    | Dirtied(device: nat)
    | Barrier(device: nat)
    | Lost
    | Answered(confirmed: bool)

  /** A barrier of `device` between two points of the history. */
  ghost predicate PassedBetween(log: seq<Event>, device: nat, i: nat, j: nat) {
    exists k :: i < k < j && k < |log| && log[k] == Barrier(device)
  }

  /** A confirmation vouches for every change registered before it: each filesystem passed a
      barrier after its last registration. */
  ghost predicate Honest(log: seq<Event>) {
    forall i, j :: 0 <= i < j < |log| && log[i].Dirtied? && log[j] == Answered(true) ==>
      PassedBetween(log, log[i].device, i, j)
  }

  /** Once authority is lost nothing is confirmed any more. */
  ghost predicate Silenced(log: seq<Event>) {
    forall i, j :: 0 <= i < j < |log| && log[i] == Lost ==> log[j] != Answered(true)
  }

  /** Every registration still waiting for its barrier is retained. */
  ghost predicate Retained(log: seq<Event>, dirty: seq<Authority>) {
    forall i :: 0 <= i < |log| && log[i].Dirtied? ==>
      PassedBetween(log, log[i].device, i, |log|) || exists a :: a in dirty && a.device == log[i].device
  }

  datatype Authority = Authority(device: nat, descriptor: nat)

  predicate OncePerDevice(dirty: seq<Authority>) {
    forall i, j :: 0 <= i < j < |dirty| ==> dirty[i].device != dirty[j].device
  }

  /** Extending the history by an event that is not a confirmation. */
  lemma Extend(log: seq<Event>, e: Event, dirty: seq<Authority>)
    requires Honest(log) && Silenced(log) && e != Answered(true)
    ensures Honest(log + [e]) && Silenced(log + [e])
    ensures Retained(log, dirty) && !e.Dirtied? ==> Retained(log + [e], dirty)
    ensures Retained(log, dirty) && e.Dirtied? && (exists a :: a in dirty && a.device == e.device) ==> Retained(log + [e], dirty)
  {
    var more := log + [e];
    forall i: nat, j: nat, d: nat | PassedBetween(log, d, i, j)
      ensures PassedBetween(more, d, i, j)
    {
      var k :| i < k < j && k < |log| && log[k] == Barrier(d);
      assert more[k] == Barrier(d);
    }
    forall i, j | 0 <= i < j < |more| && more[i].Dirtied? && more[j] == Answered(true)
      ensures PassedBetween(more, more[i].device, i, j)
    {
      assert log[i] == more[i] && log[j] == more[j];
    }
    if Retained(log, dirty) && (e.Dirtied? ==> exists a :: a in dirty && a.device == e.device) {
      forall i | 0 <= i < |more| && more[i].Dirtied?
        ensures PassedBetween(more, more[i].device, i, |more|) || exists a :: a in dirty && a.device == more[i].device
      {
        if i < |log| && PassedBetween(log, log[i].device, i, |log|) {
          var k :| i < k < |log| && log[k] == Barrier(log[i].device);
          assert more[k] == Barrier(log[i].device);
        }
      }
    }
  }

  class DurabilityAuthority {
    var dirty: seq<Authority>
    var incomplete: bool
    /** A system call has failed during the last call. */
    var faulted: bool
    ghost var log: seq<Event>

    ghost predicate Valid()
      reads this
    {
      && OncePerDevice(dirty)
      && Honest(log) && Silenced(log)
      && (incomplete <==> Lost in log)
      && (!incomplete ==> Retained(log, dirty))
    }

    constructor ()
      ensures Valid() && dirty == [] && !incomplete && log == []
    {
      dirty, incomplete, faulted, log := [], false, false, [];
    }

    method Note(ghost e: Event)
      modifies this`log
      ensures log == old(log) + [e]
    {
      log := log + [e];
    }

    /** A change dirtied the filesystem `device`; the descriptor may be missing, and reading its
        device or duplicating it may fail. */
    method RetainDirtyFilesystem(device: nat, descriptor: Option<nat>)
      requires Valid()
      modifies this
      ensures Valid()
      ensures old(dirty) <= dirty
      ensures !incomplete ==> exists a :: a in dirty && a.device == device
      ensures incomplete == (old(incomplete) || faulted || descriptor.None?)
      ensures log == old(log) + [Dirtied(device)] || log == old(log) + [Lost, Dirtied(device)]
    {
      var lost := descriptor.None?;
      faulted := false;
      if !lost {
        if * { faulted, lost := true, true; }
      }
      if !lost {
        var i := 0;
        while i < |dirty| && dirty[i].device != device
          invariant i <= |dirty|
          invariant forall j :: 0 <= j < i ==> dirty[j].device != device
        {
          i := i + 1;
        }
        if i == |dirty| {
          if * {
            faulted, lost := true, true;
          } else {
            var duplicate: nat := *;
            ghost var before := dirty;
            dirty := dirty + [Authority(device, duplicate)];
            assert dirty[i].device == device;
            assert forall a :: a in before ==> a in dirty;
          }
        } else {
          assert dirty[i] in dirty;
        }
      }
      if lost {
        Extend(log, Lost, dirty);
        Note(Lost);
        incomplete := true;
      }
      Extend(log, Dirtied(device), dirty);
      Note(Dirtied(device));
      assert old(incomplete) ==> Lost in old(log);
    }

    /** The directories an operation hands over, each with the filesystem it lies on. */
    method RetainAll(handed: set<Path>, device: Path -> nat, descriptor: Path -> Option<nat>)
      requires Valid()
      modifies this
      ensures Valid()
      ensures old(log) <= log
      ensures incomplete == (old(incomplete) || faulted || exists q :: q in handed && descriptor(q).None?)
      ensures Handed(log, |old(log)|, |log|, handed, device)
    {
      var todo, failed := handed, false;
      while todo != {}
        invariant todo <= handed && Valid() && old(log) <= log
        invariant incomplete == (old(incomplete) || failed || exists q :: q in handed - todo && descriptor(q).None?)
        invariant Handed(log, |old(log)|, |log|, handed - todo, device)
      {
        var q :| q in todo;
        ghost var before := log;
        RetainDirtyFilesystem(device(q), descriptor(q));
        failed := failed || faulted;
        HandedMore(before, log, |old(log)|, handed - todo, device);
        assert log[|log| - 1] == Dirtied(device(q));
        todo := todo - {q};
      }
      assert handed - todo == handed;
      faulted := failed;
    }

    /** One barrier per retained filesystem; the first that fails ends the attempt. */
    method Synchronize() returns (confirmed: bool)
      requires Valid()
      modifies this
      ensures Valid()
      ensures log != [] && log[|log| - 1] == Answered(confirmed)
      ensures confirmed <==> !old(incomplete) && !faulted
      ensures incomplete == old(incomplete)
      ensures dirty == if confirmed then [] else old(dirty)
    {
      faulted := false;
      if incomplete {
        Extend(log, Answered(false), dirty);
        Note(Answered(false));
        return false;
      }
      ghost var start := |log|;
      for i := 0 to |dirty|
        invariant Valid() && dirty == old(dirty) && !incomplete && !faulted
        invariant start <= |log|
        invariant forall k :: start <= k < |log| ==> log[k].Barrier?
        invariant Passed(log, dirty, i, start)
      {
        if * {
          faulted := true;
          Extend(log, Answered(false), dirty);
          Note(Answered(false));
          return false;
        }
        PassOne(log, dirty, i, start);
        Extend(log, Barrier(dirty[i].device), dirty);
        Note(Barrier(dirty[i].device));
      }
      Confirm(log, dirty, start);
      Note(Answered(true));
      dirty := [];
      return true;
    }
  }

  /** The first `n` retained filesystems passed a barrier since `start`. */
  ghost predicate Passed(log: seq<Event>, dirty: seq<Authority>, n: nat, start: nat) {
    forall j :: 0 <= j < n && j < |dirty| ==> exists k :: start <= k < |log| && log[k] == Barrier(dirty[j].device)
  }

  lemma PassOne(log: seq<Event>, dirty: seq<Authority>, n: nat, start: nat)
    requires n < |dirty| && start <= |log| && Passed(log, dirty, n, start)
    ensures Passed(log + [Barrier(dirty[n].device)], dirty, n + 1, start)
  {
    var more := log + [Barrier(dirty[n].device)];
    assert more[|log|] == Barrier(dirty[n].device);
    forall j | 0 <= j < n
      ensures exists k :: start <= k < |more| && more[k] == Barrier(dirty[j].device)
    {
      var k :| start <= k < |log| && log[k] == Barrier(dirty[j].device);
      assert more[k] == log[k];
    }
  }

  /** When every retained filesystem passed its barrier, nothing is left waiting. */
  lemma Confirm(log: seq<Event>, dirty: seq<Authority>, start: nat)
    requires Honest(log) && Silenced(log) && Lost !in log && Retained(log, dirty) && start <= |log|
    requires forall k :: start <= k < |log| ==> log[k].Barrier?
    requires Passed(log, dirty, |dirty|, start)
    ensures Honest(log + [Answered(true)]) && Silenced(log + [Answered(true)])
    ensures Retained(log + [Answered(true)], []) && Lost !in log + [Answered(true)]
  {
    var more := log + [Answered(true)];
    forall i | 0 <= i < |log| && log[i].Dirtied?
      ensures exists k :: i < k < |log| && log[k] == Barrier(log[i].device)
    {
      if exists a :: a in dirty && a.device == log[i].device {
        var a :| a in dirty && a.device == log[i].device;
        var j :| 0 <= j < |dirty| && dirty[j] == a;
        var k :| start <= k < |log| && log[k] == Barrier(dirty[j].device);
      }
    }
    forall i | 0 <= i < |log| && log[i].Dirtied?
      ensures PassedBetween(more, more[i].device, i, |log|)
    {
      var k :| i < k < |log| && log[k] == Barrier(log[i].device);
      assert more[k] == log[k];
    }
    forall i, j | 0 <= i < j < |log| && log[i].Dirtied? && log[j] == Answered(true)
      ensures PassedBetween(more, more[i].device, i, j)
    {
      var k :| i < k < j && k < |log| && log[k] == Barrier(log[i].device);
      assert more[k] == log[k];
    }
    forall i | 0 <= i < |more| && more[i].Dirtied?
      ensures PassedBetween(more, more[i].device, i, |more|)
    {
      assert PassedBetween(more, more[i].device, i, |log|);
    }
  }

  /* ---------- what a confirmation says of the operations before it ---------- */

  /** Each of these directories had its filesystem registered between two points of the history. */
  ghost predicate Handed(log: seq<Event>, i: nat, j: nat, handed: set<Path>, device: Path -> nat) {
    forall q :: q in handed ==> exists k :: i <= k < j && k < |log| && log[k] == Dirtied(device(q))
  }

  lemma HandedMore(log: seq<Event>, more: seq<Event>, i: nat, handed: set<Path>, device: Path -> nat)
    requires log <= more && Handed(log, i, |log|, handed, device)
    ensures Handed(more, i, |more|, handed, device)
  {
    forall q | q in handed
      ensures exists k :: i <= k < |more| && more[k] == Dirtied(device(q))
    {
      var k :| i <= k < |log| && log[k] == Dirtied(device(q));
      assert more[k] == log[k];
    }
  }

  /** One completed operation: the target before and after, where it changed something, what it handed
      over, and the stretch of the history in which it did. */
  datatype Change = Change(before: Node, after: Node, path: PackagePath, place: Path, handed: set<Path>, start: nat, end: nat)

  ghost predicate Announced(log: seq<Event>, x: Change, device: Path -> nat) {
    && Home(x.before, x.path, 0).Some? && Home(x.after, x.path, 0).Some?
    && Accounted(x.before, x.after, x.path, x.place, x.handed, false)
    && Handed(log, x.start, x.end, x.handed, device)
  }

  /** The filesystem passed a barrier after the operation registered it. */
  ghost predicate Safe(log: seq<Event>, d: nat, i: nat, n: nat) {
    exists k :: i <= k < n && k < |log| && log[k] == Dirtied(d) && PassedBetween(log, d, k, n)
  }

  /** Every directory the operation changed is on such a filesystem. */
  ghost predicate AllSafe(log: seq<Event>, x: Change, device: Path -> nat, n: nat)
  {
    && Home(x.before, x.path, 0).Some? && Home(x.after, x.path, 0).Some?
    && (forall k :: 0 <= k < |x.path| && !SameMeta(At(x.before, x.path[..k], 0), At(x.after, x.path[..k], 0)) ==>
          Safe(log, device(x.path[..k]), x.start, n))
    && (SlotsAt(x.before, x.path) != SlotsAt(x.after, x.path) ==> Safe(log, device(x.place), x.start, n))
  }

  /** A confirmation vouches for every operation that was over before it. */
  lemma ConfirmedCovers(log: seq<Event>, xs: seq<Change>, device: Path -> nat, n: nat)
    requires Honest(log) && Silenced(log) && n < |log| && log[n] == Answered(true)
    requires forall x :: x in xs ==> Announced(log, x, device) && x.end <= n
    ensures Lost !in log[..n]
    ensures forall x :: x in xs ==> AllSafe(log, x, device, n)
  {
    forall x, q | x in xs && q in x.handed
      ensures Safe(log, device(q), x.start, n)
    {
      var k :| x.start <= k < x.end && k < |log| && log[k] == Dirtied(device(q));
      assert PassedBetween(log, device(q), k, n);
    }
  }

  /* ---------- what is not handed over ---------- */

  /** A recovery that takes a prepared name away: it completes without a failing call, and whatever of the
      tracked directories it hands over, the one that lost the name is not among them. */
  lemma UnseenRecovery() returns (c: Config, w: World, w': World, p: PackagePath)
    ensures RecoverRel(c, w, w', p, Completed, false) && Home(w.root, p, 0).Some? && Home(w'.root, p, 0).Some?
    ensures Inspect(SlotsAt(w.root, p)) == PreparedOnly
    ensures forall handed :: handed <= Goals(c, w.effects).Keys ==> !Accounted(w.root, w'.root, p, Parent(p), handed, false)
  {
    p := ["a"];
    var meta := Meta(493, 0, 0, Time(0, 0));
    c := Config(map[p := Absent], map[], None, false);
    w := World(Dir(0, meta, map[Prepared(p) := Leaf(1, Regular, meta, Bytes([]))]), [], 2);
    var t := Slots(None, None, None);
    assert Home(w.root, p, 0) == Some(w.root);
    w' := World(Replace(w.root, p, 0, t, meta.mtime), [], 3);
    ReplaceTouched(c, [], w.root, p, t, meta.mtime);
    ReplaceSettled(w.root, p, 0, t, meta.mtime);
    AtHome(w'.root, p, 0);
    assert Recovers(c, w, p);
    assert RecoverCompleted(c, w, w', p);
    assert Parent(p) == [];
  }

  /** A symbolic link published where nothing was: when the descriptor of its directory cannot be
      duplicated nothing is handed over, and the publication has completed. */
  lemma UnseenPublication() returns (c: Config, w: World, w': World, p: PackagePath)
    ensures PublishCompleted(c, w, w', p) && !PublishesDescriptor(c, p)
    ensures !Accounted(w.root, w'.root, p, PublicationPlace(c, w, p), {}, false)
  {
    p := ["a"];
    var meta, mode := Meta(493, 0, 0, Time(0, 0)), Meta(SYMLINK_MODE, 0, 0, Time(0, 0));
    var e := Entry(SymlinkEntry, mode, Link("b"), []);
    c := Config(map[p := Absent], map[], Some(map[p := e]), false);
    w := World(Dir(0, meta, map[]), [], 2);
    assert Home(w.root, p, 0) == Some(w.root) && At(w.root, p, 0) == None;
    var t := Slots(Some(Finished(e, 2)), None, None);
    w' := World(Replace(w.root, p, 0, t, meta.mtime), Complete(Retain([], p, true), p), 3);
    ReplaceSettled(w.root, p, 0, t, meta.mtime);
    assert p[..0] !in Goals(c, w'.effects);
    assert Settled(Goals(c, w'.effects), w.root, w'.root, p, 0);
  }
}
