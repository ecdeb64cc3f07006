/** One opened managed path: the parent directory restricted to the leaf, the prepared name
  and the displaced name, and the short programs of system calls that run on them.

  Every call is one atomic step.  A call may fail for a reason outside the model: it then
  changes nothing and sets `faulted`.  `visited` collects the slots and the time of their
  directory after every step: the states in which a crash can leave the path.
 */
module Workspace {
  import opened Tree

  datatype State =
    | Clear
    | PreparedOnly
    | DisplacedOld
    | RemovedWithDisplacedOld
    | PublishedWithDisplacedOld
    | Contradictory

  function Inspect(s: Slots): State {
    if s.prepared.None? && s.displaced.None? then Clear
    else if s.prepared.Some? && s.displaced.None? then PreparedOnly
    else if s.prepared.Some? && s.displaced.Some? && s.leaf.None? then DisplacedOld
    else if s.prepared.None? && s.displaced.Some? && s.leaf.None? then RemovedWithDisplacedOld
    else if s.prepared.None? && s.displaced.Some? && s.leaf.Some? then PublishedWithDisplacedOld
    else Contradictory
  }

  datatype Outcome = Completed | ConditionalRetained | Failed | Indeterminate | Threw

  /* ---------- incoming and captured objects ---------- */

  datatype EntryType =
    | RegularEntry | DirectoryEntry | SymlinkEntry | HardlinkEntry
    | FifoEntry | CharacterDeviceEntry | BlockDeviceEntry

  datatype Entry = Entry(kind: EntryType, meta: Meta, content: Content, anchor: Path)

  function KindOf(kind: EntryType): Kind {
    match kind
    case SymlinkEntry => Symlink
    case FifoEntry => Fifo
    case CharacterDeviceEntry => CharacterDevice
    case BlockDeviceEntry => BlockDevice
    case _ => Regular
  }

  /** The object an entry that is not a hard link describes, under inode number `ino`. */
  function Finished(e: Entry, ino: nat): Node {
    if e.kind.DirectoryEntry? then Dir(ino, e.meta, map[]) else Leaf(ino, KindOf(e.kind), e.meta, e.content)
  }

  const SYMLINK_MODE: nat := 511

  /** The successive values of the prepared object; each is the effect of one system call. */
  function Stages(e: Entry, ino: nat, blank: Meta): (r: seq<Node>)
    ensures |r| > 0
    ensures e.kind.SymlinkEntry? ==> r[|r| - 1] == Finished(e.(meta := e.meta.(mode := SYMLINK_MODE)), ino)
    ensures !e.kind.SymlinkEntry? ==> r[|r| - 1] == Finished(e, ino)
    ensures forall i :: 0 <= i < |r| ==> r[i].ino == ino && (r[i].Dir? ==> r[i].entries == map[])
    ensures forall i :: 0 <= i < |r| ==> r[i].Dir? == e.kind.DirectoryEntry?
  {
    var owned := blank.(uid := e.meta.uid, gid := e.meta.gid);
    var moded := owned.(mode := e.meta.mode);
    match e.kind
    case RegularEntry =>
      [Leaf(ino, Regular, blank, Bytes([])), Leaf(ino, Regular, blank, e.content),
       Leaf(ino, Regular, owned, e.content), Leaf(ino, Regular, moded, e.content), Finished(e, ino)]
    case DirectoryEntry =>
      [Dir(ino, blank, map[]), Dir(ino, blank, map[]), Dir(ino, owned, map[]), Dir(ino, moded, map[]), Finished(e, ino)]
    case SymlinkEntry =>
      [Leaf(ino, Symlink, blank.(mode := SYMLINK_MODE), e.content),
       Leaf(ino, Symlink, owned.(mode := SYMLINK_MODE), e.content),
       Leaf(ino, Symlink, e.meta.(mode := SYMLINK_MODE), e.content)]
    case _ =>
      [Leaf(ino, KindOf(e.kind), blank, e.content), Leaf(ino, KindOf(e.kind), owned, e.content),
       Leaf(ino, KindOf(e.kind), moded, e.content), Finished(e, ino)]
  }

  /* ---------- system calls on the slots ---------- */

  datatype Slot = LeafName | PreparedName | DisplacedName

  function Get(s: Slots, n: Slot): Option<Node> {
    match n case LeafName => s.leaf case PreparedName => s.prepared case DisplacedName => s.displaced
  }

  function Set(s: Slots, n: Slot, o: Option<Node>): Slots {
    match n
    case LeafName => s.(leaf := o)
    case PreparedName => s.(prepared := o)
    case DisplacedName => s.(displaced := o)
  }

  function WithMeta(n: Node, m: Meta): Node {
    match n
    case Leaf(ino, kind, _, content) => Leaf(ino, kind, m, content)
    case Dir(ino, _, entries) => Dir(ino, m, entries)
  }

  predicate RegularFile(o: Option<Node>) { o.Some? && o.value.Leaf? && o.value.kind == Regular }

  /** An object `unlinkat` can remove under the flag its own type selects. */
  predicate Removable(o: Option<Node>) { o.Some? && o.value.Dir? ==> o.value.entries == map[] }

  /** IEEE Std 1003.1-2017, rename(): two links of one file are left alone, a directory only
      replaces an empty directory, and a file only replaces a file. */
  function RenameEffect(s: Slots, from: Slot, to: Slot): Option<Slots> {
    var f, t := Get(s, from), Get(s, to);
    if f.None? then None
    else if t.Some? && t.value.ino == f.value.ino then Some(s)
    else if t.Some? && (t.value.Dir? != f.value.Dir? || !Removable(t)) then None
    else Some(Set(Set(s, from, Option<Node>.None), to, f))
  }

  datatype Unlinked = Gone | NoEntry | NotEmpty | Refused

  function UnlinkEffect(s: Slots, n: Slot, directory: bool): Unlinked {
    var o := Get(s, n);
    if o.None? then NoEntry
    else if o.value.Dir? != directory then Refused
    else if !Removable(o) then NotEmpty
    else Gone
  }

  datatype Removal = WasAbsent | Removed | RemovalRefused

  datatype Built = Ready | NotReady | Thrown

  /* ---------- what each program may do to the slots ---------- */

  /** Whether publication moves the current leaf aside. */
  predicate Displaces(s: Slots, incomingDirectory: bool, preserveOld: bool) {
    && s.leaf.Some?
    && (s.leaf.value.Dir? != incomingDirectory || (preserveOld && !s.leaf.value.Dir?))
  }

  function Published(s: Slots, obj: Node, displace: bool): Slots {
    if !displace && s.leaf.Some? && s.leaf.value.ino == obj.ino then s
    else Slots(Some(obj), None, if displace then s.leaf else None)
  }

  /** The leaf is still in place and only the prepared name may be occupied. */
  ghost predicate Untouched(s: Slots, t: Slots) {
    t.leaf == s.leaf && t.displaced == s.displaced
  }

  /** The leaf has been moved aside and nothing stands in its place. */
  ghost predicate Aside(s: Slots, t: Slots) {
    s.leaf.Some? && t.leaf.None? && t.displaced == s.leaf
  }

  ghost predicate PublishReach(s: Slots, obj: Node, displace: bool, t: Slots) {
    || (Untouched(s, t) && (t.prepared.None? || t.prepared == Some(obj)))
    || (displace && Removable(s.leaf) && Aside(s, t) && (t.prepared.None? || t.prepared == Some(obj)))
    || ((displace ==> Removable(s.leaf)) && t == Published(s, obj, displace))
  }

  ghost predicate BuildReach(s: Slots, stages: seq<Node>, t: Slots) {
    Untouched(s, t) && (t.prepared.None? || t.prepared.value in stages)
  }

  predicate OwnerBetween(a: Meta, b: Meta, m: Meta) {
    && (m.mode == a.mode || m.mode == b.mode)
    && ((m.uid == a.uid && m.gid == a.gid) || (m.uid == b.uid && m.gid == b.gid))
  }

  predicate Between(a: Meta, b: Meta, m: Meta) {
    && OwnerBetween(a, b, m)
    && (m.mtime == a.mtime || m.mtime == b.mtime)
  }

  /** An update in place keeps the directory's identity and contents. */
  ghost predicate UpdateReach(s: Slots, target: Meta, t: Slots) {
    && s.leaf.Some? && s.leaf.value.Dir? && t.leaf.Some? && t.leaf.value.Dir?
    && t == s.(leaf := Some(WithMeta(s.leaf.value, t.leaf.value.meta)))
    && Between(s.leaf.value.meta, target, t.leaf.value.meta)
  }

  /** Recovery of a displaced object never lets go of it. */
  ghost predicate RestoreReach(s: Slots, t: Slots) {
    || (t.displaced == s.displaced && (t.leaf == s.leaf || (t.leaf.None? && Removable(s.leaf)))
        && (t.prepared == s.prepared || t.prepared.None?)
        && (t.leaf != s.leaf ==> t.prepared.None?))
    || (t == Slots(s.displaced, None, None) && Removable(s.leaf))
  }

  /** The slots, and the time of the directory that holds them, after one call. */
  datatype Moment = Moment(slots: Slots, mtime: Time)

  class PathWorkspace {
    var slots: Slots
    var mtime: Time
    var next: nat
    var faulted: bool
    /** A call that was to undo an earlier one has failed. */
    ghost var stuck: bool
    ghost var visited: set<Moment>

    ghost function Now(): Moment
      reads this
    {
      Moment(slots, mtime)
    }

    constructor (s: Slots, t: Time, n: nat)
      ensures slots == s && mtime == t && next == n && !faulted && !stuck && visited == {Now()}
    {
      slots, mtime, next, faulted, stuck, visited := s, t, n, false, false, {Moment(s, t)};
    }

    /** The state after one call; a change of the entries moves the directory's time. */
    method Step(t: Slots)
      modifies this
      ensures slots == t && next == old(next) && faulted == old(faulted) && stuck == old(stuck)
      ensures visited == old(visited) + {Now()}
    {
      if t != slots {
        mtime := *;
      }
      slots := t;
      visited := visited + {Now()};
    }

    method RenameAt(from: Slot, to: Slot) returns (ok: bool)
      modifies this
      ensures ok ==> RenameEffect(old(slots), from, to) == Some(slots) && faulted == old(faulted)
      ensures !ok ==> slots == old(slots) && (RenameEffect(old(slots), from, to).Some? ==> faulted)
      ensures old(faulted) ==> faulted
      ensures next == old(next) && stuck == old(stuck) && visited == old(visited) + {Now()}
    {
      var r := RenameEffect(slots, from, to);
      ok := r.Some?;
      if * {
        ok, faulted := false, true;
      }
      Step(if ok then r.value else slots);
    }

    method UnlinkAt(n: Slot, directory: bool) returns (r: Unlinked)
      modifies this
      ensures r == Gone ==> UnlinkEffect(old(slots), n, directory) == Gone && slots == Set(old(slots), n, None)
      ensures r != Gone ==> slots == old(slots)
      ensures r != UnlinkEffect(old(slots), n, directory) ==> faulted && r == Refused
      ensures r == UnlinkEffect(old(slots), n, directory) ==> faulted == old(faulted) || r == Refused
      ensures old(faulted) ==> faulted
      ensures next == old(next) && stuck == old(stuck) && visited == old(visited) + {Now()}
    {
      r := UnlinkEffect(slots, n, directory);
      if * {
        r, faulted := Refused, true;
      }
      Step(if r == Gone then Set(slots, n, None) else slots);
    }

    /** Opening the directory to list it may fail, which reads as not empty. */
    method DirectoryEmpty(n: Slot) returns (empty: bool)
      requires Get(slots, n).Some? && Get(slots, n).value.Dir?
      modifies this`faulted
      ensures empty ==> Get(slots, n).value.entries == map[] && faulted == old(faulted)
      ensures !empty && !faulted ==> Get(slots, n).value.entries != map[]
      ensures old(faulted) ==> faulted
    {
      if * {
        faulted := true;
        return false;
      }
      return Get(slots, n).value.entries == map[];
    }

    method RemovePrepared(directory: bool)
      modifies this
      ensures slots == old(slots) || slots == old(slots).(prepared := None)
      ensures !faulted && slots.prepared.Some? ==> UnlinkEffect(old(slots), PreparedName, directory) != Gone
      ensures old(faulted) ==> faulted
      ensures stuck == (old(stuck) || slots.prepared.Some?)
      ensures next == old(next) && visited == old(visited) + {Now()}
    {
      var _ := UnlinkAt(PreparedName, directory);
      stuck := stuck || slots.prepared.Some?;
    }

    /** The object that was moved aside goes back. */
    method PutBack() returns (back: bool)
      modifies this
      ensures back ==> RenameEffect(old(slots), DisplacedName, LeafName) == Some(slots) && faulted == old(faulted)
      ensures !back ==> slots == old(slots) && (RenameEffect(old(slots), DisplacedName, LeafName).Some? ==> faulted)
      ensures old(faulted) ==> faulted
      ensures stuck == (old(stuck) || !back)
      ensures next == old(next) && visited == old(visited) + {Now()}
    {
      back := RenameAt(DisplacedName, LeafName);
      stuck := stuck || !back;
    }

    method RemoveLeaf(n: Slot) returns (r: Removal)
      modifies this
      ensures old(Now() in visited) ==> Now() in visited
      ensures r == WasAbsent ==> Get(slots, n).None? && slots == old(slots)
      ensures r == Removed ==> Get(old(slots), n).Some? && Removable(Get(old(slots), n)) && slots == Set(old(slots), n, None)
      ensures r == RemovalRefused ==> slots == old(slots) && Get(slots, n).Some? && (Removable(Get(slots, n)) ==> faulted)
      ensures old(faulted) ==> faulted
      ensures r != RemovalRefused ==> faulted == old(faulted)
      ensures next == old(next) && stuck == old(stuck) && old(visited) <= visited <= old(visited) + {Now()}
    {
      var o := Get(slots, n);
      if o.None? {
        return WasAbsent;
      }
      if o.value.Dir? {
        var empty := DirectoryEmpty(n);
        if !empty {
          return RemovalRefused;
        }
      }
      var u := UnlinkAt(n, o.value.Dir?);
      r := if u == Gone then Removed else if u == NoEntry then WasAbsent else RemovalRefused;
    }

    /** Preparation of a new object: one call creates it under the prepared name and one call
        each brings it to the next stage.  A failure after creation takes the name away again;
        a failure while copying the payload of a regular file, stage `copy`, also throws. */
    method Prepare(stages: seq<Node>, copy: nat, directory: bool, accept: bool) returns (r: Built)
      requires |stages| > 0 && slots.prepared.None?
      requires forall i :: 0 <= i < |stages| ==> stages[i].Dir? == directory && (stages[i].Dir? ==> stages[i].entries == map[])
      modifies this
      ensures old(Now() in visited) ==> Now() in visited
      ensures r == Ready ==> accept && slots == old(slots).(prepared := Some(stages[|stages| - 1])) && faulted == old(faulted)
      ensures r != Ready ==> BuildReach(old(slots), stages, slots)
      ensures (r != Ready && !stuck ==> slots == old(slots)) && (old(stuck) ==> stuck)
      ensures !faulted ==> r == (if accept then Ready else NotReady) && (r == NotReady ==> slots == old(slots))
      ensures old(faulted) ==> faulted
      ensures next == old(next)
      ensures forall m :: m in visited ==> m in old(visited) || BuildReach(old(slots), stages, m.slots)
    {
      var i := 0;
      while i < |stages|
        invariant i <= |stages|
        invariant slots == old(slots).(prepared := if i == 0 then None else Some(stages[i - 1]))
        invariant faulted == old(faulted) && stuck == old(stuck) && next == old(next) && (old(Now() in visited) ==> Now() in visited)
        invariant forall m :: m in visited ==> m in old(visited) || BuildReach(old(slots), stages, m.slots)
      {
        if * {
          faulted := true;
          if i > 0 {
            RemovePrepared(directory);
          }
          return if i == copy then Thrown else NotReady;
        }
        Step(slots.(prepared := Some(stages[i])));
        i := i + 1;
      }
      if !accept {
        RemovePrepared(directory);
        return NotReady;
      }
      return Ready;
    }

    /** A new link of an existing file under the prepared name, dropped unless the file is regular. */
    method LinkPrepared(source: Option<Node>) returns (ok: bool)
      requires slots.prepared.None?
      modifies this
      ensures old(Now() in visited) ==> Now() in visited
      ensures ok ==> RegularFile(source) && slots == old(slots).(prepared := source) && faulted == old(faulted)
      ensures !ok ==> Untouched(old(slots), slots) && (slots.prepared.None? || (slots.prepared == source && source.value.Leaf?))
      ensures !faulted ==> ok == RegularFile(source) && (!ok ==> slots == old(slots))
      ensures (!ok && !stuck ==> slots == old(slots)) && (old(stuck) ==> stuck)
      ensures old(faulted) ==> faulted
      ensures next == old(next)
      ensures forall m :: m in visited ==>
                || m in old(visited)
                || (Untouched(old(slots), m.slots) && (m.slots.prepared.None? || (m.slots.prepared == source && source.value.Leaf?)))
    {
      if * {
        faulted := true;
        return false;
      }
      if source.None? || source.value.Dir? {
        return false;
      }
      Step(slots.(prepared := source));
      if source.value.kind != Regular {
        RemovePrepared(false);
        return false;
      }
      return true;
    }

    /** Move the old leaf aside when the rules ask for it, then move the prepared object in. */
    method PublishPrepared(incomingDirectory: bool, preserveOld: bool) returns (r: Outcome)
      requires slots.prepared.Some? && slots.displaced.None?
      requires slots.prepared.value.Dir? == incomingDirectory
      requires incomingDirectory ==> slots.prepared.value.entries == map[]
      requires slots.leaf.Some? && slots.leaf.value.Dir? ==> !incomingDirectory
      modifies this
      ensures old(Now() in visited) ==> Now() in visited
      ensures r in {Completed, Failed, Indeterminate}
      ensures var s, obj := old(slots), old(slots).prepared.value;
        var displace := Displaces(s, incomingDirectory, preserveOld);
        && (r == Completed ==> slots == Published(s, obj, displace) && (displace ==> Removable(s.leaf)))
        && (r == Failed ==> Untouched(s, slots) && (slots.prepared.None? || slots.prepared == Some(obj)))
        && (r == Indeterminate ==>
             && (Untouched(s, slots) || (displace && Removable(s.leaf) && Aside(s, slots)))
             && (slots.prepared.None? || slots.prepared == Some(obj)))
        && (!faulted ==>
             if displace && !Removable(s.leaf) then r == Failed && slots == s.(prepared := None)
             else r == Completed)
        && (forall m :: m in visited ==> m in old(visited) || PublishReach(s, obj, displace, m.slots))
      ensures (r != Completed && !stuck ==> slots == old(slots).(prepared := None)) && (old(stuck) ==> stuck)
      ensures old(faulted) ==> faulted
      ensures next == old(next)
    {
      var finalDirectory := slots.leaf.Some? && slots.leaf.value.Dir?;
      var displace := Displaces(slots, incomingDirectory, preserveOld);
      if displace {
        if finalDirectory {
          var empty := DirectoryEmpty(LeafName);
          if !empty {
            RemovePrepared(incomingDirectory);
            return Failed;
          }
        }
        var moved := RenameAt(LeafName, DisplacedName);
        if !moved {
          RemovePrepared(incomingDirectory);
          return Failed;
        }
        if finalDirectory {
          var stillEmpty := DirectoryEmpty(DisplacedName);
          if !stillEmpty {
            var back := PutBack();
            RemovePrepared(incomingDirectory);
            return if back then Failed else Indeterminate;
          }
        }
      }
      var published := RenameAt(PreparedName, LeafName);
      if !published {
        if slots.displaced.Some? {
          var _ := PutBack();
        }
        RemovePrepared(incomingDirectory);
        return Indeterminate;
      }
      return Completed;
    }

    /** Bring an existing directory's owner, mode and time to `target`, in place. */
    method UpdateDirectory(target: Meta) returns (r: Outcome)
      requires slots.leaf.Some? && slots.leaf.value.Dir?
      modifies this
      ensures old(Now() in visited) ==> Now() in visited
      ensures r in {Completed, Failed, Indeterminate}
      ensures UpdateReach(old(slots), target, slots)
      ensures r == Completed ==> slots.leaf.value.meta == target && faulted == old(faulted)
      ensures r == Failed ==> slots == old(slots)
      ensures !faulted ==> r == Completed
      ensures old(faulted) ==> faulted
      ensures next == old(next) && mtime == old(mtime) && stuck == old(stuck)
      ensures forall m :: m in visited ==> m in old(visited) || UpdateReach(old(slots), target, m.slots)
    {
      if * {
        faulted := true;
        return Indeterminate;
      }
      var before := slots.leaf.value.meta;
      var ownerMatches := before.uid == target.uid && before.gid == target.gid;
      var changed := false;
      if !ownerMatches {
        if * {
          faulted := true;
          return Failed;
        }
        SetLeafMeta(before.(uid := target.uid, gid := target.gid));
        changed := true;
      }
      if before.mode != target.mode {
        if * {
          faulted := true;
          return if changed then Indeterminate else Failed;
        }
        SetLeafMeta(slots.leaf.value.meta.(mode := target.mode));
        changed := true;
      }
      if before.mtime != target.mtime {
        if * {
          faulted := true;
          return if changed then Indeterminate else Failed;
        }
        SetLeafMeta(slots.leaf.value.meta.(mtime := target.mtime));
      }
      return Completed;
    }

    method SetLeafMeta(m: Meta)
      requires slots.leaf.Some? && slots.leaf.value.Dir?
      modifies this`slots, this`visited
      ensures slots == old(slots).(leaf := Some(WithMeta(old(slots).leaf.value, m)))
      ensures visited == old(visited) + {Now()}
    {
      slots := slots.(leaf := Some(WithMeta(slots.leaf.value, m)));
      visited := visited + {Now()};
    }

    /** Drop what was prepared and published, then move the displaced object back. */
    method RestoreDisplaced() returns (ok: bool)
      requires Inspect(slots) in {DisplacedOld, RemovedWithDisplacedOld, PublishedWithDisplacedOld}
      modifies this
      ensures old(Now() in visited) ==> Now() in visited
      ensures ok ==> slots == Slots(old(slots).displaced, None, None) && Removable(old(slots).prepared) && Removable(old(slots).leaf)
      ensures !ok ==> RestoreReach(old(slots), slots) && slots.displaced == old(slots).displaced
      ensures !faulted ==> ok == (Removable(old(slots).prepared) && Removable(old(slots).leaf))
      ensures old(faulted) ==> faulted
      ensures next == old(next)
      ensures forall m :: m in visited ==> m in old(visited) || RestoreReach(old(slots), m.slots)
    {
      var finalPresent := slots.leaf.Some?;
      var p := RemoveLeaf(PreparedName);
      if p == RemovalRefused {
        return false;
      }
      if finalPresent {
        var l := RemoveLeaf(LeafName);
        if l == RemovalRefused {
          return false;
        }
      }
      ok := RenameAt(DisplacedName, LeafName);
    }

    /** Put a prepared reconstruction in the place of whatever stands at the leaf. */
    method PublishRecovery(directory: bool) returns (r: Outcome)
      requires slots.prepared.Some? && slots.displaced.None?
      requires slots.prepared.value.Dir? == directory
      requires directory ==> slots.prepared.value.entries == map[]
      modifies this
      ensures old(Now() in visited) ==> Now() in visited
      ensures r in {Completed, Indeterminate}
      ensures var s, obj := old(slots), old(slots).prepared.value;
        && (r == Completed ==> slots == RecoveryEffect(s) && RecoveryPossible(s))
        && (r == Indeterminate ==> slots.leaf == s.leaf || (slots.leaf.None? && Removable(s.leaf)))
        && (r == Indeterminate ==> slots.displaced.None? && (slots.prepared.None? || slots.prepared == s.prepared))
        && (!faulted ==> r == (if RecoveryPossible(s) then Completed else Indeterminate))
      ensures forall m :: m in visited ==>
                || m in old(visited)
                || (var t := m.slots;
                    && t.displaced.None? && (Removable(old(slots).leaf) || t.leaf == old(slots).leaf)
                    && (t.leaf in {old(slots).leaf, None, old(slots).prepared}) && t.prepared in {None, old(slots).prepared})
      ensures (r == Indeterminate && !stuck ==> slots.prepared.None?) && (old(stuck) ==> stuck)
      ensures old(faulted) ==> faulted
      ensures next == old(next)
    {
      if slots.leaf.Some? && slots.leaf.value.Dir? {
        var empty := DirectoryEmpty(LeafName);
        var u := Refused;
        if empty {
          u := UnlinkAt(LeafName, true);
        }
        if u != Gone {
          RemovePrepared(directory);
          return Indeterminate;
        }
      }
      var ok := RenameAt(PreparedName, LeafName);
      if !ok {
        RemovePrepared(directory);
        return Indeterminate;
      }
      return Completed;
    }
  }

  /** A file, a device or a link is replaced by a non-directory only; an empty directory gives way. */
  predicate RecoveryPossible(s: Slots)
    requires s.prepared.Some?
  {
    s.leaf.Some? ==>
      if s.leaf.value.Dir? then s.leaf.value.entries == map[]
      else !s.prepared.value.Dir? || s.leaf.value.ino == s.prepared.value.ino
  }

  function RecoveryEffect(s: Slots): Slots
    requires s.prepared.Some?
  {
    if s.leaf.Some? && !s.leaf.value.Dir? && s.leaf.value.ino == s.prepared.value.ino then s
    else Slots(s.prepared, None, None)
  }
}
