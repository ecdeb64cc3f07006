/** Equality of targets up to the times nobody tracks.

  Changing the entries of a directory moves its modification time, and only the directories
  the attempt admitted are brought back to the right one.  `Erase` forgets the time of every
  other directory and keeps everything else, sidecars and inode numbers included.
 */
module Erasure {
  import opened Tree
  import opened Workspace
  import opened Namespace

  const NO_TIME := Time(0, 0)

  /** The managed path an entry stands for: a sidecar belongs to the path in its name. */
  function PathOf(at: Path, x: Name): Path {
    match x case Plain(s) => at + [s] case Prepared(q) => q case Displaced(q) => q
  }

  function EraseMeta(m: Meta, at: Path, tracked: set<Path>): Meta {
    if at in tracked then m else m.(mtime := NO_TIME)
  }

  function Erase(n: Node, at: Path, tracked: set<Path>): Node {
    match n
    case Leaf(_, _, _, _) => n
    case Dir(ino, meta, entries) =>
      Dir(ino, EraseMeta(meta, at, tracked), map x | x in entries :: Erase(entries[x], PathOf(at, x), tracked))
  }

  function EraseOption(o: Option<Node>, at: Path, tracked: set<Path>): Option<Node> {
    if o.Some? then Some(Erase(o.value, at, tracked)) else None
  }

  function EraseSlots(s: Slots, p: Path, tracked: set<Path>): Slots {
    Slots(EraseOption(s.leaf, p, tracked), EraseOption(s.prepared, p, tracked), EraseOption(s.displaced, p, tracked))
  }

  lemma EraseEntry(n: Node, at: Path, tracked: set<Path>, x: Name)
    requires n.Dir?
    ensures Find(Erase(n, at, tracked).entries, x) == EraseOption(Find(n.entries, x), PathOf(at, x), tracked)
  {
  }

  lemma EraseHome(n: Node, p: Path, i: nat, tracked: set<Path>)
    requires i < |p|
    ensures Home(Erase(n, p[..i], tracked), p, i) == EraseOption(Home(n, p, i), p[..|p| - 1], tracked)
    ensures Home(n, p, i).Some? ==>
      SlotsIn(Home(Erase(n, p[..i], tracked), p, i).value.entries, p) == EraseSlots(SlotsIn(Home(n, p, i).value.entries, p), p, tracked)
    decreases |p| - i
  {
    if n.Dir? {
      assert p[..i] + [p[i]] == p[..i + 1];
      if i + 1 == |p| {
        assert p[..i + 1] == p;
        EraseEntry(n, p[..i], tracked, Plain(p[i]));
        EraseEntry(n, p[..i], tracked, Prepared(p));
        EraseEntry(n, p[..i], tracked, Displaced(p));
      } else if Plain(p[i]) in n.entries {
        EraseHome(n.entries[Plain(p[i])], p, i + 1, tracked);
      }
    }
  }

  lemma EraseAt(n: Node, p: Path, i: nat, tracked: set<Path>)
    requires i <= |p|
    ensures At(Erase(n, p[..i], tracked), p, i) == EraseOption(At(n, p, i), p, tracked)
    decreases |p| - i
  {
    if i == |p| {
      assert p[..i] == p;
    } else if n.Dir? {
      assert p[..i] + [p[i]] == p[..i + 1];
      if Plain(p[i]) in n.entries {
        EraseAt(n.entries[Plain(p[i])], p, i + 1, tracked);
      }
    }
  }

  /** Forgetting more forgets no less. */
  lemma {:induction false} EraseTwice(n: Node, at: Path, less: set<Path>, tracked: set<Path>)
    requires less <= tracked
    ensures Erase(Erase(n, at, tracked), at, less) == Erase(n, at, less)
  {
    if n.Leaf? {
    } else {
      forall x | x in n.entries
        ensures Erase(Erase(n.entries[x], PathOf(at, x), tracked), PathOf(at, x), less) == Erase(n.entries[x], PathOf(at, x), less)
      {
        EraseTwice(n.entries[x], PathOf(at, x), less, tracked);
      }
    }
  }

  /** Targets that agree up to erasure answer every admission check of a tracked path alike. */
  lemma EraseAdmit(a: Node, b: Node, p: PackagePath, o: Observation, tracked: set<Path>)
    requires p in tracked && Erase(a, [], tracked) == Erase(b, [], tracked)
    ensures Admit(a, p, o) == Admit(b, p, o)
  {
    hide At, Home;
    assert p[..0] == [];
    EraseAt(a, p, 0, tracked);
    EraseAt(b, p, 0, tracked);
    if o.Present? && o.anchor.Some? {
      var q := o.anchor.value;
      assert q[..0] == [];
      EraseHome(a, q, 0, tracked);
      EraseHome(b, q, 0, tracked);
    }
  }

  lemma EraseMatches(a: Node, b: Node, p: PackagePath, e: Entry, anyTime: bool, tracked: set<Path>)
    requires p in tracked && Erase(a, [], tracked) == Erase(b, [], tracked)
    ensures Matches(a, p, e, anyTime) == Matches(b, p, e, anyTime)
  {
    assert p[..0] == [];
    EraseAt(a, p, 0, tracked);
    EraseAt(b, p, 0, tracked);
    assert e.anchor[..0] == [];
    EraseAt(a, e.anchor, 0, tracked);
    EraseAt(b, e.anchor, 0, tracked);
  }

  /** A change at `p` from `a` to `b` and a second one from `b'` to `c` that puts the slots back
      cancel out, when each tracked directory above `p` ends with the metadata it started with. */
  lemma {:induction false} Cancel(after: map<Path, Meta>, before: map<Path, Meta>, a: Node, b: Node, b': Node, c: Node,
                                  p: Path, i: nat, tracked: set<Path>)
    requires i < |p|
    requires Settled(after, a, b, p, i) && Settled(before, b', c, p, i)
    requires Erase(b, p[..i], tracked) == Erase(b', p[..i], tracked)
    requires forall k :: i <= k < |p| && p[..k] in tracked ==>
      At(a, p[..k], i).Some? && p[..k] in before && At(a, p[..k], i).value.Dir? && At(a, p[..k], i).value.meta == before[p[..k]]
    requires forall k :: i <= k < |p| && p[..k] !in tracked ==>
      && p[..k] !in before
      && (p[..k] in after ==> At(a, p[..k], i).Some? && At(a, p[..k], i).value.Dir? && SameOwner(At(a, p[..k], i).value.meta, after[p[..k]]))
    requires Home(a, p, i).Some? && Home(c, p, i).Some?
    requires EraseSlots(SlotsIn(Home(a, p, i).value.entries, p), p, tracked) == EraseSlots(SlotsIn(Home(c, p, i).value.entries, p), p, tracked)
    ensures Erase(a, p[..i], tracked) == Erase(c, p[..i], tracked)
    decreases |p| - i
  {
    var at := p[..i];
    var ea, eb, eb', ec := Erase(a, at, tracked), Erase(b, at, tracked), Erase(b', at, tracked), Erase(c, at, tracked);
    assert At(a, p[..i], i) == Some(a);
    assert ea.meta == ec.meta;
    assert at + [p[i]] == p[..i + 1];
    forall x
      ensures Find(ea.entries, x) == Find(ec.entries, x)
    {
      EraseEntry(a, at, tracked, x);
      EraseEntry(b, at, tracked, x);
      EraseEntry(b', at, tracked, x);
      EraseEntry(c, at, tracked, x);
      if i + 1 == |p| {
        assert p[..i + 1] == p;
        EraseHome(a, p, i, tracked);
        EraseHome(c, p, i, tracked);
        if x !in Names(p) {
          SameEntry(a.entries, b.entries, Names(p), x);
          SameEntry(b'.entries, c.entries, Names(p), x);
        }
      } else if x == Plain(p[i]) {
        forall k | i + 1 <= k < |p|
          ensures At(a.entries[x], p[..k], i + 1) == At(a, p[..k], i)
        {
        }
        Cancel(after, before, a.entries[x], b.entries[x], b'.entries[x], c.entries[x], p, i + 1, tracked);
      } else {
        SameEntry(a.entries, b.entries, {Plain(p[i])}, x);
        SameEntry(b'.entries, c.entries, {Plain(p[i])}, x);
      }
    }
    SameMap(ea.entries, ec.entries);
  }
}
