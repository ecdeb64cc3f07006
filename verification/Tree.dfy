/** The target filesystem as a value.

  A directory is a map from names to nodes.  Beside the ordinary name of a managed path
  stand the two sidecar names the active workspace derives from it; the digest that forms
  them is modelled by the injective constructors `Prepared` and `Displaced`, disjoint from
  every ordinary name.  A published non-directory is never written in place, so two links
  of one file are two leaves that carry the same inode number.
 */
module Tree {

  datatype Option<+T> = None | Some(value: T)

  /** The components of a package path, root first.  The target root itself is `[]`. */
  type Path = seq<string>

  datatype Kind = Regular | Symlink | Fifo | CharacterDevice | BlockDevice | Socket | Other
  datatype Time = Time(seconds: int, nanoseconds: nat)
  datatype Meta = Meta(mode: nat, uid: nat, gid: nat, mtime: Time)
  datatype Content = Nothing | Bytes(bytes: seq<bv8>) | Link(text: string) | Device(major: nat, minor: nat)

  datatype Name = Plain(text: string) | Prepared(path: Path) | Displaced(path: Path)

  datatype Node =
    | Leaf(ino: nat, kind: Kind, meta: Meta, content: Content)
    | Dir(ino: nat, meta: Meta, entries: map<Name, Node>)

  predicate SameOwner(a: Meta, b: Meta) {
    a.mode == b.mode && a.uid == b.uid && a.gid == b.gid
  }

  predicate Ancestor(q: Path, p: Path) {
    q != [] && |q| < |p| && q == p[..|q|]
  }

  /** The object reached from `n`, which stands at `p[..i]`, through ordinary names only. */
  function At(n: Node, p: Path, i: nat): Option<Node>
    requires i <= |p|
    decreases |p| - i
  {
    if i == |p| then Some(n)
    else if n.Dir? && Plain(p[i]) in n.entries then At(n.entries[Plain(p[i])], p, i + 1)
    else None
  }

  /** The directory that holds the names of `p`, as the component walk opens it. */
  function Home(n: Node, p: Path, i: nat): Option<Node>
    requires i < |p|
    ensures Home(n, p, i).Some? ==> Home(n, p, i).value.Dir?
    decreases |p| - i
  {
    if !n.Dir? then None
    else if i + 1 == |p| then Some(n)
    else if Plain(p[i]) in n.entries then Home(n.entries[Plain(p[i])], p, i + 1)
    else None
  }

  /** The three sibling names of one managed path. */
  datatype Slots = Slots(leaf: Option<Node>, prepared: Option<Node>, displaced: Option<Node>)

  function Find(entries: map<Name, Node>, name: Name): (r: Option<Node>) {
    if name in entries then Some(entries[name]) else None
  }

  function Hold(name: Name, o: Option<Node>): map<Name, Node> {
    if o.Some? then map[name := o.value] else map[]
  }

  function SlotsIn(entries: map<Name, Node>, p: Path): Slots
    requires p != []
  {
    Slots(Find(entries, Plain(p[|p| - 1])), Find(entries, Prepared(p)), Find(entries, Displaced(p)))
  }

  function Names(p: Path): set<Name>
    requires p != []
  {
    {Plain(p[|p| - 1]), Prepared(p), Displaced(p)}
  }

  function Fit(entries: map<Name, Node>, p: Path, s: Slots): map<Name, Node>
    requires p != []
  {
    entries - Names(p)
    + Hold(Plain(p[|p| - 1]), s.leaf) + Hold(Prepared(p), s.prepared) + Hold(Displaced(p), s.displaced)
  }

  lemma FitLookup(entries: map<Name, Node>, p: Path, s: Slots, x: Name)
    requires p != []
    ensures Find(Fit(entries, p, s), x) ==
            if x == Plain(p[|p| - 1]) then s.leaf
            else if x == Prepared(p) then s.prepared
            else if x == Displaced(p) then s.displaced
            else Find(entries, x)
  {
    var rest := entries - Names(p);
    assert x in rest <==> x in entries && x !in Names(p);
  }

  lemma SameMap(a: map<Name, Node>, b: map<Name, Node>)
    requires forall x :: Find(a, x) == Find(b, x)
    ensures a == b
  {
    assert forall x :: x in a <==> Find(a, x).Some?;
    assert forall x :: x in b <==> Find(b, x).Some?;
    assert forall x :: x in a ==> Find(a, x) == Some(a[x]);
    assert forall x :: x in b ==> Find(b, x) == Some(b[x]);
  }

  lemma FitSlots(entries: map<Name, Node>, p: Path, s: Slots)
    requires p != []
    ensures SlotsIn(Fit(entries, p, s), p) == s
    ensures Fit(entries, p, s) - Names(p) == entries - Names(p)
  {
    FitLookup(entries, p, s, Plain(p[|p| - 1]));
    FitLookup(entries, p, s, Prepared(p));
    FitLookup(entries, p, s, Displaced(p));
    forall x
      ensures Find(Fit(entries, p, s) - Names(p), x) == Find(entries - Names(p), x)
    {
      FitLookup(entries, p, s, x);
    }
    SameMap(Fit(entries, p, s) - Names(p), entries - Names(p));
  }

  /** A directory is determined by the names of `p` and the names that are not. */
  lemma SameSlots(a: map<Name, Node>, b: map<Name, Node>, p: Path)
    requires p != [] && a - Names(p) == b - Names(p) && SlotsIn(a, p) == SlotsIn(b, p)
    ensures a == b
  {
    forall x
      ensures Find(a, x) == Find(b, x)
    {
      if x !in Names(p) {
        SameEntry(a, b, Names(p), x);
      }
    }
    SameMap(a, b);
  }

  /** `b` is `a` except for the names of `p` and the metadata of the directories above it. */
  ghost predicate Framed(a: Node, b: Node, p: Path, i: nat)
    requires i < |p|
    decreases |p| - i
  {
    && a.Dir? && b.Dir? && a.ino == b.ino
    && if i + 1 == |p| then a.entries - Names(p) == b.entries - Names(p)
       else
         var c := Plain(p[i]);
         && c in a.entries && c in b.entries
         && a.entries - {c} == b.entries - {c}
         && Framed(a.entries[c], b.entries[c], p, i + 1)
  }

  /** What one change at `p` may leave behind on a directory above it: the directories named
      in `goals` carry their goal, the others keep their metadata, except that the directory
      whose entries changed may carry any modification time. */
  ghost predicate Restored(goals: map<Path, Meta>, a: Meta, b: Meta, q: Path, parent: bool) {
    if q in goals then b == goals[q]
    else if parent then SameOwner(a, b)
    else a == b
  }

  ghost predicate Settled(goals: map<Path, Meta>, a: Node, b: Node, p: Path, i: nat)
    requires i < |p|
    decreases |p| - i
  {
    && a.Dir? && b.Dir? && a.ino == b.ino
    && Restored(goals, a.meta, b.meta, p[..i], i + 1 == |p|)
    && if i + 1 == |p| then a.entries - Names(p) == b.entries - Names(p)
       else
         var c := Plain(p[i]);
         && c in a.entries && c in b.entries
         && a.entries - {c} == b.entries - {c}
         && Settled(goals, a.entries[c], b.entries[c], p, i + 1)
  }

  lemma SettledIsFramed(goals: map<Path, Meta>, a: Node, b: Node, p: Path, i: nat)
    requires i < |p| && Settled(goals, a, b, p, i)
    ensures Framed(a, b, p, i)
    decreases |p| - i
  {
    if i + 1 < |p| {
      SettledIsFramed(goals, a.entries[Plain(p[i])], b.entries[Plain(p[i])], p, i + 1);
    }
  }

  lemma SameEntry(a: map<Name, Node>, b: map<Name, Node>, gone: set<Name>, x: Name)
    requires a - gone == b - gone && x !in gone
    ensures x in a <==> x in b
    ensures x in a ==> a[x] == b[x]
  {
    assert x in a <==> x in a - gone;
    assert x in b <==> x in b - gone;
    if x in a {
      assert (a - gone)[x] == a[x];
      assert (b - gone)[x] == b[x];
    }
  }

  lemma AtHome(n: Node, p: Path, i: nat)
    requires i < |p|
    ensures Home(n, p, i).None? ==> At(n, p, i).None?
    ensures Home(n, p, i).Some? ==> At(n, p, i) == SlotsIn(Home(n, p, i).value.entries, p).leaf
    decreases |p| - i
  {
    if n.Dir? && i + 1 < |p| && Plain(p[i]) in n.entries {
      AtHome(n.entries[Plain(p[i])], p, i + 1);
    }
  }

  /** `p` and `q` take different names for the first time at component `k`. */
  predicate Part(p: Path, q: Path, k: nat) {
    k < |p| && k < |q| && p[k] != q[k] && p[..k] == q[..k]
  }

  lemma Diverge(p: Path, q: Path) returns (k: nat)
    requires !(q <= p) && !(p <= q)
    ensures Part(p, q, k)
  {
    k := 0;
    while k < |p| && k < |q| && p[k] == q[k]
      invariant k <= |p| && k <= |q| && p[..k] == q[..k]
    {
      k := k + 1;
    }
    assert p == p[..|p|] && q == q[..|q|];
  }

  /** The object found at any path `q` that neither leads to `p` nor runs through it. */
  lemma FramedElsewhere(a: Node, b: Node, p: Path, q: Path, k: nat, i: nat)
    requires i < |p| && Framed(a, b, p, i)
    requires Part(p, q, k) && i <= k
    ensures At(a, q, i) == At(b, q, i)
    decreases |p| - i
  {
    if i < k {
      assert q[i] == p[i] by { assert p[..k][i] == q[..k][i]; }
      FramedElsewhere(a.entries[Plain(p[i])], b.entries[Plain(p[i])], p, q, k, i + 1);
    } else if i + 1 == |p| {
      SameEntry(a.entries, b.entries, Names(p), Plain(q[i]));
    } else {
      SameEntry(a.entries, b.entries, {Plain(p[i])}, Plain(q[i]));
    }
  }

  /** The directories above `p`. */
  lemma SettledAbove(goals: map<Path, Meta>, a: Node, b: Node, p: Path, k: nat, i: nat)
    requires i <= k < |p| && Settled(goals, a, b, p, i)
    ensures At(a, p[..k], i).Some? && At(a, p[..k], i).value.Dir?
    ensures At(b, p[..k], i).Some? && At(b, p[..k], i).value.Dir?
    ensures At(a, p[..k], i).value.ino == At(b, p[..k], i).value.ino
    ensures Restored(goals, At(a, p[..k], i).value.meta, At(b, p[..k], i).value.meta, p[..k], k + 1 == |p|)
    decreases |p| - i
  {
    if i < k {
      SettledAbove(goals, a.entries[Plain(p[i])], b.entries[Plain(p[i])], p, k, i + 1);
    }
  }

  /** Beneath `p` the search continues from whatever object stands at `p`. */
  lemma AtThrough(n: Node, p: Path, q: Path, i: nat)
    requires i <= |p| <= |q| && p == q[..|p|]
    ensures At(n, q, i) == (if At(n, p, i).Some? then At(At(n, p, i).value, q, |p|) else None)
    decreases |p| - i
  {
    if i < |p| && n.Dir? && Plain(p[i]) in n.entries {
      AtThrough(n.entries[Plain(p[i])], p, q, i + 1);
    }
  }

  /** `a` with the names of `p` replaced, every directory above keeping its metadata but the
      one that holds the names, which takes the time `t`. */
  function Replace(a: Node, p: Path, i: nat, s: Slots, t: Time): (b: Node)
    requires i < |p| && Home(a, p, i).Some?
    ensures b.Dir?
    decreases |p| - i
  {
    if i + 1 == |p| then Dir(a.ino, a.meta.(mtime := t), Fit(a.entries, p, s))
    else
      var c := Plain(p[i]);
      Dir(a.ino, a.meta, a.entries[c := Replace(a.entries[c], p, i + 1, s, t)])
  }

  lemma ReplaceSettled(a: Node, p: Path, i: nat, s: Slots, t: Time)
    requires i < |p| && Home(a, p, i).Some?
    ensures Settled(map[], a, Replace(a, p, i, s, t), p, i)
    ensures Home(Replace(a, p, i, s, t), p, i).Some?
    ensures SlotsIn(Home(Replace(a, p, i, s, t), p, i).value.entries, p) == s
    decreases |p| - i
  {
    if i + 1 == |p| {
      FitSlots(a.entries, p, s);
    } else {
      var c := Plain(p[i]);
      ReplaceSettled(a.entries[c], p, i + 1, s, t);
      var b := Replace(a, p, i, s, t);
      assert a.entries - {c} == b.entries - {c};
    }
  }

  /** `b` is `a` except for the metadata of the directories above `p`. */
  ghost predicate Drifted(a: Node, b: Node, p: Path, i: nat)
    requires i < |p|
    decreases |p| - i
  {
    && a.Dir? && b.Dir? && a.ino == b.ino
    && if i + 1 == |p| then a.entries == b.entries
       else
         var c := Plain(p[i]);
         && c in a.entries && c in b.entries
         && a.entries - {c} == b.entries - {c}
         && Drifted(a.entries[c], b.entries[c], p, i + 1)
  }

  /** A drift that brings the directories named in `goals` to their goal and touches no other. */
  ghost predicate Refreshed(goals: map<Path, Meta>, a: Node, b: Node, p: Path, i: nat)
    requires i < |p|
    decreases |p| - i
  {
    && a.Dir? && b.Dir? && a.ino == b.ino
    && Restored(goals, a.meta, b.meta, p[..i], false)
    && if i + 1 == |p| then a.entries == b.entries
       else
         var c := Plain(p[i]);
         && c in a.entries && c in b.entries
         && a.entries - {c} == b.entries - {c}
         && Refreshed(goals, a.entries[c], b.entries[c], p, i + 1)
  }

  lemma RefreshedIsDrifted(goals: map<Path, Meta>, a: Node, b: Node, p: Path, i: nat)
    requires i < |p| && Refreshed(goals, a, b, p, i)
    ensures Drifted(a, b, p, i)
    decreases |p| - i
  {
    if i + 1 < |p| {
      RefreshedIsDrifted(goals, a.entries[Plain(p[i])], b.entries[Plain(p[i])], p, i + 1);
    }
  }

  lemma DriftedHome(a: Node, b: Node, p: Path, i: nat)
    requires i < |p| && Drifted(a, b, p, i)
    ensures Home(a, p, i).Some? && Home(b, p, i).Some?
    ensures Home(a, p, i).value.entries == Home(b, p, i).value.entries
    decreases |p| - i
  {
    if i + 1 < |p| {
      DriftedHome(a.entries[Plain(p[i])], b.entries[Plain(p[i])], p, i + 1);
    }
  }

  /** A change of the names of `p` followed by a drift above `p` is again a framed change. */
  lemma FramedDrifted(a: Node, b: Node, c: Node, p: Path, i: nat)
    requires i < |p| && Framed(a, b, p, i) && Drifted(b, c, p, i)
    ensures Framed(a, c, p, i)
    decreases |p| - i
  {
    if i + 1 < |p| {
      FramedDrifted(a.entries[Plain(p[i])], b.entries[Plain(p[i])], c.entries[Plain(p[i])], p, i + 1);
    }
  }

  lemma SettledRefreshed(goals: map<Path, Meta>, a: Node, b: Node, c: Node, p: Path, i: nat)
    requires i < |p| && Settled(map[], a, b, p, i) && Refreshed(goals, b, c, p, i)
    ensures Settled(goals, a, c, p, i)
    decreases |p| - i
  {
    if i + 1 < |p| {
      SettledRefreshed(goals, a.entries[Plain(p[i])], b.entries[Plain(p[i])], c.entries[Plain(p[i])], p, i + 1);
    }
  }

  lemma RefreshedNothing(a: Node, p: Path, i: nat)
    requires i < |p| && Home(a, p, i).Some?
    ensures Refreshed(map[], a, a, p, i)
    decreases |p| - i
  {
    if i + 1 < |p| {
      RefreshedNothing(a.entries[Plain(p[i])], p, i + 1);
    }
  }

  /** `a` with the metadata of the directory at `p[..k]` replaced. */
  function SetMeta(a: Node, p: Path, k: nat, i: nat, m: Meta): (b: Node)
    requires i <= k < |p| && Home(a, p, i).Some?
    ensures b.Dir?
    decreases |p| - i
  {
    if i == k then Dir(a.ino, m, a.entries)
    else
      var c := Plain(p[i]);
      Dir(a.ino, a.meta, a.entries[c := SetMeta(a.entries[c], p, k, i + 1, m)])
  }

  lemma SetMetaRefreshed(goals: map<Path, Meta>, a: Node, b: Node, p: Path, k: nat, i: nat, m: Meta)
    requires i <= k < |p| && Refreshed(goals, a, b, p, i)
    ensures Home(b, p, i).Some?
    ensures Refreshed(goals[p[..k] := m], a, SetMeta(b, p, k, i, m), p, i)
    decreases |p| - i
  {
    RefreshedIsDrifted(goals, a, b, p, i);
    DriftedHome(a, b, p, i);
    if i == k {
      RefreshedLess(goals, goals[p[..k] := m], a, SetMeta(b, p, k, i, m), b, p, i);
    } else {
      assert p[..i] != p[..k];
      var c := Plain(p[i]);
      SetMetaRefreshed(goals, a.entries[c], b.entries[c], p, k, i + 1, m);
      var d := SetMeta(b, p, k, i, m);
      assert a.entries - {c} == d.entries - {c};
    }
  }

  /** Goals that differ only at and above a directory decide nothing beneath it. */
  lemma RefreshedLess(goals: map<Path, Meta>, more: map<Path, Meta>, a: Node, b: Node, b0: Node, p: Path, i: nat)
    requires i < |p| && Refreshed(goals, a, b0, p, i)
    requires b.Dir? && b == Dir(b0.ino, b.meta, b0.entries)
    requires p[..i] in more && more[p[..i]] == b.meta
    requires forall k :: i < k < |p| ==> (p[..k] in goals <==> p[..k] in more) && (p[..k] in goals ==> goals[p[..k]] == more[p[..k]])
    ensures Refreshed(more, a, b, p, i)
  {
    if i + 1 < |p| {
      RefreshedAgree(goals, more, a.entries[Plain(p[i])], b.entries[Plain(p[i])], p, i + 1);
    }
  }

  lemma RefreshedAgree(goals: map<Path, Meta>, more: map<Path, Meta>, a: Node, b: Node, p: Path, i: nat)
    requires i < |p| && Refreshed(goals, a, b, p, i)
    requires forall k :: i <= k < |p| ==> (p[..k] in goals <==> p[..k] in more) && (p[..k] in goals ==> goals[p[..k]] == more[p[..k]])
    ensures Refreshed(more, a, b, p, i)
    decreases |p| - i
  {
    if i + 1 < |p| {
      RefreshedAgree(goals, more, a.entries[Plain(p[i])], b.entries[Plain(p[i])], p, i + 1);
    }
  }

  /** The directory above `p` at depth `k`, seen through a refresh. */
  lemma RefreshedAbove(goals: map<Path, Meta>, a: Node, b: Node, p: Path, k: nat, i: nat)
    requires i <= k < |p| && Refreshed(goals, a, b, p, i)
    ensures At(a, p[..k], i).Some? && At(a, p[..k], i).value.Dir?
    ensures At(b, p[..k], i).Some? && At(b, p[..k], i).value.Dir?
    ensures Restored(goals, At(a, p[..k], i).value.meta, At(b, p[..k], i).value.meta, p[..k], false)
    decreases |p| - i
  {
    if i < k {
      RefreshedAbove(goals, a.entries[Plain(p[i])], b.entries[Plain(p[i])], p, k, i + 1);
    }
  }
}
