/** No run, wherever its operations stop, brings any path into the contradictory state. */
module Coherence {
  import opened Tree
  import opened Workspace
  import opened Namespace
  import opened Erasure
  import opened Undo
  import opened Crash

  /** Sidecars stand beside their own leaf, also inside directories that were themselves moved aside,
      and no three names of one path contradict each other. */
  ghost predicate Coherent(n: Node, at: Path) {
    n.Dir? ==>
      && (forall x | x in n.entries :: Beside(x, at) && Coherent(n.entries[x], PathOf(at, x)))
      && (forall q: Path | q != [] :: Inspect(SlotsIn(n.entries, q)) != Contradictory)
  }

  predicate Beside(x: Name, at: Path) {
    x.Prepared? || x.Displaced? ==> x.path != [] && x.path[..|x.path| - 1] == at
  }

  ghost predicate SlotsCoherent(s: Slots, p: Path) {
    && Inspect(s) != Contradictory
    && (s.leaf.Some? ==> Coherent(s.leaf.value, p))
    && (s.prepared.Some? ==> Coherent(s.prepared.value, p))
    && (s.displaced.Some? ==> Coherent(s.displaced.value, p))
  }

  lemma {:induction false} BareIsCoherent(n: Node, at: Path)
    requires Bare(n)
    ensures Coherent(n, at)
    decreases n
  {
    if n.Leaf? {
    } else {
      forall x | x in n.entries
        ensures Beside(x, at) && Coherent(n.entries[x], PathOf(at, x))
      {
        BareIsCoherent(n.entries[x], PathOf(at, x));
      }
    }
  }

  lemma {:induction false} CoherentAt(n: Node, p: Path, i: nat)
    requires i < |p| && Coherent(n, p[..i]) && Home(n, p, i).Some?
    ensures SlotsCoherent(SlotsIn(Home(n, p, i).value.entries, p), p)
    decreases |p| - i
  {
    assert p[..i] + [p[i]] == p[..i + 1];
    if i + 1 == |p| {
      assert p[..i + 1] == p;
    } else {
      CoherentAt(n.entries[Plain(p[i])], p, i + 1);
    }
  }

  /** The names of another path of the same directory. */
  lemma OtherNames(a: map<Name, Node>, b: map<Name, Node>, p: Path, q: Path, at: Path)
    requires p != [] && q != [] && a - Names(p) == b - Names(p)
    requires forall x | x in b :: Beside(x, at)
    requires p[..|p| - 1] == at && q != p && Inspect(SlotsIn(a, q)) != Contradictory
    ensures Inspect(SlotsIn(b, q)) != Contradictory
  {
    SameEntry(a, b, Names(p), Prepared(q));
    SameEntry(a, b, Names(p), Displaced(q));
    if q[..|q| - 1] == at {
      assert p == at + [p[|p| - 1]] && q == at + [q[|q| - 1]];
      SameEntry(a, b, Names(p), Plain(q[|q| - 1]));
    }
  }

  /** The three names of any path after a change on the way to `p`. */
  lemma NamesAbove(a: map<Name, Node>, b: map<Name, Node>, x: Name, q: Path)
    requires q != [] && x.Plain? && x in a && x in b && a - {x} == b - {x}
    requires Inspect(SlotsIn(a, q)) != Contradictory
    ensures Inspect(SlotsIn(b, q)) != Contradictory
  {
    SameEntry(a, b, {x}, Prepared(q));
    SameEntry(a, b, {x}, Displaced(q));
    if Plain(q[|q| - 1]) != x {
      SameEntry(a, b, {x}, Plain(q[|q| - 1]));
    }
  }

  lemma EntriesCoherent(a: map<Name, Node>, b: map<Name, Node>, gone: set<Name>, at: Path)
    requires a - gone == b - gone
    requires forall x | x in a :: Beside(x, at) && Coherent(a[x], PathOf(at, x))
    requires forall x | x in b && x in gone :: Beside(x, at) && Coherent(b[x], PathOf(at, x))
    ensures forall x | x in b :: Beside(x, at) && Coherent(b[x], PathOf(at, x))
  {
    hide Coherent;
    forall x | x in b && x !in gone
      ensures Beside(x, at) && Coherent(b[x], PathOf(at, x))
    {
      SameEntry(a, b, gone, x);
    }
  }

  lemma {:induction false} CoherentFramed(a: Node, b: Node, p: Path, i: nat)
    requires i < |p| && Framed(a, b, p, i) && Coherent(a, p[..i])
    requires Home(b, p, i).Some? && SlotsCoherent(SlotsIn(Home(b, p, i).value.entries, p), p)
    ensures Coherent(b, p[..i])
    decreases |p| - i
  {
    var at, x0 := p[..i], Plain(p[i]);
    assert at + [p[i]] == p[..i + 1];
    if i + 1 == |p| {
      assert p[..i + 1] == p && p[..|p| - 1] == at;
      EntriesCoherent(a.entries, b.entries, Names(p), at);
    } else {
      CoherentFramed(a.entries[x0], b.entries[x0], p, i + 1);
      EntriesCoherent(a.entries, b.entries, {x0}, at);
    }
    forall q: Path | q != []
      ensures Inspect(SlotsIn(b.entries, q)) != Contradictory
    {
      if i + 1 < |p| {
        NamesAbove(a.entries, b.entries, x0, q);
      } else if q != p {
        OtherNames(a.entries, b.entries, p, q, at);
      }
    }
  }

  lemma CoherentMeta(n: Node, m: Meta, at: Path)
    requires Coherent(n, at)
    ensures Coherent(WithMeta(n, m), at)
  {
  }

  lemma EmptyIsCoherent(o: Option<Node>, at: Path)
    requires Removable(o)
    ensures o.Some? ==> Coherent(o.value, at)
  {
  }

  /** Wherever an operation stops, the names of its path are coherent if they were before. */
  lemma PublishCoherent(c: Config, w: World, p: PackagePath, t: Slots)
    requires PublishStarts(c, w, p) && PublishSpan(c, w, p, t) && SlotsCoherent(SlotsAt(w.root, p), p)
    ensures SlotsCoherent(t, p)
  {
    var e, s := EntryAt(c, p).value, SlotsAt(w.root, p);
    EmptyIsCoherent(t.prepared, p);
    if UpdatesInPlace(e, s) && t.leaf.Some? {
      CoherentMeta(s.leaf.value, t.leaf.value.meta, p);
    }
    if Publishes(c, w, p) && t == PublishedSlots(c, w, p, e) && !UpdatesInPlace(e, s) {
      EmptyIsCoherent(Incoming(w, e), p);
    }
  }

  lemma RecoverCoherent(c: Config, w: World, p: PackagePath, t: Slots)
    requires p in c.admitted && Home(w.root, p, 0).Some? && RecoverSpan(c, w, p, t) && SlotsCoherent(SlotsAt(w.root, p), p)
    ensures SlotsCoherent(t, p)
  {
    var s := SlotsAt(w.root, p);
    if Inspect(s) == Clear {
      EmptyIsCoherent(t.prepared, p);
      if Removable(t.leaf) {
        EmptyIsCoherent(t.leaf, p);
      }
      if s.leaf.Some? && t.leaf.Some? {
        CoherentMeta(s.leaf.value, t.leaf.value.meta, p);
      }
    }
  }

  lemma StoppedCoherent(c: Config, w: World, v: Node, a: Act)
    requires Stopped(c, w, v, a) && Coherent(w.root, [])
    ensures Coherent(v, [])
  {
    var p := a.path;
    assert p[..0] == [];
    if v != w.root && Home(w.root, p, 0).Some? {
      CoherentAt(w.root, p, 0);
      match a {
        case Publish(q) => PublishCoherent(c, w, q, SlotsAt(v, q));
        case Remove(q, directory) =>
        case Recover(q) => RecoverCoherent(c, w, q, SlotsAt(v, q));
      }
      CoherentFramed(w.root, v, p, 0);
    }
  }

  /** Over every run of publications, removals and recoveries, each of which completed, failed or
      crashed at any call: no path whose home can be opened is ever contradictory. */
  lemma {:induction false} NeverContradictory(c: Config, ws: seq<World>, acts: seq<Act>, k: nat)
    requires |ws| == |acts| + 1 && k <= |acts| && Bare(ws[0].root)
    requires forall i :: 0 <= i < |acts| ==> Stopped(c, ws[i], ws[i + 1].root, acts[i])
    ensures Coherent(ws[k].root, [])
    ensures forall p: PackagePath :: Home(ws[k].root, p, 0).Some? ==> Inspect(SlotsAt(ws[k].root, p)) != Contradictory
  {
    if k == 0 {
      BareIsCoherent(ws[0].root, []);
    } else {
      NeverContradictory(c, ws, acts, k - 1);
      StoppedCoherent(c, ws[k - 1], ws[k].root, acts[k - 1]);
    }
    forall p: PackagePath | Home(ws[k].root, p, 0).Some?
      ensures Inspect(SlotsAt(ws[k].root, p)) != Contradictory
    {
      assert p[..0] == [];
      CoherentAt(ws[k].root, p, 0);
    }
  }
}
