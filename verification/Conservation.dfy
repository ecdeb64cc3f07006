/** No old object of a captured path is ever lost before its recovery material is discarded. */
module Conservation {
  import opened Tree
  import opened Workspace
  import opened Namespace
  import opened Undo
  import opened Crash
  import opened Coherence

  /** A file is the very same node; a directory is the same inode, whatever it holds. */
  predicate Same(x: Node, o: Node) {
    if o.Leaf? then x == o else x.Dir? && x.ino == o.ino
  }

  /** The object `o` of the path `p` is where displacement keeps it.  On every level the displaced
      name decides when it is occupied, and then no directory stands at the leaf beside it; otherwise
      the leaf does. */
  ghost predicate Kept(n: Node, p: Path, i: nat, o: Node)
    requires i < |p|
    decreases |p| - i, 0
  {
    n.Dir? && SlotsKeep(SlotsIn(n.entries, p[..i + 1]), p, i + 1, o)
  }

  ghost predicate SlotsKeep(s: Slots, p: Path, k: nat, o: Node)
    requires k <= |p|
    decreases |p| - k, 1
  {
    var held := if s.displaced.Some? then s.displaced else s.leaf;
    && held.Some?
    && if k == |p| then Same(held.value, o)
       else Kept(held.value, p, k, o) && (s.displaced.Some? && s.leaf.Some? ==> !s.leaf.value.Dir?)
  }

  /** A walk that opens the home of `q`, above or at `p`, runs the way the object is kept. */
  lemma {:induction false} KeptAt(n: Node, q: Path, p: Path, i: nat, o: Node)
    requires i < |q| <= |p| && q == p[..|q|] && Kept(n, p, i, o) && Home(n, q, i).Some?
    ensures SlotsKeep(SlotsIn(Home(n, q, i).value.entries, q), p, |q|, o)
    decreases |q| - i
  {
    if i + 1 < |q| {
      assert q[i] == p[i];
      KeptAt(n.entries[Plain(p[i])], q, p, i + 1, o);
    } else {
      assert p[..i + 1] == q;
    }
  }

  /** A change of the slots of one path keeps the object if those slots do. */
  lemma {:induction false} KeptFramed(a: Node, b: Node, q: Path, p: Path, i: nat, o: Node)
    requires i < |q| && i < |p| && p[..i] == q[..i]
    requires Framed(a, b, q, i) && Kept(a, p, i, o)
    requires Home(a, q, i).Some? && Home(b, q, i).Some?
    requires q <= p ==> SlotsKeep(SlotsIn(Home(b, q, i).value.entries, q), p, |q|, o)
    ensures Kept(b, p, i, o)
    decreases |q| - i
  {
    var leaf, aside := Plain(p[i]), Displaced(p[..i + 1]);
    if i + 1 == |q| {
      if p[i] == q[i] {
        assert p[..i + 1] == q;
      } else {
        assert p[..i + 1] != q by { assert p[..i + 1][i] != q[i]; }
        SameEntry(a.entries, b.entries, Names(q), leaf);
        SameEntry(a.entries, b.entries, Names(q), aside);
      }
    } else {
      var x := Plain(q[i]);
      SameEntry(a.entries, b.entries, {x}, aside);
      if p[i] == q[i] {
        assert p[..i + 1] == q[..i + 1];
        FramedRoot(a.entries[x], b.entries[x], q, i + 1);
        if i + 1 < |p| && aside !in a.entries {
          KeptFramed(a.entries[x], b.entries[x], q, p, i + 1, o);
        }
      } else {
        SameEntry(a.entries, b.entries, {x}, leaf);
      }
    }
  }

  lemma FramedRoot(a: Node, b: Node, q: Path, i: nat)
    requires i < |q| && Framed(a, b, q, i)
    ensures a.Dir? && b.Dir? && a.ino == b.ino
  {
  }

  lemma KeptMeta(n: Node, m: Meta, p: Path, i: nat, o: Node)
    requires i < |p|
    ensures Kept(n, p, i, o) ==> Kept(WithMeta(n, m), p, i, o) && !Removable(Some(n))
  {
    if Kept(n, p, i, o) {
      var s := SlotsIn(n.entries, p[..i + 1]);
      assert SlotsKeep(s, p, i + 1, o);
      assert s.leaf.Some? || s.displaced.Some?;
    }
  }

  /* ---------- one operation, stopped anywhere ---------- */

  /** No publication, at whatever call it stops, loses the old object of a captured path: neither
      its own nor that of a path beneath or beside it. */
  lemma PublishKeeps(c: Config, w: World, v: Node, q: PackagePath, p: PackagePath, o: Node)
    requires PublishStopped(c, w, v, q) && Kept(w.root, p, 0, o) && p in c.captures
    ensures Kept(v, p, 0, o)
  {
    if PublishStarts(c, w, q) {
      var s, t := SlotsAt(w.root, q), SlotsAt(v, q);
      if q <= p {
        KeptAt(w.root, q, p, 0, o);
        assert |q| == |p| ==> q == p;
        if |q| < |p| && t.leaf.Some? {
          KeptMeta(s.leaf.value, t.leaf.value.meta, p, |q|, o);
        }
      }
      KeptFramed(w.root, v, q, p, 0, o);
    }
  }

  /** A removal moves the old object, and with it whatever was moved aside beneath it. */
  lemma RemoveKeeps(c: Config, w: World, v: Node, q: PackagePath, directory: bool, p: PackagePath, o: Node)
    requires RemoveStopped(c, w, v, q, directory) && Kept(w.root, p, 0, o) && p in c.captures
    ensures Kept(v, p, 0, o)
  {
    if RemoveStarts(c, w, q, directory) {
      var s := SlotsAt(w.root, q);
      if q <= p {
        KeptAt(w.root, q, p, 0, o);
        assert |q| == |p| ==> q == p;
        if |q| < |p| {
          KeptMeta(s.leaf.value, s.leaf.value.meta, p, |q|, o);
        }
      }
      KeptFramed(w.root, v, q, p, 0, o);
    }
  }

  /** Whoever recovers the path while the old object stands at its leaf can tell that it is the old one. */
  ghost predicate Recognised(c: Config, root: Node, p: PackagePath) {
    p in c.admitted && Home(root, p, 0).Some? && Inspect(SlotsAt(root, p)) == Clear ==>
      DirectoryAt(c, p) || Admit(root, p, c.admitted[p]) != No
  }

  /** Recovery, completed or stopped anywhere, drops neither a displaced object nor one inside it. */
  lemma RecoverKeeps(c: Config, w: World, v: Node, q: PackagePath, p: PackagePath, o: Node)
    requires RecoverStopped(c, w, v, q) && Kept(w.root, p, 0, o)
    requires Recognised(c, w.root, p) && (DirectoryAt(c, p) ==> o.Dir?)
    ensures Kept(v, p, 0, o)
  {
    hide Guarded, Framed, Matches, Admit;
    if q in c.admitted && Home(w.root, q, 0).Some? {
      var s, t := SlotsAt(w.root, q), SlotsAt(v, q);
      if q <= p {
        KeptAt(w.root, q, p, 0, o);
        assert |q| == |p| ==> q == p;
        if |q| < |p| && s.leaf.Some? {
          KeptMeta(s.leaf.value, if t.leaf.Some? then t.leaf.value.meta else s.leaf.value.meta, p, |q|, o);
        }
      }
      KeptFramed(w.root, v, q, p, 0, o);
    }
  }

  lemma StoppedKeeps(c: Config, w: World, v: Node, a: Act, p: PackagePath, o: Node)
    requires Stopped(c, w, v, a) && Kept(w.root, p, 0, o) && p in c.captures
    requires Recognised(c, w.root, p) && (DirectoryAt(c, p) ==> o.Dir?)
    ensures Kept(v, p, 0, o)
  {
    match a
    case Publish(q) => PublishKeeps(c, w, v, q, p, o);
    case Remove(q, directory) => RemoveKeeps(c, w, v, q, directory, p, o);
    case Recover(q) => RecoverKeeps(c, w, v, q, p, o);
  }

  /* ---------- who recognises the old object ---------- */

  /** The attempt captured the path while `o` stood there. */
  predicate Vouched(c: Config, p: PackagePath, o: Node) {
    p in c.captures && PresentAt(c, p) && FactOf(o) == c.admitted[p].fact
  }

  /** The members of a group stay together: `x` is the object of the anchor. */
  predicate SameGroup(c: Config, p: PackagePath, o: Node, a: PackagePath, x: Node) {
    && Vouched(c, p, o) && Vouched(c, a, x)
    && c.admitted[p].anchor == Some(a) && c.admitted[a].anchor.None?
    && RegularFile(Some(o)) && RegularFile(Some(x)) && o.ino == x.ino
  }

  lemma FreeIsRecognised(c: Config, root: Node, p: PackagePath, o: Node)
    requires Vouched(c, p, o) && c.admitted[p].anchor.None? && Kept(root, p, 0, o)
    ensures Recognised(c, root, p) && (DirectoryAt(c, p) ==> o.Dir?)
  {
    if Home(root, p, 0).Some? {
      assert p[..|p|] == p;
      KeptAt(root, p, p, 0, o);
      AtHome(root, p, 0);
    }
  }

  lemma LinkIsRecognised(c: Config, root: Node, p: PackagePath, o: Node, a: PackagePath, x: Node)
    requires SameGroup(c, p, o, a, x) && Kept(root, p, 0, o) && Kept(root, a, 0, x) && Coherent(root, [])
    ensures Recognised(c, root, p) && (DirectoryAt(c, p) ==> o.Dir?)
  {
    assert p[..|p|] == p && a[..|a|] == a;
    if Home(root, p, 0).Some? {
      KeptAt(root, p, p, 0, o);
      AtHome(root, p, 0);
      if Home(root, a, 0).Some? {
        KeptAt(root, a, a, 0, x);
        assert a[..0] == [];
        CoherentAt(root, a, 0);
      }
    }
  }

  /* ---------- whole runs ---------- */

  /** Any sequence of operations, each of which returned, failed or crashed at any call. */
  ghost predicate StoppedRun(c: Config, ws: seq<World>, acts: seq<Act>) {
    && |ws| == |acts| + 1
    && forall i :: 0 <= i < |acts| ==> Stopped(c, ws[i], ws[i + 1].root, acts[i])
  }

  lemma {:induction false} FreeSurvives(c: Config, ws: seq<World>, acts: seq<Act>, p: PackagePath, o: Node, k: nat)
    requires StoppedRun(c, ws, acts) && k <= |acts|
    requires Vouched(c, p, o) && c.admitted[p].anchor.None? && Kept(ws[0].root, p, 0, o)
    ensures Kept(ws[k].root, p, 0, o)
  {
    if k == 0 {
    } else {
      FreeSurvives(c, ws, acts, p, o, k - 1);
      FreeIsRecognised(c, ws[k - 1].root, p, o);
      StoppedKeeps(c, ws[k - 1], ws[k].root, acts[k - 1], p, o);
    }
  }

  lemma {:induction false} LinkSurvives(c: Config, ws: seq<World>, acts: seq<Act>, p: PackagePath, o: Node, a: PackagePath, x: Node, k: nat)
    requires StoppedRun(c, ws, acts) && k <= |acts| && Coherent(ws[0].root, [])
    requires SameGroup(c, p, o, a, x) && Kept(ws[0].root, p, 0, o) && Kept(ws[0].root, a, 0, x)
    ensures Kept(ws[k].root, p, 0, o) && Coherent(ws[k].root, [])
  {
    if k == 0 {
    } else {
      LinkSurvives(c, ws, acts, p, o, a, x, k - 1);
      FreeSurvives(c, ws, acts, a, x, k - 1);
      LinkIsRecognised(c, ws[k - 1].root, p, o, a, x);
      StoppedKeeps(c, ws[k - 1], ws[k].root, acts[k - 1], p, o);
      StoppedCoherent(c, ws[k - 1], ws[k].root, acts[k - 1]);
    }
  }

  lemma {:induction false} BareIsKept(n: Node, p: Path, i: nat)
    requires i < |p| && Bare(n) && At(n, p, i).Some?
    ensures Kept(n, p, i, At(n, p, i).value)
    decreases |p| - i
  {
    if i + 1 == |p| {
    } else {
      BareIsKept(n.entries[Plain(p[i])], p, i + 1);
    }
  }

  /** The capture holds the path, and with it the anchor of its hard-link group. */
  predicate Captured(c: Config, p: PackagePath) {
    && p in c.captures && PresentAt(c, p)
    && (c.admitted[p].anchor.Some? ==>
          var a := c.admitted[p].anchor.value;
          a in c.captures && PresentAt(c, a) && c.admitted[a].anchor.None?)
  }

  /** From a target without reserved names whose admitted observations hold, over every run of
      publications, removals and recoveries, wherever each of them stops: the object that stood at a
      captured path is still there, the same file or the same directory, at its leaf, at its displaced
      name, or inside a displaced directory above it. */
  lemma OldObjectSurvives(c: Config, ws: seq<World>, acts: seq<Act>, p: PackagePath, k: nat)
    requires StoppedRun(c, ws, acts) && k <= |acts| && Bare(ws[0].root)
    requires Captured(c, p) && Admit(ws[0].root, p, c.admitted[p]) == Yes
    requires c.admitted[p].anchor.Some? ==>
      Admit(ws[0].root, c.admitted[p].anchor.value, c.admitted[c.admitted[p].anchor.value]) == Yes
    ensures At(ws[0].root, p, 0).Some? && Kept(ws[k].root, p, 0, At(ws[0].root, p, 0).value)
  {
    var root := ws[0].root;
    var o := At(root, p, 0).value;
    BareIsKept(root, p, 0);
    if c.admitted[p].anchor.None? {
      FreeSurvives(c, ws, acts, p, o, k);
    } else {
      var a := c.admitted[p].anchor.value;
      BareIsKept(root, a, 0);
      BareIsCoherent(root, []);
      AtHome(root, a, 0);
      assert a[..|a|] == a;
      KeptAt(root, a, a, 0, At(root, a, 0).value);
      BareSlots(root, a, 0);
      LinkSurvives(c, ws, acts, p, o, a, At(root, a, 0).value, k);
    }
  }

  lemma {:induction false} BareSlots(n: Node, p: PackagePath, i: nat)
    requires i < |p| && Bare(n) && Home(n, p, i).Some?
    ensures var s := SlotsIn(Home(n, p, i).value.entries, p); s.prepared.None? && s.displaced.None?
    decreases |p| - i
  {
    if i + 1 == |p| {
    } else {
      BareSlots(n.entries[Plain(p[i])], p, i + 1);
    }
  }
}
