/** Hiding the reserved names, the active namespace is a plain path map. */
module Refinement {
  import opened Tree
  import opened Workspace
  import opened Namespace
  import opened Undo

  /** The target a user sees: ordinary names only, and no directory times. */
  datatype View =
    | Object(ino: nat, kind: Kind, meta: Meta, content: Content)
    | Folder(mode: nat, uid: nat, gid: nat, entries: map<string, View>)

  function Hide(n: Node): View {
    match n
    case Leaf(ino, kind, meta, content) => Object(ino, kind, meta, content)
    case Dir(_, meta, entries) =>
      View.Folder(meta.mode, meta.uid, meta.gid, map s | s in Texts(entries) :: Hide(entries[Plain(s)]))
  }

  /** The ordinary names of a directory. */
  function Texts(entries: map<Name, Node>): (r: set<string>)
    ensures forall s {:trigger s in r} :: s in r ==> Plain(s) in entries
  {
    set x | x in entries && x.Plain? :: x.text
  }

  function HideOption(o: Option<Node>): Option<View> {
    if o.Some? then Some(Hide(o.value)) else None
  }

  function See(entries: map<string, View>, s: string): Option<View> {
    if s in entries then Some(entries[s]) else None
  }

  /* ---------- the plain path map ---------- */

  function Lookup(v: View, p: Path, i: nat): Option<View>
    requires i <= |p|
    decreases |p| - i
  {
    if i == |p| then Some(v)
    else if v.Folder? && p[i] in v.entries then Lookup(v.entries[p[i]], p, i + 1)
    else None
  }

  /** Put an object at `p`, or take it away; a path without a parent directory changes nothing. */
  function Store(v: View, p: Path, i: nat, o: Option<View>): View
    requires i < |p|
    decreases |p| - i
  {
    if !v.Folder? then v
    else if i + 1 == |p| then
      v.(entries := if o.Some? then v.entries[p[i] := o.value] else v.entries - {p[i]})
    else if p[i] in v.entries then v.(entries := v.entries[p[i] := Store(v.entries[p[i]], p, i + 1, o)])
    else v
  }

  /** The incoming object as a user sees it: an existing directory only takes new metadata, a hard
      link is the anchor's object again, anything else is new. */
  function Installed(v: View, p: Path, e: Entry, ino: nat): Option<View> {
    var current := Lookup(v, p, 0);
    match e.kind
    case DirectoryEntry =>
      Some(View.Folder(e.meta.mode, e.meta.uid, e.meta.gid,
                       if current.Some? && current.value.Folder? then current.value.entries else map[]))
    case HardlinkEntry => Lookup(v, e.anchor, 0)
    case _ => Some(Object(ino, KindOf(e.kind), e.meta, e.content))
  }

  /* ---------- hiding commutes with looking up and with framed changes ---------- */

  lemma HideEntry(n: Node, s: string)
    requires n.Dir?
    ensures See(Hide(n).entries, s) == HideOption(Find(n.entries, Plain(s)))
  {
    assert Plain(s) in n.entries ==> Plain(s).text in Texts(n.entries);
  }

  lemma SameView(a: map<string, View>, b: map<string, View>)
    requires forall s :: See(a, s) == See(b, s)
    ensures a == b
  {
    assert forall s :: s in a <==> See(a, s).Some?;
    assert forall s :: s in b <==> See(b, s).Some?;
    assert forall s :: s in a ==> See(a, s) == Some(a[s]);
    assert forall s :: s in b ==> See(b, s) == Some(b[s]);
  }

  lemma {:induction false} HideAt(n: Node, p: Path, i: nat)
    requires i <= |p|
    ensures Lookup(Hide(n), p, i) == HideOption(At(n, p, i))
    decreases |p| - i
  {
    if i < |p| && n.Dir? {
      HideEntry(n, p[i]);
      if Plain(p[i]) in n.entries {
        HideAt(n.entries[Plain(p[i])], p, i + 1);
      }
    }
  }

  lemma HideElsewhere(a: Node, b: Node, gone: set<Name>, s: string)
    requires a.Dir? && b.Dir? && a.entries - gone == b.entries - gone && Plain(s) !in gone
    ensures See(Hide(a).entries, s) == See(Hide(b).entries, s)
  {
    HideEntry(a, s);
    HideEntry(b, s);
    SameEntry(a.entries, b.entries, gone, Plain(s));
  }

  lemma HideHere(a: Node, b: Node, p: Path, i: nat)
    requires i + 1 == |p| && a.Dir? && b.Dir? && SameOwner(a.meta, b.meta)
    requires a.entries - Names(p) == b.entries - Names(p)
    ensures Hide(b) == Store(Hide(a), p, i, HideOption(Find(b.entries, Plain(p[i]))))
  {
    var x, y := Hide(b), Store(Hide(a), p, i, HideOption(Find(b.entries, Plain(p[i]))));
    forall s
      ensures See(x.entries, s) == See(y.entries, s)
    {
      if s == p[i] {
        HideEntry(b, s);
      } else {
        HideElsewhere(a, b, Names(p), s);
      }
    }
    SameView(x.entries, y.entries);
  }

  lemma HideAbove(a: Node, b: Node, p: Path, i: nat, o: Option<View>)
    requires i + 1 < |p| && a.Dir? && b.Dir? && SameOwner(a.meta, b.meta)
    requires Plain(p[i]) in a.entries && Plain(p[i]) in b.entries
    requires a.entries - {Plain(p[i])} == b.entries - {Plain(p[i])}
    requires Hide(b.entries[Plain(p[i])]) == Store(Hide(a.entries[Plain(p[i])]), p, i + 1, o)
    ensures Hide(b) == Store(Hide(a), p, i, o)
  {
    var x, y := Hide(b), Store(Hide(a), p, i, o);
    HideEntry(a, p[i]);
    var z := Store(Hide(a.entries[Plain(p[i])]), p, i + 1, o);
    assert y == Hide(a).(entries := Hide(a).entries[p[i] := z]) && x.Folder?;
    assert x.mode == y.mode && x.uid == y.uid && x.gid == y.gid;
    hide Hide, Store;
    forall s
      ensures See(x.entries, s) == See(y.entries, s)
    {
      if s == p[i] {
        HideEntry(b, s);
      } else {
        HideElsewhere(a, b, {Plain(p[i])}, s);
      }
    }
    SameView(x.entries, y.entries);
  }

  /** A framed change shows as one store at the path, if it changes no owner or mode above it. */
  lemma {:induction false} HideFramed(a: Node, b: Node, p: Path, i: nat)
    requires i < |p| && Framed(a, b, p, i) && OwnersAgree(a, b, p, i)
    requires Home(a, p, i).Some? && Home(b, p, i).Some?
    ensures Hide(b) == Store(Hide(a), p, i, HideOption(SlotsIn(Home(b, p, i).value.entries, p).leaf))
    decreases |p| - i
  {
    assert At(a, p[..i], i) == Some(a) && At(b, p[..i], i) == Some(b);
    if i + 1 == |p| {
      HideHere(a, b, p, i);
    } else {
      var x := Plain(p[i]);
      forall k | i + 1 <= k < |p|
        ensures OwnersKept(At(a.entries[x], p[..k], i + 1), At(b.entries[x], p[..k], i + 1))
      {
        assert OwnersKept(At(a, p[..k], i), At(b, p[..k], i));
      }
      HideFramed(a.entries[x], b.entries[x], p, i + 1);
      HideAbove(a, b, p, i, HideOption(SlotsIn(Home(b, p, i).value.entries, p).leaf));
    }
  }

  predicate OwnersKept(a: Option<Node>, b: Option<Node>) {
    a.Some? && b.Some? && SameOwner(a.value.meta, b.value.meta)
  }

  /** The directories above `p`, from depth `i` on, have the same owner and mode in both. */
  ghost predicate OwnersAgree(a: Node, b: Node, p: Path, i: nat)
    requires i < |p|
  {
    forall k :: i <= k < |p| ==> OwnersKept(At(a, p[..k], i), At(b, p[..k], i))
  }

  /** A settled change, if its goals change no owner or mode above the path. */
  lemma HideSettled(goals: map<Path, Meta>, a: Node, b: Node, p: Path)
    requires p != [] && Settled(goals, a, b, p, 0)
    requires forall k :: 0 <= k < |p| && p[..k] in goals ==>
      At(a, p[..k], 0).Some? && At(a, p[..k], 0).value.Dir? && SameOwner(At(a, p[..k], 0).value.meta, goals[p[..k]])
    requires Home(a, p, 0).Some? && Home(b, p, 0).Some?
    ensures Hide(b) == Store(Hide(a), p, 0, HideOption(SlotsIn(Home(b, p, 0).value.entries, p).leaf))
  {
    SettledIsFramed(goals, a, b, p, 0);
    forall k | 0 <= k < |p|
      ensures OwnersKept(At(a, p[..k], 0), At(b, p[..k], 0))
    {
      SettledAbove(goals, a, b, p, k, 0);
    }
    HideFramed(a, b, p, 0);
  }

  /** Storing what is already there changes nothing. */
  lemma {:induction false} StoreSame(v: View, p: Path, i: nat)
    requires i < |p|
    ensures Store(v, p, i, Lookup(v, p, i)) == v
    decreases |p| - i
  {
    if v.Folder? && p[i] in v.entries {
      if i + 1 < |p| {
        StoreSame(v.entries[p[i]], p, i + 1);
      }
    }
  }

  /* ---------- inode numbers ---------- */

  /** Every inode number beneath `n` was given out before `next`, and one of a file always means the
      file the table holds for it. */
  ghost predicate Numbered(n: Node, next: nat, files: map<nat, Node>) {
    && n.ino < next
    && (n.Leaf? ==> n.ino in files && files[n.ino] == n)
    && (n.Dir? ==> forall x | x in n.entries :: Numbered(n.entries[x], next, files))
  }

  ghost predicate OptionNumbered(o: Option<Node>, next: nat, files: map<nat, Node>) {
    o.Some? ==> Numbered(o.value, next, files)
  }

  ghost predicate SlotsNumbered(s: Slots, next: nat, files: map<nat, Node>) {
    OptionNumbered(s.leaf, next, files) && OptionNumbered(s.prepared, next, files) && OptionNumbered(s.displaced, next, files)
  }

  /** New inode numbers are new, and two links of one file are the same file. */
  ghost predicate Sound(w: World) {
    exists files :: Numbered(w.root, w.next, files)
  }

  lemma {:induction false} NumberedMore(n: Node, next: nat, files: map<nat, Node>, x: Node)
    requires Numbered(n, next, files)
    ensures Numbered(n, next + 1, files[next := x])
    decreases n
  {
    if n.Leaf? {
    } else {
      forall y | y in n.entries
        ensures Numbered(n.entries[y], next + 1, files[next := x])
      {
        NumberedMore(n.entries[y], next, files, x);
      }
    }
  }

  lemma {:induction false} NumberedAt(n: Node, p: Path, i: nat, next: nat, files: map<nat, Node>)
    requires i <= |p| && Numbered(n, next, files)
    ensures OptionNumbered(At(n, p, i), next, files)
    ensures i < |p| && Home(n, p, i).Some? ==> SlotsNumbered(SlotsIn(Home(n, p, i).value.entries, p), next, files)
    decreases |p| - i
  {
    if i < |p| && n.Dir? && Plain(p[i]) in n.entries {
      NumberedAt(n.entries[Plain(p[i])], p, i + 1, next, files);
    }
  }

  lemma {:induction false} NumberedFramed(a: Node, b: Node, p: Path, i: nat, next: nat, files: map<nat, Node>)
    requires i < |p| && Framed(a, b, p, i) && Numbered(a, next, files)
    requires Home(b, p, i).Some? && SlotsNumbered(SlotsIn(Home(b, p, i).value.entries, p), next, files)
    ensures Numbered(b, next, files)
    decreases |p| - i
  {
    var gone := if i + 1 == |p| then Names(p) else {Plain(p[i])};
    if i + 1 < |p| {
      NumberedFramed(a.entries[Plain(p[i])], b.entries[Plain(p[i])], p, i + 1, next, files);
    }
    forall x | x in b.entries && x !in gone
      ensures Numbered(b.entries[x], next, files)
    {
      SameEntry(a.entries, b.entries, gone, x);
    }
  }

  lemma MetaNumbered(n: Node, m: Meta, next: nat, files: map<nat, Node>)
    requires n.Dir? && Numbered(n, next, files)
    ensures Numbered(WithMeta(n, m), next, files)
  {
  }

  lemma PublishedNumbered(c: Config, w: World, p: PackagePath, files: map<nat, Node>)
    requires EntryAt(c, p).Some? && Home(w.root, p, 0).Some? && Numbered(w.root, w.next + 1, files)
    requires var x := Finished(EntryAt(c, p).value, w.next); x.Leaf? ==> w.next in files && files[w.next] == x
    ensures SlotsNumbered(PublishedSlots(c, w, p, EntryAt(c, p).value), w.next + 1, files)
  {
    hide Home, At, MovesAside;
    var e, s := EntryAt(c, p).value, SlotsAt(w.root, p);
    NumberedAt(w.root, p, 0, w.next + 1, files);
    NumberedAt(w.root, e.anchor, 0, w.next + 1, files);
    if UpdatesInPlace(e, s) {
      MetaNumbered(s.leaf.value, e.meta, w.next + 1, files);
    }
  }

  lemma StepSound(c: Config, w: World, w': World, p: PackagePath, incoming: bool)
    requires Step(c, w, w', p, incoming) && Sound(w)
    ensures Sound(w')
  {
    hide Settled, Framed, Goals, Admissible, Retain, Complete, Numbered;
    StepLedger(c, w, w', p, incoming);
    SettledIsFramed(Goals(c, w'.effects), w.root, w'.root, p, 0);
    var files :| Numbered(w.root, w.next, files);
    NumberedAt(w.root, p, 0, w.next, files);
    if incoming {
      var e := EntryAt(c, p).value;
      var x := Finished(e, w.next);
      NumberedMore(w.root, w.next, files, x);
      PublishedNumbered(c, w, p, files[w.next := x]);
      NumberedFramed(w.root, w'.root, p, 0, w'.next, files[w.next := x]);
    } else {
      NumberedFramed(w.root, w'.root, p, 0, w'.next, files);
    }
  }

  /* ---------- the refinement ---------- */

  lemma StepOwners(c: Config, w: World, w': World, p: PackagePath, incoming: bool)
    requires WellFormed(c) && Steady(c, w) && Step(c, w, w', p, incoming)
    ensures forall k :: 0 <= k < |p| && p[..k] in Goals(c, w'.effects) ==>
      At(w.root, p[..k], 0).Some? && At(w.root, p[..k], 0).value.Dir?
      && SameOwner(At(w.root, p[..k], 0).value.meta, Goals(c, w'.effects)[p[..k]])
  {
    StepLedger(c, w, w', p, incoming);
    forall k | 0 <= k < |p| && p[..k] in Goals(c, w'.effects)
      ensures At(w.root, p[..k], 0).Some? && At(w.root, p[..k], 0).value.Dir?
      ensures SameOwner(At(w.root, p[..k], 0).value.meta, Goals(c, w'.effects)[p[..k]])
    {
      SettledAbove(Goals(c, w'.effects), w.root, w'.root, p, k, 0);
      assert GoalOf(c, w'.effects, p[..k]) == GoalOf(c, w.effects, p[..k]);
    }
  }

  /** A completed publication is a plain put of the incoming object. */
  lemma PublishRefines(c: Config, w: World, w': World, p: PackagePath)
    requires WellFormed(c) && Steady(c, w) && Sound(w) && PublishCompleted(c, w, w', p)
    ensures Hide(w'.root) == Store(Hide(w.root), p, 0, Installed(Hide(w.root), p, EntryAt(c, p).value, w.next))
    ensures Lookup(Hide(w'.root), p, 0).Some?
  {
    StepLedger(c, w, w', p, true);
    StepOwners(c, w, w', p, true);
    HideSettled(Goals(c, w'.effects), w.root, w'.root, p);
    PublishedView(c, w, w', p);
    AtHome(w'.root, p, 0);
    HideAt(w'.root, p, 0);
  }

  lemma PublishedView(c: Config, w: World, w': World, p: PackagePath)
    requires PublishCompleted(c, w, w', p) && Sound(w)
    ensures SlotsAt(w'.root, p).leaf.Some?
    ensures HideOption(SlotsAt(w'.root, p).leaf) == Installed(Hide(w.root), p, EntryAt(c, p).value, w.next)
  {
    hide Settled, Goals, Retain, Complete, Home, Lookup, At;
    var e, s := EntryAt(c, p).value, SlotsAt(w.root, p);
    AtHome(w.root, p, 0);
    HideAt(w.root, p, 0);
    HideAt(w.root, e.anchor, 0);
    var files :| Numbered(w.root, w.next, files);
    NumberedAt(w.root, p, 0, w.next, files);
    NumberedAt(w.root, e.anchor, 0, w.next, files);
    if UpdatesInPlace(e, s) {
      HideMeta(s.leaf.value, e.meta);
    } else {
      assert SlotsAt(w'.root, p).leaf == Incoming(w, e);
    }
  }

  lemma HideMeta(n: Node, m: Meta)
    requires n.Dir?
    ensures Hide(WithMeta(n, m)) == View.Folder(m.mode, m.uid, m.gid, Hide(n).entries)
  {
    var d := WithMeta(n, m);
    forall s
      ensures See(Hide(d).entries, s) == See(Hide(n).entries, s)
    {
      HideEntry(n, s);
      HideEntry(d, s);
    }
    SameView(Hide(d).entries, Hide(n).entries);
  }

  /** A completed removal is a plain unlink, or the rmdir of a directory that shows no name. */
  lemma RemoveRefines(c: Config, w: World, w': World, p: PackagePath)
    requires WellFormed(c) && Steady(c, w) && RemoveCompleted(c, w, w', p)
    ensures Hide(w'.root) == Store(Hide(w.root), p, 0, None)
    ensures var v := Lookup(Hide(w.root), p, 0); v.Some? && (v.value.Folder? ==> v.value.entries == map[])
  {
    StepLedger(c, w, w', p, false);
    StepOwners(c, w, w', p, false);
    HideSettled(Goals(c, w'.effects), w.root, w'.root, p);
    AtHome(w.root, p, 0);
    HideAt(w.root, p, 0);
    var n := SlotsAt(w.root, p).leaf.value;
    if n.Dir? {
      forall s
        ensures See(Hide(n).entries, s) == None
      {
        HideEntry(n, s);
      }
      SameView(Hide(n).entries, map[]);
    }
  }

  /** What a user sees, and the next inode number. */
  datatype Shown = Shown(view: View, next: nat)

  function Show(w: World): Shown {
    Shown(Hide(w.root), w.next)
  }

  /** One operation on the plain path map. */
  function PlainStep(c: Config, s: Shown, op: Op): Shown {
    var e := EntryAt(c, op.path);
    if !op.incoming then s.(view := Store(s.view, op.path, 0, None))
    else if e.None? then s
    else Shown(Store(s.view, op.path, 0, Installed(s.view, op.path, e.value, s.next)), s.next + 1)
  }

  function PlainRun(c: Config, s: Shown, ops: seq<Op>): Shown {
    if ops == [] then s else PlainStep(c, PlainRun(c, s, ops[..|ops| - 1]), ops[|ops| - 1])
  }

  lemma {:induction false} RunSound(c: Config, ws: seq<World>, ops: seq<Op>, k: nat)
    requires Run(c, ws, ops) && Sound(ws[0]) && k <= |ops|
    ensures Sound(ws[k])
  {
    hide Sound, Step;
    if k == 0 {
    } else {
      RunSound(c, ws, ops, k - 1);
      StepSound(c, ws[k - 1], ws[k], ops[k - 1].path, ops[k - 1].incoming);
    }
  }

  /** A whole run shows what the plain path map shows after the same operations. */
  lemma {:induction false} RunRefines(c: Config, ws: seq<World>, ops: seq<Op>, k: nat)
    requires WellFormed(c) && Run(c, ws, ops) && Steady(c, ws[0]) && Sound(ws[0]) && k <= |ops|
    ensures Show(ws[k]) == PlainRun(c, Show(ws[0]), ops[..k])
  {
    hide Hide, Store, Sound, Installed, Steady, WellFormed;
    if k == 0 {
    } else {
      RunRefines(c, ws, ops, k - 1);
      RunSteady(c, ws, ops, k - 1);
      RunSound(c, ws, ops, k - 1);
      var w, w', p, incoming := ws[k - 1], ws[k], ops[k - 1].path, ops[k - 1].incoming;
      assert ops[..k][..k - 1] == ops[..k - 1];
      if incoming {
        PublishRefines(c, w, w', p);
      } else {
        RemoveRefines(c, w, w', p);
      }
    }
  }

  lemma QuietView(w: World, w': World, p: PackagePath)
    requires Quiet(w, w', p)
    ensures Hide(w'.root) == Hide(w.root)
  {
    if w'.root != w.root {
      HideSettled(map[], w.root, w'.root, p);
      AtHome(w.root, p, 0);
      HideAt(w.root, p, 0);
      StoreSame(Hide(w.root), p, 0);
    }
  }

  /** A failed or conditionally retained operation shows no change, whatever calls failed. */
  lemma RefusalRefines(c: Config, w: World, w': World, p: PackagePath, directory: bool, o: Outcome, faulted: bool)
    requires PublishRel(c, w, w', p, o, faulted) || RemoveRel(c, w, w', p, directory, o, faulted)
    requires o in {Failed, ConditionalRetained}
    ensures Hide(w'.root) == Hide(w.root)
  {
    if PublishRel(c, w, w', p, o, faulted) && PublishStarts(c, w, p) {
      QuietView(w, w', p);
    }
  }

  /** A captured directory is let go exactly when it shows nothing and holds only recovery material
      of completed captured removals of the expected kinds. */
  lemma RemovalIff(c: Config, w: World, w': World, p: PackagePath, o: Outcome)
    requires WellFormed(c) && DirectoryAt(c, p) && p in c.captures && RemoveStarts(c, w, p, true)
    requires RemoveRel(c, w, w', p, true, o, false)
    requires Refreshable(c, Complete(Retain(w.effects, p, false), p), w.root, p)
    requires At(w.root, p, 0).Some? && At(w.root, p, 0).value.Dir?
    ensures o == Completed <==> LogicallyEmpty(c, w.effects, p, At(w.root, p, 0).value.entries)
    ensures var v := Lookup(Hide(w.root), p, 0);
      && v.Some? && v.value.Folder?
      && (o == Completed ==> v.value.entries == map[])
      && (v.value.entries != map[] ==> o in {ConditionalRetained, Indeterminate} && w'.root == w.root)
  {
    AtHome(w.root, p, 0);
    HideAt(w.root, p, 0);
    var n := At(w.root, p, 0).value;
    if LogicallyEmpty(c, w.effects, p, n.entries) {
      forall s
        ensures See(Hide(n).entries, s) == None
      {
        HideEntry(n, s);
      }
      SameView(Hide(n).entries, map[]);
    }
  }
}
