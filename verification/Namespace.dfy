/** What the active namespace knows, and what each of its operations promises about the target. */
module Namespace {
  import opened Tree
  import opened Workspace

  type PackagePath = p: Path | p != [] witness [""]

  /* ---------- observations ---------- */

  datatype Fact = File(kind: Kind, meta: Meta, content: Content) | Folder(meta: Meta)

  function FactOf(n: Node): Fact {
    match n
    case Leaf(_, kind, meta, content) => File(kind, meta, content)
    case Dir(_, meta, _) => Folder(meta)
  }

  /** `anchor` is the known hard-link relation of a regular file. */
  datatype Observation = Unknown | Absent | Present(fact: Fact, anchor: Option<PackagePath>)

  datatype Admission = Yes | No | Throws

  function SlotsAt(root: Node, p: PackagePath): Slots
    requires Home(root, p, 0).Some?
  {
    SlotsIn(Home(root, p, 0).value.entries, p)
  }

  /** The old object a hard-link anchor stands for: the displaced one while there is one. */
  function AnchorObject(s: Slots): Option<Node> {
    if s.displaced.Some? then s.displaced else s.leaf
  }

  function Admit(root: Node, p: PackagePath, o: Observation): Admission {
    match o
    case Unknown => No
    case Absent => if At(root, p, 0).None? then Yes else No
    case Present(fact, anchor) =>
      var n := At(root, p, 0);
      if n.None? || FactOf(n.value) != fact then No
      else if anchor.None? then Yes
      else if Home(root, anchor.value, 0).None? then Throws
      else
        var s := SlotsAt(root, anchor.value);
        var a := AnchorObject(s);
        if Inspect(s) != Contradictory && RegularFile(n) && RegularFile(a) && n.value.ino == a.value.ino then Yes
        else No
  }

  /** Whether the object at `p` is the incoming one; a directory's time may be exempted. */
  predicate Matches(root: Node, p: PackagePath, e: Entry, anyTime: bool) {
    var n := At(root, p, 0);
    && n.Some?
    && n.value.Dir? == e.kind.DirectoryEntry?
    && SameOwner(n.value.meta, e.meta)
    && ((anyTime && e.kind.DirectoryEntry?) || n.value.meta.mtime == e.meta.mtime)
    && (n.value.Leaf? ==> n.value.kind == KindOf(e.kind))
    && (n.value.Leaf? && !e.kind.HardlinkEntry? ==> n.value.content == e.content)
    && (e.kind.HardlinkEntry? ==>
         && RegularFile(At(root, e.anchor, 0))
         && At(root, e.anchor, 0).value.ino == n.value.ino)
  }

  /* ---------- the ledger ---------- */

  datatype Effect = Effect(path: PackagePath, incoming: bool, completed: bool)
  type Ledger = seq<Effect>

  predicate Mentions(l: Ledger, p: PackagePath) {
    exists i :: 0 <= i < |l| && l[i].path == p
  }

  predicate Distinct(l: Ledger) {
    forall i, j :: 0 <= i < j < |l| ==> l[i].path != l[j].path
  }

  function Retain(l: Ledger, p: PackagePath, incoming: bool): Ledger {
    if Mentions(l, p) then l else l + [Effect(p, incoming, false)]
  }

  function Complete(l: Ledger, p: PackagePath): Ledger {
    seq(|l|, i requires 0 <= i < |l| => if l[i].path == p then l[i].(completed := true) else l[i])
  }

  predicate Activated(l: Ledger, p: PackagePath) { Effect(p, true, true) in l }
  predicate Withdrawn(l: Ledger, p: PackagePath) { Effect(p, false, true) in l }

  /* ---------- the attempt ---------- */

  /** `captures` maps each captured path to whether its capture is exact recovery authority. */
  datatype Config = Config(
    admitted: map<PackagePath, Observation>,
    captures: map<PackagePath, bool>,
    image: Option<map<PackagePath, Entry>>,
    payloads: bool)

  datatype World = World(root: Node, effects: Ledger, next: nat)

  predicate PresentAt(c: Config, p: PackagePath) {
    p in c.admitted && c.admitted[p].Present?
  }

  function EntryAt(c: Config, p: PackagePath): Option<Entry> {
    if c.image.Some? && p in c.image.value then Some(c.image.value[p]) else None
  }

  /** Every hard link of the image names a regular anchor that carries the link's own metadata. */
  predicate GroupedImage(image: Option<map<PackagePath, Entry>>) {
    image.Some? ==> forall q | q in image.value :: image.value[q].kind.HardlinkEntry? ==> Grouped(image.value, image.value[q])
  }

  predicate Grouped(image: map<PackagePath, Entry>, e: Entry) {
    e.anchor in image && image[e.anchor].kind.RegularEntry? && image[e.anchor].meta == e.meta
  }

  /** The metadata a tracked directory must carry after each completed operation. */
  function GoalOf(c: Config, l: Ledger, q: PackagePath): Option<Meta> {
    if Activated(l, q) then
      var e := EntryAt(c, q);
      if e.Some? && e.value.kind.DirectoryEntry? then Some(e.value.meta) else None
    else if PresentAt(c, q) && c.admitted[q].fact.Folder? then Some(c.admitted[q].fact.meta)
    else None
  }

  function Goals(c: Config, l: Ledger): map<Path, Meta> {
    map q: PackagePath | q in c.admitted && GoalOf(c, l, q).Some? :: GoalOf(c, l, q).value
  }

  /** Nothing but a system call can stop the refresh of the directories above `p`. */
  ghost predicate Refreshable(c: Config, l: Ledger, root: Node, p: PackagePath) {
    forall k :: 0 < k < |p| ==> AncestorRefreshable(c, l, At(root, p[..k], 0), p[..k])
  }

  ghost predicate AncestorRefreshable(c: Config, l: Ledger, n: Option<Node>, q: PackagePath) {
    if Activated(l, q) then
      c.image.Some? ==> EntryAt(c, q).Some? && EntryAt(c, q).value.kind.DirectoryEntry?
    else
      PresentAt(c, q) ==> c.admitted[q].fact.Folder? && n.Some? && SameOwner(n.value.meta, c.admitted[q].fact.meta)
  }

  /** A directory above `p` is recorded as something else: activated without an entry of a directory, or observed as a
      file. */
  ghost predicate Misrecorded(c: Config, l: Ledger, p: PackagePath) {
    exists k :: 0 < k < |p| && MisrecordedAt(c, l, p[..k])
  }

  predicate MisrecordedAt(c: Config, l: Ledger, q: PackagePath) {
    if Activated(l, q) then c.image.Some? && !(EntryAt(c, q).Some? && EntryAt(c, q).value.kind.DirectoryEntry?)
    else PresentAt(c, q) && c.admitted[q].fact.File?
  }

  predicate IsActivated(l: Ledger, q: Path) {
    q != [] && Activated(l, q)
  }

  /** The metadata a refresh gives a directory that was activated. */
  function Aim(c: Config, l: Ledger, q: Path): Option<Meta> {
    if IsActivated(l, q) then GoalOf(c, l, q) else None
  }

  predicate Near(a: Meta, m: Meta, aim: Option<Meta>) {
    SameOwner(a, m) || (aim.Some? && OwnerBetween(a, aim.value, m))
  }

  predicate OwnersNear(a: Option<Node>, b: Option<Node>, aim: Option<Meta>) {
    a.Some? ==> b.Some? && Near(a.value.meta, b.value.meta, aim)
  }

  /** What refreshing the directories above `p`, done or not, leaves of their owners and modes: an
      activated directory has the old or the incoming ones, any other has its own. */
  ghost predicate Guarded(c: Config, l: Ledger, a: Node, b: Node, p: PackagePath) {
    forall k :: 0 <= k < |p| ==> OwnersNear(At(a, p[..k], 0), At(b, p[..k], 0), Aim(c, l, p[..k]))
  }

  /** Two ledgers activated the same directories above `p`. */
  ghost predicate SameAbove(l: Ledger, m: Ledger, p: PackagePath) {
    forall k :: 0 < k < |p| ==> (Activated(l, p[..k]) <==> Activated(m, p[..k]))
  }

  /** `b` is `a` with the names of `p` in the state `s` and the directories above refreshed or drifted. */
  ghost predicate Touched(c: Config, l: Ledger, a: Node, b: Node, p: PackagePath, s: Slots) {
    Framed(a, b, p, 0) && Home(b, p, 0).Some? && SlotsAt(b, p) == s && Guarded(c, l, a, b, p)
  }

  /* ---------- publish_incoming ---------- */

  predicate UpdatesInPlace(e: Entry, s: Slots) {
    e.kind.DirectoryEntry? && s.leaf.Some? && s.leaf.value.Dir?
  }

  /** The object a publication prepares: a new inode, or one more link of the anchor's. */
  function Incoming(w: World, e: Entry): Option<Node> {
    if e.kind.HardlinkEntry? then At(w.root, e.anchor, 0) else Some(Finished(e, w.next))
  }

  /** The slots a completed publication leaves behind. */
  function PublishedSlots(c: Config, w: World, p: PackagePath, e: Entry): Slots
    requires Home(w.root, p, 0).Some?
  {
    var s := SlotsAt(w.root, p);
    if UpdatesInPlace(e, s) then s.(leaf := Some(WithMeta(s.leaf.value, e.meta)))
    else if Incoming(w, e).None? then s
    else Published(s.(prepared := Incoming(w, e)), Incoming(w, e).value, MovesAside(c, p, e, s))
  }

  predicate MovesAside(c: Config, p: PackagePath, e: Entry, s: Slots) {
    Displaces(s, e.kind.DirectoryEntry?, p in c.captures)
  }

  /** The checks made before anything is touched. */
  predicate Admissible(c: Config, w: World, p: PackagePath) {
    && p in c.admitted
    && Home(w.root, p, 0).Some?
    && Inspect(SlotsAt(w.root, p)) == Clear
    && Admit(w.root, p, c.admitted[p]) == Yes
  }

  predicate Contradicts(l: Ledger, p: PackagePath, incoming: bool) {
    exists i :: 0 <= i < |l| && l[i].path == p && l[i].incoming != incoming
  }

  predicate PublishStarts(c: Config, w: World, p: PackagePath) {
    && EntryAt(c, p).Some?
    && Admissible(c, w, p)
    && !Contradicts(w.effects, p, true)
  }

  /** The old object gives way: a directory is only moved aside when it is physically empty. */
  predicate GivesWay(c: Config, p: PackagePath, e: Entry, s: Slots) {
    UpdatesInPlace(e, s) || !MovesAside(c, p, e, s) || Removable(s.leaf)
  }

  /** The incoming object can be prepared when every system call succeeds. */
  predicate Preparable(c: Config, w: World, e: Entry) {
    && (e.kind.RegularEntry? ==> c.payloads)
    && (e.kind.SymlinkEntry? ==> e.meta.mode == SYMLINK_MODE)
    && (e.kind.HardlinkEntry? ==> e.anchor != [] && Home(w.root, e.anchor, 0).Some? && RegularFile(At(w.root, e.anchor, 0)))
  }

  predicate Publishes(c: Config, w: World, p: PackagePath)
    requires PublishStarts(c, w, p)
  {
    var e, s := EntryAt(c, p).value, SlotsAt(w.root, p);
    GivesWay(c, p, e, s) && (UpdatesInPlace(e, s) || Preparable(c, w, e))
  }

  /** How a publication that cannot be made ends when no call fails. */
  function PublishFailure(c: Config, p: PackagePath, root: Node): Outcome
    requires EntryAt(c, p).Some?
  {
    var e := EntryAt(c, p).value;
    if e.kind.HardlinkEntry? && (e.anchor == [] || Home(root, e.anchor, 0).None?) then Threw else Failed
  }

  /** Every state of the slots in which publication, or a crash inside it, can leave them. */
  ghost predicate PublishSpan(c: Config, w: World, p: PackagePath, t: Slots)
    requires PublishStarts(c, w, p)
  {
    var e, s := EntryAt(c, p).value, SlotsAt(w.root, p);
    || (Untouched(s, t) && Removable(t.prepared))
    || (UpdatesInPlace(e, s) && UpdateReach(s, e.meta, t))
    || (!UpdatesInPlace(e, s) && MovesAside(c, p, e, s) && Removable(s.leaf) && Aside(s, t) && Removable(t.prepared))
    || (Publishes(c, w, p) && t == PublishedSlots(c, w, p, e))
  }

  ghost predicate PublishCompleted(c: Config, w: World, w': World, p: PackagePath) {
    && PublishStarts(c, w, p)
    && Publishes(c, w, p)
    && w'.effects == Complete(Retain(w.effects, p, true), p)
    && w'.next == w.next + 1
    && Settled(Goals(c, w'.effects), w.root, w'.root, p, 0)
    && Home(w'.root, p, 0).Some?
    && SlotsAt(w'.root, p) == PublishedSlots(c, w, p, EntryAt(c, p).value)
  }

  /** `w'` differs from `w` at most in the prepared name of `p` and the time of its directory. */
  ghost predicate Quiet(w: World, w': World, p: PackagePath) {
    || w'.root == w.root
    || (&& Settled(map[], w.root, w'.root, p, 0)
        && Home(w.root, p, 0).Some? && Home(w'.root, p, 0).Some?
        && Untouched(SlotsAt(w.root, p), SlotsAt(w'.root, p)))
  }

  function PublishRefusal(c: Config, w: World, p: PackagePath): Outcome {
    if EntryAt(c, p).None? || p !in c.admitted || Home(w.root, p, 0).None? then Threw
    else if Inspect(SlotsAt(w.root, p)) != Clear then Failed
    else match Admit(w.root, p, c.admitted[p])
      case No => Indeterminate
      case _ => Threw
  }

  /** A target in which a publication returned, failed or crashed, at any call. */
  ghost predicate PublishStopped(c: Config, w: World, v: Node, p: PackagePath) {
    if !PublishStarts(c, w, p) then v == w.root
    else Home(v, p, 0).Some? && Touched(c, w.effects, w.root, v, p, SlotsAt(v, p)) && PublishSpan(c, w, p, SlotsAt(v, p))
  }

  ghost predicate PublishRel(c: Config, w: World, w': World, p: PackagePath, o: Outcome, faulted: bool) {
    if !PublishStarts(c, w, p) then w' == w && o == PublishRefusal(c, w, p)
    else
      && o != ConditionalRetained
      && (o == Completed ==> PublishCompleted(c, w, w', p))
      && (o == Failed ==> Quiet(w, w', p) && w'.effects == Retain(w.effects, p, true))
      && (o != Completed ==> w'.effects in {Retain(w.effects, p, true), Complete(Retain(w.effects, p, true), p)})
      && w'.next == w.next + 1
      && PublishStopped(c, w, w'.root, p)
      && (!faulted && Publishes(c, w, p) && Refreshable(c, Complete(Retain(w.effects, p, true), p), w.root, p) ==> o == Completed)
      && (!faulted && Publishes(c, w, p) && o == Threw ==> Misrecorded(c, Complete(Retain(w.effects, p, true), p), p))
      && (!faulted && !Publishes(c, w, p) ==> o == PublishFailure(c, p, w.root) && Quiet(w, w', p))
  }

  /* ---------- remove ---------- */

  predicate RemoveStarts(c: Config, w: World, p: PackagePath, directory: bool) {
    && PresentAt(c, p)
    && c.admitted[p].fact.Folder? == directory
    && Admissible(c, w, p)
    && !Contradicts(w.effects, p, false)
  }

  /** A name the recovery of a completed captured removal directly beneath `path` still needs. */
  predicate RecoveryChild(c: Config, l: Ledger, path: Path, x: Name) {
    && x.Displaced?
    && x.path != []
    && x.path[..|x.path| - 1] == path && path != []
    && Withdrawn(l, x.path)
    && x.path in c.captures
  }

  predicate KindAgrees(c: Config, x: Name, n: Node)
    requires x.Displaced? && x.path != []
  {
    && PresentAt(c, x.path)
    && match c.admitted[x.path].fact
       case Folder(_) => n.Dir?
       case File(kind, _, _) => n.Leaf? && n.kind == kind
  }

  /** Nothing but recovery material of this attempt stands in the directory. */
  predicate LogicallyEmpty(c: Config, l: Ledger, path: Path, entries: map<Name, Node>) {
    forall x :: x in entries ==> RecoveryChild(c, l, path, x) && KindAgrees(c, x, entries[x])
  }

  /** A name that belongs to no completed captured removal of this attempt stands there. */
  predicate HoldsForeign(c: Config, l: Ledger, path: Path, entries: map<Name, Node>) {
    exists x :: x in entries && !RecoveryChild(c, l, path, x)
  }

  /** The name of such a removal stands for an object of another type than the observed one. */
  predicate HoldsMistyped(c: Config, l: Ledger, path: Path, entries: map<Name, Node>) {
    exists x :: x in entries && RecoveryChild(c, l, path, x) && !KindAgrees(c, x, entries[x])
  }

  predicate RemovalAllowed(c: Config, w: World, p: PackagePath)
    requires Home(w.root, p, 0).Some? && SlotsAt(w.root, p).leaf.Some?
  {
    var n := SlotsAt(w.root, p).leaf.value;
    n.Dir? ==> if p in c.captures then LogicallyEmpty(c, w.effects, p, n.entries) else n.entries == map[]
  }

  /** The object stays, and the outcome says why. */
  predicate Stays(c: Config, w: World, p: PackagePath, o: Outcome)
    requires Home(w.root, p, 0).Some? && SlotsAt(w.root, p).leaf.Some?
  {
    var n := SlotsAt(w.root, p).leaf.value;
    && n.Dir?
    && match o
       case ConditionalRetained => p !in c.captures || HoldsForeign(c, w.effects, p, n.entries)
       case Indeterminate => p in c.captures && HoldsMistyped(c, w.effects, p, n.entries)
       case _ => false
  }

  function RemovedSlots(c: Config, p: PackagePath, s: Slots): Slots {
    Slots(None, None, if p in c.captures then s.leaf else None)
  }

  ghost predicate RemoveCompleted(c: Config, w: World, w': World, p: PackagePath) {
    && PresentAt(c, p)
    && RemoveStarts(c, w, p, c.admitted[p].fact.Folder?)
    && SlotsAt(w.root, p).leaf.Some?
    && RemovalAllowed(c, w, p)
    && w'.effects == Complete(Retain(w.effects, p, false), p)
    && w'.next == w.next
    && Settled(Goals(c, w'.effects), w.root, w'.root, p, 0)
    && Home(w'.root, p, 0).Some?
    && SlotsAt(w'.root, p) == RemovedSlots(c, p, SlotsAt(w.root, p))
  }

  function RemoveRefusal(c: Config, w: World, p: PackagePath, directory: bool): Outcome {
    if !PresentAt(c, p) || c.admitted[p].fact.Folder? != directory || Home(w.root, p, 0).None? then Threw
    else if Inspect(SlotsAt(w.root, p)) != Clear then Indeterminate
    else match Admit(w.root, p, c.admitted[p])
      case No => Indeterminate
      case _ => Threw
  }

  ghost predicate RemoveRel(c: Config, w: World, w': World, p: PackagePath, directory: bool, o: Outcome, faulted: bool) {
    if !RemoveStarts(c, w, p, directory) then w' == w && o == RemoveRefusal(c, w, p, directory)
    else RemoveRun(c, w, w', p, directory, o, faulted)
  }

  ghost predicate RemoveRun(c: Config, w: World, w': World, p: PackagePath, directory: bool, o: Outcome, faulted: bool)
    requires RemoveStarts(c, w, p, directory)
  {
    && SlotsAt(w.root, p).leaf.Some?
    && w'.next == w.next
    && (o == Completed ==> RemoveCompleted(c, w, w', p))
    && (o in {Failed, ConditionalRetained} ==> w'.root == w.root && w'.effects == Retain(w.effects, p, false))
    && (o != Completed ==> w'.effects in {Retain(w.effects, p, false), Complete(Retain(w.effects, p, false), p)})
    && (o == ConditionalRetained ==> directory && !RemovalAllowed(c, w, p))
    && RemoveStopped(c, w, w'.root, p, directory)
    && (!faulted && RemovalAllowed(c, w, p) && Refreshable(c, Complete(Retain(w.effects, p, false), p), w.root, p) ==> o == Completed)
    && (o == Threw ==> Misrecorded(c, Complete(Retain(w.effects, p, false), p), p))
    && (!faulted && !RemovalAllowed(c, w, p) ==> w'.root == w.root && Stays(c, w, p, o))
  }

  /** A removal takes the object out of the namespace in one step or not at all. */
  ghost predicate RemoveSpan(c: Config, w: World, p: PackagePath, t: Slots)
    requires Home(w.root, p, 0).Some? && SlotsAt(w.root, p).leaf.Some?
  {
    || t == SlotsAt(w.root, p)
    || (t == RemovedSlots(c, p, SlotsAt(w.root, p)) && RemovalAllowed(c, w, p))
  }

  ghost predicate RemoveStopped(c: Config, w: World, v: Node, p: PackagePath, directory: bool) {
    if !RemoveStarts(c, w, p, directory) then v == w.root
    else
      && SlotsAt(w.root, p).leaf.Some? && Home(v, p, 0).Some?
      && Touched(c, w.effects, w.root, v, p, SlotsAt(v, p)) && RemoveSpan(c, w, p, SlotsAt(v, p))
  }

  /* ---------- recover ---------- */

  function EntryOf(f: Fact): Option<Entry> {
    match f
    case Folder(meta) => Some(Entry(DirectoryEntry, meta, Nothing, []))
    case File(kind, meta, content) =>
      match kind
      case Regular => Some(Entry(RegularEntry, meta, content, []))
      case Symlink => Some(Entry(SymlinkEntry, meta, content, []))
      case Fifo => Some(Entry(FifoEntry, meta, content, []))
      case CharacterDevice => Some(Entry(CharacterDeviceEntry, meta, content, []))
      case BlockDevice => Some(Entry(BlockDeviceEntry, meta, content, []))
      case _ => None
  }

  /** The link source recovery accepts for a member of an old hard-link group. */
  function GroupSource(c: Config, root: Node, anchor: PackagePath): Option<Node> {
    if anchor !in c.admitted then None
    else match Admit(root, anchor, c.admitted[anchor])
      case Throws => None
      case Yes => At(root, anchor, 0)
      case No =>
        if Home(root, anchor, 0).None? then None
        else
          var s := SlotsAt(root, anchor);
          if Inspect(s) in {DisplacedOld, PublishedWithDisplacedOld} then s.displaced else None
  }

  /** The object recovery rebuilds from a capture, when it can. */
  function Rebuilt(c: Config, w: World, fact: Fact, anchor: Option<PackagePath>): Option<Node> {
    if fact.File? && fact.kind == Regular && anchor.Some? then
      var source := GroupSource(c, w.root, anchor.value);
      if RegularFile(source) then source else None
    else
      var e := EntryOf(fact);
      if e.None? || (e.value.kind.SymlinkEntry? && fact.meta.mode != SYMLINK_MODE) then None
      else Some(Finished(e.value, w.next))
  }

  /** The slots recovery reaches when every system call succeeds; none when it gives up. */
  function RecoverySlots(c: Config, w: World, p: PackagePath): Option<Slots> {
    if p !in c.admitted || Home(w.root, p, 0).None? then None
    else
      var s := SlotsAt(w.root, p);
      match Inspect(s)
      case Contradictory => None
      case PreparedOnly => if Removable(s.prepared) then Some(s.(prepared := None)) else None
      case Clear =>
        if Admit(w.root, p, c.admitted[p]) == Yes then Some(s)
        else if Admit(w.root, p, c.admitted[p]) == Throws || !Mentions(w.effects, p) then None
        else
          (match c.admitted[p]
           case Unknown => None
           case Absent =>
             if PublishedHere(c, w, p) && Removable(s.leaf) then Some(Slots(None, None, None)) else None
           case Present(fact, anchor) =>
             if p !in c.captures || !c.captures[p] then None
             else if fact.Folder? && s.leaf.Some? && s.leaf.value.Dir? then
               Some(s.(leaf := Some(WithMeta(s.leaf.value, fact.meta))))
             else
               var obj := Rebuilt(c, w, fact, anchor);
               if obj.Some? && RecoveryPossible(s.(prepared := obj)) then Some(RecoveryEffect(s.(prepared := obj))) else None)
      case _ =>
        if Removable(s.prepared) && Removable(s.leaf) then Some(Slots(s.displaced, None, None)) else None
  }

  /** The target recovery reaches before it refreshes the directories above. */
  function AfterRecovery(c: Config, w: World, p: PackagePath): Node
    requires RecoverySlots(c, w, p).Some?
  {
    Replace(w.root, p, 0, RecoverySlots(c, w, p).value, Home(w.root, p, 0).value.meta.mtime)
  }

  ghost predicate Recovers(c: Config, w: World, p: PackagePath) {
    && RecoverySlots(c, w, p).Some?
    && Admit(AfterRecovery(c, w, p), p, c.admitted[p]) == Yes
  }

  /** Opening the directory of the group's anchor, or building an object of this type, throws. */
  predicate RebuildThrows(c: Config, root: Node, fact: Fact, anchor: Option<PackagePath>) {
    if fact.File? && fact.kind == Regular && anchor.Some? then
      && anchor.value in c.admitted
      && (Admit(root, anchor.value, c.admitted[anchor.value]) == Throws || Home(root, anchor.value, 0).None?)
    else EntryOf(fact).None?
  }

  lemma ThrownIsNotBuilt(c: Config, w: World, fact: Fact, anchor: Option<PackagePath>)
    ensures RebuildThrows(c, w.root, fact, anchor) ==> Rebuilt(c, w, fact, anchor).None?
  {
    if anchor.Some? {
      AtHome(w.root, anchor.value, 0);
    }
  }

  /** How a recovery that cannot complete ends when no call fails. */
  function RecoverRefusal(c: Config, w: World, p: PackagePath): Outcome
    requires p in c.admitted && Home(w.root, p, 0).Some?
  {
    var s, o := SlotsAt(w.root, p), c.admitted[p];
    if RecoverySlots(c, w, p).Some? then
      if Admit(AfterRecovery(c, w, p), p, o) == Throws then Threw else Indeterminate
    else if Inspect(s) == Clear && Admit(w.root, p, o) == Throws then Threw
    else if Inspect(s) == Clear && Rebuilds(c, w, p) && RebuildThrows(c, w.root, o.fact, o.anchor) then Threw
    else Indeterminate
  }

  /** Recovery goes on to make the captured object again. */
  predicate Rebuilds(c: Config, w: World, p: PackagePath)
    requires p in c.admitted && Home(w.root, p, 0).Some?
  {
    var leaf := SlotsAt(w.root, p).leaf;
    && c.admitted[p].Present? && Admit(w.root, p, c.admitted[p]) == No && Mentions(w.effects, p)
    && p in c.captures && c.captures[p]
    && !(c.admitted[p].fact.Folder? && leaf.Some? && leaf.value.Dir?)
  }

  predicate DirectoryAt(c: Config, p: PackagePath) {
    PresentAt(c, p) && c.admitted[p].fact.Folder?
  }

  /** Every state of the slots in which recovery, or a crash inside it, can leave them. */
  ghost predicate RecoverSpan(c: Config, w: World, p: PackagePath, t: Slots)
    requires p in c.admitted && Home(w.root, p, 0).Some?
  {
    var s := SlotsAt(w.root, p);
    match Inspect(s)
    case Contradictory => t == s
    case PreparedOnly => t == s || (t == s.(prepared := None) && Removable(s.prepared))
    case Clear => t == s || (Admit(w.root, p, c.admitted[p]) == No && Mentions(w.effects, p) && ClearSpan(c, w, p, t))
    case _ => RestoreReach(s, t)
  }

  /** Without sidecars: what was published over nothing goes, a directory gets its metadata back, or a
      rebuilt object takes the place of whatever can be removed. */
  ghost predicate ClearSpan(c: Config, w: World, p: PackagePath, t: Slots)
    requires p in c.admitted && Home(w.root, p, 0).Some?
  {
    var s := SlotsAt(w.root, p);
    match c.admitted[p]
    case Unknown => false
    case Absent => PublishedHere(c, w, p) && Removable(s.leaf) && t == s.(leaf := None)
    case Present(fact, _) =>
      && p in c.captures && c.captures[p]
      && if fact.Folder? && s.leaf.Some? && s.leaf.value.Dir? then UpdateReach(s, fact.meta, t)
         else t.displaced.None? && Removable(t.prepared) && (t.leaf == s.leaf || (Removable(s.leaf) && Removable(t.leaf)))
  }

  /** The ledger and the image say that this attempt published the object that stands there. */
  predicate PublishedHere(c: Config, w: World, p: PackagePath) {
    !Contradicts(w.effects, p, true) && EntryAt(c, p).Some? && Matches(w.root, p, EntryAt(c, p).value, false)
  }

  ghost predicate RecoverStopped(c: Config, w: World, v: Node, p: PackagePath) {
    if p !in c.admitted || Home(w.root, p, 0).None? then v == w.root
    else Home(v, p, 0).Some? && Touched(c, w.effects, w.root, v, p, SlotsAt(v, p)) && RecoverSpan(c, w, p, SlotsAt(v, p))
  }

  ghost predicate RecoverRel(c: Config, w: World, w': World, p: PackagePath, o: Outcome, faulted: bool) {
    if p !in c.admitted || Home(w.root, p, 0).None? then w' == w && o == Threw
    else RecoverRun(c, w, w', p, o, faulted)
  }

  ghost predicate RecoverRun(c: Config, w: World, w': World, p: PackagePath, o: Outcome, faulted: bool)
    requires p in c.admitted && Home(w.root, p, 0).Some?
  {
    && w'.effects == w.effects && w'.next == w.next + 1
    && o != ConditionalRetained
    && RecoverStopped(c, w, w'.root, p)
    && (o == Completed ==> RecoverCompleted(c, w, w', p))
    && (!faulted && Recovers(c, w, p) && Refreshable(c, w.effects, w.root, p) ==> o == Completed)
    && (!faulted && Recovers(c, w, p) && o == Threw ==> Misrecorded(c, w.effects, p))
    && (!faulted && !Recovers(c, w, p) ==> o == RecoverRefusal(c, w, p))
  }

  ghost predicate RecoverCompleted(c: Config, w: World, w': World, p: PackagePath)
    requires p in c.admitted && Home(w.root, p, 0).Some? && Home(w'.root, p, 0).Some?
  {
    && Recovers(c, w, p)
    && Settled(Goals(c, w.effects), w.root, w'.root, p, 0)
    && SlotsAt(w'.root, p) == RecoverySlots(c, w, p).value
    && Admit(w'.root, p, c.admitted[p]) == Yes
  }

  /* ---------- the ledger after a restart ---------- */

  datatype Planned = ActivateIncoming | RemoveObserved | RemoveDirectoryIfEmpty | LeaveAlone

  datatype Walk = Opened | Missing | NotDirectory

  /** How the component walk to the parent directory ends. */
  function WalkTo(n: Node, p: Path, i: nat): (r: Walk)
    requires i < |p|
    ensures r == Opened <==> Home(n, p, i).Some?
    decreases |p| - i
  {
    if !n.Dir? then NotDirectory
    else if i + 1 == |p| then Opened
    else if Plain(p[i]) in n.entries then WalkTo(n.entries[Plain(p[i])], p, i + 1)
    else Missing
  }

  /** An object that is no directory stands `k` components down the way to `p`. */
  ghost predicate HitsFile(n: Node, p: Path, i: nat, k: nat)
    requires i <= k < |p|
  {
    var x := At(n, p[..k], i);
    x.Some? && !x.value.Dir?
  }

  /** The way to `p` runs through directories down to one that lacks the next name. */
  ghost predicate HitsNothing(n: Node, p: Path, i: nat, k: nat)
    requires i < k < |p|
  {
    var x := At(n, p[..k - 1], i);
    x.Some? && x.value.Dir? && At(n, p[..k], i).None?
  }

  /** The walk tells a missing directory from a name taken by something else. */
  lemma {:induction false} WalkEnds(n: Node, p: Path, i: nat)
    requires i < |p|
    ensures WalkTo(n, p, i) == NotDirectory <==> exists k :: i <= k < |p| && HitsFile(n, p, i, k)
    ensures WalkTo(n, p, i) == Missing <==> exists k :: i < k < |p| && HitsNothing(n, p, i, k)
    decreases |p| - i
  {
    assert At(n, p[..i], i) == Some(n);
    var x := Plain(p[i]);
    forall k | i < k < |p|
      ensures At(n, p[..k], i) == if n.Dir? && x in n.entries then At(n.entries[x], p[..k], i + 1) else None
    {
    }
    if !n.Dir? {
      assert HitsFile(n, p, i, i);
    } else if i + 1 < |p| {
      if x in n.entries {
        var m, j := n.entries[x], i + 1;
        WalkEnds(m, p, j);
        if k :| i <= k < |p| && HitsFile(n, p, i, k) {
          assert HitsFile(m, p, j, k);
        }
        if k :| j <= k < |p| && HitsFile(m, p, j, k) {
          assert HitsFile(n, p, i, k);
        }
        if k :| i < k < |p| && HitsNothing(n, p, i, k) {
          assert HitsNothing(m, p, j, k);
        }
        if k :| j < k < |p| && HitsNothing(m, p, j, k) {
          assert HitsNothing(n, p, i, k);
        }
      } else {
        assert HitsNothing(n, p, i, i + 1);
      }
    }
  }

  /** The target still shows the recorded effect: the incoming object, or no object. */
  predicate Established(c: Config, root: Node, p: PackagePath, incoming: bool) {
    if incoming then
      && Home(root, p, 0).Some? && Inspect(SlotsAt(root, p)) != Contradictory
      && EntryAt(c, p).Some? && Matches(root, p, EntryAt(c, p).value, true)
    else
      match WalkTo(root, p, 0)
      case Opened => Inspect(SlotsAt(root, p)) != Contradictory && SlotsAt(root, p).leaf.None?
      case Missing => true
      case NotDirectory => false
  }

  /** One recorded result applied to the ledger; none when it is refused with an exception. */
  function Replay(c: Config, root: Node, l: Ledger, p: PackagePath, plan: Planned, o: Outcome): Option<Ledger> {
    var incoming := plan.ActivateIncoming?;
    if p !in c.admitted then None
    else if plan.LeaveAlone? || o in {Failed, ConditionalRetained} then Some(l)
    else if o == Completed && !Established(c, root, p, incoming) then None
    else if Contradicts(l, p, incoming) then None
    else if o == Completed then Some(Complete(Retain(l, p, incoming), p))
    else Some(Retain(l, p, incoming))
  }
}
