/** The journal store and the completed-evidence store: processes that publish and read values,
  interleaved step by step.

  A process runs one thread, because the cursor lock is a record lock owned by the process.
  Every step is one system call on the shared directory; a call may fail, and a process may
  crash between any two calls, which drops its locks and leaves its temporary file behind.
 */
module Journal {
  import opened Tree
  import opened StepNames

  type Bytes = string
  type Id = string

  datatype Entry =
    | Declaration(d: Id)
    | Step(d: Id, text: string)
    | Cursor(d: Id)
    | Locator(r: Id)
    | Evidence(id: Id)
    | Temporary(k: nat)

  /** A name that is linked once and never replaced. */
  predicate Final(t: Entry) { t.Declaration? || t.Step? || t.Evidence? }

  /** The owner's codecs: the identity in a cursor, and the identity and request in a declaration. */
  datatype Format = Format(cursor: Bytes -> Option<Id>, declaration: Bytes -> Option<(Id, Id)>)

  /* ---------- the request locator ---------- */

  predicate IsIdentity(t: string) {
    && |t| == 74 && t[..10] == "v1:sha256:"
    && forall i :: 10 <= i < 74 ==> '0' <= t[i] <= '9' || 'a' <= t[i] <= 'f'
  }

  function Reference(d: Id): Bytes { d + "\n" }

  function Referenced(b: Bytes): Option<Id> {
    if |b| == 75 && b[74] == '\n' && IsIdentity(b[..74]) then Some(b[..74]) else None
  }

  lemma ReferenceRoundTrip(d: Id, b: Bytes)
    ensures IsIdentity(d) ==> Referenced(Reference(d)) == Some(d)
    ensures Referenced(b).Some? ==> IsIdentity(Referenced(b).value) && Reference(Referenced(b).value) == b
  {
    assert |d| == 74 ==> Reference(d)[..74] == d;
    assert |b| == 75 ==> b == b[..74] + [b[74]];
  }

  /* ---------- processes ---------- */

  datatype Job =
    | Cas(d: Id, expected: Option<Id>, bytes: Bytes)
    | LoadCursor(d: Id)
    | PublishStep(d: Id, sequence: nat, bytes: Bytes)
    | PublishDeclaration(d: Id, r: Id, bytes: Bytes)
    | PublishLocator(d: Id, r: Id)
    | LoadActive(r: Id)
    | LoadLocated(d: Id, r: Id)
    | PublishEvidence(id: Id, bytes: Bytes)

  datatype Result =
    | Ok
    | Value(value: Option<Bytes>)
    | Located(found: Option<Id>)
    | Conflict
    | Corrupt
    | IndexCorrupt
    | Threw(visible: bool)

  /** Where a job stands; `Scan` has read `got` from the open file so far. */
  datatype Stage =
    | Locking
    | Check(again: bool)
    | Scan(ino: nat, got: Bytes)
    | Create
    | Write(temp: nat, ino: nat, n: nat)
    | Publish(temp: nat, ino: nat)
    | Clean(temp: nat)
    | Sync
    | Return(result: Result)

  /** `effect` is what the job did at its linearization point, once it passed it. */
  datatype Proc = Proc(job: Job, stage: Stage, effect: Option<Result>)

  datatype State = State(files: map<nat, Bytes>, names: map<Entry, nat>, locks: map<Id, nat>, procs: map<nat, Proc>)

  predicate Proper(f: Format, j: Job) {
    match j
    case Cas(_, _, bytes) => f.cursor(bytes).Some?
    case PublishStep(_, sequence, _) => sequence < LIMIT
    case PublishDeclaration(d, r, bytes) => IsIdentity(d) && f.declaration(bytes) == Some((d, r))
    case _ => true
  }

  function Target(j: Job): (t: Entry)
    ensures !t.Temporary?
  {
    match j
    case Cas(d, _, _) => Cursor(d)
    case LoadCursor(d) => Cursor(d)
    case PublishStep(d, sequence, _) => Step(d, if sequence < LIMIT then StepName(sequence) else "")
    case PublishDeclaration(d, _, _) => Declaration(d)
    case PublishLocator(_, r) => Locator(r)
    case LoadActive(r) => Locator(r)
    case LoadLocated(d, _) => Declaration(d)
    case PublishEvidence(id, _) => Evidence(id)
  }

  predicate Publisher(j: Job) { j.Cas? || Immutable(j) || j.PublishLocator? }
  predicate Immutable(j: Job) { j.PublishStep? || j.PublishDeclaration? || j.PublishEvidence? }

  function Payload(j: Job): Bytes
    requires Publisher(j)
  {
    if j.PublishLocator? then Reference(j.d) else j.bytes
  }

  /* ---------- the atomic register ---------- */

  function Register(s: State, d: Id): Option<Bytes> {
    if Cursor(d) in s.names && s.names[Cursor(d)] in s.files then Some(s.files[s.names[Cursor(d)]]) else None
  }

  /** Succeed unchanged on the desired cursor, write over the expected one, refuse any other. */
  function CasResult(f: Format, reg: Option<Bytes>, expected: Option<Id>, bytes: Bytes): Result {
    if reg.Some? && f.cursor(reg.value).None? then Corrupt
    else if reg.Some? && f.cursor(reg.value) == f.cursor(bytes) then Ok
    else if expected == (if reg.Some? then f.cursor(reg.value) else None) then Ok
    else Conflict
  }

  function CasNext(f: Format, reg: Option<Bytes>, expected: Option<Id>, bytes: Bytes): Option<Bytes> {
    if reg.Some? && f.cursor(reg.value) == f.cursor(bytes) then reg
    else if CasResult(f, reg, expected, bytes) == Ok then Some(bytes)
    else reg
  }

  function LoadResult(f: Format, reg: Option<Bytes>): Result {
    if reg.Some? && f.cursor(reg.value).None? then Corrupt else Value(reg)
  }

  /* ---------- steps ---------- */

  function WithProc(s: State, p: nat, q: Proc): State { s.(procs := s.procs[p := q]) }

  /** A process that ends, by returning or by crashing, loses its locks. */
  function Leave(s: State, p: nat): State {
    s.(procs := s.procs - {p}, locks := map d | d in s.locks && s.locks[d] != p :: s.locks[d])
  }

  function FirstStage(j: Job): Stage { if j.Cas? then Locking else if j.PublishLocator? then Create else Check(false) }

  /** What follows a publication that is visible and synchronized. */
  function Finished(q: Proc): Proc {
    if q.job.PublishDeclaration? then Proc(PublishLocator(q.job.d, q.job.r), Create, q.effect)
    else q.(stage := Return(Ok))
  }

  function Decided(q: Proc, r: Result): Proc { q.(stage := Return(r), effect := Some(r)) }

  /** The target name is absent. */
  function Absent(q: Proc, again: bool): Proc {
    match q.job
    case Cas(_, expected, _) => if expected.Some? then Decided(q, Conflict) else q.(stage := Create)
    case LoadCursor(_) => Decided(q, Value(None))
    case LoadActive(_) => Decided(q, Located(None))
    case LoadLocated(_, _) => Decided(q, IndexCorrupt)
    case _ => if again then q.(stage := Return(Conflict)) else q.(stage := Create)
  }

  /** The target name was opened; a load of the cursor takes effect here. */
  function Opened(f: Format, q: Proc, ino: nat, content: Bytes): Proc {
    q.(stage := Scan(ino, ""), effect := if q.job.LoadCursor? then Some(LoadResult(f, Some(content))) else q.effect)
  }

  /** The whole value has been read. */
  function Scanned(f: Format, q: Proc, got: Bytes): Proc {
    match q.job
    case Cas(_, expected, bytes) =>
      var r := CasResult(f, Some(got), expected, bytes);
      if r == Ok && f.cursor(got) != f.cursor(bytes) then q.(stage := Create) else Decided(q, r)
    case LoadCursor(_) => q.(stage := Return(LoadResult(f, Some(got))))
    case LoadActive(r) =>
      (match Referenced(got)
       case Some(d) => Proc(LoadLocated(d, r), Check(false), q.effect)
       case None => Decided(q, IndexCorrupt))
    case LoadLocated(d, r) =>
      (match f.declaration(got)
       case Some(v) => Decided(q, if v.0 != d then Corrupt else if v.1 != r then IndexCorrupt else Located(Some(d)))
       case None => Decided(q, Corrupt))
    case _ => if Publisher(q.job) && got == Payload(q.job) then Finished(q) else q.(stage := Return(Conflict))
  }

  ghost predicate Begins(f: Format, s: State, s': State, p: nat) {
    p !in s.procs && exists j :: Proper(f, j) && !j.PublishLocator? && !j.LoadLocated? && s' == WithProc(s, p, Proc(j, FirstStage(j), None))
  }

  predicate TakesLock(s: State, s': State, p: nat)
    requires p in s.procs
  {
    var q := s.procs[p];
    && q.stage.Locking? && q.job.Cas? && q.job.d !in s.locks
    && s' == WithProc(s, p, q.(stage := Check(false))).(locks := s.locks[q.job.d := p])
  }

  predicate Opens(f: Format, s: State, s': State, p: nat)
    requires p in s.procs
  {
    var q := s.procs[p];
    && q.stage.Check?
    && var t := Target(q.job);
       if t in s.names && s.names[t] in s.files
       then s' == WithProc(s, p, Opened(f, q, s.names[t], s.files[s.names[t]]))
       else s' == WithProc(s, p, Absent(q, q.stage.again))
  }

  ghost predicate Reads(f: Format, s: State, s': State, p: nat)
    requires p in s.procs
  {
    var q := s.procs[p];
    && q.stage.Scan? && q.stage.ino in s.files
    && var all, got := s.files[q.stage.ino], q.stage.got;
       if |got| < |all|
       then exists k :: |got| < k <= |all| && s' == WithProc(s, p, q.(stage := Scan(q.stage.ino, got + all[|got|..k])))
       else s' == WithProc(s, p, Scanned(f, q, got))
  }

  ghost predicate Creates(s: State, s': State, p: nat)
    requires p in s.procs
  {
    var q := s.procs[p];
    && q.stage.Create?
    && exists k, ino ::
         && Temporary(k) !in s.names && ino !in s.files
         && s' == WithProc(s, p, q.(stage := Write(k, ino, 0))).(files := s.files[ino := ""], names := s.names[Temporary(k) := ino])
  }

  ghost predicate Writes(s: State, s': State, p: nat)
    requires p in s.procs
  {
    var q := s.procs[p];
    && q.stage.Write? && Publisher(q.job)
    && var all, n := Payload(q.job), q.stage.n;
       if n < |all|
       then exists k :: n < k <= |all| && s' == WithProc(s, p, q.(stage := Write(q.stage.temp, q.stage.ino, k))).(files := s.files[q.stage.ino := all[..k]])
       else s' == WithProc(s, p, q.(stage := Publish(q.stage.temp, q.stage.ino)))
  }

  /** A rename over the cursor or the locator; a link that never replaces anything else. */
  predicate Publishes(s: State, s': State, p: nat)
    requires p in s.procs
  {
    var q := s.procs[p];
    && q.stage.Publish? && Publisher(q.job)
    && var t, temp := Target(q.job), Temporary(q.stage.temp);
       if Immutable(q.job) then
         if t in s.names then s' == WithProc(s, p, q.(stage := Check(true))).(names := s.names - {temp})
         else s' == WithProc(s, p, q.(stage := Clean(q.stage.temp))).(names := s.names[t := q.stage.ino])
       else
         s' == WithProc(s, p, q.(stage := Sync, effect := Some(Ok))).(names := s.names[t := q.stage.ino] - {temp})
  }

  predicate Cleans(s: State, s': State, p: nat)
    requires p in s.procs
  {
    var q := s.procs[p];
    && q.stage.Clean?
    && s' == WithProc(s, p, if q.job.PublishEvidence? then Finished(q) else q.(stage := Sync)).(names := s.names - {Temporary(q.stage.temp)})
  }

  predicate Syncs(s: State, s': State, p: nat)
    requires p in s.procs
  {
    s.procs[p].stage.Sync? && s' == WithProc(s, p, Finished(s.procs[p]))
  }

  /** A failing call ends the job with an exception that says whether its value became visible; the
      temporary file may or may not be removed. */
  predicate Fails(s: State, s': State, p: nat)
    requires p in s.procs
  {
    var q := s.procs[p];
    && !q.stage.Return?
    && var t := WithProc(s, p, q.(stage := Return(Threw(q.stage.Sync? || q.stage.Clean?))));
       || s' == t
       || (q.stage.Publish? && s' == t.(names := s.names - {Temporary(q.stage.temp)}))
  }

  predicate Ends(s: State, s': State, p: nat)
    requires p in s.procs
  {
    s' == Leave(s, p)
  }

  ghost predicate Next(f: Format, s: State, s': State, p: nat) {
    || Begins(f, s, s', p)
    || (p in s.procs &&
        (|| TakesLock(s, s', p) || Opens(f, s, s', p) || Reads(f, s, s', p) || Creates(s, s', p) || Writes(s, s', p)
         || Publishes(s, s', p) || Cleans(s, s', p) || Syncs(s, s', p) || Fails(s, s', p) || Ends(s, s', p)))
  }

  /* ---------- the invariant ---------- */

  predicate Holds(s: State, t: Entry, b: Bytes) {
    t in s.names && s.names[t] in s.files && s.files[s.names[t]] == b
  }

  /** The name is taken by another value. */
  predicate Differs(s: State, t: Entry, b: Bytes) {
    t in s.names && s.names[t] in s.files && s.files[s.names[t]] != b
  }

  /** The declaration `d` is visible and belongs to the request `r`. */
  predicate Declared(f: Format, s: State, d: Id, r: Id) {
    && IsIdentity(d) && Declaration(d) in s.names && s.names[Declaration(d)] in s.files
    && f.declaration(s.files[s.names[Declaration(d)]]) == Some((d, r))
  }

  /** A locator value that names a visible declaration of its request. */
  predicate Names(f: Format, s: State, b: Bytes, r: Id) {
    Referenced(b).Some? && Declared(f, s, Referenced(b).value, r)
  }

  predicate Owns(s: State, p: nat, j: Job) {
    j.Cas? ==> j.d in s.locks && s.locks[j.d] == p
  }

  /** A writer of the cursor has checked its expectation, and it still holds. */
  predicate Ready(f: Format, s: State, p: nat, q: Proc) {
    && Publisher(q.job) && q.effect.None? && Owns(s, p, q.job)
    && (q.job.Cas? ==>
          && CasResult(f, Register(s, q.job.d), q.job.expected, q.job.bytes) == Ok
          && (Register(s, q.job.d).Some? ==> f.cursor(Register(s, q.job.d).value) != f.cursor(q.job.bytes)))
    && (q.job.PublishLocator? ==> Declared(f, s, q.job.d, q.job.r))
  }

  predicate Temp(s: State, k: nat, ino: nat) {
    Temporary(k) in s.names && s.names[Temporary(k)] == ino && ino in s.files
  }

  predicate ProcInv(f: Format, s: State, p: nat, q: Proc) {
    && Proper(f, q.job)
    && match q.stage
       case Locking => q.job.Cas? && q.effect.None?
       case Check(again) =>
         && !q.job.PublishLocator? && q.effect.None? && Owns(s, p, q.job)
         && (q.job.LoadLocated? ==> Declared(f, s, q.job.d, q.job.r))
         && (again ==> Immutable(q.job) && Target(q.job) in s.names)
       case Scan(ino, got) => ino in s.files && got <= s.files[ino] && ScanInv(f, s, p, q, ino)
       case Create => Ready(f, s, p, q)
       case Write(k, ino, n) => Ready(f, s, p, q) && Temp(s, k, ino) && n <= |Payload(q.job)| && s.files[ino] == Payload(q.job)[..n]
       case Publish(k, ino) => Ready(f, s, p, q) && Temp(s, k, ino) && s.files[ino] == Payload(q.job)
       case Clean(k) => Immutable(q.job) && q.effect.None? && Temporary(k) in s.names && Holds(s, Target(q.job), q.job.bytes)
       case Sync => if Immutable(q.job) then q.effect.None? && Holds(s, Target(q.job), q.job.bytes)
                    else Publisher(q.job) && q.effect == Some(Ok) && (q.job.PublishLocator? ==> Declared(f, s, q.job.d, q.job.r))
       case Return(r) => ReturnInv(f, s, q, r)
  }

  predicate ScanInv(f: Format, s: State, p: nat, q: Proc, ino: nat)
    requires ino in s.files
  {
    match q.job
    case Cas(d, _, _) => q.effect.None? && Owns(s, p, q.job) && Cursor(d) in s.names && s.names[Cursor(d)] == ino
    case LoadCursor(_) => q.effect == Some(LoadResult(f, Some(s.files[ino])))
    case LoadActive(r) => q.effect.None? && Names(f, s, s.files[ino], r)
    case LoadLocated(d, r) => q.effect.None? && IsIdentity(d) && Declared(f, s, d, r) && f.declaration(s.files[ino]) == Some((d, r))
    case PublishLocator(_, _) => false
    case _ => q.effect.None? && Target(q.job) in s.names && s.names[Target(q.job)] == ino
  }

  /** What a caller is told is what happened. */
  predicate ReturnInv(f: Format, s: State, q: Proc, r: Result) {
    match q.job
    case Cas(_, _, _) => q.effect == (match r case Threw(visible) => if visible then Some(Ok) else None case _ => Some(r))
    case LoadCursor(_) => r.Threw? || q.effect == Some(r)
    case LoadActive(_) => r.Threw? || r == Located(None)
    case LoadLocated(d, rq) => r.Threw? || (r == Located(Some(d)) && Declared(f, s, d, rq))
    case PublishLocator(d, rq) => Declared(f, s, d, rq) && q.effect == (if r == Threw(false) then None else Some(Ok)) && (r == Ok || r.Threw?)
    case _ =>
      && (r == Ok || r == Threw(true) ==> Holds(s, Target(q.job), q.job.bytes))
      && (r == Conflict ==> Differs(s, Target(q.job), q.job.bytes))
      && (r == Ok || r == Conflict || r.Threw?) && (q.job.PublishDeclaration? ==> r != Ok)
  }

  /** The file a process is still filling. */
  predicate Private(q: Proc, ino: nat) { (q.stage.Write? || q.stage.Publish?) && q.stage.ino == ino }
  predicate Uses(q: Proc, ino: nat) { (q.stage.Write? || q.stage.Publish? || q.stage.Scan?) && q.stage.ino == ino }
  predicate HasTemp(q: Proc, k: nat) { (q.stage.Write? || q.stage.Publish? || q.stage.Clean?) && q.stage.temp == k }

  ghost predicate FilesApart(s: State) {
    forall p, q, ino :: p in s.procs && q in s.procs && p != q && Private(s.procs[p], ino) ==> !Uses(s.procs[q], ino)
  }

  ghost predicate TempsApart(s: State) {
    forall p, q, k :: p in s.procs && q in s.procs && p != q && HasTemp(s.procs[p], k) ==> !HasTemp(s.procs[q], k)
  }

  /** A file still being filled has no name but its temporary one. */
  ghost predicate Unnamed(s: State) {
    forall p, t, ino :: p in s.procs && t in s.names && Private(s.procs[p], ino) && s.names[t] == ino ==>
      t.Temporary? && HasTemp(s.procs[p], t.k)
  }

  ghost predicate Apart(s: State) {
    FilesApart(s) && TempsApart(s) && Unnamed(s)
  }

  ghost predicate NamesInv(f: Format, s: State) {
    && (forall t :: t in s.names ==> s.names[t] in s.files)
    && (forall d :: Declaration(d) in s.names ==> exists r :: Declared(f, s, d, r))
    && (forall r :: Locator(r) in s.names ==> Names(f, s, s.files[s.names[Locator(r)]], r))
  }

  ghost predicate Inv(f: Format, s: State) {
    && NamesInv(f, s) && Apart(s)
    && (forall p :: p in s.procs ==> ProcInv(f, s, p, s.procs[p]))
  }

  /* ---------- every step keeps it ---------- */

  /** What a step of `p` leaves alone: every other process, its files and names, the contents of
      published files, and the cursors somebody else has locked. */
  ghost predicate LeavesAlone(s: State, s': State, p: nat) {
    && (forall ino :: ino in s.files ==> ino in s'.files)
    && (forall ino :: ino in s.files && (p in s.procs ==> !Private(s.procs[p], ino)) ==> s'.files[ino] == s.files[ino])
    && (forall t :: t in s.names && Final(t) ==> t in s'.names && s'.names[t] == s.names[t])
    && (forall k :: Temporary(k) in s.names && (p in s.procs ==> !HasTemp(s.procs[p], k)) ==>
          Temporary(k) in s'.names && s'.names[Temporary(k)] == s.names[Temporary(k)])
    && (forall d :: d in s.locks && s.locks[d] != p ==>
          && d in s'.locks && s'.locks[d] == s.locks[d]
          && (Cursor(d) in s.names <==> Cursor(d) in s'.names)
          && (Cursor(d) in s.names ==> s'.names[Cursor(d)] == s.names[Cursor(d)]))
    && (forall q :: q in s.procs && q != p ==> q in s'.procs && s'.procs[q] == s.procs[q])
    && (forall q :: q in s'.procs && q != p ==> q in s.procs)
  }

  lemma DeclaredKept(f: Format, s: State, s': State, p: nat, d: Id, r: Id)
    requires Inv(f, s) && LeavesAlone(s, s', p) && Declared(f, s, d, r)
    ensures Declared(f, s', d, r)
  {
    ContentKept(f, s, s', p, Declaration(d));
  }

  lemma ContentKept(f: Format, s: State, s': State, p: nat, t: Entry)
    requires Inv(f, s) && LeavesAlone(s, s', p) && t in s.names && !t.Temporary?
    ensures s'.files[s.names[t]] == s.files[s.names[t]]
  {
    if p in s.procs {
      assert !Private(s.procs[p], s.names[t]);
    }
  }

  lemma ReadyKept(f: Format, s: State, s': State, p: nat, q: nat)
    requires Inv(f, s) && LeavesAlone(s, s', p) && q in s.procs && q != p && Ready(f, s, q, s.procs[q])
    ensures Ready(f, s', q, s.procs[q])
  {
    var job := s.procs[q].job;
    if job.Cas? && Cursor(job.d) in s.names {
      ContentKept(f, s, s', p, Cursor(job.d));
    }
    if job.PublishLocator? {
      DeclaredKept(f, s, s', p, job.d, job.r);
    }
  }

  lemma ScanKept(f: Format, s: State, s': State, p: nat, q: nat)
    requires Inv(f, s) && LeavesAlone(s, s', p) && q in s.procs && q != p && s.procs[q].stage.Scan?
    ensures ProcInv(f, s', q, s.procs[q])
  {
    var job, ino := s.procs[q].job, s.procs[q].stage.ino;
    assert ProcInv(f, s, q, s.procs[q]);
    assert p in s.procs ==> !Private(s.procs[p], ino) by {
      assert Uses(s.procs[q], ino);
    }
    if job.LoadActive? {
      DeclaredKept(f, s, s', p, Referenced(s.files[ino]).value, job.r);
    }
    if job.LoadLocated? {
      DeclaredKept(f, s, s', p, job.d, job.r);
    }
  }

  lemma OtherKept(f: Format, s: State, s': State, p: nat, q: nat)
    requires Inv(f, s) && LeavesAlone(s, s', p) && q in s.procs && q != p
    ensures ProcInv(f, s', q, s.procs[q])
  {
    var proc := s.procs[q];
    var job := proc.job;
    assert ProcInv(f, s, q, proc);
    match proc.stage
    case Locking =>
    case Check(_) => if job.LoadLocated? { DeclaredKept(f, s, s', p, job.d, job.r); }
    case Scan(_, _) => ScanKept(f, s, s', p, q);
    case Create => ReadyKept(f, s, s', p, q);
    case Write(k, ino, _) =>
      ReadyKept(f, s, s', p, q);
      assert Private(proc, ino) && HasTemp(proc, k);
      assert p in s.procs ==> !Uses(s.procs[p], ino) && !HasTemp(s.procs[p], k);
    case Publish(k, ino) =>
      ReadyKept(f, s, s', p, q);
      assert Private(proc, ino) && HasTemp(proc, k);
      assert p in s.procs ==> !Uses(s.procs[p], ino) && !HasTemp(s.procs[p], k);
    case Clean(k) =>
      assert HasTemp(proc, k);
      assert p in s.procs ==> !HasTemp(s.procs[p], k);
      ContentKept(f, s, s', p, Target(job));
    case Sync =>
      if Immutable(job) { ContentKept(f, s, s', p, Target(job)); }
      if job.PublishLocator? { DeclaredKept(f, s, s', p, job.d, job.r); }
    case Return(r) =>
      ReturnKept(f, s, s', p, q);
  }

  lemma ReturnKept(f: Format, s: State, s': State, p: nat, q: nat)
    requires Inv(f, s) && LeavesAlone(s, s', p) && q in s.procs && q != p && s.procs[q].stage.Return?
    requires ProcInv(f, s, q, s.procs[q])
    ensures ProcInv(f, s', q, s.procs[q])
  {
    var job := s.procs[q].job;
    if job.LoadLocated? || job.PublishLocator? {
      if Declared(f, s, job.d, job.r) { DeclaredKept(f, s, s', p, job.d, job.r); }
    }
    if Immutable(job) && Target(job) in s.names {
      ContentKept(f, s, s', p, Target(job));
    }
  }

  /** What is left to check of a step once it is known to leave the others alone. */
  ghost predicate Advanced(f: Format, s: State, s': State, p: nat) {
    && LeavesAlone(s, s', p) && NamesInv(f, s') && Apart(s')
    && (p in s'.procs ==> ProcInv(f, s', p, s'.procs[p]))
  }

  lemma SameNames(f: Format, s: State, s': State)
    requires NamesInv(f, s) && s'.files == s.files && s'.names == s.names
    ensures NamesInv(f, s')
  {
    forall d | Declaration(d) in s.names
      ensures exists r :: Declared(f, s', d, r)
    {
      var r :| Declared(f, s, d, r);
      assert Declared(f, s', d, r);
    }
    forall r | Locator(r) in s.names
      ensures Names(f, s', s'.files[s'.names[Locator(r)]], r)
    {
      assert Names(f, s, s.files[s.names[Locator(r)]], r);
    }
  }

  /** Giving up whatever a process held keeps the others apart; so does reading a named file. */
  lemma StaysApart(s: State, s': State, p: nat)
    requires Apart(s) && s'.names == s.names
    requires forall x :: x in s'.procs ==> x == p || (x in s.procs && s'.procs[x] == s.procs[x])
    requires p in s'.procs ==> var g := s'.procs[p].stage;
      && !g.Write? && !g.Publish? && !g.Clean?
      && (g.Scan? ==>
           || (exists t :: t in s.names && !t.Temporary? && s.names[t] == g.ino)
           || (p in s.procs && s.procs[p].stage.Scan? && s.procs[p].stage.ino == g.ino))
    ensures Apart(s')
  {
    forall x, y, ino | x in s'.procs && y in s'.procs && x != y && Private(s'.procs[x], ino)
      ensures !Uses(s'.procs[y], ino)
    {
      assert x != p && Private(s.procs[x], ino);
      assert p in s.procs && p != x ==> !Uses(s.procs[p], ino);
    }
  }

  /** A step that only moves its own process, to a stage that holds no file of its own. */
  lemma Moved(f: Format, s: State, s': State, p: nat, q: Proc)
    requires Inv(f, s) && s' == WithProc(s, p, q) && ProcInv(f, s', p, q)
    requires !q.stage.Write? && !q.stage.Publish? && !q.stage.Clean?
    requires q.stage.Scan? ==>
      || (exists t :: t in s.names && !t.Temporary? && s.names[t] == q.stage.ino)
      || (p in s.procs && s.procs[p].stage.Scan? && s.procs[p].stage.ino == q.stage.ino)
    ensures Advanced(f, s, s', p)
  {
    SameNames(f, s, s');
    StaysApart(s, s', p);
  }

  lemma BeginsAdvances(f: Format, s: State, s': State, p: nat)
    requires Inv(f, s) && Begins(f, s, s', p)
    ensures Advanced(f, s, s', p)
  {
    Moved(f, s, s', p, s'.procs[p]);
  }

  lemma OpensAdvances(f: Format, s: State, s': State, p: nat)
    requires Inv(f, s) && p in s.procs && Opens(f, s, s', p)
    ensures Advanced(f, s, s', p)
  {
    var q := s.procs[p];
    assert ProcInv(f, s, p, q);
    Moved(f, s, s', p, s'.procs[p]);
  }

  /** Having read the whole value, the process knows what the file holds. */
  lemma ScannedInv(f: Format, s: State, p: nat)
    requires Inv(f, s) && p in s.procs && s.procs[p].stage.Scan? && ProcInv(f, s, p, s.procs[p])
    requires s.procs[p].stage.got == s.files[s.procs[p].stage.ino]
    ensures var q := Scanned(f, s.procs[p], s.procs[p].stage.got);
      ProcInv(f, WithProc(s, p, q), p, q) && !q.stage.Write? && !q.stage.Publish? && !q.stage.Clean? && !q.stage.Scan?
  {
    hide NamesInv, Apart;
  }

  lemma ReadsAdvances(f: Format, s: State, s': State, p: nat)
    requires Inv(f, s) && p in s.procs && Reads(f, s, s', p)
    ensures Advanced(f, s, s', p)
  {
    hide NamesInv, Apart;
    var q := s.procs[p];
    assert ProcInv(f, s, p, q);
    var all, got := s.files[q.stage.ino], q.stage.got;
    if |got| < |all| {
      assert got == all[..|got|];
      var k :| |got| < k <= |all| && s' == WithProc(s, p, q.(stage := Scan(q.stage.ino, got + all[|got|..k])));
      assert got + all[|got|..k] == all[..k];
    } else {
      assert got == all;
      ScannedInv(f, s, p);
    }
    Moved(f, s, s', p, s'.procs[p]);
  }

  lemma EndsAdvances(f: Format, s: State, s': State, p: nat)
    requires Inv(f, s) && p in s.procs && Ends(s, s', p)
    ensures Advanced(f, s, s', p)
  {
    SameNames(f, s, s');
    StaysApart(s, s', p);
  }

  lemma LockAdvances(f: Format, s: State, s': State, p: nat)
    requires Inv(f, s) && p in s.procs && TakesLock(s, s', p)
    ensures Advanced(f, s, s', p)
  {
    assert ProcInv(f, s, p, s.procs[p]);
    SameNames(f, s, s');
    StaysApart(s, s', p);
  }

  lemma SyncsAdvances(f: Format, s: State, s': State, p: nat)
    requires Inv(f, s) && p in s.procs && Syncs(s, s', p)
    ensures Advanced(f, s, s', p)
  {
    assert ProcInv(f, s, p, s.procs[p]);
    Moved(f, s, s', p, s'.procs[p]);
  }

  /** New names and contents beside the ones already there. */
  lemma MoreNames(f: Format, s: State, s': State, p: nat)
    requires Inv(f, s) && LeavesAlone(s, s', p)
    requires forall t :: t in s'.names ==> s'.names[t] in s'.files
    requires forall t :: t in s'.names && (t.Declaration? || t.Locator?) ==> t in s.names && s'.names[t] == s.names[t]
    ensures NamesInv(f, s')
  {
    forall d | Declaration(d) in s'.names
      ensures exists r :: Declared(f, s', d, r)
    {
      var r :| Declared(f, s, d, r);
      DeclaredKept(f, s, s', p, d, r);
    }
    forall r | Locator(r) in s'.names
      ensures Names(f, s', s'.files[s'.names[Locator(r)]], r)
    {
      LocatorKept(f, s, s', p, r);
    }
  }

  lemma LocatorKept(f: Format, s: State, s': State, p: nat, r: Id)
    requires Inv(f, s) && LeavesAlone(s, s', p) && Locator(r) in s.names
    ensures Names(f, s', s'.files[s.names[Locator(r)]], r)
  {
    var b := s.files[s.names[Locator(r)]];
    assert Names(f, s, b, r);
    ContentKept(f, s, s', p, Locator(r));
    DeclaredKept(f, s, s', p, Referenced(b).value, r);
  }

  /** The check a writer made survives its own steps up to the publication. */
  lemma ReadySelf(f: Format, s: State, s': State, p: nat, q: Proc, q': Proc)
    requires Inv(f, s) && LeavesAlone(s, s', p) && Ready(f, s, p, q) && q'.job == q.job && q'.effect == q.effect
    requires s'.locks == s.locks
    requires q.job.Cas? && Cursor(q.job.d) in s.names ==>
      Cursor(q.job.d) in s'.names && s'.names[Cursor(q.job.d)] == s.names[Cursor(q.job.d)]
    requires q.job.Cas? && Cursor(q.job.d) in s'.names ==> Cursor(q.job.d) in s.names
    ensures Ready(f, s', p, q')
  {
    if q.job.Cas? && Cursor(q.job.d) in s.names {
      ContentKept(f, s, s', p, Cursor(q.job.d));
    }
    if q.job.PublishLocator? {
      DeclaredKept(f, s, s', p, q.job.d, q.job.r);
    }
  }

  lemma CreatesAdvances(f: Format, s: State, s': State, p: nat)
    requires Inv(f, s) && p in s.procs && Creates(s, s', p)
    ensures Advanced(f, s, s', p)
  {
    hide Apart, LeavesAlone;
    var q := s.procs[p];
    assert ProcInv(f, s, p, q);
    var k, ino :| && Temporary(k) !in s.names && ino !in s.files
      && s' == WithProc(s, p, q.(stage := Write(k, ino, 0))).(files := s.files[ino := ""], names := s.names[Temporary(k) := ino]);
    CreatedApart(f, s, s', p, k, ino);
    CreatedKept(f, s, s', p, k, ino);
    MoreNames(f, s, s', p);
    ReadySelf(f, s, s', p, q, s'.procs[p]);
  }

  lemma CreatedKept(f: Format, s: State, s': State, p: nat, k: nat, ino: nat)
    requires p in s.procs && s.procs[p].stage.Create? && Temporary(k) !in s.names && ino !in s.files
    requires s' == WithProc(s, p, s.procs[p].(stage := Write(k, ino, 0))).(files := s.files[ino := ""], names := s.names[Temporary(k) := ino])
    ensures LeavesAlone(s, s', p)
  {
  }

  lemma CreatedApart(f: Format, s: State, s': State, p: nat, k: nat, ino: nat)
    requires Inv(f, s) && p in s.procs && s.procs[p].stage.Create? && Temporary(k) !in s.names && ino !in s.files
    requires s' == WithProc(s, p, s.procs[p].(stage := Write(k, ino, 0))).(files := s.files[ino := ""], names := s.names[Temporary(k) := ino])
    ensures Apart(s')
  {
    hide Ready, ScanInv, ReturnInv;
    forall x, i | x in s.procs && x != p && Uses(s.procs[x], i)
      ensures i != ino
    {
      assert ProcInv(f, s, x, s.procs[x]);
    }
    forall x, i | x in s.procs && x != p && HasTemp(s.procs[x], i)
      ensures i != k
    {
      assert ProcInv(f, s, x, s.procs[x]);
    }
    assert FilesApart(s');
    assert TempsApart(s');
    forall x, t, i | x in s'.procs && t in s'.names && Private(s'.procs[x], i) && s'.names[t] == i
      ensures t.Temporary? && HasTemp(s'.procs[x], t.k)
    {
      assert t in s.names ==> s.names[t] in s.files;
      assert x != p ==> Uses(s.procs[x], i);
    }
  }

  lemma WritesAdvances(f: Format, s: State, s': State, p: nat)
    requires Inv(f, s) && p in s.procs && Writes(s, s', p)
    ensures Advanced(f, s, s', p)
  {
    var q := s.procs[p];
    assert ProcInv(f, s, p, q);
    WritesKeeps(f, s, s', p);
    MoreNames(f, s, s', p);
    ReadySelf(f, s, s', p, q, s'.procs[p]);
  }

  lemma WritesKeeps(f: Format, s: State, s': State, p: nat)
    requires Inv(f, s) && p in s.procs && Writes(s, s', p)
    ensures LeavesAlone(s, s', p) && Apart(s')
    ensures s'.names == s.names && s'.locks == s.locks
    ensures s'.procs[p].job == s.procs[p].job && s'.procs[p].effect == s.procs[p].effect
  {
    var q := s.procs[p];
    assert ProcInv(f, s, p, q);
    var q' := s'.procs[p];
    assert Private(q, q.stage.ino);
    SameHold(s, s', p);
  }

  /** A process that goes on holding what it held. */
  lemma SameHold(s: State, s': State, p: nat)
    requires Apart(s) && p in s.procs && s'.names == s.names && s'.procs.Keys == s.procs.Keys
    requires forall x :: x in s.procs && x != p ==> s'.procs[x] == s.procs[x]
    requires var g, g' := s.procs[p].stage, s'.procs[p].stage;
      (g.Write? || g.Publish?) && (g'.Write? || g'.Publish?) && g'.ino == g.ino && g'.temp == g.temp
    ensures Apart(s')
  {
    var q, q' := s.procs[p], s'.procs[p];
    assert forall ino :: Private(q', ino) == Private(q, ino) && Uses(q', ino) == Uses(q, ino);
    assert forall k :: HasTemp(q', k) == HasTemp(q, k);
    assert FilesApart(s');
    assert TempsApart(s');
    assert Unnamed(s');
  }

  /** Giving up a temporary name, and moving to a stage that holds less. */
  lemma DropsApart(s: State, s': State, p: nat)
    requires Apart(s) && p in s.procs && s'.procs.Keys == s.procs.Keys
    requires forall x :: x in s.procs && x != p ==> s'.procs[x] == s.procs[x]
    requires forall t :: t in s'.names ==> t in s.names && s'.names[t] == s.names[t]
    requires var g := s'.procs[p].stage; !g.Write? && !g.Publish? && !g.Scan? && !g.Clean?
    ensures Apart(s')
  {
    assert FilesApart(s');
    assert TempsApart(s');
    assert Unnamed(s');
  }

  /** Dropping its own temporary name is nobody else's concern. */
  lemma DropsKept(s: State, s': State, p: nat, k: nat)
    requires p in s.procs && HasTemp(s.procs[p], k) && s'.files == s.files && s'.locks == s.locks
    requires s'.procs.Keys == s.procs.Keys && forall x :: x in s.procs && x != p ==> s'.procs[x] == s.procs[x]
    requires s'.names == s.names || s'.names == s.names - {Temporary(k)}
    ensures LeavesAlone(s, s', p)
  {
  }

  /** What giving up a temporary name leaves of the others and of the published names. */
  lemma Dropped(f: Format, s: State, s': State, p: nat, k: nat)
    requires Inv(f, s) && p in s.procs && HasTemp(s.procs[p], k) && s'.files == s.files && s'.locks == s.locks
    requires s'.procs.Keys == s.procs.Keys && forall x :: x in s.procs && x != p ==> s'.procs[x] == s.procs[x]
    requires s'.names == s.names - {Temporary(k)}
    requires var g := s'.procs[p].stage; !g.Write? && !g.Publish? && !g.Scan? && !g.Clean?
    ensures LeavesAlone(s, s', p) && Apart(s') && NamesInv(f, s')
  {
    DropsApart(s, s', p);
    DropsKept(s, s', p, k);
    MoreNames(f, s, s', p);
  }

  lemma CleansAdvances(f: Format, s: State, s': State, p: nat)
    requires Inv(f, s) && p in s.procs && Cleans(s, s', p)
    ensures Advanced(f, s, s', p)
  {
    hide Apart, NamesInv, LeavesAlone;
    var q := s.procs[p];
    assert ProcInv(f, s, p, q);
    Dropped(f, s, s', p, q.stage.temp);
    ContentKept(f, s, s', p, Target(q.job));
  }

  lemma FailsInPlace(f: Format, s: State, s': State, p: nat)
    requires Inv(f, s) && p in s.procs && Fails(s, s', p) && s'.names == s.names
    ensures Advanced(f, s, s', p)
  {
    hide Apart, NamesInv, LeavesAlone, Target;
    assert ProcInv(f, s, p, s.procs[p]);
    Moved(f, s, s', p, s'.procs[p]);
  }

  lemma FailsDropping(f: Format, s: State, s': State, p: nat)
    requires Inv(f, s) && p in s.procs && Fails(s, s', p) && s'.names != s.names
    ensures Advanced(f, s, s', p)
  {
    hide Apart, NamesInv, LeavesAlone, CasResult, LoadResult, Register, Referenced, Reference, ScanInv, Target;
    var q := s.procs[p];
    assert ProcInv(f, s, p, q);
    Dropped(f, s, s', p, q.stage.temp);
    if q.job.PublishLocator? {
      DeclaredKept(f, s, s', p, q.job.d, q.job.r);
    }
  }

  lemma FailsAdvances(f: Format, s: State, s': State, p: nat)
    requires Inv(f, s) && p in s.procs && Fails(s, s', p)
    ensures Advanced(f, s, s', p)
  {
    hide Inv, Fails, Advanced;
    if s'.names == s.names {
      FailsInPlace(f, s, s', p);
    } else {
      FailsDropping(f, s, s', p);
    }
  }

  /** The name was taken: the link fails and the value there is compared. */
  lemma YieldsAdvances(f: Format, s: State, s': State, p: nat)
    requires Inv(f, s) && p in s.procs && Publishes(s, s', p)
    requires Immutable(s.procs[p].job) && Target(s.procs[p].job) in s.names
    ensures Advanced(f, s, s', p)
  {
    hide Apart, NamesInv, LeavesAlone;
    assert ProcInv(f, s, p, s.procs[p]);
    Dropped(f, s, s', p, s.procs[p].stage.temp);
  }

  /** The link makes a complete value visible under a name nothing had. */
  lemma LinksAdvances(f: Format, s: State, s': State, p: nat)
    requires Inv(f, s) && p in s.procs && Publishes(s, s', p)
    requires Immutable(s.procs[p].job) && Target(s.procs[p].job) !in s.names
    ensures Advanced(f, s, s', p)
  {
    var q := s.procs[p];
    assert ProcInv(f, s, p, q);
    LinkedApart(s, s', p, Target(q.job));
    assert LeavesAlone(s, s', p);
    LinkedNames(f, s, s', p);
  }

  lemma LinkedApart(s: State, s': State, p: nat, target: Entry)
    requires Apart(s) && p in s.procs && s.procs[p].stage.Publish?
    requires s'.names == s.names[target := s.procs[p].stage.ino]
    requires s'.procs == s.procs[p := s.procs[p].(stage := Clean(s.procs[p].stage.temp))]
    ensures Apart(s')
  {
    var q, q' := s.procs[p], s'.procs[p];
    assert Private(q, q.stage.ino) && Uses(q, q.stage.ino);
    assert forall k :: HasTemp(q', k) == HasTemp(q, k);
    assert FilesApart(s');
    assert TempsApart(s');
    forall x, t, ino | x in s'.procs && t in s'.names && Private(s'.procs[x], ino) && s'.names[t] == ino
      ensures t.Temporary? && HasTemp(s'.procs[x], t.k)
    {
      assert x != p && Private(s.procs[x], ino);
      assert ino != q.stage.ino by { assert !Uses(s.procs[x], q.stage.ino); }
    }
  }

  lemma LinkedNames(f: Format, s: State, s': State, p: nat)
    requires Inv(f, s) && p in s.procs && s.procs[p].stage.Publish? && Immutable(s.procs[p].job) && LeavesAlone(s, s', p)
    requires ProcInv(f, s, p, s.procs[p]) && Target(s.procs[p].job) !in s.names
    requires s'.files == s.files && s'.names == s.names[Target(s.procs[p].job) := s.procs[p].stage.ino]
    ensures NamesInv(f, s')
  {
    var job := s.procs[p].job;
    forall d | Declaration(d) in s'.names
      ensures exists r :: Declared(f, s', d, r)
    {
      if Declaration(d) in s.names {
        var r :| Declared(f, s, d, r);
        DeclaredKept(f, s, s', p, d, r);
      } else {
        assert Declared(f, s', d, job.r);
      }
    }
    forall r | Locator(r) in s'.names
      ensures Names(f, s', s'.files[s'.names[Locator(r)]], r)
    {
      LocatorKept(f, s, s', p, r);
    }
  }

  lemma RenamedLeavesAlone(f: Format, s: State, s': State, p: nat)
    requires Inv(f, s) && p in s.procs && Publishes(s, s', p) && !Immutable(s.procs[p].job)
    ensures LeavesAlone(s, s', p) && Apart(s')
  {
    hide NamesInv, CasResult, LoadResult, Register, Referenced, Reference, ReturnInv, ScanInv, FilesApart, TempsApart, Unnamed;
    var q := s.procs[p];
    assert ProcInv(f, s, p, q);
    assert HasTemp(q, q.stage.temp);
    RenamedApart(s, s', p, Target(q.job));
    hide Inv, Apart;
  }

  /** The rename puts a complete value in the place of the old one. */
  lemma RenamesAdvances(f: Format, s: State, s': State, p: nat)
    requires Inv(f, s) && p in s.procs && Publishes(s, s', p) && !Immutable(s.procs[p].job)
    ensures Advanced(f, s, s', p)
  {
    var q := s.procs[p];
    assert ProcInv(f, s, p, q);
    RenamedLeavesAlone(f, s, s', p);
    hide LeavesAlone, Apart, NamesInv, CasResult, LoadResult, Register, Referenced, Reference;
    if q.job.PublishLocator? {
      DeclaredKept(f, s, s', p, q.job.d, q.job.r);
    }
    RenamedNames(f, s, s', p);
  }

  lemma RenamedApart(s: State, s': State, p: nat, target: Entry)
    requires Apart(s) && p in s.procs && s.procs[p].stage.Publish?
    requires !target.Temporary? && s'.names == s.names[target := s.procs[p].stage.ino] - {Temporary(s.procs[p].stage.temp)}
    requires p in s'.procs && s'.procs == s.procs[p := s'.procs[p]] && s'.procs[p].stage.Sync?
    ensures Apart(s')
  {
    var q := s.procs[p];
    assert Private(q, q.stage.ino);
    assert FilesApart(s');
    assert TempsApart(s');
    forall x, t, ino | x in s'.procs && t in s'.names && Private(s'.procs[x], ino) && s'.names[t] == ino
      ensures t.Temporary? && HasTemp(s'.procs[x], t.k)
    {
      assert x != p && Private(s.procs[x], ino);
      assert ino != q.stage.ino by { assert !Uses(s.procs[x], q.stage.ino); }
    }
  }

  lemma RenamedNames(f: Format, s: State, s': State, p: nat)
    requires Inv(f, s) && p in s.procs && s.procs[p].stage.Publish? && !Immutable(s.procs[p].job) && LeavesAlone(s, s', p)
    requires ProcInv(f, s, p, s.procs[p]) && s'.files == s.files
    requires s'.names == s.names[Target(s.procs[p].job) := s.procs[p].stage.ino] - {Temporary(s.procs[p].stage.temp)}
    ensures NamesInv(f, s')
  {
    var job, ino := s.procs[p].job, s.procs[p].stage.ino;
    forall d | Declaration(d) in s'.names
      ensures exists r :: Declared(f, s', d, r)
    {
      var r :| Declared(f, s, d, r);
      DeclaredKept(f, s, s', p, d, r);
    }
    forall r | Locator(r) in s'.names
      ensures Names(f, s', s'.files[s'.names[Locator(r)]], r)
    {
      if job.PublishLocator? && job.r == r {
        ReferenceRoundTrip(job.d, s.files[ino]);
        DeclaredKept(f, s, s', p, job.d, r);
      } else {
        LocatorKept(f, s, s', p, r);
      }
    }
  }

  /** Every step of every process, failing calls and crashes included, keeps the invariant. */
  lemma StepKeeps(f: Format, s: State, s': State, p: nat)
    requires Inv(f, s) && Next(f, s, s', p)
    ensures Inv(f, s') && LeavesAlone(s, s', p)
  {
    if Begins(f, s, s', p) { BeginsAdvances(f, s, s', p); }
    else if TakesLock(s, s', p) { LockAdvances(f, s, s', p); }
    else if Opens(f, s, s', p) { OpensAdvances(f, s, s', p); }
    else if Reads(f, s, s', p) { ReadsAdvances(f, s, s', p); }
    else if Creates(s, s', p) { CreatesAdvances(f, s, s', p); }
    else if Writes(s, s', p) { WritesAdvances(f, s, s', p); }
    else if Publishes(s, s', p) {
      if !Immutable(s.procs[p].job) { RenamesAdvances(f, s, s', p); }
      else if Target(s.procs[p].job) in s.names { YieldsAdvances(f, s, s', p); }
      else { LinksAdvances(f, s, s', p); }
    }
    else if Cleans(s, s', p) { CleansAdvances(f, s, s', p); }
    else if Syncs(s, s', p) { SyncsAdvances(f, s, s', p); }
    else if Fails(s, s', p) { FailsAdvances(f, s, s', p); }
    else { EndsAdvances(f, s, s', p); }
    forall q | q in s'.procs
      ensures ProcInv(f, s', q, s'.procs[q])
    {
      if q != p { OtherKept(f, s, s', p, q); }
    }
  }

  /* ---------- runs ---------- */

  /** `ss[i + 1]` follows from `ss[i]` by one step of the process `who[i]`. */
  ghost predicate Run(f: Format, ss: seq<State>, who: seq<nat>) {
    && |ss| == |who| + 1
    && (forall i :: 0 <= i < |who| ==> Next(f, ss[i], ss[i + 1], who[i]))
  }

  /** No process is running, and whatever is already published is in order. */
  ghost predicate Quiescent(f: Format, s: State) {
    s.procs == map[] && s.locks == map[] && NamesInv(f, s)
  }

  lemma {:induction false} RunKeeps(f: Format, ss: seq<State>, who: seq<nat>, i: nat)
    requires Run(f, ss, who) && Quiescent(f, ss[0]) && i <= |who|
    ensures Inv(f, ss[i])
  {
    if i == 0 {
    } else {
      RunKeeps(f, ss, who, i - 1);
      StepKeeps(f, ss[i - 1], ss[i], who[i - 1]);
    }
  }

  /** A visible declaration, step or evidence record never goes away and never changes a byte. */
  lemma {:induction false} VisibleForever(f: Format, ss: seq<State>, who: seq<nat>, i: nat, j: nat, t: Entry, b: Bytes)
    requires Run(f, ss, who) && Quiescent(f, ss[0]) && i <= j <= |who|
    requires Final(t) && Holds(ss[i], t, b)
    ensures Holds(ss[j], t, b)
    decreases j
  {
    hide Next, Inv, Holds, Quiescent;
    if i < j {
      VisibleForever(f, ss, who, i, j - 1, t, b);
      RunKeeps(f, ss, who, j - 1);
      VisibleStep(f, ss[j - 1], ss[j], who[j - 1], t, b);
    }
  }

  lemma VisibleStep(f: Format, s: State, s': State, p: nat, t: Entry, b: Bytes)
    requires Inv(f, s) && Next(f, s, s', p) && Final(t) && Holds(s, t, b)
    ensures Holds(s', t, b)
  {
    StepKeeps(f, s, s', p);
    ContentKept(f, s, s', p, t);
  }

  /** A visible locator always names a visible declaration of its request. */
  lemma LocatorSafety(f: Format, ss: seq<State>, who: seq<nat>, i: nat, r: Id)
    requires Run(f, ss, who) && Quiescent(f, ss[0]) && i <= |who|
    requires Locator(r) in ss[i].names && ss[i].names[Locator(r)] in ss[i].files
    ensures Names(f, ss[i], ss[i].files[ss[i].names[Locator(r)]], r)
  {
    RunKeeps(f, ss, who, i);
  }

  /** Following a locator never ends in a corrupt index, and finds a declaration of the request. */
  lemma LoadActiveSound(f: Format, ss: seq<State>, who: seq<nat>, i: nat, p: nat)
    requires Run(f, ss, who) && Quiescent(f, ss[0]) && i <= |who|
    requires p in ss[i].procs && ss[i].procs[p].stage.Return?
    requires ss[i].procs[p].job.LoadActive? || ss[i].procs[p].job.LoadLocated?
    ensures var r := ss[i].procs[p].stage.result;
      && r != IndexCorrupt && r != Corrupt
      && (r.Located? && r.found.Some? ==> Declared(f, ss[i], r.found.value, ss[i].procs[p].job.r))
  {
    RunKeeps(f, ss, who, i);
    assert ProcInv(f, ss[i], p, ss[i].procs[p]);
  }

  /** A publisher that returns, or throws saying its value is visible, left exactly its bytes. */
  lemma ImmutableReturns(f: Format, ss: seq<State>, who: seq<nat>, i: nat, p: nat)
    requires Run(f, ss, who) && Quiescent(f, ss[0]) && i <= |who|
    requires p in ss[i].procs && Immutable(ss[i].procs[p].job) && ss[i].procs[p].stage.Return?
    requires ss[i].procs[p].stage.result in {Ok, Threw(true)}
    ensures Holds(ss[i], Target(ss[i].procs[p].job), ss[i].procs[p].job.bytes)
  {
    RunKeeps(f, ss, who, i);
    assert ProcInv(f, ss[i], p, ss[i].procs[p]);
  }

  /* ---------- the cursor is an atomic register ---------- */

  /** The step at which a job on the cursor takes effect: before it nothing is recorded, after it
      the outcome is. */
  predicate Linearizes(s: State, s': State, p: nat) {
    && p in s.procs && p in s'.procs
    && s.procs[p].effect.None? && s'.procs[p].effect.Some?
    && (s.procs[p].job.Cas? || s.procs[p].job.LoadCursor?)
  }

  ghost predicate Moves(f: Format, s: State, s': State, p: nat, d: Id) {
    if !Linearizes(s, s', p) then Register(s', d) == Register(s, d)
    else
      match s.procs[p].job
      case Cas(own, expected, bytes) =>
        && s'.procs[p].effect == Some(CasResult(f, Register(s, own), expected, bytes))
        && Register(s', d) == if d == own then CasNext(f, Register(s, own), expected, bytes) else Register(s, d)
      case LoadCursor(own) =>
        s'.procs[p].effect == Some(LoadResult(f, Register(s, own))) && Register(s', d) == Register(s, d)
      case _ => false
  }

  lemma SameRegister(f: Format, s: State, s': State, p: nat, d: Id)
    requires Inv(f, s) && LeavesAlone(s, s', p)
    requires Cursor(d) in s.names <==> Cursor(d) in s'.names
    requires Cursor(d) in s.names ==> s'.names[Cursor(d)] == s.names[Cursor(d)]
    ensures Register(s', d) == Register(s, d)
  {
    if Cursor(d) in s.names {
      ContentKept(f, s, s', p, Cursor(d));
    }
  }

  lemma OpensMoves(f: Format, s: State, s': State, p: nat, d: Id)
    requires Inv(f, s) && LeavesAlone(s, s', p) && p in s.procs && (Opens(f, s, s', p) || Reads(f, s, s', p))
    ensures Moves(f, s, s', p, d)
  {
    var q := s.procs[p];
    assert ProcInv(f, s, p, q);
    SameRegister(f, s, s', p, d);
    if q.stage.Scan? && |q.stage.got| >= |s.files[q.stage.ino]| {
      assert q.stage.got == s.files[q.stage.ino];
    }
  }

  lemma PublishesMoves(f: Format, s: State, s': State, p: nat, d: Id)
    requires Inv(f, s) && LeavesAlone(s, s', p) && p in s.procs && Publishes(s, s', p)
    ensures Moves(f, s, s', p, d)
  {
    var q := s.procs[p];
    assert ProcInv(f, s, p, q);
    if !q.job.Cas? || q.job.d != d {
      SameRegister(f, s, s', p, d);
    }
  }

  lemma QuietMoves(f: Format, s: State, s': State, p: nat, d: Id)
    requires Inv(f, s) && LeavesAlone(s, s', p)
    requires Begins(f, s, s', p) || (p in s.procs &&
      (TakesLock(s, s', p) || Creates(s, s', p) || Writes(s, s', p) || Cleans(s, s', p) || Syncs(s, s', p) || Fails(s, s', p) || Ends(s, s', p)))
    ensures Moves(f, s, s', p, d)
  {
    hide Inv, LeavesAlone;
    SameRegister(f, s, s', p, d);
  }

  /** Outside such a step no cursor changes.  In it, the register and the recorded outcome move as
      the atomic register moves them, and no other cursor changes. */
  lemma CursorStep(f: Format, s: State, s': State, p: nat, d: Id)
    requires Inv(f, s) && Next(f, s, s', p)
    ensures Moves(f, s, s', p, d)
  {
    StepKeeps(f, s, s', p);
    if p in s.procs && (Opens(f, s, s', p) || Reads(f, s, s', p)) {
      OpensMoves(f, s, s', p, d);
    } else if p in s.procs && Publishes(s, s', p) {
      PublishesMoves(f, s, s', p, d);
    } else {
      QuietMoves(f, s, s', p, d);
    }
  }

  /** The outcome a caller of the cursor sees is the recorded one.  An exception says truthfully
      whether the cursor was written. */
  lemma CursorReturns(f: Format, ss: seq<State>, who: seq<nat>, i: nat, p: nat)
    requires Run(f, ss, who) && Quiescent(f, ss[0]) && i <= |who|
    requires p in ss[i].procs && ss[i].procs[p].stage.Return?
    ensures var q := ss[i].procs[p]; var r := q.stage.result;
      && (q.job.Cas? ==> q.effect == (if r.Threw? then (if r.visible then Some(Ok) else None) else Some(r)))
      && (q.job.LoadCursor? && !r.Threw? ==> q.effect == Some(r))
  {
    RunKeeps(f, ss, who, i);
    assert ProcInv(f, ss[i], p, ss[i].procs[p]);
  }

  /** The outcome is recorded once: a job that took effect takes no second one. */
  lemma EffectOnce(f: Format, s: State, s': State, p: nat, q: nat)
    requires Inv(f, s) && Next(f, s, s', p) && q in s.procs && q in s'.procs
    requires s.procs[q].effect.Some? && (s.procs[q].job.Cas? || s.procs[q].job.LoadCursor?)
    ensures s'.procs[q].effect == s.procs[q].effect && s'.procs[q].job == s.procs[q].job
  {
    StepKeeps(f, s, s', p);
    assert ProcInv(f, s, q, s.procs[q]);
    if q == p {
      hide Apart, NamesInv, LeavesAlone, Referenced, Reference, CasNext;
    } else {
      hide Next, Inv, ProcInv;
    }
  }

  /* ---------- one sequential history for every run ---------- */

  /** A job on a cursor, and the outcome it had when it took effect. */
  datatype Event = Event(who: nat, job: Job, outcome: Result)

  predicate OnCursor(j: Job) { j.Cas? || j.LoadCursor? }

  /** The jobs that took effect on the cursor `d` in the first `k` steps, in that order. */
  function History(ss: seq<State>, who: seq<nat>, d: Id, k: nat): seq<Event>
    requires |ss| == |who| + 1 && k <= |who|
  {
    if k == 0 then []
    else
      var p, s, s' := who[k - 1], ss[k - 1], ss[k];
      if Linearizes(s, s', p) && s.procs[p].job.d == d
      then History(ss, who, d, k - 1) + [Event(p, s.procs[p].job, s'.procs[p].effect.value)]
      else History(ss, who, d, k - 1)
  }

  function Answer(f: Format, reg: Option<Bytes>, j: Job): Result
    requires OnCursor(j)
  {
    match j
    case Cas(_, expected, bytes) => CasResult(f, reg, expected, bytes)
    case LoadCursor(_) => LoadResult(f, reg)
  }

  /** The register after the events one after another. */
  function After(f: Format, reg: Option<Bytes>, h: seq<Event>): Option<Bytes> {
    if h == [] then reg
    else
      var r, j := After(f, reg, h[..|h| - 1]), h[|h| - 1].job;
      if j.Cas? then CasNext(f, r, j.expected, j.bytes) else r
  }

  /** Every event has the outcome a single register gives it at its place in the history. */
  predicate Sequential(f: Format, reg: Option<Bytes>, h: seq<Event>) {
    forall i :: 0 <= i < |h| ==> OnCursor(h[i].job) && h[i].outcome == Answer(f, After(f, reg, h[..i]), h[i].job)
  }

  /** Whatever the processes did, the jobs on a cursor took effect one after another on one register,
      and what the cursor holds is what that register holds. */
  lemma {:induction false} CursorIsSequential(f: Format, ss: seq<State>, who: seq<nat>, d: Id, k: nat)
    requires Run(f, ss, who) && Quiescent(f, ss[0]) && k <= |who|
    ensures Sequential(f, Register(ss[0], d), History(ss, who, d, k))
    ensures After(f, Register(ss[0], d), History(ss, who, d, k)) == Register(ss[k], d)
  {
    hide Next, Inv, Quiescent, Register, CasResult, CasNext, LoadResult;
    if k == 0 {
    } else {
      CursorIsSequential(f, ss, who, d, k - 1);
      RunKeeps(f, ss, who, k - 1);
      CursorStep(f, ss[k - 1], ss[k], who[k - 1], d);
      var h, g := History(ss, who, d, k - 1), History(ss, who, d, k);
      assert g != h ==> g[..|h|] == h;
      forall i | 0 <= i < |g|
        ensures OnCursor(g[i].job) && g[i].outcome == Answer(f, After(f, Register(ss[0], d), g[..i]), g[i].job)
      {
        if i < |h| {
          assert g[i] == h[i] && g[..i] == h[..i];
        }
      }
    }
  }

  /** The process has been at the job since before the step `e`, and the job has had its outcome since. */
  ghost predicate TookEffect(ss: seq<State>, who: seq<nat>, e: nat, i: nat, p: nat, j: Job, outcome: Result)
    requires |ss| == |who| + 1
  {
    && e < i <= |who| && who[e] == p && Linearizes(ss[e], ss[e + 1], p)
    && (forall m :: e <= m <= i ==> p in ss[m].procs && ss[m].procs[p].job == j)
    && (forall m :: e < m <= i ==> ss[m].procs[p].effect == Some(outcome))
  }

  predicate SameJob(s: State, s': State, p: nat) {
    p in s.procs && p in s'.procs && OnCursor(s'.procs[p].job) ==> s.procs[p].job == s'.procs[p].job
  }

  lemma ReadsSameJob(f: Format, s: State, s': State, p: nat)
    requires p in s.procs && Reads(f, s, s', p)
    ensures SameJob(s, s', p)
  {
    hide CasResult, LoadResult, Referenced, Payload;
  }

  lemma CallsSameJob(f: Format, s: State, s': State, p: nat)
    requires p in s.procs
    requires TakesLock(s, s', p) || Opens(f, s, s', p) || Publishes(s, s', p) || Cleans(s, s', p) || Syncs(s, s', p)
    ensures SameJob(s, s', p)
  {
    hide LoadResult, Payload, Target;
  }

  lemma RestSameJob(f: Format, s: State, s': State, p: nat)
    requires p in s.procs && (Creates(s, s', p) || Writes(s, s', p) || Fails(s, s', p) || Ends(s, s', p))
    ensures SameJob(s, s', p)
  {
    hide Payload;
  }

  lemma CursorJobKept(f: Format, s: State, s': State, p: nat, q: nat)
    requires Next(f, s, s', p) && LeavesAlone(s, s', p) && q in s'.procs && OnCursor(s'.procs[q].job)
    ensures q !in s.procs ==> s'.procs[q].effect.None?
    ensures q in s.procs ==> s.procs[q].job == s'.procs[q].job
    ensures q in s.procs && q != p ==> s.procs[q].effect == s'.procs[q].effect
  {
    hide Reads, TakesLock, Opens, Publishes, Cleans, Syncs, Creates, Writes, Fails, Ends, Proper, Payload;
    if q != p {
      hide Next;
    } else if p in s.procs {
      hide LeavesAlone;
      if Reads(f, s, s', p) {
        ReadsSameJob(f, s, s', p);
      } else if TakesLock(s, s', p) || Opens(f, s, s', p) || Publishes(s, s', p) || Cleans(s, s', p) || Syncs(s, s', p) {
        CallsSameJob(f, s, s', p);
      } else {
        RestSameJob(f, s, s', p);
      }
    }
  }

  lemma {:induction false} EffectFound(f: Format, ss: seq<State>, who: seq<nat>, i: nat, p: nat) returns (e: nat)
    requires Run(f, ss, who) && Quiescent(f, ss[0]) && i <= |who|
    requires p in ss[i].procs && OnCursor(ss[i].procs[p].job) && ss[i].procs[p].effect.Some?
    ensures TookEffect(ss, who, e, i, p, ss[i].procs[p].job, ss[i].procs[p].effect.value)
    decreases i
  {
    hide Next, Inv, LeavesAlone;
    var s, s' := ss[i - 1], ss[i];
    RunKeeps(f, ss, who, i - 1);
    StepKeeps(f, s, s', who[i - 1]);
    CursorJobKept(f, s, s', who[i - 1], p);
    if s.procs[p].effect.Some? {
      EffectOnce(f, s, s', who[i - 1], p);
      e := EffectFound(f, ss, who, i - 1, p);
    } else {
      e := i - 1;
    }
  }

  /** The outcome a caller sees, or the success an exception admits to, is that of exactly one event of
      the history, and the caller was waiting for it when it took effect. */
  lemma OutcomeIsInHistory(f: Format, ss: seq<State>, who: seq<nat>, i: nat, p: nat) returns (e: nat)
    requires Run(f, ss, who) && Quiescent(f, ss[0]) && i <= |who|
    requires p in ss[i].procs && OnCursor(ss[i].procs[p].job) && ss[i].procs[p].stage.Return?
    requires var r := ss[i].procs[p].stage.result; r.Threw? ==> r.visible && ss[i].procs[p].job.Cas?
    ensures var j, r := ss[i].procs[p].job, ss[i].procs[p].stage.result;
      var outcome := if r.Threw? then Ok else r;
      && TookEffect(ss, who, e, i, p, j, outcome)
      && History(ss, who, j.d, e + 1) == History(ss, who, j.d, e) + [Event(p, j, outcome)]
  {
    CursorReturns(f, ss, who, i, p);
    e := EffectFound(f, ss, who, i, p);
  }
}
