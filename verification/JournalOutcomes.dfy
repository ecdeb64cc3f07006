/** What an outcome of the journal store tells its caller, in the bytes of the published files and the
  identities in them, and that a process left alone gets every job done. */
module JournalOutcomes {
  import opened Tree
  import opened StepNames
  import opened Journal

  /* ---------- the cursor ---------- */

  predicate NoCursor(s: State, d: Id) { Cursor(d) !in s.names }

  /** A cursor never goes away.  One that changes was overwritten by a process whose expectation is the
      identity it had; one that appears was written by a process that expected none. */
  lemma CursorWriter(f: Format, ss: seq<State>, who: seq<nat>, i: nat, d: Id)
    requires Run(f, ss, who) && Quiescent(f, ss[0]) && i < |who|
    ensures var s, s', p := ss[i], ss[i + 1], who[i];
      && (!NoCursor(s, d) ==> !NoCursor(s', d))
      && (forall b, c :: Holds(s, Cursor(d), b) && Holds(s', Cursor(d), c) && b != c ==>
            && f.cursor(b).Some? && f.cursor(b) != f.cursor(c)
            && p in s.procs && s.procs[p].job == Cas(d, f.cursor(b), c))
      && (forall c :: NoCursor(s, d) && Holds(s', Cursor(d), c) ==>
            p in s.procs && s.procs[p].job == Cas(d, None, c))
  {
    RunKeeps(f, ss, who, i);
    RunKeeps(f, ss, who, i + 1);
    CursorStep(f, ss[i], ss[i + 1], who[i], d);
    hide Next, Inv, Quiescent;
  }

  /** What a caller that sees an outcome of compare-and-publish may conclude, at the step the job took
      effect: which cursor was there, and which one is there after. */
  lemma CasMeans(f: Format, ss: seq<State>, who: seq<nat>, i: nat, p: nat) returns (e: nat)
    requires Run(f, ss, who) && Quiescent(f, ss[0]) && i <= |who|
    requires p in ss[i].procs && ss[i].procs[p].job.Cas? && ss[i].procs[p].stage.Return?
    requires var r := ss[i].procs[p].stage.result; r.Threw? ==> r.visible
    ensures var j, r := ss[i].procs[p].job, ss[i].procs[p].stage.result; var outcome := if r.Threw? then Ok else r;
      && TookEffect(ss, who, e, i, p, j, outcome)
      // nothing there: a first write must expect nothing
      && (NoCursor(ss[e], j.d) ==>
            if j.expected.None? then outcome == Ok && Holds(ss[e + 1], Cursor(j.d), j.bytes)
            else outcome == Conflict && NoCursor(ss[e + 1], j.d))
      && (forall b :: Holds(ss[e], Cursor(j.d), b) ==>
            // a cursor that cannot be read
            && (f.cursor(b).None? ==> outcome == Corrupt && Holds(ss[e + 1], Cursor(j.d), b))
            // the desired cursor is there already
            && (f.cursor(b) == f.cursor(j.bytes) ==> outcome == Ok && Holds(ss[e + 1], Cursor(j.d), b))
            // another one, which the caller expected
            && (f.cursor(b).Some? && f.cursor(b) != f.cursor(j.bytes) && j.expected == f.cursor(b) ==>
                  outcome == Ok && Holds(ss[e + 1], Cursor(j.d), j.bytes))
            // another one, which the caller did not expect
            && (f.cursor(b).Some? && f.cursor(b) != f.cursor(j.bytes) && j.expected != f.cursor(b) ==>
                  outcome == Conflict && Holds(ss[e + 1], Cursor(j.d), b)))
  {
    e := OutcomeIsInHistory(f, ss, who, i, p);
    var j := ss[i].procs[p].job;
    RunKeeps(f, ss, who, e);
    RunKeeps(f, ss, who, e + 1);
    CursorStep(f, ss[e], ss[e + 1], p, j.d);
    assert ProcInv(f, ss[i], p, ss[i].procs[p]) by { RunKeeps(f, ss, who, i); }
    hide Next, Inv, Quiescent, History, ProcInv;
  }

  /** A load answers what the cursor was at one moment of the wait. */
  lemma LoadMeans(f: Format, ss: seq<State>, who: seq<nat>, i: nat, p: nat) returns (e: nat)
    requires Run(f, ss, who) && Quiescent(f, ss[0]) && i <= |who|
    requires p in ss[i].procs && ss[i].procs[p].job.LoadCursor? && ss[i].procs[p].stage.Return?
    requires !ss[i].procs[p].stage.result.Threw?
    ensures var j, r := ss[i].procs[p].job, ss[i].procs[p].stage.result;
      && TookEffect(ss, who, e, i, p, j, r)
      && (NoCursor(ss[e], j.d) ==> r == Value(None))
      && (forall b :: Holds(ss[e], Cursor(j.d), b) ==> r == if f.cursor(b).Some? then Value(Some(b)) else Corrupt)
  {
    e := OutcomeIsInHistory(f, ss, who, i, p);
    RunKeeps(f, ss, who, e);
    CursorStep(f, ss[e], ss[e + 1], p, ss[i].procs[p].job.d);
    hide Next, Inv, Quiescent, History;
  }

  /** An exception that does not say so wrote nothing: no step of the job changed any cursor. */
  lemma SilentThrow(f: Format, ss: seq<State>, who: seq<nat>, m: nat, i: nat, p: nat, d: Id)
    requires Run(f, ss, who) && Quiescent(f, ss[0]) && m < i <= |who| && who[m] == p
    requires forall k :: m <= k <= i ==> p in ss[k].procs && ss[k].procs[p].job.Cas?
    requires ss[i].procs[p].stage == Return(Threw(false))
    ensures var s, s' := ss[m], ss[m + 1];
      && (NoCursor(s, d) ==> NoCursor(s', d))
      && (forall b :: Holds(s, Cursor(d), b) ==> Holds(s', Cursor(d), b))
  {
    RunKeeps(f, ss, who, i);
    assert ProcInv(f, ss[i], p, ss[i].procs[p]);
    NoEffectBefore(f, ss, who, m + 1, i, p);
    RunKeeps(f, ss, who, m);
    RunKeeps(f, ss, who, m + 1);
    CursorStep(f, ss[m], ss[m + 1], p, d);
    hide Next, Inv, ProcInv, Quiescent;
  }

  lemma {:induction false} NoEffectBefore(f: Format, ss: seq<State>, who: seq<nat>, m: nat, i: nat, p: nat)
    requires Run(f, ss, who) && Quiescent(f, ss[0]) && m <= i <= |who|
    requires forall k :: m <= k <= i ==> p in ss[k].procs && ss[k].procs[p].job.Cas?
    requires ss[i].procs[p].effect.None?
    ensures ss[m].procs[p].effect.None?
    decreases i
  {
    hide Next, Inv, Quiescent;
    if m < i {
      RunKeeps(f, ss, who, i - 1);
      if ss[i - 1].procs[p].effect.Some? {
        EffectOnce(f, ss[i - 1], ss[i], who[i - 1], p);
      }
      NoEffectBefore(f, ss, who, m, i - 1, p);
    }
  }

  /* ---------- immutable values and the locator ---------- */

  /** A publisher of an immutable value that returns a conflict found other bytes, and they stay. */
  lemma ConflictMeans(f: Format, ss: seq<State>, who: seq<nat>, i: nat, p: nat)
    requires Run(f, ss, who) && Quiescent(f, ss[0]) && i <= |who|
    requires p in ss[i].procs && Immutable(ss[i].procs[p].job) && ss[i].procs[p].stage.Return?
    ensures var j, r := ss[i].procs[p].job, ss[i].procs[p].stage.result;
      && r in {Ok, Conflict, Threw(false), Threw(true)}
      && (r == Conflict ==> exists b :: b != j.bytes && Holds(ss[i], Target(j), b))
      && (r == Ok ==> !j.PublishDeclaration?)
  {
    RunKeeps(f, ss, who, i);
    var j := ss[i].procs[p].job;
    assert ProcInv(f, ss[i], p, ss[i].procs[p]);
    if ss[i].procs[p].stage.result == Conflict {
      assert Holds(ss[i], Target(j), ss[i].files[ss[i].names[Target(j)]]);
    }
  }

  /** Where a publisher of the locator stands once it has put it in place. */
  predicate PutLocator(q: Proc) {
    q.job.PublishLocator? && (q.stage.Sync? || q.stage == Return(Ok) || q.stage == Return(Threw(true)))
  }

  /** A declaration is published only with its locator: a publisher that returns put it in place while the
      caller was waiting. */
  lemma {:induction false} LocatorPublished(f: Format, ss: seq<State>, who: seq<nat>, i: nat, p: nat) returns (e: nat)
    requires Run(f, ss, who) && Quiescent(f, ss[0]) && i <= |who| && p in ss[i].procs && PutLocator(ss[i].procs[p])
    ensures var j := ss[i].procs[p].job;
      && e < i && who[e] == p && Holds(ss[e + 1], Locator(j.r), j.d + "\n")
      && (forall k :: e <= k <= i ==> p in ss[k].procs && ss[k].procs[p].job == j)
    decreases i
  {
    hide Next, Inv, PutLocator, Holds, Referenced;
    RunKeeps(f, ss, who, i - 1);
    LocatorStep(f, ss[i - 1], ss[i], who[i - 1], p);
    if PutLocator(ss[i - 1].procs[p]) {
      e := LocatorPublished(f, ss, who, i - 1, p);
    } else {
      e := i - 1;
    }
  }

  predicate LocatorKept(s: State, s': State, p: nat) {
    p in s'.procs && PutLocator(s'.procs[p]) ==>
      && p in s.procs && s.procs[p].job == s'.procs[p].job
      && (PutLocator(s.procs[p]) || Holds(s', Locator(s.procs[p].job.r), s.procs[p].job.d + "\n"))
  }

  lemma PublishesLocator(f: Format, s: State, s': State, p: nat)
    requires p in s.procs && ProcInv(f, s, p, s.procs[p]) && Publishes(s, s', p)
    ensures LocatorKept(s, s', p)
  {
    hide CasResult, Register, Declared;
  }

  lemma ReadsLocator(f: Format, s: State, s': State, p: nat)
    requires p in s.procs && ProcInv(f, s, p, s.procs[p]) && Reads(f, s, s', p)
    ensures LocatorKept(s, s', p)
  {
    hide CasResult, LoadResult, Register, Declared, Referenced, Journal.Names, Target;
  }

  lemma CallsLocator(f: Format, s: State, s': State, p: nat)
    requires p in s.procs && ProcInv(f, s, p, s.procs[p])
    requires TakesLock(s, s', p) || Opens(f, s, s', p) || Cleans(s, s', p) || Syncs(s, s', p)
    ensures LocatorKept(s, s', p)
  {
    hide CasResult, LoadResult, Register, Declared, ScanInv, Target, Payload, Holds;
  }

  lemma RestLocator(f: Format, s: State, s': State, p: nat)
    requires p in s.procs && ProcInv(f, s, p, s.procs[p])
    requires Creates(s, s', p) || Writes(s, s', p) || Fails(s, s', p) || Ends(s, s', p)
    ensures LocatorKept(s, s', p)
  {
    hide CasResult, Register, Declared, ScanInv, Target, Payload, Holds;
  }

  lemma LocatorStep(f: Format, s: State, s': State, p: nat, q: nat)
    requires Inv(f, s) && Next(f, s, s', p) && q in s'.procs && PutLocator(s'.procs[q])
    ensures q in s.procs && s.procs[q].job == s'.procs[q].job
    ensures !PutLocator(s.procs[q]) ==> p == q && Holds(s', Locator(s.procs[q].job.r), s.procs[q].job.d + "\n")
  {
    StepKeeps(f, s, s', p);
    hide LeavesAlone, NamesInv, Apart, ProcInv, Reads, TakesLock, Opens, Publishes, Cleans, Syncs, Creates, Writes, Fails, Ends;
    if q == p && p in s.procs {
      if Publishes(s, s', p) { PublishesLocator(f, s, s', p); }
      else if Reads(f, s, s', p) { ReadsLocator(f, s, s', p); }
      else if TakesLock(s, s', p) || Opens(f, s, s', p) || Cleans(s, s', p) || Syncs(s, s', p) { CallsLocator(f, s, s', p); }
      else { RestLocator(f, s, s', p); }
    } else if q != p {
      assert q in s.procs && s.procs[q] == s'.procs[q] by { OthersStay(f, s, s', p, q); }
    }
  }

  lemma OthersStay(f: Format, s: State, s': State, p: nat, q: nat)
    requires Inv(f, s) && Next(f, s, s', p) && q != p
    ensures q in s.procs <==> q in s'.procs
    ensures q in s.procs ==> s.procs[q] == s'.procs[q]
  {
    StepKeeps(f, s, s', p);
    hide Inv, Next;
  }

  /** No published name ever goes away. */
  lemma NamesStay(f: Format, s: State, s': State, p: nat, t: Entry)
    requires Next(f, s, s', p) && t in s.names && !t.Temporary?
    ensures t in s'.names
  {
    hide Scanned, Opened, Absent, Finished, Payload, Target, Proper, FirstStage;
  }

  /** Where a lookup of the active declaration stands that will not answer that there is none. */
  predicate OnTheWay(q: Proc, r: Id) {
    || (q.job == LoadActive(r) && (q.stage.Check? || q.stage.Scan?))
    || (q.job.LoadLocated? && q.job.r == r)
    || (q.stage.Return? && q.stage.result.Threw?)
  }

  lemma LookupStep(f: Format, s: State, s': State, p: nat, r: Id)
    requires p in s.procs && ProcInv(f, s, p, s.procs[p]) && Next(f, s, s', p) && p in s'.procs
    requires Locator(r) in s.names && s.names[Locator(r)] in s.files && OnTheWay(s.procs[p], r)
    ensures OnTheWay(s'.procs[p], r)
  {
    hide CasResult, LoadResult, Register, Declared, Payload, Holds, Reference;
    assert s.procs[p].stage.Scan? && s.procs[p].job.LoadActive? && s.procs[p].stage.got == s.files[s.procs[p].stage.ino] ==>
      Referenced(s.procs[p].stage.got).Some?;
  }

  lemma {:induction false} StaysOnTheWay(f: Format, ss: seq<State>, who: seq<nat>, m: nat, i: nat, p: nat, r: Id)
    requires Run(f, ss, who) && Quiescent(f, ss[0]) && m <= i <= |who|
    requires forall k :: m <= k <= i ==> p in ss[k].procs
    requires Locator(r) in ss[m].names && OnTheWay(ss[m].procs[p], r)
    ensures Locator(r) in ss[i].names && OnTheWay(ss[i].procs[p], r)
    decreases i
  {
    hide Next, OnTheWay, ProcInv, Apart, Quiescent;
    if m < i {
      StaysOnTheWay(f, ss, who, m, i - 1, p, r);
      var s, s' := ss[i - 1], ss[i];
      RunKeeps(f, ss, who, i - 1);
      NamesStay(f, s, s', who[i - 1], Locator(r));
      if who[i - 1] == p {
        LookupStep(f, s, s', p, r);
      } else {
        OthersStay(f, s, s', who[i - 1], p);
      }
    }
  }

  /** Once a request has a visible locator, a lookup that has not looked yet finds a declaration of the request
      unless a call fails. */
  lemma ActiveFound(f: Format, ss: seq<State>, who: seq<nat>, m: nat, i: nat, p: nat, r: Id)
    requires Run(f, ss, who) && Quiescent(f, ss[0]) && m <= i <= |who|
    requires forall k :: m <= k <= i ==> p in ss[k].procs
    requires Locator(r) in ss[m].names && ss[m].procs[p].job == LoadActive(r) && ss[m].procs[p].stage == Check(false)
    requires ss[i].procs[p].stage.Return? && !ss[i].procs[p].stage.result.Threw?
    ensures exists d :: ss[i].procs[p].stage.result == Located(Some(d)) && Declared(f, ss[i], d, r)
  {
    StaysOnTheWay(f, ss, who, m, i, p, r);
    RunKeeps(f, ss, who, i);
    assert ProcInv(f, ss[i], p, ss[i].procs[p]);
    hide Next, Inv, Quiescent;
  }

  /** Which name a job publishes under; immutable values of different jobs never share one unless they are the
      same declaration, the same step of one journal or the same record. */
  lemma TargetMeans(f: Format, j: Job, k: Job)
    requires Proper(f, j) && Proper(f, k) && Immutable(j) && Immutable(k) && Target(j) == Target(k)
    ensures
      || (j.PublishDeclaration? && k.PublishDeclaration? && j.d == k.d)
      || (j.PublishStep? && k.PublishStep? && j.d == k.d && j.sequence == k.sequence)
      || (j.PublishEvidence? && k.PublishEvidence? && j.id == k.id)
  {
    if j.PublishStep? {
      StepNamesOrder(j.sequence, k.sequence);
    }
  }

  /** Unless a call fails or the process ends, it lets go of its temporary name by taking it away. */
  lemma TemporaryGoes(f: Format, s: State, s': State, p: nat, k: nat)
    requires Next(f, s, s', p) && p in s.procs && HasTemp(s.procs[p], k) && !Fails(s, s', p)
    requires p in s'.procs && !HasTemp(s'.procs[p], k)
    ensures Temporary(k) !in s'.names
  {
    hide Scanned, Opened, Absent, Payload, Proper, FirstStage;
  }

  /* ---------- who holds a lock ---------- */

  /** Every cursor lock belongs to a process that is at a compare-and-publish of that cursor. */
  predicate LocksOwned(s: State) {
    forall d :: d in s.locks ==> s.locks[d] in s.procs && s.procs[s.locks[d]].job.Cas? && s.procs[s.locks[d]].job.d == d
  }

  /** A step that is no end of its process keeps it at its compare-and-publish. */
  predicate StaysCas(s: State, s': State, p: nat) {
    p in s.procs && s.procs[p].job.Cas? ==> p in s'.procs && s'.procs[p].job == s.procs[p].job
  }

  lemma ReadsStaysCas(f: Format, s: State, s': State, p: nat)
    requires p in s.procs && Reads(f, s, s', p)
    ensures StaysCas(s, s', p) && s'.locks == s.locks
  {
    hide CasResult, LoadResult, Referenced, Payload;
  }

  lemma CallsStaysCas(f: Format, s: State, s': State, p: nat)
    requires p in s.procs
    requires TakesLock(s, s', p) || Opens(f, s, s', p) || Publishes(s, s', p) || Cleans(s, s', p) || Syncs(s, s', p)
    ensures StaysCas(s, s', p) && (s'.locks == s.locks || TakesLock(s, s', p))
  {
    hide LoadResult, Payload, Target;
  }

  lemma RestStaysCas(f: Format, s: State, s': State, p: nat)
    requires p in s.procs && (Creates(s, s', p) || Writes(s, s', p) || Fails(s, s', p))
    ensures StaysCas(s, s', p) && s'.locks == s.locks
  {
    hide Payload;
  }

  lemma LocksOwnedStep(f: Format, s: State, s': State, p: nat)
    requires Inv(f, s) && Next(f, s, s', p) && LocksOwned(s)
    ensures LocksOwned(s')
  {
    hide Inv, Reads, TakesLock, Opens, Publishes, Cleans, Syncs, Creates, Writes, Fails, Proper, FirstStage;
    forall q | q != p
      ensures q in s.procs <==> q in s'.procs
      ensures q in s.procs ==> s.procs[q] == s'.procs[q]
    {
      OthersStay(f, s, s', p, q);
    }
    if p !in s.procs {
      assert s'.locks == s.locks by { hide LocksOwned; BeginsLocks(f, s, s', p); }
    } else if Ends(s, s', p) {
    } else if Reads(f, s, s', p) {
      ReadsStaysCas(f, s, s', p);
    } else if TakesLock(s, s', p) || Opens(f, s, s', p) || Publishes(s, s', p) || Cleans(s, s', p) || Syncs(s, s', p) {
      CallsStaysCas(f, s, s', p);
      TakenLock(s, s', p);
    } else {
      RestStaysCas(f, s, s', p);
    }
  }

  lemma BeginsLocks(f: Format, s: State, s': State, p: nat)
    requires Begins(f, s, s', p)
    ensures s'.locks == s.locks
  {
  }

  lemma TakenLock(s: State, s': State, p: nat)
    requires p in s.procs
    ensures TakesLock(s, s', p) ==> s.procs[p].job.Cas? && s'.locks == s.locks[s.procs[p].job.d := p]
  {
  }

  /** In every run a locked cursor is one that a running process is just writing: a process that is gone, back
      with its caller or crashed, holds no lock. */
  lemma {:induction false} LockOwner(f: Format, ss: seq<State>, who: seq<nat>, i: nat)
    requires Run(f, ss, who) && Quiescent(f, ss[0]) && i <= |who|
    ensures LocksOwned(ss[i])
  {
    hide Next, NamesInv, Inv;
    if i == 0 {
    } else {
      LockOwner(f, ss, who, i - 1);
      RunKeeps(f, ss, who, i - 1);
      LocksOwnedStep(f, ss[i - 1], ss[i], who[i - 1]);
    }
  }

  /* ---------- a process left alone finishes ---------- */

  function StageRank(s: State, q: Proc): nat {
    match q.stage
    case Locking => 12
    case Check(again) => if again then 4 else 11
    case Scan(ino, got) =>
      (if q.job.Cas? then 9 else 2) + (if ino in s.files && |got| < |s.files[ino]| then 1 else 0)
    case Create => 8
    case Write(_, _, n) => if Publisher(q.job) && n < |Payload(q.job)| then 7 else 6
    case Publish(_, _) => 5
    case Clean(_) => 2
    case Sync => 1
    case Return(_) => 0
  }

  /** An upper bound of the calls a process still has to make when every one of them succeeds. */
  function Rank(s: State, q: Proc): nat {
    (if q.job.PublishDeclaration? || q.job.LoadActive? then 20 else 0) + StageRank(s, q)
  }

  predicate MayRun(s: State, p: nat) {
    p in s.procs && (s.procs[p].stage.Locking? ==> s.procs[p].job.Cas? && s.procs[p].job.d !in s.locks)
  }

  ghost predicate Advances(f: Format, s: State, s': State, p: nat) {
    && Next(f, s, s', p) && p in s.procs && p in s'.procs && Rank(s', s'.procs[p]) < Rank(s, s.procs[p])
    && !s'.procs[p].stage.Locking? && (s'.procs[p].stage.Return? ==> !s'.procs[p].stage.result.Threw?)
  }

  lemma FreshNumber(used: set<nat>) returns (n: nat)
    ensures n !in used
  {
    n := 0;
    var left := used;
    while n in used
      invariant left <= used && forall k :: k in used && k >= n ==> k in left
      decreases |left|
    {
      left := left - {n};
      n := n + 1;
    }
  }

  lemma AdvanceRead(f: Format, s: State, p: nat) returns (s': State)
    requires p in s.procs && s.procs[p].stage.Scan? && ProcInv(f, s, p, s.procs[p])
    ensures Advances(f, s, s', p)
  {
    hide Register, Declared, Holds, Referenced, Target;
    var q := s.procs[p];
    var all, got := s.files[q.stage.ino], q.stage.got;
    if |got| < |all| {
      s' := WithProc(s, p, q.(stage := Scan(q.stage.ino, got + all[|got|..|all|])));
    } else {
      s' := WithProc(s, p, Scanned(f, q, got));
    }
    assert Reads(f, s, s', p);
  }

  lemma AdvanceCreate(f: Format, s: State, p: nat) returns (s': State)
    requires p in s.procs && s.procs[p].stage.Create? && ProcInv(f, s, p, s.procs[p])
    ensures Advances(f, s, s', p)
  {
    hide CasResult, Register, Declared;
    var k := FreshNumber(set t | t in s.names && t.Temporary? :: t.k);
    var ino := FreshNumber(s.files.Keys);
    assert Temporary(k) !in s.names;
    s' := WithProc(s, p, s.procs[p].(stage := Write(k, ino, 0))).(files := s.files[ino := ""], names := s.names[Temporary(k) := ino]);
    assert Creates(s, s', p);
  }

  lemma AdvanceWrite(f: Format, s: State, p: nat) returns (s': State)
    requires p in s.procs && s.procs[p].stage.Write? && ProcInv(f, s, p, s.procs[p])
    ensures Advances(f, s, s', p)
  {
    hide CasResult, Register, Declared;
    var q := s.procs[p];
    var all := Payload(q.job);
    if q.stage.n < |all| {
      s' := WithProc(s, p, q.(stage := Write(q.stage.temp, q.stage.ino, |all|))).(files := s.files[q.stage.ino := all[..|all|]]);
    } else {
      s' := WithProc(s, p, q.(stage := Publish(q.stage.temp, q.stage.ino)));
    }
    assert Writes(s, s', p);
  }

  lemma AdvancePublish(f: Format, s: State, p: nat) returns (s': State)
    requires p in s.procs && s.procs[p].stage.Publish? && ProcInv(f, s, p, s.procs[p])
    ensures Advances(f, s, s', p)
  {
    hide CasResult, Register, Declared, Payload;
    var q := s.procs[p];
    var t, temp := Target(q.job), Temporary(q.stage.temp);
    if !Immutable(q.job) {
      s' := WithProc(s, p, q.(stage := Sync, effect := Some(Ok))).(names := s.names[t := q.stage.ino] - {temp});
    } else if t in s.names {
      s' := WithProc(s, p, q.(stage := Check(true))).(names := s.names - {temp});
    } else {
      s' := WithProc(s, p, q.(stage := Clean(q.stage.temp))).(names := s.names[t := q.stage.ino]);
    }
    assert Publishes(s, s', p);
  }

  lemma AdvanceRest(f: Format, s: State, p: nat) returns (s': State)
    requires MayRun(s, p) && ProcInv(f, s, p, s.procs[p])
    requires var g := s.procs[p].stage; g.Locking? || g.Check? || g.Clean? || g.Sync?
    ensures Advances(f, s, s', p)
  {
    hide CasResult, Register, Declared, Payload, Referenced;
    var q := s.procs[p];
    if q.stage.Locking? {
      s' := WithProc(s, p, q.(stage := Check(false))).(locks := s.locks[q.job.d := p]);
      assert TakesLock(s, s', p);
    } else if q.stage.Check? {
      var t := Target(q.job);
      s' := WithProc(s, p, if t in s.names && s.names[t] in s.files then Opened(f, q, s.names[t], s.files[s.names[t]]) else Absent(q, q.stage.again));
      assert Opens(f, s, s', p);
    } else if q.stage.Clean? {
      s' := WithProc(s, p, if q.job.PublishEvidence? then Finished(q) else q.(stage := Sync)).(names := s.names - {Temporary(q.stage.temp)});
      assert Cleans(s, s', p);
    } else {
      s' := WithProc(s, p, Finished(q));
      assert Syncs(s, s', p);
    }
  }

  lemma Advance(f: Format, s: State, p: nat) returns (s': State)
    requires MayRun(s, p) && ProcInv(f, s, p, s.procs[p]) && !s.procs[p].stage.Return?
    ensures Advances(f, s, s', p)
  {
    hide ProcInv, Advances;
    match s.procs[p].stage
    case Scan(_, _) => s' := AdvanceRead(f, s, p);
    case Create => s' := AdvanceCreate(f, s, p);
    case Write(_, _, _) => s' := AdvanceWrite(f, s, p);
    case Publish(_, _) => s' := AdvancePublish(f, s, p);
    case _ => s' := AdvanceRest(f, s, p);
  }

  lemma RunMore(f: Format, ss: seq<State>, who: seq<nat>, p: nat) returns (s': State)
    requires Run(f, ss, who) && Quiescent(f, ss[0]) && MayRun(ss[|who|], p) && !ss[|who|].procs[p].stage.Return?
    ensures Run(f, ss + [s'], who + [p]) && Advances(f, ss[|who|], s', p)
  {
    RunKeeps(f, ss, who, |who|);
    s' := Advance(f, ss[|who|], p);
    hide Inv, Quiescent, ProcInv;
  }

  /** Whatever happened before, a process that is left alone and whose cursor nobody has locked returns:
      every run goes on, by its steps alone, to one in which it has an outcome that is no exception. */
  lemma {:induction false} LeftAlone(f: Format, ss: seq<State>, who: seq<nat>, p: nat) returns (all: seq<State>, n: nat)
    requires Run(f, ss, who) && Quiescent(f, ss[0]) && MayRun(ss[|who|], p)
    requires ss[|who|].procs[p].stage.Return? ==> !ss[|who|].procs[p].stage.result.Threw?
    ensures ss <= all && Run(f, all, who + seq(n, _ => p))
    ensures var end := all[|all| - 1]; p in end.procs && end.procs[p].stage.Return? && !end.procs[p].stage.result.Threw?
    decreases Rank(ss[|who|], ss[|who|].procs[p])
  {
    hide Next, Quiescent, Rank;
    if ss[|who|].procs[p].stage.Return? {
      all, n := ss, 0;
      assert who + seq(n, _ => p) == who;
    } else {
      var s' := RunMore(f, ss, who, p);
      assert (ss + [s'])[0] == ss[0];
      all, n := LeftAlone(f, ss + [s'], who + [p], p);
      assert who + [p] + seq(n, _ => p) == who + seq(n + 1, _ => p);
      n := n + 1;
    }
  }

  /** So whatever happened before, any job of a caller can be started and done. */
  lemma AnyJob(f: Format, ss: seq<State>, who: seq<nat>, p: nat, j: Job) returns (all: seq<State>, n: nat)
    requires Run(f, ss, who) && Quiescent(f, ss[0]) && p !in ss[|who|].procs
    requires Proper(f, j) && !j.PublishLocator? && !j.LoadLocated? && (j.Cas? ==> j.d !in ss[|who|].locks)
    ensures ss < all && Run(f, all, who + seq(n, _ => p))
    ensures p in all[|ss|].procs && all[|ss|].procs[p].job == j
    ensures var end := all[|all| - 1]; p in end.procs && end.procs[p].stage.Return? && !end.procs[p].stage.result.Threw?
  {
    var s := ss[|who|];
    var s' := WithProc(s, p, Proc(j, FirstStage(j), None));
    assert Begins(f, s, s', p);
    assert (ss + [s'])[0] == ss[0];
    assert Run(f, ss + [s'], who + [p]) by { hide Begins, Quiescent, Proper; }
    all, n := LeftAlone(f, ss + [s'], who + [p], p);
    hide Next, Quiescent, Begins, Proper;
    assert all[|ss|] == (ss + [s'])[|ss|];
    assert who + [p] + seq(n, _ => p) == who + seq(n + 1, _ => p);
    n := n + 1;
  }
}
