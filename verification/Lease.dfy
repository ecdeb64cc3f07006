/** Target mutation leases: advisory locks on a file that outsiders may unlink or replace.

  A file is identified by a number that may be reused, but not while a descriptor is open on it:
  so a number carried by an open descriptor and a number found under a name stand for one file
  exactly when they are equal.  Everything outside the leases may rebind any name at any time.
 */
module Lease {
  import opened Tree

  /* ---------- lock names ---------- */

  predicate Canonical(domain: string) { |domain| == 74 && domain[..10] == "v1:sha256:" }

  function LockName(domain: string): Option<string> {
    if Canonical(domain) then Some("mutation-v1-sha256-" + domain[10..] + ".lock") else None
  }

  /** Different exclusion domains never share a lock file. */
  lemma LockNameInjective(a: string, b: string)
    requires LockName(a).Some? && LockName(a) == LockName(b)
    ensures a == b
  {
    var x := LockName(a).value;
    assert x[19..83] == a[10..] && x[19..83] == b[10..];
    assert a == a[..10] + a[10..] && b == b[..10] + b[10..];
  }

  /* ---------- state ---------- */

  datatype Key = Key(directory: nat, name: string)

  /** Where an acquisition or a lease stands; `Asked` has passed the first check of `held()`. */
  datatype Stage = Opened | Inspected | Locked | Leased | Asked | Answered(held: bool)

  datatype Handle = Handle(key: Key, ino: nat, stage: Stage)

  datatype State = State(names: map<Key, nat>, handles: map<nat, Handle>)

  predicate HasLock(h: Handle) { !h.stage.Opened? && !h.stage.Inspected? }

  predicate Acquired(h: Handle) { h.stage.Leased? || h.stage.Asked? || h.stage.Answered? }

  predicate Linked(s: State, ino: nat) { exists k :: k in s.names && s.names[k] == ino }

  predicate InUse(s: State, ino: nat) {
    Linked(s, ino) || exists a :: a in s.handles && s.handles[a].ino == ino
  }

  function WithHandle(s: State, a: nat, h: Handle): State { s.(handles := s.handles[a := h]) }

  /** Open the lock file, creating it when the name is free. */
  ghost predicate Opens(s: State, s': State, a: nat, k: Key) {
    && a !in s.handles
    && if k in s.names then s' == WithHandle(s, a, Handle(k, s.names[k], Opened))
       else exists ino :: !InUse(s, ino) && s' == WithHandle(s, a, Handle(k, ino, Opened)).(names := s.names[k := ino])
  }

  predicate Inspects(s: State, s': State, a: nat)
    requires a in s.handles
  {
    s.handles[a].stage.Opened? && Linked(s, s.handles[a].ino) && s' == WithHandle(s, a, s.handles[a].(stage := Inspected))
  }

  /** The exclusive lock of the file is free. */
  predicate Locks(s: State, s': State, a: nat)
    requires a in s.handles
  {
    && s.handles[a].stage.Inspected?
    && (forall b :: b in s.handles && b != a && s.handles[b].ino == s.handles[a].ino ==> !HasLock(s.handles[b]))
    && s' == WithHandle(s, a, s.handles[a].(stage := Locked))
  }

  predicate StillNamed(s: State, h: Handle) { h.key in s.names && s.names[h.key] == h.ino }

  /** The name still stands for the locked file, so the lease is granted. */
  predicate Grants(s: State, s': State, a: nat)
    requires a in s.handles
  {
    s.handles[a].stage.Locked? && StillNamed(s, s.handles[a]) && s' == WithHandle(s, a, s.handles[a].(stage := Leased))
  }

  /** `held()` first looks at the descriptor, then at the name. */
  predicate Asks(s: State, s': State, a: nat)
    requires a in s.handles
  {
    && (s.handles[a].stage.Leased? || s.handles[a].stage.Answered?)
    && s' == WithHandle(s, a, s.handles[a].(stage := if Linked(s, s.handles[a].ino) then Asked else Answered(false)))
  }

  predicate Answers(s: State, s': State, a: nat)
    requires a in s.handles
  {
    s.handles[a].stage.Asked? && s' == WithHandle(s, a, s.handles[a].(stage := Answered(StillNamed(s, s.handles[a]))))
  }

  /** Release, a refused acquisition, a failing call or a crash closes the descriptor. */
  predicate Closes(s: State, s': State, a: nat)
    requires a in s.handles
  {
    s' == s.(handles := s.handles - {a})
  }

  /** Anybody may unlink, recreate or replace the file behind any name. */
  predicate Meddles(s: State, s': State) { s'.handles == s.handles }

  ghost predicate Next(s: State, s': State, a: nat) {
    || (exists k :: Opens(s, s', a, k))
    || Meddles(s, s')
    || (a in s.handles &&
        (Inspects(s, s', a) || Locks(s, s', a) || Grants(s, s', a) || Asks(s, s', a) || Answers(s, s', a) || Closes(s, s', a)))
  }

  /* ---------- exclusion ---------- */

  ghost predicate Exclusive(s: State) {
    forall a, b :: a in s.handles && b in s.handles && a != b && HasLock(s.handles[a]) && HasLock(s.handles[b]) ==>
      s.handles[a].ino != s.handles[b].ino
  }

  lemma StepKeeps(s: State, s': State, a: nat)
    requires Exclusive(s) && Next(s, s', a)
    ensures Exclusive(s')
  {
    forall x, y | x in s'.handles && y in s'.handles && x != y && HasLock(s'.handles[x]) && HasLock(s'.handles[y])
      ensures s'.handles[x].ino != s'.handles[y].ino
    {
      assert x in s.handles && y in s.handles;
    }
  }

  ghost predicate Run(ss: seq<State>, who: seq<nat>) {
    && |ss| == |who| + 1 && ss[0].handles == map[]
    && (forall i :: 0 <= i < |who| ==> Next(ss[i], ss[i + 1], who[i]))
  }

  lemma {:induction false} RunKeeps(ss: seq<State>, who: seq<nat>, i: nat)
    requires Run(ss, who) && i <= |who|
    ensures Exclusive(ss[i])
  {
    if i == 0 {
    } else {
      RunKeeps(ss, who, i - 1);
      StepKeeps(ss[i - 1], ss[i], who[i - 1]);
    }
  }

  /** What `held()` answers when nothing happens between its two looks. */
  predicate Held(s: State, a: nat) {
    a in s.handles && Acquired(s.handles[a]) && Linked(s, s.handles[a].ino) && StillNamed(s, s.handles[a])
  }

  /** At every moment of every run at most one lease of a directory and exclusion domain is held. */
  lemma AtMostOneHeld(ss: seq<State>, who: seq<nat>, i: nat, a: nat, b: nat, directory: nat, domain: string)
    requires Run(ss, who) && i <= |who| && LockName(domain).Some?
    requires Held(ss[i], a) && Held(ss[i], b)
    requires ss[i].handles[a].key == Key(directory, LockName(domain).value) == ss[i].handles[b].key
    ensures a == b
  {
    RunKeeps(ss, who, i);
  }

  /** An answer of `held()` is exact at the moment of its last look, however the two looks and the
      rest of the world interleave; so is the grant of a lease. */
  lemma AnswerIsExact(ss: seq<State>, who: seq<nat>, i: nat)
    requires Run(ss, who) && i < |who| && who[i] in ss[i].handles
    ensures Answers(ss[i], ss[i + 1], who[i]) ==> (ss[i + 1].handles[who[i]].stage == Answered(true) <==> Held(ss[i], who[i]))
    ensures Grants(ss[i], ss[i + 1], who[i]) ==> Held(ss[i + 1], who[i])
    ensures Answers(ss[i], ss[i + 1], who[i]) && ss[i + 1].handles[who[i]].stage == Answered(true) ==>
      forall b :: b != who[i] && Held(ss[i], b) ==> ss[i].handles[b].key != ss[i].handles[who[i]].key
  {
    RunKeeps(ss, who, i);
  }

  /** A lease whose file was replaced under its name is not held while another one is. */
  lemma ReplacedIsNotHeld(ss: seq<State>, who: seq<nat>, i: nat, a: nat, b: nat)
    requires Run(ss, who) && i <= |who| && a != b && Held(ss[i], b)
    requires a in ss[i].handles && Acquired(ss[i].handles[a]) && ss[i].handles[a].key == ss[i].handles[b].key
    ensures !Held(ss[i], a) && ss[i].handles[a].ino != ss[i].names[ss[i].handles[a].key]
  {
    RunKeeps(ss, who, i);
  }

  /* ---------- a lease can be had ---------- */

  /** The lock file of the key, if there is one, is locked by nobody. */
  predicate Free(s: State, k: Key) {
    k in s.names ==> forall b :: b in s.handles && HasLock(s.handles[b]) ==> s.handles[b].ino != s.names[k]
  }

  lemma FreshFile(s: State) returns (ino: nat)
    ensures !InUse(s, ino)
  {
    var used := s.names.Values + set b | b in s.handles :: s.handles[b].ino;
    ino := 0;
    var left := used;
    while ino in used
      invariant left <= used && forall x :: x in used && x >= ino ==> x in left
      decreases |left|
    {
      left := left - {ino};
      ino := ino + 1;
    }
    assert !Linked(s, ino);
  }

  /** The descriptor is on the named file, and nobody else has it locked. */
  predicate OnCourse(s: State, a: nat, k: Key) {
    && a in s.handles && s.handles[a].key == k && StillNamed(s, s.handles[a])
    && (forall b :: b in s.handles && b != a && HasLock(s.handles[b]) ==> s.handles[b].ino != s.handles[a].ino)
  }

  function Left(g: Stage): nat {
    match g
    case Opened => 5
    case Inspected => 4
    case Locked => 3
    case Leased => 2
    case Asked => 1
    case Answered(_) => 0
  }

  /** Where the next call leads when nobody interferes. */
  function Further(g: Stage): Stage {
    match g
    case Opened => Inspected
    case Inspected => Locked
    case Locked => Leased
    case Leased => Asked
    case _ => Answered(true)
  }

  lemma OpenStep(s: State, a: nat, k: Key) returns (s': State)
    requires a !in s.handles && Free(s, k)
    ensures Next(s, s', a) && OnCourse(s', a, k) && s'.handles[a].stage == Opened
  {
    var ino := FreshFile(s);
    if k in s.names { ino := s.names[k]; }
    s' := WithHandle(s, a, Handle(k, ino, Opened)).(names := s.names[k := ino]);
    assert k in s.names ==> s.names[k := ino] == s.names;
    assert Opens(s, s', a, k);
  }

  lemma MoveStep(s: State, a: nat, k: Key) returns (s': State)
    requires OnCourse(s, a, k) && !s.handles[a].stage.Answered?
    ensures Next(s, s', a) && OnCourse(s', a, k) && s'.handles[a].stage == Further(s.handles[a].stage)
  {
    assert s.names[k] == s.handles[a].ino;
    s' := WithHandle(s, a, s.handles[a].(stage := Further(s.handles[a].stage)));
  }

  lemma {:induction false} Undisturbed(ss: seq<State>, who: seq<nat>, a: nat, k: Key) returns (all: seq<State>, n: nat)
    requires Run(ss, who) && OnCourse(ss[|who|], a, k)
    requires var g := ss[|who|].handles[a].stage; g.Answered? ==> g.held
    ensures ss <= all && Run(all, who + seq(n, _ => a))
    ensures var end := all[|all| - 1]; OnCourse(end, a, k) && end.handles[a].stage == Answered(true)
    decreases Left(ss[|who|].handles[a].stage)
  {
    hide Next;
    if ss[|who|].handles[a].stage.Answered? {
      all, n := ss, 0;
      assert who + seq(n, _ => a) == who;
    } else {
      var s' := MoveStep(ss[|who|], a, k);
      assert (ss + [s'])[0] == ss[0];
      all, n := Undisturbed(ss + [s'], who + [a], a, k);
      assert who + [a] + seq(n, _ => a) == who + seq(n + 1, _ => a);
      n := n + 1;
    }
  }

  /** Whatever happened before, an acquisition that nobody disturbs is granted when no lease has the lock
      file, and `held()` says so. */
  lemma Available(ss: seq<State>, who: seq<nat>, a: nat, k: Key) returns (all: seq<State>, n: nat)
    requires Run(ss, who) && a !in ss[|who|].handles && Free(ss[|who|], k)
    ensures ss < all && Run(all, who + seq(n, _ => a))
    ensures var end := all[|all| - 1]; Held(end, a) && end.handles[a].key == k && end.handles[a].stage == Answered(true)
  {
    var s' := OpenStep(ss[|who|], a, k);
    assert (ss + [s'])[0] == ss[0];
    hide Next;
    all, n := Undisturbed(ss + [s'], who + [a], a, k);
    assert who + [a] + seq(n, _ => a) == who + seq(n + 1, _ => a);
    n := n + 1;
    assert k in all[|all| - 1].names;
  }

  /** A lease that is released leaves its file free for the next one. */
  lemma ReleaseFrees(ss: seq<State>, who: seq<nat>, i: nat)
    requires Run(ss, who) && i < |who| && Held(ss[i], who[i]) && Closes(ss[i], ss[i + 1], who[i])
    ensures who[i] !in ss[i + 1].handles && Free(ss[i + 1], ss[i].handles[who[i]].key)
  {
    RunKeeps(ss, who, i);
  }
}
