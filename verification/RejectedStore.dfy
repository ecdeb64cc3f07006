/** The rejected-object store: a primary record per attempt, source and path, and an index by record
  identity that shares its files.

  A digest is an injective function of what it digests.  Temporary files are left out: a value
  appears complete, by one link, under a name that nothing had before. */
module RejectedStore {
  import Tree
  import opened ByteCodec

  datatype Side = Incoming | OldInstalled
  datatype Reason = InstallPolicyExclusion | UpgradeIncomingProtected | OldPreservation(code: nat)

  /** `provenance` stands for the release, artifact, image, package and observation-set identities. */
  datatype Request = Request(path: string, side: Side, reason: Reason, provenance: Bytes)

  /** The observed object; `origin` is the provenance of its facts. */
  datatype Sight = Sight(path: string, regular: bool, size: nat, content: Bytes, origin: Side, facts: Bytes)

  datatype Body = Body(attempt: Bytes, plan: Bytes, request: Request, sight: Sight)

  datatype Key = Key(attempt: Bytes, side: Side, path: string)

  /** `Binding` holds the plan an attempt belongs to. */
  datatype Name =
    | Binding(attempt: Bytes)
    | Payload(key: Key)
    | Record(key: Key)
    | IndexPayload(id: Bytes)
    | IndexRecord(id: Bytes)

  datatype Content = PlanOf(plan: Bytes) | PayloadBytes(bytes: Bytes) | RecordOf(body: Body)

  datatype Store = Store(names: map<Name, nat>, files: map<nat, Content>)

  /** The digests of contents and records, and the size of the file a record is stored in. */
  datatype Codec = Codec(content: Bytes -> Bytes, record: Body -> Bytes, size: Body -> nat)

  /** No record file above this size is ever read back. */
  const MAXIMUM: nat := 4 * 1024 * 1024

  /** A record's file holds its path octet by octet. */
  ghost predicate HoldsPath(d: Codec) {
    forall b :: d.size(b) >= |b.request.path|
  }

  ghost predicate Injective(d: Codec) {
    forall a, b :: d.record(a) == d.record(b) ==> a == b
  }

  predicate Readable(d: Codec, b: Body) { d.size(b) <= MAXIMUM }

  function KeyOf(b: Body): Key { Key(b.attempt, b.request.side, b.request.path) }

  predicate ReasonAgrees(r: Request) {
    (r.reason.InstallPolicyExclusion? || r.reason.UpgradeIncomingProtected?) <==> r.side.Incoming?
  }

  function At(s: Store, n: Name): Tree.Option<Content> {
    if n in s.names && s.names[n] in s.files then Tree.Some(s.files[s.names[n]]) else Tree.None
  }

  predicate PayloadFits(d: Codec, s: Store, n: Name, x: Sight) {
    At(s, n).Some? && At(s, n).value.PayloadBytes?
    && |At(s, n).value.bytes| == x.size && d.content(At(s, n).value.bytes) == x.content
  }

  predicate SameFile(s: Store, a: Name, b: Name) { a in s.names && b in s.names && s.names[a] == s.names[b] }

  /* ---------- what every moment keeps ---------- */

  /** A record under its own name, in an attempt bound to its plan, with its payload beside it. */
  predicate RecordIn(d: Codec, s: Store, b: Body) {
    && At(s, Binding(b.attempt)) == Tree.Some(PlanOf(b.plan))
    && At(s, Record(KeyOf(b))) == Tree.Some(RecordOf(b))
    && b.sight.path == b.request.path && b.sight.origin == b.request.side
    && (b.sight.regular ==> PayloadFits(d, s, Payload(KeyOf(b)), b.sight))
  }

  predicate Primary(d: Codec, s: Store, k: Key) {
    && At(s, Record(k)).Some? && At(s, Record(k)).value.RecordOf?
    && KeyOf(At(s, Record(k)).value.body) == k && RecordIn(d, s, At(s, Record(k)).value.body)
  }

  /** An indexed record is its primary record; a regular one has its indexed payload, the primary's file. */
  predicate Indexed(d: Codec, s: Store, i: Bytes, b: Body) {
    && d.record(b) == i && RecordIn(d, s, b) && SameFile(s, IndexRecord(i), Record(KeyOf(b)))
    && (b.sight.regular ==> SameFile(s, IndexPayload(i), Payload(KeyOf(b))))
  }

  ghost predicate Agree(d: Codec, s: Store) {
    && (forall n :: n in s.names ==> s.names[n] in s.files)
    && (forall a :: Binding(a) in s.names ==> At(s, Binding(a)).value.PlanOf?)
    && (forall k :: Record(k) in s.names ==> Primary(d, s, k))
    && (forall i :: IndexRecord(i) in s.names ==> exists b :: Indexed(d, s, i, b))
    && (forall i :: IndexPayload(i) in s.names ==> exists b :: d.record(b) == i && SameFile(s, IndexPayload(i), Payload(KeyOf(b))))
  }

  /** Everything that was published still is, unchanged. */
  ghost predicate Grown(s: Store, t: Store) {
    && (forall n :: n in s.names ==> n in t.names && t.names[n] == s.names[n])
    && (forall f :: f in s.files ==> f in t.files && t.files[f] == s.files[f])
  }

  lemma RecordGrown(d: Codec, s: Store, t: Store, b: Body)
    requires Grown(s, t) && RecordIn(d, s, b)
    ensures RecordIn(d, t, b)
  {
  }

  lemma AgreeGrown(d: Codec, s: Store, t: Store)
    requires Agree(d, s) && Grown(s, t)
    ensures forall k :: Record(k) in s.names ==> Primary(d, t, k)
    ensures forall i :: IndexRecord(i) in s.names ==> exists b :: Indexed(d, t, i, b)
    ensures forall i :: IndexPayload(i) in s.names ==> exists b :: d.record(b) == i && SameFile(t, IndexPayload(i), Payload(KeyOf(b)))
  {
    forall i | IndexRecord(i) in s.names
      ensures exists b :: Indexed(d, t, i, b)
    {
      var b :| Indexed(d, s, i, b);
      assert Indexed(d, t, i, b);
    }
    forall i | IndexPayload(i) in s.names
      ensures exists b :: d.record(b) == i && SameFile(t, IndexPayload(i), Payload(KeyOf(b)))
    {
      var b :| d.record(b) == i && SameFile(s, IndexPayload(i), Payload(KeyOf(b)));
      assert SameFile(t, IndexPayload(i), Payload(KeyOf(b)));
    }
  }

  /** The four kinds of link, each of which keeps the agreement. */
  function WithFile(s: Store, n: Name, ino: nat, c: Content): Store {
    Store(s.names[n := ino], s.files[ino := c])
  }

  function WithLink(s: Store, n: Name, of: Name): Store
    requires of in s.names
  {
    s.(names := s.names[n := s.names[of]])
  }

  /** The attempt is bound to no plan yet, or to this one. */
  predicate BindingFits(s: Store, attempt: Bytes, plan: Bytes) {
    Binding(attempt) in s.names ==> At(s, Binding(attempt)) == Tree.Some(PlanOf(plan))
  }

  lemma BindingKeeps(d: Codec, s: Store, attempt: Bytes, plan: Bytes, ino: nat)
    requires Agree(d, s) && Binding(attempt) !in s.names && ino !in s.files
    ensures Agree(d, WithFile(s, Binding(attempt), ino, PlanOf(plan)))
    ensures Grown(s, WithFile(s, Binding(attempt), ino, PlanOf(plan)))
  {
    AgreeGrown(d, s, WithFile(s, Binding(attempt), ino, PlanOf(plan)));
  }

  lemma PayloadKeeps(d: Codec, s: Store, k: Key, ino: nat, bytes: Bytes)
    requires Agree(d, s) && Payload(k) !in s.names && ino !in s.files
    ensures Agree(d, WithFile(s, Payload(k), ino, PayloadBytes(bytes)))
    ensures Grown(s, WithFile(s, Payload(k), ino, PayloadBytes(bytes)))
  {
    AgreeGrown(d, s, WithFile(s, Payload(k), ino, PayloadBytes(bytes)));
  }

  lemma RecordKeeps(d: Codec, s: Store, b: Body, ino: nat)
    requires Agree(d, s) && Record(KeyOf(b)) !in s.names && ino !in s.files
    requires At(s, Binding(b.attempt)) == Tree.Some(PlanOf(b.plan))
    requires b.sight.path == b.request.path && b.sight.origin == b.request.side
    requires b.sight.regular ==> PayloadFits(d, s, Payload(KeyOf(b)), b.sight)
    ensures Agree(d, WithFile(s, Record(KeyOf(b)), ino, RecordOf(b))) && Grown(s, WithFile(s, Record(KeyOf(b)), ino, RecordOf(b)))
    ensures RecordIn(d, WithFile(s, Record(KeyOf(b)), ino, RecordOf(b)), b)
  {
    var t := WithFile(s, Record(KeyOf(b)), ino, RecordOf(b));
    AgreeGrown(d, s, t);
    assert RecordIn(d, t, b);
  }

  lemma IndexPayloadKeeps(d: Codec, s: Store, b: Body)
    requires Agree(d, s) && RecordIn(d, s, b) && b.sight.regular && IndexPayload(d.record(b)) !in s.names
    ensures Payload(KeyOf(b)) in s.names
    ensures Agree(d, WithLink(s, IndexPayload(d.record(b)), Payload(KeyOf(b))))
    ensures Grown(s, WithLink(s, IndexPayload(d.record(b)), Payload(KeyOf(b))))
  {
    var t := WithLink(s, IndexPayload(d.record(b)), Payload(KeyOf(b)));
    AgreeGrown(d, s, t);
    assert SameFile(t, IndexPayload(d.record(b)), Payload(KeyOf(b)));
  }

  lemma IndexRecordKeeps(d: Codec, s: Store, b: Body)
    requires Agree(d, s) && RecordIn(d, s, b) && IndexRecord(d.record(b)) !in s.names
    requires b.sight.regular ==> SameFile(s, IndexPayload(d.record(b)), Payload(KeyOf(b)))
    ensures Agree(d, WithLink(s, IndexRecord(d.record(b)), Record(KeyOf(b))))
    ensures Grown(s, WithLink(s, IndexRecord(d.record(b)), Record(KeyOf(b))))
    ensures Indexed(d, WithLink(s, IndexRecord(d.record(b)), Record(KeyOf(b))), d.record(b), b)
  {
    var t := WithLink(s, IndexRecord(d.record(b)), Record(KeyOf(b)));
    AgreeGrown(d, s, t);
    RecordGrown(d, s, t, b);
    assert Indexed(d, t, d.record(b), b);
  }

  /* ---------- loading ---------- */

  datatype Loaded = Missing | Refused | Found(body: Body)

  /** The load bound to an attempt, a plan and a request. */
  function Load(d: Codec, s: Store, attempt: Bytes, plan: Bytes, r: Request): Loaded {
    var k := Key(attempt, r.side, r.path);
    if Binding(attempt) !in s.names then Missing
    else if !BindingFits(s, attempt, plan) then Refused
    else
      match At(s, Record(k))
      case None => Missing
      case Some(RecordOf(b)) =>
        if !Readable(d, b) then Refused
        else if b.attempt != attempt || b.plan != plan || b.request != r || b.sight.path != r.path then Refused
        else if b.sight.regular && !PayloadFits(d, s, Payload(k), b.sight) then Refused
        else Found(b)
      case Some(_) => Refused
  }

  /** The load by record identity alone. */
  function LoadIdentified(d: Codec, s: Store, i: Bytes): Loaded {
    match At(s, IndexRecord(i))
    case None => Missing
    case Some(RecordOf(b)) =>
      if !Readable(d, b) then Refused
      else if b.sight.path != b.request.path || b.sight.origin != b.request.side || !ReasonAgrees(b.request) || d.record(b) != i then Refused
      else if b.sight.regular && !PayloadFits(d, s, IndexPayload(i), b.sight) then Refused
      else Found(b)
    case Some(_) => Refused
  }

  /** The stored object is a regular file of the observed size and digest. */
  ghost predicate Delivers(d: Codec, s: Store, n: Name, x: Sight) {
    exists bytes :: At(s, n) == Tree.Some(PayloadBytes(bytes)) && |bytes| == x.size && d.content(bytes) == x.content
  }

  /** Whatever lies in the store, a request-bound load returns a record exactly when its attempt is bound to the plan
      asked for and the record stored for the request is of that attempt, plan and request, within the limit and
      delivers its object.  It answers that there is none exactly when the attempt is bound to nothing, or to that
      plan and stores nothing there. */
  lemma LoadMeans(d: Codec, s: Store, attempt: Bytes, plan: Bytes, r: Request, b: Body)
    ensures var stored := At(s, Record(Key(attempt, r.side, r.path)));
      && (Load(d, s, attempt, plan, r) == Found(b) <==>
            && At(s, Binding(attempt)) == Tree.Some(PlanOf(plan)) && stored == Tree.Some(RecordOf(b))
            && b.attempt == attempt && b.plan == plan && b.request == r && b.sight.path == r.path && d.size(b) <= 4194304
            && (b.sight.regular ==> Delivers(d, s, Payload(Key(attempt, r.side, r.path)), b.sight)))
      && (Load(d, s, attempt, plan, r) == Missing <==>
            Binding(attempt) !in s.names || (At(s, Binding(attempt)) == Tree.Some(PlanOf(plan)) && stored == Tree.None))
  {
    var n := Payload(Key(attempt, r.side, r.path));
    assert PayloadFits(d, s, n, b.sight) ==> At(s, n) == Tree.Some(PayloadBytes(At(s, n).value.bytes));
  }

  /** A record binds its attempt: under another plan nothing of the attempt is loaded, whatever the request, and in
      its place under another request nothing either. */
  lemma OtherPlanRefused(d: Codec, s: Store, b: Body, plan: Bytes, r: Request)
    requires Agree(d, s) && Record(KeyOf(b)) in s.names && At(s, Record(KeyOf(b))) == Tree.Some(RecordOf(b))
    ensures plan != b.plan ==> Load(d, s, b.attempt, plan, r) == Refused
    ensures r.path == b.request.path && r.side == b.request.side && r != b.request ==> Load(d, s, b.attempt, plan, r) == Refused
  {
    assert Primary(d, s, KeyOf(b));
  }

  /** All records of an attempt are of one plan. */
  lemma OnePlan(d: Codec, s: Store, k: Key, l: Key)
    requires Agree(d, s) && Record(k) in s.names && Record(l) in s.names && k.attempt == l.attempt
    ensures At(s, Record(k)).value.body.plan == At(s, Record(l)).value.body.plan
  {
    assert Primary(d, s, k) && Primary(d, s, l);
  }

  /** A load by identity returns the record of the index exactly when it has that identity, was observed at its path by
      its source side for a reason of that side, is within the limit and delivers its object. */
  lemma IdentifiedMeans(d: Codec, s: Store, i: Bytes, b: Body)
    ensures LoadIdentified(d, s, i) == Found(b) <==>
      && At(s, IndexRecord(i)) == Tree.Some(RecordOf(b)) && d.record(b) == i && d.size(b) <= 4194304
      && b.sight.path == b.request.path && b.sight.origin == b.request.side
      && b.request.side == (if b.request.reason.OldPreservation? then OldInstalled else Incoming)
      && (b.sight.regular ==> Delivers(d, s, IndexPayload(i), b.sight))
    ensures LoadIdentified(d, s, i) == Missing <==> At(s, IndexRecord(i)) == Tree.None
  {
    var n := IndexPayload(i);
    assert PayloadFits(d, s, n, b.sight) ==> At(s, n) == Tree.Some(PayloadBytes(At(s, n).value.bytes));
  }

  /** Whatever the index returns, the request-bound load returns too. */
  lemma IdentifiedAgrees(d: Codec, s: Store, i: Bytes, b: Body)
    requires Injective(d) && Agree(d, s) && LoadIdentified(d, s, i) == Found(b)
    ensures Load(d, s, b.attempt, b.plan, b.request) == Found(b)
  {
    var x :| Indexed(d, s, i, x);
    assert x == b;
  }

  /** An indexed record is found by request exactly when its file is within the limit, and by identity
      exactly when its reason also belongs to its source side; publication checks neither. */
  lemma FoundIffReadable(d: Codec, s: Store, i: Bytes, b: Body)
    requires Injective(d) && Agree(d, s) && Indexed(d, s, i, b)
    ensures Load(d, s, b.attempt, b.plan, b.request) == if Readable(d, b) then Found(b) else Refused
    ensures LoadIdentified(d, s, i) == if Readable(d, b) && ReasonAgrees(b.request) then Found(b) else Refused
  {
  }

  /** A record of an object that is not a regular file, alone in its store and indexed. */
  function Alone(d: Codec, b: Body): Store {
    Store(map[Binding(b.attempt) := 0, Record(KeyOf(b)) := 1, IndexRecord(d.record(b)) := 1], map[0 := PlanOf(b.plan), 1 := RecordOf(b)])
  }

  lemma AloneAgrees(d: Codec, b: Body)
    requires Injective(d) && !b.sight.regular && b.sight.path == b.request.path && b.sight.origin == b.request.side
    ensures Agree(d, Alone(d, b)) && Indexed(d, Alone(d, b), d.record(b), b)
  {
    assert Indexed(d, Alone(d, b), d.record(b), b);
  }

  /** An incoming object rejected under the reason of an old one. */
  const MISMATCHED := Body([], [], Request("etc/x", Incoming, OldPreservation(0), []), Sight("etc/x", false, 0, [], Incoming, []))

  /** A record whose reason contradicts its side is published, indexed and loaded by request, and still
      refused by identity. */
  lemma MismatchedReason(d: Codec)
    requires Injective(d) && Readable(d, MISMATCHED)
    ensures var b, s := MISMATCHED, Alone(d, MISMATCHED);
      Agree(d, s) && Load(d, s, b.attempt, b.plan, b.request) == Found(b) && LoadIdentified(d, s, d.record(b)) == Refused
  {
    AloneAgrees(d, MISMATCHED);
  }

  /** A record whose path alone is above the limit is published and indexed, and neither load returns it. */
  lemma OversizedRecord(d: Codec) returns (b: Body)
    requires Injective(d) && HoldsPath(d)
    ensures var s := Alone(d, b);
      && Agree(d, s) && Indexed(d, s, d.record(b), b) && ReasonAgrees(b.request)
      && Load(d, s, b.attempt, b.plan, b.request) == Refused && LoadIdentified(d, s, d.record(b)) == Refused
  {
    var path := seq(MAXIMUM + 1, i => if i % 2 == 0 then 'a' else '/');
    b := Body([], [], Request(path, Incoming, InstallPolicyExclusion, []), Sight(path, false, 0, [], Incoming, []));
    AloneAgrees(d, b);
    assert d.size(b) >= |b.request.path|;
  }

  /* ---------- publication ---------- */

  class ObjectStore {
    const d: Codec
    var s: Store
    var faulted: bool
    /** The store after every link; a crash leaves one of these. */
    ghost var history: seq<Store>

    ghost predicate Valid()
      reads this
    {
      Injective(d) && Agree(d, s) && forall i :: 0 <= i < |history| ==> Agree(d, history[i])
    }

    constructor (digests: Codec, store: Store)
      requires Injective(digests) && Agree(digests, store)
      ensures Valid() && d == digests && s == store && history == []
    {
      d, s, faulted, history := digests, store, false, [];
    }

    method Link(t: Store)
      requires Valid() && Agree(d, t)
      modifies this`s, this`history
      ensures Valid() && s == t && history == old(history) + [t]
    {
      s := t;
      history := history + [t];
    }

    /** The index links of a record: the payload first, the record, which selects it, last. */
    method PublishIdentityIndex(b: Body) returns (ok: bool)
      requires Valid() && RecordIn(d, s, b)
      modifies this`s, this`history, this`faulted
      ensures Valid() && Grown(old(s), s)
      ensures ok ==> Indexed(d, s, d.record(b), b) && faulted == old(faulted)
      ensures !ok ==> faulted
      ensures old(faulted) ==> faulted
    {
      var i := d.record(b);
      if b.sight.regular {
        if * { faulted := true; return false; }
        if IndexPayload(i) in s.names {
          ghost var x :| d.record(x) == i && SameFile(s, IndexPayload(i), Payload(KeyOf(x)));
          assert x == b;
        } else {
          IndexPayloadKeeps(d, s, b);
          ghost var before := s;
          Link(WithLink(s, IndexPayload(i), Payload(KeyOf(b))));
          RecordGrown(d, before, s, b);
        }
      }
      if * { faulted := true; return false; }
      if IndexRecord(i) in s.names {
        ghost var x :| Indexed(d, s, i, x);
        assert x == b;
      } else {
        IndexRecordKeeps(d, s, b);
        Link(WithLink(s, IndexRecord(i), Record(KeyOf(b))));
      }
      return true;
    }

    /** The payload is linked, or one with the observed size and digest already stands there. */
    method PublishRegularPayload(k: Key, x: Sight, bytes: Bytes) returns (ok: bool)
      requires Valid() && x.regular
      modifies this`s, this`history, this`faulted
      ensures Valid() && Grown(old(s), s) && forall q :: Record(q) in s.names ==> Record(q) in old(s).names
      ensures ok ==> PayloadFits(d, s, Payload(k), x) && faulted == old(faulted)
      ensures ok ==> |bytes| == x.size && d.content(bytes) == x.content
      ensures !faulted ==>
        (ok <==> |bytes| == x.size && d.content(bytes) == x.content && (Payload(k) in old(s).names ==> PayloadFits(d, old(s), Payload(k), x)))
      ensures old(faulted) ==> faulted
    {
      if * { faulted := true; return false; }
      if |bytes| != x.size || d.content(bytes) != x.content {
        return false;
      }
      if Payload(k) in s.names {
        return PayloadFits(d, s, Payload(k), x);
      }
      var ino := Fresh();
      PayloadKeeps(d, s, k, ino, bytes);
      Link(WithFile(s, Payload(k), ino, PayloadBytes(bytes)));
      return true;
    }

    method Fresh() returns (ino: nat)
      ensures ino !in s.files
    {
      ino := 0;
      var left := s.files.Keys;
      while ino in s.files
        invariant left <= s.files.Keys && forall f :: f in s.files && f >= ino ==> f in left
        decreases |left|
      {
        left := left - {ino};
        ino := ino + 1;
      }
    }

    /** The object first, then its record. */
    method PublishFiles(b: Body, payload: Tree.Option<Bytes>) returns (ok: bool)
      requires Valid() && b.sight.path == b.request.path && b.sight.origin == b.request.side && !faulted
      requires At(s, Binding(b.attempt)) == Tree.Some(PlanOf(b.plan)) && Record(KeyOf(b)) !in s.names
      modifies this`s, this`history, this`faulted
      ensures Valid() && Grown(old(s), s) && (ok ==> RecordIn(d, s, b) && !faulted)
      ensures !faulted && !b.sight.regular ==> (ok <==> payload.None?)
      ensures !faulted && b.sight.regular ==>
        (ok <==>
          && payload.Some? && |payload.value| == b.sight.size && d.content(payload.value) == b.sight.content
          && (Payload(KeyOf(b)) in old(s).names ==> PayloadFits(d, old(s), Payload(KeyOf(b)), b.sight)))
    {
      var k := KeyOf(b);
      if b.sight.regular != payload.Some? {
        return false;
      }
      if payload.Some? {
        ok := PublishRegularPayload(k, b.sight, payload.value);
        if !ok {
          return;
        }
      }
      if * { faulted := true; return false; }
      var ino := Fresh();
      RecordKeeps(d, s, b, ino);
      Link(WithFile(s, Record(k), ino, RecordOf(b)));
      return true;
    }

    /** The first publication of an attempt binds it to a plan, and only that plan publishes in it later. */
    method BindAttempt(attempt: Bytes, plan: Bytes) returns (ok: bool)
      requires Valid() && !faulted
      modifies this`s, this`history, this`faulted
      ensures Valid() && Grown(old(s), s)
      ensures ok ==> !faulted && At(s, Binding(attempt)) == Tree.Some(PlanOf(plan))
      ensures !faulted ==> (ok <==> BindingFits(old(s), attempt, plan))
      ensures !ok || Binding(attempt) in old(s).names ==> s == old(s)
      ensures forall n :: n in s.names ==> n in old(s).names || n == Binding(attempt)
    {
      if Binding(attempt) in s.names {
        return BindingFits(s, attempt, plan);
      }
      if * { faulted := true; return false; }
      var ino := Fresh();
      BindingKeeps(d, s, attempt, plan, ino);
      Link(WithFile(s, Binding(attempt), ino, PlanOf(plan)));
      return true;
    }

    /** Publish a record and index it; `id` is absent where the operation throws.  A record file that is
        already there is read back first, so one above the limit is never indexed later. */
    method PublishRecord(b: Body, payload: Tree.Option<Bytes>) returns (id: Tree.Option<Bytes>)
      requires Valid() && b.sight.path == b.request.path && b.sight.origin == b.request.side
      modifies this
      ensures Valid() && Grown(old(s), s)
      ensures id.Some? ==> id.value == d.record(b) && Indexed(d, s, id.value, b)
      ensures !faulted && RecordIn(d, old(s), b) ==> (id.Some? <==> Readable(d, b))
      ensures !BindingFits(old(s), b.attempt, b.plan) ==> id.None? && s == old(s)
      ensures RecordIn(d, old(s), b) && !Readable(d, b) ==> id.None? && s == old(s)
      ensures !faulted && Record(KeyOf(b)) in old(s).names && !RecordIn(d, old(s), b) ==> id.None? && s == old(s)
      ensures !faulted && BindingFits(old(s), b.attempt, b.plan) && Record(KeyOf(b)) !in old(s).names && !b.sight.regular ==>
        (id.Some? <==> payload.None?)
      ensures !faulted && BindingFits(old(s), b.attempt, b.plan) && Record(KeyOf(b)) !in old(s).names && b.sight.regular ==>
        (id.Some? <==>
          && payload.Some? && |payload.value| == b.sight.size && d.content(payload.value) == b.sight.content
          && (Payload(KeyOf(b)) in old(s).names ==> PayloadFits(d, old(s), Payload(KeyOf(b)), b.sight)))
    {
      faulted := false;
      var k := KeyOf(b);
      if * { faulted := true; return Tree.None; }
      var bound := BindAttempt(b.attempt, b.plan);
      if !bound {
        return Tree.None;
      }
      if * { faulted := true; return Tree.None; }
      if Record(k) in s.names {
        assert Primary(d, s, k);
        if !Readable(d, At(s, Record(k)).value.body) || At(s, Record(k)).value.body != b {
          return Tree.None;
        }
      } else {
        var stored := PublishFiles(b, payload);
        if !stored {
          return Tree.None;
        }
      }
      var ok := PublishIdentityIndex(b);
      id := if ok then Tree.Some(d.record(b)) else Tree.None;
    }
  }
}
