/** Private capture records: one framed, checksummed body bound to its attempt.

  Paths, content identities and the coherence of object facts belong to the owner's library; they
  enter as the predicates of a `Format`, and so do its enumeration codes and the digest.
 */
module CaptureRecord {
  import opened ByteCodec
  import Tree

  /* ---------- observed object facts ---------- */

  datatype Grammar = AnyText | PathText | ContentText
  datatype Field = U32 | U64 | Stamp | Worded(grammar: Grammar) | Device
  datatype Datum = Number(n: nat) | Moment(seconds: int, nanoseconds: nat) | Words(text: Bytes) | Pair(major: nat, minor: nat)
  datatype Fact = Known(datum: Datum) | Unknown | NotApplicable

  datatype Object = Object(kind: Octet, provenance: Octet, completeness: Octet, facts: seq<Fact>)
  datatype Observation = Present(seen: Object) | Unobserved | Absent

  /** Mode, owner, group, size, time, content, symlink target, device and hard-link anchor. */
  const FIELDS: seq<Field> :=
    [U32, U64, U64, U64, Stamp, Worded(ContentText), Worded(AnyText), Device, Worded(PathText)]

  datatype Range = Range(first: Octet, last: Octet)

  datatype Format = Format(
    hash: Bytes -> Bytes,
    accepts: (Grammar, Bytes) -> bool,
    coherent: (Bytes, Object) -> bool,
    known: Octet, unknown: Octet, notApplicable: Octet,
    kinds: Range, provenances: Range, completenesses: Range,
    nonceSize: nat)

  ghost predicate Sound(f: Format) {
    && (forall s :: |f.hash(s)| == 32)
    && (forall t :: f.accepts(AnyText, t))
    && f.known != f.unknown && f.known != f.notApplicable && f.unknown != f.notApplicable
  }

  predicate In(x: Octet, r: Range) { r.first <= x <= r.last }

  predicate Fits(f: Format, field: Field, d: Datum) {
    match field
    case U32 => d.Number? && d.n < MAX32
    case U64 => d.Number? && d.n < MAX64
    case Stamp => d.Moment? && -LIMIT63 <= d.seconds < LIMIT63 && d.nanoseconds < MAX32
    case Worded(g) => d.Words? && |d.text| < MAX32 && f.accepts(g, d.text)
    case Device => d.Pair? && d.major < MAX64 && d.minor < MAX64
  }

  function PutDatum(f: Format, field: Field, d: Datum, negativeZero: bool): Bytes
    requires Fits(f, field, d)
  {
    Widths();
    match field
    case U32 => Big(d.n, 4)
    case U64 => Big(d.n, 8)
    case Stamp => Spelled(d.seconds, negativeZero) + Big(d.nanoseconds, 4)
    case Worded(_) => Text(d.text)
    case Device => Big(d.major, 8) + Big(d.minor, 8)
  }

  function GetDatum(f: Format, field: Field, s: Bytes): Parse<Datum> {
    match field
    case U32 => var n :- GetNum(s, 4); Got(Number(n.0), n.1)
    case U64 => var n :- GetNum(s, 8); Got(Number(n.0), n.1)
    case Stamp =>
      var seconds :- GetSigned(s);
      var nanoseconds :- GetNum(seconds.1, 4);
      Got(Moment(seconds.0, nanoseconds.0), nanoseconds.1)
    case Worded(g) =>
      var t :- GetText(s);
      if f.accepts(g, t.0) then Got(Words(t.0), t.1) else Bad(RecordInvalid)
    case Device =>
      var major :- GetNum(s, 8);
      var minor :- GetNum(major.1, 8);
      Got(Pair(major.0, minor.0), minor.1)
  }

  lemma DatumRoundTrip(f: Format, field: Field, d: Datum, negativeZero: bool, rest: Bytes)
    requires Fits(f, field, d)
    ensures GetDatum(f, field, PutDatum(f, field, d, negativeZero) + rest) == Got(d, rest)
  {
    hide Big, Num, Text;
    Widths();
    match field
    case U32 => NumRoundTrip(d.n, 4, rest);
    case U64 => NumRoundTrip(d.n, 8, rest);
    case Stamp =>
      var tail := Big(d.nanoseconds, 4) + rest;
      assert PutDatum(f, field, d, negativeZero) + rest == Spelled(d.seconds, negativeZero) + tail;
      SignedRoundTrip(d.seconds, negativeZero, tail);
      NumRoundTrip(d.nanoseconds, 4, rest);
    case Worded(_) => TextRoundTrip(d.text, rest);
    case Device =>
      var tail := Big(d.minor, 8) + rest;
      assert PutDatum(f, field, d, negativeZero) + rest == Big(d.major, 8) + tail;
      NumRoundTrip(d.major, 8, tail);
      NumRoundTrip(d.minor, 8, rest);
  }

  /** What was read is what would be written, but for the sign of zero seconds. */
  lemma DatumCanonical(f: Format, field: Field, s: Bytes, d: Datum, t: Bytes) returns (negativeZero: bool)
    requires GetDatum(f, field, s) == Got(d, t)
    ensures Fits(f, field, d) && s == PutDatum(f, field, d, negativeZero) + t
    ensures negativeZero ==> field == Stamp && d.seconds == 0
  {
    hide Big, Num, Text;
    Widths();
    negativeZero := false;
    match field
    case U32 => NumCanonical(s, 4);
    case U64 => NumCanonical(s, 8);
    case Stamp =>
      SignedCanonical(s);
      var u := GetSigned(s).rest;
      NumCanonical(u, 4);
      negativeZero := s != Signed(d.seconds) + u;
      assert Spelled(d.seconds, negativeZero) + (Big(d.nanoseconds, 4) + t) == (Spelled(d.seconds, negativeZero) + Big(d.nanoseconds, 4)) + t;
    case Worded(_) => TextCanonical(s);
    case Device =>
      NumCanonical(s, 8);
      NumCanonical(GetNum(s, 8).rest, 8);
      assert Big(d.major, 8) + (Big(d.minor, 8) + t) == (Big(d.major, 8) + Big(d.minor, 8)) + t;
  }

  predicate FactFits(f: Format, field: Field, x: Fact) { x.Known? ==> Fits(f, field, x.datum) }

  function PutFact(f: Format, field: Field, x: Fact, negativeZero: bool): Bytes
    requires FactFits(f, field, x)
  {
    match x
    case Known(d) => [f.known] + PutDatum(f, field, d, negativeZero)
    case Unknown => [f.unknown]
    case NotApplicable => [f.notApplicable]
  }

  function GetFact(f: Format, field: Field, s: Bytes): Parse<Fact> {
    if s == [] then Bad(RecordInvalid)
    else if s[0] == f.known then
      var d :- GetDatum(f, field, s[1..]);
      Got(Known(d.0), d.1)
    else if s[0] == f.unknown then Got(Unknown, s[1..])
    else if s[0] == f.notApplicable then Got(NotApplicable, s[1..])
    else Bad(RecordInvalid)
  }

  predicate FactsFit(f: Format, xs: seq<Fact>, k: nat) {
    |xs| == |FIELDS| && forall i :: k <= i < |xs| ==> FactFits(f, FIELDS[i], xs[i])
  }

  /** The facts from the `k`-th on. */
  function PutFacts(f: Format, xs: seq<Fact>, k: nat, negativeZero: bool): Bytes
    requires k <= |FIELDS| && FactsFit(f, xs, k)
    decreases |FIELDS| - k, |xs|
  {
    if k == |FIELDS| then [] else PutFact(f, FIELDS[k], xs[k], negativeZero) + PutFacts(f, xs, k + 1, negativeZero)
  }

  function GetFacts(f: Format, s: Bytes, k: nat): (r: Parse<seq<Fact>>)
    requires k <= |FIELDS|
    ensures r.Got? ==> |r.value| == |FIELDS| - k
    decreases |FIELDS| - k, |s|
  {
    if k == |FIELDS| then Got([], s)
    else
      var x :- GetFact(f, FIELDS[k], s);
      var more :- GetFacts(f, x.1, k + 1);
      Got([x.0] + more.0, more.1)
  }

  lemma FactRoundTrip(f: Format, field: Field, x: Fact, negativeZero: bool, tail: Bytes)
    requires Sound(f) && FactFits(f, field, x)
    ensures GetFact(f, field, PutFact(f, field, x, negativeZero) + tail) == Got(x, tail)
  {
    hide GetDatum, PutDatum, Fits;
    var s := PutFact(f, field, x, negativeZero) + tail;
    if x.Known? {
      DatumRoundTrip(f, field, x.datum, negativeZero, tail);
      assert s[1..] == PutDatum(f, field, x.datum, negativeZero) + tail;
    } else {
      assert s[1..] == tail;
    }
  }

  lemma {:induction false} FactsRoundTrip(f: Format, xs: seq<Fact>, k: nat, negativeZero: bool, rest: Bytes)
    requires Sound(f) && k <= |FIELDS| && FactsFit(f, xs, k)
    ensures GetFacts(f, PutFacts(f, xs, k, negativeZero) + rest, k) == Got(xs[k..], rest)
    decreases |FIELDS| - k
  {
    hide PutFact, GetFact, FactFits;
    if k < |FIELDS| {
      var head := PutFact(f, FIELDS[k], xs[k], negativeZero);
      var more := PutFacts(f, xs, k + 1, negativeZero);
      FactsRoundTrip(f, xs, k + 1, negativeZero, rest);
      FactRoundTrip(f, FIELDS[k], xs[k], negativeZero, more + rest);
      assert (head + more) + rest == head + (more + rest);
      assert xs[k..] == [xs[k]] + xs[k + 1..];
    } else {
      assert [] + rest == rest && xs[k..] == [];
    }
  }

  predicate IsZeroStamp(x: Fact) { x.Known? && x.datum.Moment? && x.datum.seconds == 0 }

  const STAMP: nat := 4

  lemma OneSpellingHere(f: Format, field: Field, x: Fact, a: bool, b: bool)
    requires field != Stamp && FactFits(f, field, x)
    ensures PutFact(f, field, x, a) == PutFact(f, field, x, b)
  {
    hide Text, Big, Spelled;
  }

  /** Only the time field has two spellings. */
  lemma {:induction false} OneSpelling(f: Format, xs: seq<Fact>, k: nat, a: bool, b: bool)
    requires STAMP < k <= |FIELDS| && FactsFit(f, xs, k)
    ensures PutFacts(f, xs, k, a) == PutFacts(f, xs, k, b)
    decreases |FIELDS| - k
  {
    hide PutFact, FactFits;
    if k == |FIELDS| {
    } else {
      OneSpelling(f, xs, k + 1, a, b);
      OneSpellingHere(f, FIELDS[k], xs[k], a, b);
    }
  }

  lemma {:induction false} FactsCanonical(f: Format, s: Bytes, k: nat, xs: seq<Fact>, rest: Bytes) returns (negativeZero: bool)
    requires Sound(f) && k <= |FIELDS| == |xs| && GetFacts(f, s, k) == Got(xs[k..], rest)
    ensures FactsFit(f, xs, k) && s == PutFacts(f, xs, k, negativeZero) + rest
    ensures negativeZero ==> k <= STAMP && IsZeroStamp(xs[STAMP])
    decreases |FIELDS| - k
  {
    hide GetFact, PutFact, FactFits;
    negativeZero := false;
    if k == |FIELDS| {
      assert s == [] + s;
    } else {
      var t := FirstFact(f, s, k, xs, rest);
      var later := FactsCanonical(f, t, k + 1, xs, rest);
      var own := FactCanonical(f, FIELDS[k], s, xs[k], t);
      negativeZero := own || later;
      Joined(f, xs, k, own, later, rest);
    }
  }

  lemma FirstFact(f: Format, s: Bytes, k: nat, xs: seq<Fact>, rest: Bytes) returns (t: Bytes)
    requires k < |FIELDS| == |xs| && GetFacts(f, s, k) == Got(xs[k..], rest)
    ensures GetFact(f, FIELDS[k], s) == Got(xs[k], t) && GetFacts(f, t, k + 1) == Got(xs[k + 1..], rest)
  {
    var x := GetFact(f, FIELDS[k], s);
    t := x.rest;
    var more := GetFacts(f, t, k + 1);
    assert xs[k..][0] == xs[k] && xs[k..][1..] == xs[k + 1..];
    assert ([x.value] + more.value)[0] == x.value && ([x.value] + more.value)[1..] == more.value;
  }

  lemma Joined(f: Format, xs: seq<Fact>, k: nat, own: bool, later: bool, rest: Bytes)
    requires k < |FIELDS| && FactsFit(f, xs, k)
    requires own ==> FIELDS[k] == Stamp
    requires later ==> k < STAMP
    ensures PutFact(f, FIELDS[k], xs[k], own) + (PutFacts(f, xs, k + 1, later) + rest) == PutFacts(f, xs, k, own || later) + rest
  {
    Combine(f, xs, k, own, later);
    var head, more := PutFact(f, FIELDS[k], xs[k], own), PutFacts(f, xs, k + 1, later);
    assert head + (more + rest) == (head + more) + rest;
  }

  /** One spelling serves the field and the fields after it. */
  lemma Combine(f: Format, xs: seq<Fact>, k: nat, own: bool, later: bool)
    requires k < |FIELDS| && FactsFit(f, xs, k)
    requires own ==> FIELDS[k] == Stamp
    requires later ==> k < STAMP
    ensures PutFact(f, FIELDS[k], xs[k], own || later) == PutFact(f, FIELDS[k], xs[k], own)
    ensures PutFacts(f, xs, k + 1, own || later) == PutFacts(f, xs, k + 1, later)
  {
    assert FIELDS[k] == Stamp <==> k == STAMP;
    if own {
      OneSpelling(f, xs, k + 1, true, later);
    }
  }

  lemma FactCanonical(f: Format, field: Field, s: Bytes, x: Fact, t: Bytes) returns (negativeZero: bool)
    requires Sound(f) && GetFact(f, field, s) == Got(x, t)
    ensures FactFits(f, field, x) && s == PutFact(f, field, x, negativeZero) + t
    ensures negativeZero ==> field == Stamp && IsZeroStamp(x)
  {
    negativeZero := false;
    if s[0] == f.known {
      negativeZero := DatumCanonical(f, field, s[1..], x.datum, t);
      var b := PutDatum(f, field, x.datum, negativeZero);
      assert [s[0]] + (b + t) == ([s[0]] + b) + t;
    }
    assert s == [s[0]] + s[1..];
  }

  /* ---------- the body ---------- */

  datatype Attempt = Attempt(identity: Bytes, request: Bytes, target: Bytes, backend: Bytes, nonce: Bytes)

  /** What the capture is for, and whether it can restore the object exactly. */
  datatype Purpose = Purpose(rejected: bool, recovery: bool, exact: bool)

  /** The observation of a path. */
  datatype Sight = Sight(subject: Bytes, observation: Observation)

  datatype Record = Record(attempt: Attempt, path: Bytes, purpose: Purpose, sight: Sight)

  predicate AttemptFits(f: Format, a: Attempt) {
    |a.identity| < MAX32 && |a.request| < MAX32 && |a.target| < MAX32 && |a.backend| < MAX32 && |a.nonce| == f.nonceSize
  }

  predicate PathFits(f: Format, p: Bytes) { |p| < MAX32 && f.accepts(PathText, p) }

  predicate ObjectFits(f: Format, subject: Bytes, o: Object) {
    && In(o.kind, f.kinds) && In(o.provenance, f.provenances) && In(o.completeness, f.completenesses)
    && FactsFit(f, o.facts, 0) && f.coherent(subject, o)
  }

  predicate SightFits(f: Format, x: Sight) {
    PathFits(f, x.subject) && (x.observation.Present? ==> ObjectFits(f, x.subject, x.observation.seen))
  }

  /** A value of the record's types; only its texts' lengths are a restriction of the encoder. */
  predicate Encodable(f: Format, r: Record) {
    AttemptFits(f, r.attempt) && PathFits(f, r.path) && SightFits(f, r.sight)
  }

  /** A record a capture can have: of the path it observed, present, and with a purpose. */
  predicate Meaningful(r: Record) {
    r.sight.subject == r.path && r.sight.observation.Present? && (r.purpose.rejected || r.purpose.recovery)
  }

  predicate ZeroTime(o: Observation) {
    o.Present? && |o.seen.facts| > STAMP && IsZeroStamp(o.seen.facts[STAMP])
  }

  function PutAttempt(f: Format, a: Attempt): Bytes
    requires AttemptFits(f, a)
  {
    Text(a.identity) + (Text(a.request) + (Text(a.target) + (Text(a.backend) + a.nonce)))
  }

  function PutObject(f: Format, subject: Bytes, o: Object, negativeZero: bool): Bytes
    requires ObjectFits(f, subject, o)
  {
    [o.kind] + ([o.provenance] + ([o.completeness] + PutFacts(f, o.facts, 0, negativeZero)))
  }

  function PutObservation(f: Format, subject: Bytes, o: Observation, negativeZero: bool): Bytes
    requires o.Present? ==> ObjectFits(f, subject, o.seen)
  {
    match o
    case Present(seen) => [f.known] + PutObject(f, subject, seen, negativeZero)
    case Unobserved => [f.unknown]
    case Absent => [f.notApplicable]
  }

  function PutSight(f: Format, x: Sight, negativeZero: bool): Bytes
    requires SightFits(f, x)
  {
    Text(x.subject) + PutObservation(f, x.subject, x.observation, negativeZero)
  }

  function Flag(b: bool): Octet { if b then 1 else 0 }

  function PutPurpose(p: Purpose): Bytes { [Flag(p.rejected), Flag(p.recovery), Flag(p.exact)] }

  function PutBody(f: Format, r: Record, negativeZero: bool): Bytes
    requires Encodable(f, r)
  {
    PutAttempt(f, r.attempt) + (Text(r.path) + (PutPurpose(r.purpose) + PutSight(f, r.sight, negativeZero)))
  }

  /** A text that must be the given one. */
  function GetBound(s: Bytes, expected: Bytes): Parse<Bytes> {
    var t :- GetText(s);
    if t.0 != expected then Bad(BindingMismatch) else Got(t.0, t.1)
  }

  function GetAttempt(f: Format, s: Bytes, a: Attempt): Parse<Attempt> {
    var identity :- GetBound(s, a.identity);
    var request :- GetBound(identity.1, a.request);
    var target :- GetBound(request.1, a.target);
    var backend :- GetBound(target.1, a.backend);
    var nonce :- GetRaw(backend.1, f.nonceSize);
    if nonce.0 != a.nonce then Bad(BindingMismatch) else Got(a, nonce.1)
  }

  function GetPath(f: Format, s: Bytes): Parse<Bytes> {
    var t :- GetText(s);
    if f.accepts(PathText, t.0) then Got(t.0, t.1) else Bad(RecordInvalid)
  }

  function GetOctet(s: Bytes): Parse<Octet> {
    if s == [] then Bad(RecordInvalid) else Got(s[0], s[1..])
  }

  function GetCode(s: Bytes, r: Range): Parse<Octet> {
    var x :- GetOctet(s);
    if In(x.0, r) then Got(x.0, x.1) else Bad(RecordInvalid)
  }

  function GetObject(f: Format, subject: Bytes, s: Bytes): Parse<Object> {
    var kind :- GetCode(s, f.kinds);
    var provenance :- GetCode(kind.1, f.provenances);
    var completeness :- GetCode(provenance.1, f.completenesses);
    var facts :- GetFacts(f, completeness.1, 0);
    var o := Object(kind.0, provenance.0, completeness.0, facts.0);
    if f.coherent(subject, o) then Got(o, facts.1) else Bad(RecordInvalid)
  }

  function GetObservation(f: Format, subject: Bytes, s: Bytes): Parse<Observation> {
    var state :- GetOctet(s);
    if state.0 == f.unknown then Got(Unobserved, state.1)
    else if state.0 == f.notApplicable then Got(Absent, state.1)
    else if state.0 != f.known then Bad(RecordInvalid)
    else
      var o :- GetObject(f, subject, state.1);
      Got(Present(o.0), o.1)
  }

  function GetSight(f: Format, s: Bytes): Parse<Sight> {
    var subject :- GetPath(f, s);
    var observation :- GetObservation(f, subject.0, subject.1);
    Got(Sight(subject.0, observation.0), observation.1)
  }

  function GetPurpose(s: Bytes): Parse<Purpose> {
    if |s| < 3 || s[0] > 1 || s[1] > 1 || s[2] > 1 || (s[0] == 0 && s[1] == 0) then Bad(RecordInvalid)
    else Got(Purpose(s[0] == 1, s[1] == 1, s[2] == 1), s[3..])
  }

  function GetBody(f: Format, s: Bytes, a: Attempt): Parse<Record> {
    var attempt :- GetAttempt(f, s, a);
    var path :- GetPath(f, attempt.1);
    var purpose :- GetPurpose(path.1);
    var sight :- GetSight(f, purpose.1);
    var r := Record(attempt.0, path.0, purpose.0, sight.0);
    if sight.1 != [] || !Meaningful(r) then Bad(RecordInvalid) else Got(r, [])
  }

  /* ---------- the frame ---------- */

  const MAGIC: Bytes := [0x5a, 0x50, 0x4c, 0x43, 0x41, 0x50, 0x4f, 0x42]
  const VERSION: nat := 1
  const MAXIMUM: nat := 4 * 1024 * 1024
  const ENVELOPE: nat := 50

  function Frame(f: Format, body: Bytes): Bytes
    requires |body| < MAX64
  {
    Widths();
    MAGIC + (Big(VERSION, 2) + (Big(|body|, 8) + (f.hash(body) + body)))
  }

  /** The magic, the version and the size of the body. */
  function GetHeader(s: Bytes): Parse<nat> {
    var magic :- GetRaw(s, 8);
    if magic.0 != MAGIC then Bad(RecordInvalid)
    else
      var version :- GetNum(magic.1, 2);
      if version.0 != VERSION then Bad(RecordInvalid) else GetNum(version.1, 8)
  }

  /** The body, once its checksum agrees and nothing trails it. */
  function GetChecked(f: Format, s: Bytes, n: nat): Parse<Bytes> {
    var checksum :- GetRaw(s, 32);
    var body :- GetRaw(checksum.1, n);
    if body.1 != [] || f.hash(body.0) != checksum.0 then Bad(RecordInvalid) else Got(body.0, [])
  }

  function Unframe(f: Format, s: Bytes): Parse<Bytes> {
    if |s| < ENVELOPE then Bad(RecordInvalid)
    else
      var size :- GetHeader(s);
      if size.0 > MAXIMUM || size.0 != |s| - ENVELOPE then Bad(RecordInvalid) else GetChecked(f, size.1, size.0)
  }

  function EncodeRecord(f: Format, r: Record): Bytes
    requires Encodable(f, r) && |PutBody(f, r, false)| < MAX64
  {
    Frame(f, PutBody(f, r, false))
  }

  function DecodeRecord(f: Format, s: Bytes, a: Attempt): Parse<Record> {
    var body :- Unframe(f, s);
    GetBody(f, body.0, a)
  }

  datatype Loaded = NotThere | Refused(error: Failure) | Found(record: Record)

  /** Loading the record of a path: an empty file counts as none, and one above the limit is refused
      before any of it is decoded. */
  function LoadRecord(f: Format, file: Tree.Option<Bytes>, a: Attempt): Loaded {
    if file.None? || file.value == [] then NotThere
    else if |file.value| > MAXIMUM then Refused(ReadFailed)
    else
      match DecodeRecord(f, file.value, a)
      case Bad(e) => Refused(e)
      case Got(r, _) => Found(r)
  }

  lemma FrameRoundTrip(f: Format, body: Bytes)
    requires Sound(f) && |body| < MAX64
    ensures Unframe(f, Frame(f, body)) == if |body| <= MAXIMUM then Got(body, []) else Bad(RecordInvalid)
  {
    Widths();
    var s := Frame(f, body);
    var t1 := Big(VERSION, 2) + (Big(|body|, 8) + (f.hash(body) + body));
    var t2 := Big(|body|, 8) + (f.hash(body) + body);
    var t3 := f.hash(body) + body;
    assert s[..8] == MAGIC && s[8..] == t1;
    NumRoundTrip(VERSION, 2, t2);
    NumRoundTrip(|body|, 8, t3);
    assert t3[..32] == f.hash(body) && t3[32..] == body;
    assert body[..|body|] == body && body[|body|..] == [];
  }

  lemma FrameCanonical(f: Format, s: Bytes)
    requires Sound(f) && Unframe(f, s).Got?
    ensures |Unframe(f, s).value| <= MAXIMUM && s == Frame(f, Unframe(f, s).value)
  {
    Widths();
    var t1 := s[8..];
    assert s == s[..8] + t1;
    NumCanonical(t1, 2);
    var t2 := GetNum(t1, 2).rest;
    NumCanonical(t2, 8);
    var t3 := GetNum(t2, 8).rest;
    assert t3 == t3[..32] + t3[32..];
  }

  /* ---------- the record ---------- */

  lemma BoundRoundTrip(t: Bytes, expected: Bytes, rest: Bytes)
    requires |t| < MAX32
    ensures GetBound(Text(t) + rest, expected) == if t == expected then Got(t, rest) else Bad(BindingMismatch)
  {
    TextRoundTrip(t, rest);
  }

  /** Any attempt's body is bound to that attempt and to no other. */
  lemma AttemptRoundTrip(f: Format, own: Attempt, a: Attempt, rest: Bytes)
    requires AttemptFits(f, own)
    ensures GetAttempt(f, PutAttempt(f, own) + rest, a) == if own == a then Got(a, rest) else Bad(BindingMismatch)
  {
    var t4 := own.nonce + rest;
    var t3 := Text(own.backend) + t4;
    var t2 := Text(own.target) + t3;
    var t1 := Text(own.request) + t2;
    assert PutAttempt(f, own) + rest == Text(own.identity) + t1;
    BoundRoundTrip(own.identity, a.identity, t1);
    BoundRoundTrip(own.request, a.request, t2);
    BoundRoundTrip(own.target, a.target, t3);
    BoundRoundTrip(own.backend, a.backend, t4);
    assert t4[..f.nonceSize] == own.nonce && t4[f.nonceSize..] == rest;
  }

  lemma BoundCanonical(s: Bytes, expected: Bytes)
    requires GetBound(s, expected).Got?
    ensures |expected| < MAX32 && s == Text(expected) + GetBound(s, expected).rest
  {
    TextCanonical(s);
  }

  lemma RawCanonical(s: Bytes, n: nat)
    ensures GetRaw(s, n).Got? ==> s == GetRaw(s, n).value + GetRaw(s, n).rest && |GetRaw(s, n).value| == n
  {
  }

  lemma Regroup(a: Bytes, b: Bytes, c: Bytes, d: Bytes, e: Bytes, rest: Bytes)
    ensures a + (b + (c + (d + (e + rest)))) == (a + (b + (c + (d + e)))) + rest
  {
    assert d + (e + rest) == (d + e) + rest;
    assert c + ((d + e) + rest) == (c + (d + e)) + rest;
    assert b + ((c + (d + e)) + rest) == (b + (c + (d + e))) + rest;
  }

  lemma AttemptCanonical(f: Format, s: Bytes, a: Attempt)
    requires GetAttempt(f, s, a).Got?
    ensures AttemptFits(f, a) && GetAttempt(f, s, a).value == a && s == PutAttempt(f, a) + GetAttempt(f, s, a).rest
  {
    var t1 := GetBound(s, a.identity).rest;
    var t2 := GetBound(t1, a.request).rest;
    var t3 := GetBound(t2, a.target).rest;
    var t4 := GetBound(t3, a.backend).rest;
    BoundCanonical(s, a.identity);
    BoundCanonical(t1, a.request);
    BoundCanonical(t2, a.target);
    BoundCanonical(t3, a.backend);
    RawCanonical(t4, f.nonceSize);
    Regroup(Text(a.identity), Text(a.request), Text(a.target), Text(a.backend), a.nonce, GetAttempt(f, s, a).rest);
  }

  lemma ObjectRoundTrip(f: Format, subject: Bytes, o: Object, negativeZero: bool, rest: Bytes)
    requires Sound(f) && ObjectFits(f, subject, o)
    ensures GetObject(f, subject, PutObject(f, subject, o, negativeZero) + rest) == Got(o, rest)
  {
    var tail := PutFacts(f, o.facts, 0, negativeZero) + rest;
    var s := PutObject(f, subject, o, negativeZero) + rest;
    FactsRoundTrip(f, o.facts, 0, negativeZero, rest);
    assert o.facts[0..] == o.facts;
    assert s == [o.kind] + ([o.provenance] + ([o.completeness] + tail));
    assert s[1..] == [o.provenance] + ([o.completeness] + tail);
    assert s[1..][1..] == [o.completeness] + tail;
    assert s[1..][1..][1..] == tail;
  }

  lemma OctetCanonical(s: Bytes)
    ensures GetOctet(s).Got? ==> s == [GetOctet(s).value] + GetOctet(s).rest
  {
  }

  lemma ObjectCanonical(f: Format, subject: Bytes, s: Bytes) returns (negativeZero: bool)
    requires Sound(f) && GetObject(f, subject, s).Got?
    ensures var g := GetObject(f, subject, s);
      && ObjectFits(f, subject, g.value) && s == PutObject(f, subject, g.value, negativeZero) + g.rest
      && (negativeZero ==> IsZeroStamp(g.value.facts[STAMP]))
  {
    var o, rest := GetObject(f, subject, s).value, GetObject(f, subject, s).rest;
    var t1 := GetOctet(s).rest;
    var t2 := GetOctet(t1).rest;
    var t3 := GetOctet(t2).rest;
    OctetCanonical(s);
    OctetCanonical(t1);
    OctetCanonical(t2);
    assert o.facts[0..] == o.facts;
    negativeZero := FactsCanonical(f, t3, 0, o.facts, rest);
    ObjectPieces(f, subject, o, negativeZero, rest);
  }

  lemma ObjectPieces(f: Format, subject: Bytes, o: Object, negativeZero: bool, rest: Bytes)
    requires ObjectFits(f, subject, o)
    ensures PutObject(f, subject, o, negativeZero) + rest
         == [o.kind] + ([o.provenance] + ([o.completeness] + (PutFacts(f, o.facts, 0, negativeZero) + rest)))
  {
    var b := PutFacts(f, o.facts, 0, negativeZero);
    assert [o.completeness] + (b + rest) == ([o.completeness] + b) + rest;
    assert [o.provenance] + (([o.completeness] + b) + rest) == ([o.provenance] + ([o.completeness] + b)) + rest;
  }

  lemma ObservationRoundTrip(f: Format, subject: Bytes, o: Observation, negativeZero: bool)
    requires Sound(f) && (o.Present? ==> ObjectFits(f, subject, o.seen))
    ensures GetObservation(f, subject, PutObservation(f, subject, o, negativeZero)) == Got(o, [])
  {
    var s := PutObservation(f, subject, o, negativeZero);
    if o.Present? {
      var b := PutObject(f, subject, o.seen, negativeZero);
      ObjectRoundTrip(f, subject, o.seen, negativeZero, []);
      assert b + [] == b && s[1..] == b;
    } else {
      assert s[1..] == [];
    }
  }

  lemma PathRoundTrip(f: Format, p: Bytes, rest: Bytes)
    requires PathFits(f, p)
    ensures GetPath(f, Text(p) + rest) == Got(p, rest)
  {
    TextRoundTrip(p, rest);
  }

  lemma SightRoundTrip(f: Format, x: Sight, negativeZero: bool)
    requires Sound(f) && SightFits(f, x)
    ensures GetSight(f, PutSight(f, x, negativeZero)) == Got(x, [])
  {
    PathRoundTrip(f, x.subject, PutObservation(f, x.subject, x.observation, negativeZero));
    ObservationRoundTrip(f, x.subject, x.observation, negativeZero);
  }

  lemma PurposeRoundTrip(p: Purpose, rest: Bytes)
    ensures GetPurpose(PutPurpose(p) + rest) == if p.rejected || p.recovery then Got(p, rest) else Bad(RecordInvalid)
  {
    assert (PutPurpose(p) + rest)[3..] == rest;
  }

  /** The encoder's output for a record, in either spelling, is read back exactly when it is meaningful. */
  lemma BodyRoundTrip(f: Format, r: Record, negativeZero: bool)
    requires Sound(f) && Encodable(f, r)
    ensures GetBody(f, PutBody(f, r, negativeZero), r.attempt) == if Meaningful(r) then Got(r, []) else Bad(RecordInvalid)
  {
    var t3 := PutSight(f, r.sight, negativeZero);
    var t2 := PutPurpose(r.purpose) + t3;
    AttemptRoundTrip(f, r.attempt, r.attempt, Text(r.path) + t2);
    PathRoundTrip(f, r.path, t2);
    PurposeRoundTrip(r.purpose, t3);
    SightRoundTrip(f, r.sight, negativeZero);
  }

  lemma PathCanonical(f: Format, s: Bytes)
    requires GetPath(f, s).Got?
    ensures PathFits(f, GetPath(f, s).value) && s == Text(GetPath(f, s).value) + GetPath(f, s).rest
  {
    TextCanonical(s);
  }

  lemma ObservationCanonical(f: Format, subject: Bytes, s: Bytes) returns (negativeZero: bool)
    requires Sound(f) && GetObservation(f, subject, s).Got? && GetObservation(f, subject, s).rest == []
    ensures var o := GetObservation(f, subject, s).value;
      && (o.Present? ==> ObjectFits(f, subject, o.seen)) && s == PutObservation(f, subject, o, negativeZero)
      && (negativeZero ==> ZeroTime(o))
  {
    negativeZero := false;
    var o := GetObservation(f, subject, s).value;
    OctetCanonical(s);
    if o.Present? {
      negativeZero := ObjectCanonical(f, subject, s[1..]);
      assert PutObject(f, subject, o.seen, negativeZero) + [] == PutObject(f, subject, o.seen, negativeZero);
    }
  }

  lemma SightCanonical(f: Format, s: Bytes) returns (negativeZero: bool)
    requires Sound(f) && GetSight(f, s).Got? && GetSight(f, s).rest == []
    ensures var x := GetSight(f, s).value;
      SightFits(f, x) && s == PutSight(f, x, negativeZero) && (negativeZero ==> ZeroTime(x.observation))
  {
    PathCanonical(f, s);
    var subject := GetPath(f, s);
    negativeZero := ObservationCanonical(f, subject.value, subject.rest);
  }

  lemma PurposeCanonical(s: Bytes)
    requires GetPurpose(s).Got?
    ensures s == PutPurpose(GetPurpose(s).value) + GetPurpose(s).rest
  {
  }

  lemma BodyCanonical(f: Format, s: Bytes, a: Attempt, r: Record) returns (negativeZero: bool)
    requires Sound(f) && GetBody(f, s, a) == Got(r, [])
    ensures Encodable(f, r) && r.attempt == a && Meaningful(r)
    ensures s == PutBody(f, r, negativeZero) && (negativeZero ==> ZeroTime(r.sight.observation))
  {
    var t1 := GetAttempt(f, s, a).rest;
    var t2 := GetPath(f, t1).rest;
    var t3 := GetPurpose(t2).rest;
    AttemptCanonical(f, s, a);
    PathCanonical(f, t1);
    PurposeCanonical(t2);
    negativeZero := SightCanonical(f, t3);
  }

  lemma FrameSize(f: Format, body: Bytes)
    requires Sound(f) && |body| < MAX64
    ensures |Frame(f, body)| == |body| + ENVELOPE
  {
  }

  /** Decoding an encoded record returns it exactly when it is meaningful and the body is within the
      limit, for every signed time including the minimum. */
  lemma DecodeRoundTrip(f: Format, r: Record)
    requires Sound(f) && Encodable(f, r) && |PutBody(f, r, false)| < MAX64
    ensures DecodeRecord(f, EncodeRecord(f, r), r.attempt) ==
      if |PutBody(f, r, false)| <= MAXIMUM && Meaningful(r) then Got(r, []) else Bad(RecordInvalid)
  {
    FrameRoundTrip(f, PutBody(f, r, false));
    BodyRoundTrip(f, r, false);
  }

  /** Loading a stored record returns it exactly when it is meaningful and the whole file, envelope
      included, is within the limit; a larger one is stored but never read back. */
  lemma RecordRoundTrip(f: Format, r: Record)
    requires Sound(f) && Encodable(f, r) && |PutBody(f, r, false)| < MAX64
    ensures LoadRecord(f, Tree.Some(EncodeRecord(f, r)), r.attempt) == Found(r) <==>
      && |EncodeRecord(f, r)| <= 4194304
      && r.sight.subject == r.path && r.sight.observation.Present? && (r.purpose.rejected || r.purpose.recovery)
    ensures |EncodeRecord(f, r)| == |PutBody(f, r, false)| + 50
    ensures |EncodeRecord(f, r)| > 4194304 ==>
      LoadRecord(f, Tree.Some(EncodeRecord(f, r)), r.attempt) == Refused(ReadFailed)
  {
    FrameSize(f, PutBody(f, r, false));
    DecodeRoundTrip(f, r);
  }

  /** A record of another attempt is never accepted as one of this attempt. */
  lemma OtherAttemptRefused(f: Format, r: Record, a: Attempt)
    requires Sound(f) && Encodable(f, r) && |PutBody(f, r, false)| + ENVELOPE <= MAXIMUM && a != r.attempt
    ensures LoadRecord(f, Tree.Some(EncodeRecord(f, r)), a) == Refused(BindingMismatch)
  {
    FrameSize(f, PutBody(f, r, false));
    FrameRoundTrip(f, PutBody(f, r, false));
    AttemptRoundTrip(f, r.attempt, a, Text(r.path) + (PutPurpose(r.purpose) + PutSight(f, r.sight, false)));
  }

  /** Every accepted file is the encoder's output for the loaded value, or differs from it only in the
      sign of a zero time; and that other spelling is accepted as well. */
  lemma NearlyCanonical(f: Format, s: Bytes, a: Attempt, r: Record) returns (negativeZero: bool)
    requires Sound(f) && LoadRecord(f, Tree.Some(s), a) == Found(r)
    ensures Encodable(f, r) && r.attempt == a && |PutBody(f, r, negativeZero)| + ENVELOPE <= MAXIMUM
    ensures s == Frame(f, PutBody(f, r, negativeZero))
    ensures negativeZero ==> r.sight.observation.Present?
    ensures negativeZero ==> var time := r.sight.observation.seen.facts[4]; time.Known? && time.datum.Moment? && time.datum.seconds == 0
    ensures |PutBody(f, r, !negativeZero)| + ENVELOPE <= MAXIMUM
    ensures LoadRecord(f, Tree.Some(Frame(f, PutBody(f, r, !negativeZero))), a) == Found(r)
  {
    hide DecodeRecord, Frame, Encodable, PutBody;
    negativeZero := DecodedCanonical(f, s, a, r);
    FrameSize(f, PutBody(f, r, negativeZero));
    OtherSpelling(f, r, !negativeZero);
    FrameSize(f, PutBody(f, r, !negativeZero));
  }

  lemma DecodedCanonical(f: Format, s: Bytes, a: Attempt, r: Record) returns (negativeZero: bool)
    requires Sound(f) && DecodeRecord(f, s, a).Got? && DecodeRecord(f, s, a).value == r
    ensures Encodable(f, r) && Meaningful(r) && r.attempt == a && |PutBody(f, r, negativeZero)| <= MAXIMUM
    ensures s == Frame(f, PutBody(f, r, negativeZero)) && (negativeZero ==> ZeroTime(r.sight.observation))
  {
    hide Unframe, Frame, PutBody, Encodable, Meaningful, ZeroTime, GetAttempt, GetPath, GetPurpose, GetSight;
    FrameCanonical(f, s);
    negativeZero := BodyCanonical(f, Unframe(f, s).value, a, r);
  }

  lemma OtherSpelling(f: Format, r: Record, negativeZero: bool)
    requires Sound(f) && Encodable(f, r) && Meaningful(r) && |PutBody(f, r, !negativeZero)| <= MAXIMUM
    ensures |PutBody(f, r, negativeZero)| == |PutBody(f, r, !negativeZero)|
    ensures DecodeRecord(f, Frame(f, PutBody(f, r, negativeZero)), r.attempt) == Got(r, [])
  {
    BodyRoundTrip(f, r, negativeZero);
    SameLength(f, r);
    FrameRoundTrip(f, PutBody(f, r, negativeZero));
  }

  /** A path of very many short components whose two copies, the captured path and the subject of its
      observation, make the body exactly as long as a body may be: the record is encoded and decodes,
      and loading its file is refused. */
  lemma OversizedRecord() returns (f: Format, r: Record)
    ensures Sound(f) && Encodable(f, r) && Meaningful(r) && |PutBody(f, r, false)| == MAXIMUM
    ensures DecodeRecord(f, EncodeRecord(f, r), r.attempt) == Got(r, [])
    ensures LoadRecord(f, Tree.Some(EncodeRecord(f, r)), r.attempt) == Refused(ReadFailed)
  {
    hide FactsFit, PutFacts, DecodeRecord, LoadRecord, EncodeRecord, Frame;
    var all := Range(0, 255);
    f := Format((s: Bytes) => seq(32, i => 0), (g: Grammar, t: Bytes) => true, (t: Bytes, o: Object) => true,
                1, 2, 3, all, all, all, 0);
    var path := seq((MAXIMUM - 40) / 2, i => if i == 0 || i % 2 == 1 then 97 else 47);
    var facts := seq(|FIELDS|, i => Fact.Unknown);
    NoFacts(f, facts, 0);
    var seen := Object(0, 0, 0, facts);
    r := Record(Attempt([], [], [], [], []), path, Purpose(true, false, false), Sight(path, Present(seen)));
    DecodeRoundTrip(f, r);
    RecordRoundTrip(f, r);
  }

  lemma {:induction false} NoFacts(f: Format, xs: seq<Fact>, k: nat)
    requires k <= |FIELDS| == |xs| && forall i :: 0 <= i < |xs| ==> xs[i] == Fact.Unknown
    ensures FactsFit(f, xs, k) && |PutFacts(f, xs, k, false)| == |FIELDS| - k
    decreases |FIELDS| - k
  {
    if k == |FIELDS| {
    } else {
      NoFacts(f, xs, k + 1);
    }
  }

  lemma {:induction false} SameLengthFacts(f: Format, xs: seq<Fact>, k: nat)
    requires k <= |FIELDS| && FactsFit(f, xs, k)
    ensures |PutFacts(f, xs, k, false)| == |PutFacts(f, xs, k, true)|
    decreases |FIELDS| - k
  {
    if k == |FIELDS| {
    } else {
      SameLengthFacts(f, xs, k + 1);
      assert |PutFact(f, FIELDS[k], xs[k], false)| == |PutFact(f, FIELDS[k], xs[k], true)|;
    }
  }

  lemma SameLength(f: Format, r: Record)
    requires Encodable(f, r)
    ensures |PutBody(f, r, false)| == |PutBody(f, r, true)|
  {
    if r.sight.observation.Present? {
      SameLengthFacts(f, r.sight.observation.seen.facts, 0);
    }
  }

  /* ---------- the methods that build and check the frame ---------- */

  method FrameBody(f: Format, body: Bytes) returns (s: Bytes)
    requires |body| < MAX64
    ensures s == Frame(f, body)
  {
    hide Big, Num;
    Widths();
    var buffer := new Buffer();
    for i := 0 to 8
      invariant buffer.bytes == MAGIC[..i]
    {
      buffer.AppendU8(MAGIC[i]);
    }
    buffer.AppendBig(VERSION, 2);
    buffer.AppendBig(|body|, 8);
    var checksum := f.hash(body);
    for i := 0 to |checksum|
      invariant buffer.bytes == MAGIC + Big(VERSION, 2) + Big(|body|, 8) + checksum[..i]
    {
      buffer.AppendU8(checksum[i]);
    }
    s := buffer.bytes + body;
    FramePieces(MAGIC, Big(VERSION, 2), Big(|body|, 8), f.hash(body), body);
  }

  lemma FramePieces(a: Bytes, b: Bytes, c: Bytes, d: Bytes, e: Bytes)
    ensures a + b + c + d + e == a + (b + (c + (d + e)))
  {
    assert c + (d + e) == c + d + e;
    assert b + (c + d + e) == b + c + d + e;
  }

  method ReadHeader(reader: ByteReader) returns (size: Tree.Option<nat>)
    requires reader.Valid()
    modifies reader`offset
    ensures reader.Valid()
    ensures size.Some? <==> GetHeader(old(reader.Rest())).Got?
    ensures size.Some? ==> GetHeader(old(reader.Rest())) == Got(size.value, reader.Rest())
  {
    var magic := reader.Raw(8);
    if magic != Tree.Some(MAGIC) {
      return Tree.None;
    }
    var version := reader.UBig(2);
    if version != Tree.Some(VERSION) {
      return Tree.None;
    }
    size := reader.UBig(8);
  }

  method ReadChecked(f: Format, reader: ByteReader, n: nat) returns (body: Tree.Option<Bytes>)
    requires reader.Valid()
    modifies reader`offset
    ensures body.Some? <==> GetChecked(f, old(reader.Rest()), n).Got?
    ensures body.Some? ==> GetChecked(f, old(reader.Rest()), n) == Got(body.value, [])
  {
    var checksum := reader.Raw(32);
    if checksum.None? {
      return Tree.None;
    }
    body := reader.Raw(n);
    if body.None? || reader.offset != |reader.bytes| || f.hash(body.value) != checksum.value {
      return Tree.None;
    }
  }

  method UnframeBody(f: Format, s: Bytes) returns (body: Tree.Option<Bytes>)
    ensures body.Some? <==> Unframe(f, s).Got?
    ensures body.Some? ==> Unframe(f, s) == Got(body.value, [])
  {
    hide GetHeader, GetChecked;
    if |s| < ENVELOPE {
      return Tree.None;
    }
    var reader := new ByteReader(s);
    var size := ReadHeader(reader);
    if size.None? || size.value > MAXIMUM || size.value != |s| - ENVELOPE {
      return Tree.None;
    }
    body := ReadChecked(f, reader, size.value);
  }

  /* ---------- the methods that append a record ---------- */

  method AppendText(buffer: Buffer, t: Bytes)
    requires |t| < MAX32
    modifies buffer
    ensures buffer.bytes == old(buffer.bytes) + Text(t)
  {
    var _ := buffer.AppendString(t);
  }

  method AppendAttempt(buffer: Buffer, f: Format, a: Attempt)
    requires AttemptFits(f, a)
    modifies buffer
    ensures buffer.bytes == old(buffer.bytes) + PutAttempt(f, a)
  {
    ghost var start := buffer.bytes;
    AppendText(buffer, a.identity);
    AppendText(buffer, a.request);
    AppendText(buffer, a.target);
    AppendText(buffer, a.backend);
    for i := 0 to |a.nonce|
      invariant buffer.bytes == start + Text(a.identity) + Text(a.request) + Text(a.target) + Text(a.backend) + a.nonce[..i]
    {
      buffer.AppendU8(a.nonce[i]);
    }
    Leftward(start, Text(a.identity), Text(a.request), Text(a.target), Text(a.backend), a.nonce);
  }

  lemma Leftward(a: Bytes, b: Bytes, c: Bytes, d: Bytes, e: Bytes, rest: Bytes)
    ensures a + b + c + d + e + rest == a + (b + (c + (d + (e + rest))))
  {
    assert d + (e + rest) == d + e + rest;
    assert c + (d + e + rest) == c + d + e + rest;
    assert b + (c + d + e + rest) == b + c + d + e + rest;
  }

  method AppendDatum(buffer: Buffer, f: Format, field: Field, d: Datum)
    requires Fits(f, field, d)
    modifies buffer
    ensures buffer.bytes == old(buffer.bytes) + PutDatum(f, field, d, false)
  {
    Widths();
    match field
    case U32 => buffer.AppendBig(d.n, 4);
    case U64 => buffer.AppendBig(d.n, 8);
    case Stamp =>
      buffer.AppendI64(d.seconds);
      buffer.AppendBig(d.nanoseconds, 4);
    case Worded(_) => AppendText(buffer, d.text);
    case Device =>
      buffer.AppendBig(d.major, 8);
      buffer.AppendBig(d.minor, 8);
  }

  method AppendFact(buffer: Buffer, f: Format, field: Field, x: Fact)
    requires FactFits(f, field, x)
    modifies buffer
    ensures buffer.bytes == old(buffer.bytes) + PutFact(f, field, x, false)
  {
    hide PutDatum, Fits;
    match x
    case Known(d) =>
      buffer.AppendU8(f.known);
      AppendDatum(buffer, f, field, d);
    case Unknown => buffer.AppendU8(f.unknown);
    case NotApplicable => buffer.AppendU8(f.notApplicable);
  }

  method AppendFacts(buffer: Buffer, f: Format, xs: seq<Fact>)
    requires FactsFit(f, xs, 0)
    modifies buffer
    ensures buffer.bytes == old(buffer.bytes) + PutFacts(f, xs, 0, false)
  {
    hide PutFact, FactFits;
    for k := 0 to |FIELDS|
      invariant buffer.bytes + PutFacts(f, xs, k, false) == old(buffer.bytes) + PutFacts(f, xs, 0, false)
    {
      ghost var before := buffer.bytes;
      AppendFact(buffer, f, FIELDS[k], xs[k]);
      assert before + (PutFact(f, FIELDS[k], xs[k], false) + PutFacts(f, xs, k + 1, false))
          == before + PutFact(f, FIELDS[k], xs[k], false) + PutFacts(f, xs, k + 1, false);
    }
    assert PutFacts(f, xs, |FIELDS|, false) == [];
  }

  method AppendObservation(buffer: Buffer, f: Format, x: Sight)
    requires SightFits(f, x)
    modifies buffer
    ensures buffer.bytes == old(buffer.bytes) + PutSight(f, x, false)
  {
    ghost var start := buffer.bytes;
    AppendText(buffer, x.subject);
    match x.observation
    case Unobserved => buffer.AppendU8(f.unknown);
    case Absent => buffer.AppendU8(f.notApplicable);
    case Present(o) =>
      buffer.AppendU8(f.known);
      buffer.AppendU8(o.kind);
      buffer.AppendU8(o.provenance);
      buffer.AppendU8(o.completeness);
      AppendFacts(buffer, f, o.facts);
      Leftward(start + Text(x.subject), [f.known], [o.kind], [o.provenance], [o.completeness], PutFacts(f, o.facts, 0, false));
  }

  lemma BodyPieces(a: Bytes, b: Bytes, p: Purpose, c: Bytes)
    ensures a + b + [Flag(p.rejected)] + [Flag(p.recovery)] + [Flag(p.exact)] + c == a + (b + (PutPurpose(p) + c))
  {
    assert a + b + [Flag(p.rejected)] + [Flag(p.recovery)] + [Flag(p.exact)] == a + b + PutPurpose(p);
    assert b + (PutPurpose(p) + c) == b + PutPurpose(p) + c;
  }

  /** The encoder as the store runs it: append the body field by field, then frame it. */
  method EncodeRecordBytes(f: Format, r: Record) returns (s: Bytes)
    requires Encodable(f, r) && |PutBody(f, r, false)| < MAX64
    ensures s == EncodeRecord(f, r)
  {
    hide PutAttempt, PutSight, SightFits, AttemptFits, Text, Frame;
    var buffer := new Buffer();
    AppendAttempt(buffer, f, r.attempt);
    assert buffer.bytes == PutAttempt(f, r.attempt);
    AppendText(buffer, r.path);
    buffer.AppendU8(Flag(r.purpose.rejected));
    buffer.AppendU8(Flag(r.purpose.recovery));
    buffer.AppendU8(Flag(r.purpose.exact));
    AppendObservation(buffer, f, r.sight);
    BodyPieces(PutAttempt(f, r.attempt), Text(r.path), r.purpose, PutSight(f, r.sight, false));
    s := FrameBody(f, buffer.bytes);
  }
}
