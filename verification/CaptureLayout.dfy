/** Where everything lies in the file of a capture record, octet by octet. */
module CaptureLayouts {
  import opened ByteCodec
  import opened CaptureRecord

  function Concat(parts: seq<Bytes>): Bytes {
    if parts == [] then [] else parts[0] + Concat(parts[1..])
  }

  /** The envelope of a record file: eight octets that spell its type, two for the version, eight for the size of
      the body, its checksum, and the body. */
  lemma FrameLayout(f: Format, r: Record)
    requires Sound(f) && Encodable(f, r) && |PutBody(f, r, false)| < MAX64
    ensures var s := EncodeRecord(f, r);
      && |s| >= 50 && s[..8] == [0x5a, 0x50, 0x4c, 0x43, 0x41, 0x50, 0x4f, 0x42] && s[8..10] == [0, 1]
      && Num(s[10..18]) == |s| - 50 && s[18..50] == f.hash(s[50..]) && s[50..] == PutBody(f, r, false)
  {
    hide PutBody, Encodable;
    Widths();
    var body := PutBody(f, r, false);
    NumBig(|body|, 8);
    VersionBytes();
    hide Big, Num;
    Envelope(MAGIC, Big(VERSION, 2), Big(|body|, 8), f.hash(body), body);
  }

  lemma VersionBytes()
    ensures 1 < Pow(2) && Big(1, 2) == [0, 1]
  {
    Widths();
    assert Big(0, 1) == Big(0, 0) + [0];
  }

  lemma Envelope(a: Bytes, b: Bytes, c: Bytes, d: Bytes, e: Bytes)
    requires |a| == 8 && |b| == 2 && |c| == 8 && |d| == 32
    ensures var s := a + (b + (c + (d + e)));
      |s| == 50 + |e| && s[..8] == a && s[8..10] == b && s[10..18] == c && s[18..50] == d && s[50..] == e
  {
  }

  /** The body: the attempt, the path, three flags, and the observation. */
  lemma BodyLayout(f: Format, r: Record)
    requires Encodable(f, r)
    ensures PutBody(f, r, false) == PutAttempt(f, r.attempt) + Concat([
      Text(r.path), [if r.purpose.rejected then 1 else 0], [if r.purpose.recovery then 1 else 0],
      [if r.purpose.exact then 1 else 0], PutSight(f, r.sight, false)])
  {
    hide Text, PutSight, PutAttempt, AttemptFits, SightFits;
    var path, flags, sight := Text(r.path), PutPurpose(r.purpose), PutSight(f, r.sight, false);
    assert Concat([sight]) == sight;
    assert flags + sight == [flags[0]] + ([flags[1]] + ([flags[2]] + sight));
    ConcatFive(path, [flags[0]], [flags[1]], [flags[2]], sight);
  }

  lemma ConcatFive(a: Bytes, b: Bytes, c: Bytes, d: Bytes, e: Bytes)
    ensures Concat([a, b, c, d, e]) == a + (b + (c + (d + e)))
  {
    assert Concat([e]) == e;
    assert Concat([d, e]) == d + Concat([d, e][1..]) && [d, e][1..] == [e];
    assert Concat([c, d, e]) == c + Concat([c, d, e][1..]) && [c, d, e][1..] == [d, e];
    assert Concat([b, c, d, e]) == b + Concat([b, c, d, e][1..]) && [b, c, d, e][1..] == [c, d, e];
    assert [a, b, c, d, e][1..] == [b, c, d, e];
  }

  /** The attempt's own part of the body, and the observation of a present object. */
  lemma AttemptLayout(f: Format, a: Attempt)
    requires AttemptFits(f, a)
    ensures PutAttempt(f, a) == Concat([Text(a.identity), Text(a.request), Text(a.target), Text(a.backend), a.nonce])
  {
    hide Text;
    ConcatFive(Text(a.identity), Text(a.request), Text(a.target), Text(a.backend), a.nonce);
  }

  lemma SightLayout(f: Format, x: Sight)
    requires SightFits(f, x) && x.observation.Present?
    ensures var o := x.observation.seen;
      PutSight(f, x, false) == Text(x.subject) + Concat([[f.known], [o.kind], [o.provenance], [o.completeness], PutFacts(f, o.facts, 0, false)])
  {
    hide Text, PutFacts;
    var o := x.observation.seen;
    ConcatFive([f.known], [o.kind], [o.provenance], [o.completeness], PutFacts(f, o.facts, 0, false));
  }

  predicate NineKnown(xs: seq<Fact>) {
    && |xs| == 9 && (forall i :: 0 <= i < 9 ==> xs[i].Known?) && (forall i :: 0 <= i < 4 ==> xs[i].datum.Number?)
    && xs[4].datum.Moment? && xs[5].datum.Words? && xs[6].datum.Words? && xs[7].datum.Pair? && xs[8].datum.Words?
  }

  /** The nine facts of an object, when all are known, each after its state: mode, owner, group and size, the time,
      the texts of content, symbolic link target and hard-link anchor, and between the last two the device. */
  lemma FactsLayout(f: Format, xs: seq<Fact>, i: nat)
    requires FactsFit(f, xs, 0) && i < 9 && forall j :: 0 <= j < |xs| ==> xs[j].Known?
    ensures NineKnown(xs) && PutFacts(f, xs, 9, false) == []
    ensures PutFacts(f, xs, i, false) == [f.known] + FactBytes(f, xs, i) + PutFacts(f, xs, i + 1, false)
  {
    Widths();
    hide Big, Text, Signed;
    assert forall j :: 0 <= j < 9 ==> FactFits(f, FIELDS[j], xs[j]);
    assert PutFact(f, FIELDS[i], xs[i], false) == [f.known] + FactBytes(f, xs, i);
  }

  function FactBytes(f: Format, xs: seq<Fact>, i: nat): Bytes
    requires FactsFit(f, xs, 0) && NineKnown(xs) && i < 9
  {
    Widths();
    assert FactFits(f, FIELDS[i], xs[i]);
    var d := xs[i].datum;
    if i == 0 then Big(d.n, 4)
    else if i < 4 then Big(d.n, 8)
    else if i == 4 then Signed(d.seconds) + Big(d.nanoseconds, 4)
    else if i == 7 then Big(d.major, 8) + Big(d.minor, 8)
    else Text(d.text)
  }
}
