/**
 Length-prefixed framing of the bytes that identities are digests of. A reader inverts it,
 so equal byte streams come from equal values; the digest itself is not modelled.
 */
module Framing {
  import opened Wrappers
  import opened Texts
  import Dataset
  import Decimals

  type Byte = b: int | 0 <= b < 256
  type Bytes = seq<Byte>

  const LENGTH_BYTES: nat := 8

  function Power(k: nat): nat { if k == 0 then 1 else 256 * Power(k - 1) }

  /** Everything that fits the eight-byte length prefix: lengths below 2^64. */
  predicate Framable(n: nat) { n < Power(LENGTH_BYTES) }

  // ---- big-endian numbers ----

  function BigEndian(n: nat, k: nat): (b: Bytes)
    ensures |b| == k
  {
    if k == 0 then [] else BigEndian(n / 256, k - 1) + [n % 256]
  }

  function Number(b: Bytes): nat {
    if b == [] then 0 else Number(b[..|b| - 1]) * 256 + b[|b| - 1]
  }

  lemma {:induction false} NumberOfBigEndian(n: nat, k: nat)
    requires n < Power(k)
    ensures Number(BigEndian(n, k)) == n
  {
    if k > 0 {
      NumberOfBigEndian(n / 256, k - 1);
      assert BigEndian(n, k)[..k - 1] == BigEndian(n / 256, k - 1);
    }
  }

  // ---- frames ----

  function Frame(value: Bytes): Bytes { BigEndian(|value|, LENGTH_BYTES) + value }

  function Framed(values: seq<Bytes>): Bytes {
    if values == [] then [] else Frame(values[0]) + Framed(values[1..])
  }

  method FrameAll(values: seq<Bytes>) returns (framed: Bytes)
    ensures framed == Framed(values)
  {
    framed := [];
    for i := 0 to |values|
      invariant framed + Framed(values[i..]) == Framed(values)
    {
      assert values[i..][1..] == values[i + 1..];
      framed := framed + Frame(values[i]);
    }
    assert values[|values|..] == [];
  }

  predicate AllFramable(values: seq<Bytes>) { forall i :: 0 <= i < |values| ==> Framable(|values[i]|) }

  /** Reads frames until the bytes are used up. */
  function Unframed(bytes: Bytes): Option<seq<Bytes>>
    decreases |bytes|
  {
    if bytes == [] then Some([])
    else if |bytes| < LENGTH_BYTES then None
    else
      var n := Number(bytes[..LENGTH_BYTES]);
      if LENGTH_BYTES + n > |bytes| then None
      else
        var others := Unframed(bytes[LENGTH_BYTES + n..]);
        if others.None? then None else Some([bytes[LENGTH_BYTES..LENGTH_BYTES + n]] + others.value)
  }

  lemma {:induction false} ReadFrame(value: Bytes, rest: Bytes)
    requires Framable(|value|)
    ensures var bytes := Frame(value) + rest;
            && |bytes| == LENGTH_BYTES + |value| + |rest|
            && Number(bytes[..LENGTH_BYTES]) == |value|
            && bytes[LENGTH_BYTES..LENGTH_BYTES + |value|] == value
            && bytes[LENGTH_BYTES + |value|..] == rest
  {
    var bytes := Frame(value) + rest;
    NumberOfBigEndian(|value|, LENGTH_BYTES);
    assert bytes[..LENGTH_BYTES] == BigEndian(|value|, LENGTH_BYTES);
  }

  /** The reader inverts the framing. */
  lemma {:induction false} UnframedFramed(values: seq<Bytes>)
    requires AllFramable(values)
    ensures Unframed(Framed(values)) == Some(values)
  {
    if values != [] {
      var rest := values[1..];
      UnframedFramed(rest);
      ReadFrame(values[0], Framed(rest));
      assert values == [values[0]] + rest;
    }
  }

  /** Equal framed bytes come from equal values. */
  lemma {:induction false} FramedInjective(a: seq<Bytes>, b: seq<Bytes>)
    requires AllFramable(a) && AllFramable(b) && Framed(a) == Framed(b)
    ensures a == b
  {
    UnframedFramed(a);
    UnframedFramed(b);
  }

  // ---- the digest stream of a dataset ----

  datatype Row = Row(index: nat, payload: Bytes)

  predicate RowFits(row: Row) { Framable(row.index) && Framable(|row.payload|) }

  /** Two frames per row: its index in eight bytes, and its payload. */
  function Parts(rows: seq<Row>, n: nat): (parts: seq<Bytes>)
    requires n <= |rows|
    ensures |parts| == 2 * n
  {
    if n == 0 then [] else Parts(rows, n - 1) + [BigEndian(rows[n - 1].index, LENGTH_BYTES), rows[n - 1].payload]
  }

  function DigestStream(rows: seq<Row>): Bytes { Framed(Parts(rows, |rows|)) }

  lemma {:induction false} PartsAt(rows: seq<Row>, n: nat, i: nat)
    requires i < n <= |rows|
    ensures Parts(rows, n)[2 * i] == BigEndian(rows[i].index, LENGTH_BYTES)
        && Parts(rows, n)[2 * i + 1] == rows[i].payload
  {
    if i < n - 1 { PartsAt(rows, n - 1, i); }
  }

  lemma {:induction false} EightFits()
    ensures Framable(LENGTH_BYTES)
  {
    assert Power(1) == 256 * Power(0);
    assert Power(2) == 256 * Power(1);
    GrowingPower(2, LENGTH_BYTES);
  }

  lemma {:induction false} GrowingPower(m: nat, k: nat)
    requires m <= k
    ensures Power(m) <= Power(k)
  {
    if m < k { GrowingPower(m, k - 1); }
  }

  lemma {:induction false} PartsFit(rows: seq<Row>, n: nat)
    requires n <= |rows| && forall i :: 0 <= i < |rows| ==> RowFits(rows[i])
    ensures AllFramable(Parts(rows, n))
  {
    if n > 0 {
      PartsFit(rows, n - 1);
      EightFits();
      assert RowFits(rows[n - 1]);
    }
  }

  /** Equal digest streams come from equal indices and payloads. */
  lemma {:induction false} StreamInjective(a: seq<Row>, b: seq<Row>)
    requires (forall i :: 0 <= i < |a| ==> RowFits(a[i])) && (forall i :: 0 <= i < |b| ==> RowFits(b[i]))
    requires DigestStream(a) == DigestStream(b)
    ensures a == b
  {
    PartsFit(a, |a|);
    PartsFit(b, |b|);
    FramedInjective(Parts(a, |a|), Parts(b, |b|));
    assert |a| == |b|;
    forall i | 0 <= i < |a| ensures a[i] == b[i] {
      PartsAt(a, |a|, i);
      PartsAt(b, |b|, i);
      NumberOfBigEndian(a[i].index, LENGTH_BYTES);
      NumberOfBigEndian(b[i].index, LENGTH_BYTES);
    }
  }

  // ---- numbers and profiles as text ----

  predicate IsDigit(b: Byte) { 48 <= b <= 57 }

  /** A number in decimal ASCII digits. */
  function Text(n: nat): (text: Bytes)
    ensures |text| > 0 && forall i :: 0 <= i < |text| ==> IsDigit(text[i])
  {
    var d := Decimals.Digits(n);
    seq(|d|, i requires 0 <= i < |d| => 48 + d[i])
  }

  function Ascii(s: string): Bytes { seq(|s|, i requires 0 <= i < |s| => s[i] as int % 256) }

  lemma {:induction false} TextInjective(a: nat, b: nat)
    requires Text(a) == Text(b)
    ensures a == b
  {
    var d, e := Decimals.Digits(a), Decimals.Digits(b);
    assert |d| == |e|;
    forall i | 0 <= i < |d| ensures d[i] == e[i] { assert Text(a)[i] == Text(b)[i]; }
    assert d == e;
    Decimals.NumberOfDigits(a);
    Decimals.NumberOfDigits(b);
  }

  /** A number ends where the digits end. */
  lemma {:induction false} TextThen(a: nat, r: Bytes, b: nat, s: Bytes)
    requires |r| > 0 && |s| > 0 && !IsDigit(r[0]) && !IsDigit(s[0]) && Text(a) + r == Text(b) + s
    ensures a == b && r == s
  {
    SplitsAt(IsDigit, Text(a), r, Text(b), s);
    TextInjective(a, b);
  }

  type AcceptedProfile = p: Dataset.Profile | Dataset.Accepted(p) witness Dataset.Profile(0, 0, 0, 0)

  const BOUNDARY := "{\"boundary_count\":"
  const DUPLICATES := ",\"duplicate_count\":"
  const MALFORMED := ",\"malformed_count\":"
  const RECORDS := ",\"record_count\":"

  /** The canonical JSON of a profile. */
  function ProfileText(p: AcceptedProfile): Bytes {
    Ascii(BOUNDARY) + (Text(p.boundary) + (Ascii(DUPLICATES) + (Text(p.duplicates) +
    (Ascii(MALFORMED) + (Text(p.malformed) + (Ascii(RECORDS) + (Text(p.records) + Ascii("}"))))))))
  }

  /** One more labelled count at the front of two equal texts. */
  lemma {:induction false} LabelThen(name: Bytes, a: nat, r: Bytes, b: nat, s: Bytes)
    requires |r| > 0 && |s| > 0 && !IsDigit(r[0]) && !IsDigit(s[0])
    requires name + (Text(a) + r) == name + (Text(b) + s)
    ensures a == b && r == s
  {
    SamePrefix(name, Text(a) + r, Text(b) + s);
    TextThen(a, r, b, s);
  }

  function Tail3(p: AcceptedProfile): Bytes { Ascii(RECORDS) + (Text(p.records) + Ascii("}")) }
  function Tail2(p: AcceptedProfile): Bytes { Ascii(MALFORMED) + (Text(p.malformed) + Tail3(p)) }
  function Tail1(p: AcceptedProfile): Bytes { Ascii(DUPLICATES) + (Text(p.duplicates) + Tail2(p)) }

  lemma TailsAreNoDigits(p: AcceptedProfile)
    ensures |Tail1(p)| > 0 && Tail1(p)[0] == 44 && |Tail2(p)| > 0 && Tail2(p)[0] == 44 && |Tail3(p)| > 0
        && Tail3(p)[0] == 44
  {
  }

  /** Equal profile texts come from equal profiles. */
  lemma {:induction false} ProfileTextInjective(p: AcceptedProfile, q: AcceptedProfile)
    requires ProfileText(p) == ProfileText(q)
    ensures p == q
  {
    TailsAreNoDigits(p);
    TailsAreNoDigits(q);
    LabelThen(Ascii(BOUNDARY), p.boundary, Tail1(p), q.boundary, Tail1(q));
    LabelThen(Ascii(DUPLICATES), p.duplicates, Tail2(p), q.duplicates, Tail2(q));
    LabelThen(Ascii(MALFORMED), p.malformed, Tail3(p), q.malformed, Tail3(q));
    assert Ascii("}")[0] == 125;
    LabelThen(Ascii(RECORDS), p.records, Ascii("}"), q.records, Ascii("}"));
  }

  // ---- the identity preimage ----

  datatype Identity = Identity(
    format: Bytes, generator: nat, seed: nat, scenario: nat, profile: AcceptedProfile, rowsDigest: Bytes)

  function Fields(id: Identity): seq<Bytes> {
    [id.format, Text(id.generator), Text(id.seed), Text(id.scenario), ProfileText(id.profile), id.rowsDigest]
  }

  function Preimage(header: Bytes, id: Identity): Bytes { header + Framed(Fields(id)) }

  /** Equal preimages come from equal format, versions, seed, profile and row digest. */
  lemma {:induction false} PreimageInjective(header: Bytes, a: Identity, b: Identity)
    requires AllFramable(Fields(a)) && AllFramable(Fields(b)) && Preimage(header, a) == Preimage(header, b)
    ensures a == b
  {
    SamePrefix(header, Framed(Fields(a)), Framed(Fields(b)));
    FramedInjective(Fields(a), Fields(b));
    assert Fields(a)[0] == Fields(b)[0] && Fields(a)[1] == Fields(b)[1] && Fields(a)[2] == Fields(b)[2];
    assert Fields(a)[3] == Fields(b)[3] && Fields(a)[4] == Fields(b)[4] && Fields(a)[5] == Fields(b)[5];
    TextInjective(a.generator, b.generator);
    TextInjective(a.seed, b.seed);
    TextInjective(a.scenario, b.scenario);
    ProfileTextInjective(a.profile, b.profile);
  }

  // ---- the order of the parts ----

  /** The preimage reads back as its six fields: format, generator version, seed, scenario
      version, profile and row digest, behind the header. */
  lemma {:induction false} PreimageReads(header: Bytes, id: Identity)
    requires AllFramable(Fields(id))
    ensures var bytes := Preimage(header, id);
            && bytes[..|header|] == header
            && var frames := Unframed(bytes[|header|..]);
               && frames.Some? && |frames.value| == 6
               && frames.value[0] == id.format && frames.value[5] == id.rowsDigest
               && frames.value[1] == Text(id.generator) && frames.value[2] == Text(id.seed)
               && frames.value[3] == Text(id.scenario) && frames.value[4] == ProfileText(id.profile)
  {
    var bytes := Preimage(header, id);
    assert bytes[|header|..] == Framed(Fields(id));
    UnframedFramed(Fields(id));
  }

  /** The text of a small profile, written out. */
  lemma {:induction false} ProfileTextExample()
    ensures ProfileText(Dataset.Profile(4, 1, 2, 0)) ==
            Ascii("{\"boundary_count\":") + Ascii("2") + Ascii(",\"duplicate_count\":") + Ascii("0")
            + Ascii(",\"malformed_count\":") + Ascii("1") + Ascii(",\"record_count\":") + Ascii("4") + Ascii("}")
  {
    DigitText(2, "2");
    DigitText(0, "0");
    DigitText(1, "1");
    DigitText(4, "4");
    NineParts(Ascii(BOUNDARY), Ascii("2"), Ascii(DUPLICATES), Ascii("0"), Ascii(MALFORMED), Ascii("1"),
              Ascii(RECORDS), Ascii("4"), Ascii("}"));
  }

  lemma {:induction false} NineParts(
    a: Bytes, b: Bytes, c: Bytes, d: Bytes, e: Bytes, f: Bytes, g: Bytes, h: Bytes, i: Bytes)
    ensures a + (b + (c + (d + (e + (f + (g + (h + i))))))) == a + b + c + d + e + f + g + h + i
  {
    assert f + (g + (h + i)) == f + g + h + i;
    assert c + (d + (e + (f + g + h + i))) == c + d + e + f + g + h + i;
  }

  lemma {:induction false} DigitText(n: nat, digit: string)
    requires n < 10 && digit == ["0", "1", "2", "3", "4", "5", "6", "7", "8", "9"][n]
    ensures Text(n) == Ascii(digit)
  {
  }

  /** Numbers below 256 fill the last byte only. */
  lemma {:induction false} SmallNumber(n: nat, width: nat)
    requires n < 256 && width > 0
    ensures |BigEndian(n, width)| == width && BigEndian(n, width)[width - 1] == n
    ensures forall i :: 0 <= i < width - 1 ==> BigEndian(n, width)[i] == 0
  {
    if width > 1 {
      SmallNumber(0, width - 1);
      assert n / 256 == 0;
    }
  }

  /** A frame, written out: the length in eight bytes, the most significant first. */
  lemma {:induction false} FrameExample()
    ensures Framed([[65, 66, 67]]) == [0, 0, 0, 0, 0, 0, 0, 3, 65, 66, 67]
    ensures BigEndian(258, 2) == [1, 2]
  {
    SmallNumber(3, 8);
    SmallNumber(1, 1);
    assert BigEndian(3, 8) == [0, 0, 0, 0, 0, 0, 0, 3];
  }
}
