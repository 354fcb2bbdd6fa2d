/** The inline body cap of HTTP evidence: encode as UTF-8, cut at a byte limit, decode
    what is left while ignoring broken sequences.  Texts are sequences of code points, as
    in the original, so they may hold lone surrogates. */
module Utf8Cap {
  type CodePoint = c: int | 0 <= c < 0x11_0000
  type Byte = b: int | 0 <= b < 0x100
  type Text = seq<CodePoint>

  const MAX_EVIDENCE_BODY: nat := 64 * 1024

  predicate Surrogate(c: CodePoint) {
    0xD800 <= c <= 0xDFFF
  }

  /** What the encoder's "replace" handler writes for a code point: '?' for a surrogate. */
  function Scalar(c: CodePoint): CodePoint {
    if Surrogate(c) then 0x3F else c
  }

  function Replaced(s: Text): Text {
    seq(|s|, i requires 0 <= i < |s| => Scalar(s[i]))
  }

  /** The UTF-8 table, section 3 of RFC 3629. */
  function EncodeOne(c: CodePoint): (bytes: seq<Byte>)
    ensures 1 <= |bytes| <= 4
  {
    if c < 0x80 then [c]
    else if c < 0x800 then [0xC0 + c / 64, 0x80 + c % 64]
    else if c < 0x1_0000 then [0xE0 + c / 64 / 64, 0x80 + c / 64 % 64, 0x80 + c % 64]
    else [0xF0 + c / 64 / 64 / 64, 0x80 + c / 64 / 64 % 64, 0x80 + c / 64 % 64, 0x80 + c % 64]
  }

  function Encode(s: Text): seq<Byte> {
    if s == [] then [] else EncodeOne(Scalar(s[0])) + Encode(s[1..])
  }

  // ----- decoding with errors ignored

  predicate Continuation(b: Byte) {
    0x80 <= b < 0xC0
  }

  /** Length of the sequence a lead byte announces; 0 for a byte that cannot lead. */
  function Announced(lead: Byte): nat {
    if lead < 0x80 then 1
    else if 0xC2 <= lead < 0xE0 then 2
    else if 0xE0 <= lead < 0xF0 then 3
    else if 0xF0 <= lead < 0xF5 then 4
    else 0
  }

  /** The second byte is narrower for four lead bytes: no overlong forms, no surrogates,
      nothing above U+10FFFF. */
  predicate SecondOk(lead: Byte, b: Byte) {
    && Continuation(b)
    && (lead == 0xE0 ==> 0xA0 <= b)
    && (lead == 0xED ==> b < 0xA0)
    && (lead == 0xF0 ==> 0x90 <= b)
    && (lead == 0xF4 ==> b < 0x90)
  }

  /** How many of the announced bytes are present and well formed. */
  function WellFormedRun(b: seq<Byte>): (n: nat)
    requires b != [] && Announced(b[0]) != 0
    ensures 1 <= n <= |b| && n <= Announced(b[0])
  {
    var want := Announced(b[0]);
    if want == 1 || |b| == 1 || !SecondOk(b[0], b[1]) then 1
    else if want == 2 || |b| == 2 || !Continuation(b[2]) then 2
    else if want == 3 || |b| == 3 || !Continuation(b[3]) then 3
    else 4
  }

  function Assemble(b: seq<Byte>): int
    requires 1 <= |b| <= 4
  {
    var b0: int := b[0];
    if |b| == 1 then b0
    else
      var b1: int := b[1];
      if |b| == 2 then (b0 - 0xC0) * 64 + (b1 - 0x80)
      else
        var b2: int := b[2];
        if |b| == 3 then ((b0 - 0xE0) * 64 + (b1 - 0x80)) * 64 + (b2 - 0x80)
        else
          var b3: int := b[3];
          (((b0 - 0xF0) * 64 + (b1 - 0x80)) * 64 + (b2 - 0x80)) * 64 + (b3 - 0x80)
  }

  function DecodeIgnore(b: seq<Byte>): Text {
    if b == [] then []
    else if Announced(b[0]) == 0 then DecodeIgnore(b[1..])
    else
      var n := WellFormedRun(b);
      if n == Announced(b[0])
      then [Assemble(b[..n])] + DecodeIgnore(b[n..])
      else DecodeIgnore(b[n..])
  }

  function Cap(v: Text): Text {
    if |Encode(v)| > MAX_EVIDENCE_BODY then DecodeIgnore(Encode(v)[..MAX_EVIDENCE_BODY]) else v
  }

  // ----- one code point

  lemma {:induction false} AssembleEncoded(c: CodePoint)
    ensures Assemble(EncodeOne(c)) == c
  {
  }

  lemma {:induction false} LeadOfEncoded(c: CodePoint)
    requires !Surrogate(c)
    ensures Announced(EncodeOne(c)[0]) == |EncodeOne(c)|
  {
  }

  lemma {:induction false} RunOfEncoded(c: CodePoint, k: nat, rest: seq<Byte>)
    requires !Surrogate(c)
    requires 0 < k <= |EncodeOne(c)| && (k < |EncodeOne(c)| ==> rest == [])
    ensures Announced(EncodeOne(c)[0]) == |EncodeOne(c)|
    ensures WellFormedRun(EncodeOne(c)[..k] + rest) == k
  {
    LeadOfEncoded(c);
    var e := EncodeOne(c);
    var b := e[..k] + rest;
    assert forall i :: 0 <= i < k ==> b[i] == e[i];
  }

  lemma {:induction false} DecodeWhole(c: CodePoint, rest: seq<Byte>)
    requires !Surrogate(c)
    ensures DecodeIgnore(EncodeOne(c) + rest) == [c] + DecodeIgnore(rest)
  {
    var e := EncodeOne(c);
    var b := e + rest;
    assert e[..|e|] == e && b[..|e|] == e && b[|e|..] == rest;
    RunOfEncoded(c, |e|, rest);
    AssembleEncoded(c);
  }

  /** A sequence cut before its last byte decodes to nothing. */
  lemma {:induction false} DecodeCut(c: CodePoint, k: nat)
    requires !Surrogate(c) && k < |EncodeOne(c)|
    ensures DecodeIgnore(EncodeOne(c)[..k]) == []
  {
    var b := EncodeOne(c)[..k];
    if k > 0 {
      assert b + [] == b && b[k..] == [];
      RunOfEncoded(c, k, []);
    }
  }

  // ----- texts

  lemma {:induction false} EncodeReplaced(s: Text)
    ensures Encode(Replaced(s)) == Encode(s)
  {
    if s != [] {
      assert Replaced(s)[1..] == Replaced(s[1..]);
      EncodeReplaced(s[1..]);
    }
  }

  /** Decoding undoes encoding, up to the replacement of lone surrogates. */
  lemma {:induction false} RoundTrip(s: Text)
    ensures DecodeIgnore(Encode(s)) == Replaced(s)
  {
    if s != [] {
      DecodeWhole(Scalar(s[0]), Encode(s[1..]));
      RoundTrip(s[1..]);
      assert Replaced(s) == [Scalar(s[0])] + Replaced(s[1..]);
    }
  }

  lemma {:induction false} EncodePrefix(s: Text, k: nat)
    requires k <= |s|
    ensures Encode(s[..k]) <= Encode(s)
  {
    if k > 0 {
      assert s[..k][1..] == s[1..][..k - 1];
      EncodePrefix(s[1..], k - 1);
    }
  }

  lemma {:induction false} EncodeMonotone(s: Text, j: nat, k: nat)
    requires j <= k <= |s|
    ensures |Encode(s[..j])| <= |Encode(s[..k])|
  {
    assert s[..k][..j] == s[..j];
    EncodePrefix(s[..k], j);
  }

  /** Cutting the encoding anywhere and decoding gives a code-point prefix that leaves less
      than the next code point's bytes unused. */
  lemma {:induction false} DecodeOfCut(s: Text, n: nat) returns (k: nat)
    requires n <= |Encode(s)|
    ensures k <= |s| && DecodeIgnore(Encode(s)[..n]) == Replaced(s)[..k]
    ensures |Encode(s[..k])| <= n
    ensures k < |s| ==> n < |Encode(s[..k])| + |EncodeOne(Scalar(s[k]))|
    ensures k == |s| ==> n == |Encode(s)|
  {
    if s == [] {
      k := 0;
    } else {
      var e := EncodeOne(Scalar(s[0]));
      if n < |e| {
        assert Encode(s)[..n] == e[..n];
        DecodeCut(Scalar(s[0]), n);
        k := 0;
      } else {
        var tail := DecodeOfCut(s[1..], n - |e|);
        var rest, decoded := Encode(s[1..]), Replaced(s[1..])[..tail];
        CutInTail(Scalar(s[0]), e, rest, rest[..n - |e|], Encode(s), n, decoded);
        k := tail + 1;
        PrefixWhole(s, s[1..], tail);
      }
    }
  }

  lemma {:induction false} PrefixWhole(s: Text, rest: Text, k: nat)
    requires s != [] && rest == s[1..] && k <= |rest|
    ensures |Encode(s[..k + 1])| == |EncodeOne(Scalar(s[0]))| + |Encode(rest[..k])|
    ensures Replaced(s)[..k + 1] == [Scalar(s[0])] + Replaced(rest)[..k]
  {
    assert s[..k + 1][1..] == rest[..k];
  }

  lemma {:induction false} CutInTail(c: CodePoint, e: seq<Byte>, rest: seq<Byte>, cut: seq<Byte>, bytes: seq<Byte>,
                                     n: nat, t: Text)
    requires !Surrogate(c) && e == EncodeOne(c) && bytes == e + rest && |e| <= n <= |bytes|
    requires cut == rest[..n - |e|] && DecodeIgnore(cut) == t
    ensures DecodeIgnore(bytes[..n]) == [c] + t
  {
    assert bytes[..n] == e + cut;
    DecodeWhole(c, cut);
  }

  lemma {:induction false} EncodeSnoc(s: Text, k: nat)
    requires k < |s|
    ensures Encode(s[..k + 1]) == Encode(s[..k]) + EncodeOne(Scalar(s[k]))
  {
    if k == 0 {
      assert s[..1] == [s[0]];
      assert Encode(s[..1]) == EncodeOne(Scalar(s[0])) + Encode([]);
    } else {
      assert s[..k + 1][1..] == s[1..][..k];
      assert s[..k][1..] == s[1..][..k - 1];
      EncodeSnoc(s[1..], k - 1);
    }
  }

  /** The cap keeps a fitting text as it is, and otherwise the longest code-point prefix
      (of the text as the encoder writes it) that fits, wasting at most three bytes. */
  lemma {:induction false} CapIsLongestFittingPrefix(v: Text)
    ensures |Encode(v)| <= MAX_EVIDENCE_BODY <==> Cap(v) == v
    ensures |Encode(Cap(v))| <= MAX_EVIDENCE_BODY
    ensures |Encode(v)| > MAX_EVIDENCE_BODY ==>
              && Cap(v) <= Replaced(v)
              && MAX_EVIDENCE_BODY <= |Encode(Cap(v))| + 3
              && forall q: Text :: q <= Replaced(v) && |Encode(q)| <= MAX_EVIDENCE_BODY ==> q <= Cap(v)
  {
    if |Encode(v)| > MAX_EVIDENCE_BODY {
      var r := Replaced(v);
      EncodeReplaced(v);
      var k := DecodeOfCut(v, MAX_EVIDENCE_BODY);
      assert r[..k] == Replaced(v[..k]);
      EncodeReplaced(v[..k]);
      EncodeSnoc(r, k);
      assert Scalar(r[k]) == Scalar(v[k]);
      forall q: Text | q <= r && |Encode(q)| <= MAX_EVIDENCE_BODY
        ensures q <= r[..k]
      {
        assert q == r[..|q|];
        if |q| > k {
          EncodeMonotone(r, k + 1, |q|);
        }
      }
    }
  }

  /** A text without lone surrogates is truncated to a prefix of itself. */
  lemma {:induction false} CapOfScalarText(v: Text)
    requires forall i :: 0 <= i < |v| ==> !Surrogate(v[i])
    ensures Cap(v) <= v
  {
    CapIsLongestFittingPrefix(v);
    assert Replaced(v) == v;
  }

  /** Validating a message a second time, as native adapters do, leaves its body alone. */
  lemma {:induction false} CapIsIdempotent(v: Text)
    ensures Cap(Cap(v)) == Cap(v)
  {
    CapIsLongestFittingPrefix(v);
  }
}
