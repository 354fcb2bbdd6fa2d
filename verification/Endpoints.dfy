/** Which paths are one endpoint, said over the characters of their segments. */
module Endpoints {
  import opened Wrappers
  import opened Findings

  // ----- the kinds of segments

  /** A final line feed does not count, as the patterns' end mark allows one. */
  ghost predicate WrittenAs(seg: string, text: string) {
    seg == text || seg == text + "\n"
  }

  ghost predicate Digits(text: string) {
    text != "" && forall c :: c in text ==> '0' <= c <= '9'
  }

  ghost predicate HexDigits(text: string) {
    forall c :: c in text ==> '0' <= c <= '9' || 'a' <= c <= 'f' || 'A' <= c <= 'F'
  }

  /** Five groups of hexadecimal digits, of 8, 4, 4, 4 and 12. */
  ghost predicate Grouped(text: string, a: string, b: string, c: string, d: string, e: string) {
    && |a| == 8 && |b| == |c| == |d| == 4 && |e| == 12
    && HexDigits(a) && HexDigits(b) && HexDigits(c) && HexDigits(d) && HexDigits(e)
    && text == a + "-" + b + "-" + c + "-" + d + "-" + e
  }

  ghost predicate NumberSegment(seg: string) {
    exists text :: WrittenAs(seg, text) && Digits(text)
  }

  ghost predicate HashSegment(seg: string) {
    !NumberSegment(seg) && exists text :: WrittenAs(seg, text) && HexDigits(text) && |text| >= 8
  }

  ghost predicate UuidSegment(seg: string) {
    exists text, a, b, c, d, e :: WrittenAs(seg, text) && Grouped(text, a, b, c, d, e)
  }

  // ----- the predicates of the code are these

  lemma {:induction false} BodyIsText(seg: string, text: string)
    requires WrittenAs(seg, text) && (text != "" ==> text[|text| - 1] != '\n')
    ensures text != "" || seg == "" || seg == "\n"
    ensures Body(seg) == text
  {
  }

  lemma {:induction false} SegmentIsBody(seg: string)
    ensures WrittenAs(seg, Body(seg))
  {
  }

  lemma {:induction false} NumericExactly(seg: string)
    ensures IsNumeric(seg) <==> NumberSegment(seg)
  {
    SegmentIsBody(seg);
    if IsNumeric(seg) {
      assert Digits(Body(seg));
    }
    if text :| WrittenAs(seg, text) && Digits(text) {
      assert text[|text| - 1] in text;
      BodyIsText(seg, text);
      forall i | 0 <= i < |text| ensures IsDigit(text[i]) {
        assert text[i] in text;
      }
    }
  }

  lemma {:induction false} HexExactly(seg: string)
    ensures !IsNumeric(seg) ==> (IsHexLike(seg) <==> HashSegment(seg))
    ensures IsNumeric(seg) ==> !HashSegment(seg)
  {
    NumericExactly(seg);
    SegmentIsBody(seg);
    if IsHexLike(seg) {
      assert HexDigits(Body(seg));
    }
    if text :| WrittenAs(seg, text) && HexDigits(text) && |text| >= 8 {
      assert text[|text| - 1] in text;
      BodyIsText(seg, text);
      forall i | 0 <= i < |text| ensures IsHex(text[i]) {
        assert text[i] in text;
      }
    }
  }

  lemma {:induction false} HexAt(text: string, part: string, from: nat)
    requires from + |part| <= |text| && part == text[from..from + |part|]
    ensures HexDigits(part) <==> forall i :: from <= i < from + |part| ==> IsHex(text[i])
  {
    forall i | from <= i < from + |part| ensures text[i] in part {
      assert text[i] == part[i - from];
    }
  }

  lemma {:induction false} GroupedAt(text: string, a: string, b: string, c: string, d: string, e: string)
    requires |a| == 8 && |b| == |c| == |d| == 4 && |e| == 12
    ensures text == a + "-" + b + "-" + c + "-" + d + "-" + e <==>
            && |text| == 36 && text[8] == text[13] == text[18] == text[23] == '-'
            && a == text[0..8] && b == text[9..13] && c == text[14..18] && d == text[19..23] && e == text[24..36]
  {
    if |text| == 36 && text[8] == text[13] == text[18] == text[23] == '-'
       && a == text[0..8] && b == text[9..13] && c == text[14..18] && d == text[19..23] && e == text[24..36] {
      assert text == a + [text[8]] + b + [text[13]] + c + [text[18]] + d + [text[23]] + e;
    }
  }

  lemma {:induction false} UuidText(text: string, a: string, b: string, c: string, d: string, e: string)
    requires |text| == 36 && text[8] == text[13] == text[18] == text[23] == '-'
    requires a == text[0..8] && b == text[9..13] && c == text[14..18] && d == text[19..23] && e == text[24..36]
    ensures (HexDigits(a) && HexDigits(b) && HexDigits(c) && HexDigits(d) && HexDigits(e)) <==>
            forall i :: 0 <= i < 36 && i !in {8, 13, 18, 23} ==> IsHex(text[i])
  {
    HexAt(text, a, 0);
    HexAt(text, b, 9);
    HexAt(text, c, 14);
    HexAt(text, d, 19);
    HexAt(text, e, 24);
  }

  lemma {:induction false} UuidExactly(seg: string)
    ensures IsUuid(seg) <==> UuidSegment(seg)
  {
    SegmentIsBody(seg);
    if IsUuid(seg) {
      var t := Body(seg);
      var a, b, c, d, e := t[0..8], t[9..13], t[14..18], t[19..23], t[24..36];
      assert t[8] == t[13] == t[18] == t[23] == '-';
      UuidText(t, a, b, c, d, e);
      GroupedAt(t, a, b, c, d, e);
      assert Grouped(t, a, b, c, d, e);
    }
    if t, a, b, c, d, e :| WrittenAs(seg, t) && Grouped(t, a, b, c, d, e) {
      GroupedAt(t, a, b, c, d, e);
      UuidText(t, a, b, c, d, e);
      assert IsHex(t[35]);
      BodyIsText(seg, t);
    }
  }

  lemma {:induction false} UuidIsNothingElse(seg: string)
    requires IsUuid(seg)
    ensures !IsNumeric(seg) && !IsHexLike(seg)
  {
    assert Body(seg)[8] == '-';
  }

  /** Exactly which segments collapse, and into what: runs of digits, longer runs of hexadecimal
      digits that are not all decimal, and five hyphenated groups of them. */
  lemma {:induction false} SegmentExactly(seg: string, out: string)
    requires out == NormalizeSegment(seg)
    ensures UuidSegment(seg) ==> out == "{uuid}"
    ensures NumberSegment(seg) ==> out == "{id}"
    ensures HashSegment(seg) ==> out == "{hash}"
    ensures !UuidSegment(seg) && !NumberSegment(seg) && !HashSegment(seg) ==> out == seg
  {
    UuidExactly(seg);
    NumericExactly(seg);
    HexExactly(seg);
    if IsUuid(seg) {
      UuidIsNothingElse(seg);
    }
  }

  // ----- two paths, one endpoint

  /** A segment that collapses to a mark, or is spelled like it. */
  ghost predicate Marked(seg: string, mark: string) {
    || seg == mark
    || (mark == "{id}" && NumberSegment(seg)) || (mark == "{hash}" && HashSegment(seg))
    || (mark == "{uuid}" && UuidSegment(seg))
  }

  ghost predicate SameSegment(x: string, y: string) {
    x == y || exists mark :: mark in ["{id}", "{hash}", "{uuid}"] && Marked(x, mark) && Marked(y, mark)
  }

  lemma {:induction false} MarkExactly(seg: string, mark: string)
    requires mark in ["{id}", "{hash}", "{uuid}"]
    ensures NormalizeSegment(seg) == mark <==> Marked(seg, mark)
  {
    SegmentExactly(seg, NormalizeSegment(seg));
    assert "{id}"[1] == 'i' && "{hash}"[1] == 'h' && "{uuid}"[1] == 'u';
    MarkStays(mark);
  }

  lemma {:induction false} MarkStays(mark: string)
    requires mark in ["{id}", "{hash}", "{uuid}"]
    ensures NormalizeSegment(mark) == mark
  {
    assert mark[0] == '{' && mark[|mark| - 1] == '}';
  }

  lemma {:induction false} SameSegmentExactly(x: string, y: string)
    ensures NormalizeSegment(x) == NormalizeSegment(y) <==> SameSegment(x, y)
  {
    var marks := ["{id}", "{hash}", "{uuid}"];
    assert marks[0] == "{id}" && marks[1] == "{hash}" && marks[2] == "{uuid}";
    SegmentExactly(x, NormalizeSegment(x));
    SegmentExactly(y, NormalizeSegment(y));
    if NormalizeSegment(x) == NormalizeSegment(y) && x != y {
      var mark := NormalizeSegment(x);
      assert mark in marks;
      MarkExactly(x, mark);
      MarkExactly(y, mark);
    }
    if mark :| mark in marks && Marked(x, mark) && Marked(y, mark) {
      MarkExactly(x, mark);
      MarkExactly(y, mark);
    }
  }

  /** The empty path counts as "/". */
  function SegmentsOf(path: string): seq<string> {
    SplitPath(if path == "" then "/" else path)
  }

  lemma {:induction false} NormalizedFrom(path: string)
    ensures NormalizeEndpoint(path) == JoinPath(NormalizeSegments(SegmentsOf(path)))
    ensures SplitPath(NormalizeEndpoint(path)) == NormalizeSegments(SegmentsOf(path))
  {
    EmptyPath();
    var p := if path == "" then "/" else path;
    var segs := SplitPath(p);
    var n := NormalizeSegments(segs);
    SegmentsStay(segs);
    SplitIsEmpty(p);
    SegmentStays(segs[0]);
    assert |segs| == 1 ==> segs == [segs[0]];
    assert JoinPath(n) != "";
  }

  /** Two paths have the same endpoint exactly when they have as many segments, and each segment
      agrees with its counterpart or is of the same kind; a segment spelled like the mark of a kind
      is of that kind. */
  lemma {:induction false} SameEndpointExactly(p: string, q: string, a: seq<string>, b: seq<string>)
    requires a == SegmentsOf(p) && b == SegmentsOf(q)
    ensures NormalizeEndpoint(p) == NormalizeEndpoint(q) <==>
            |a| == |b| && forall i :: 0 <= i < |a| ==> SameSegment(a[i], b[i])
  {
    NormalizedFrom(p);
    NormalizedFrom(q);
    var m, n := NormalizeSegments(a), NormalizeSegments(b);
    assert NormalizeEndpoint(p) == NormalizeEndpoint(q) <==> m == n;
    if |a| == |b| {
      forall i | 0 <= i < |a| ensures m[i] == n[i] <==> SameSegment(a[i], b[i]) {
        SameSegmentExactly(a[i], b[i]);
      }
    }
  }

  /** The segments are those between the slashes. */
  lemma {:induction false} SegmentsExactly(path: string, segs: seq<string>)
    requires |segs| > 0 && forall i :: 0 <= i < |segs| ==> '/' !in segs[i]
    ensures SplitPath(path) == segs <==> JoinPath(segs) == path
  {
    SplitOfJoin(segs);
    JoinOfSplit(path);
  }

  lemma {:induction false} JoinOfSplit(path: string)
    ensures JoinPath(SplitPath(path)) == path
  {
    if path != "" {
      JoinOfSplit(path[1..]);
      var rest := SplitPath(path[1..]);
      if path[0] == '/' {
        assert ([""] + rest)[1..] == rest;
      } else {
        var all := [[path[0]] + rest[0]] + rest[1..];
        assert all[1..] == rest[1..];
        if |rest| > 1 {
          assert JoinPath(rest) == rest[0] + "/" + JoinPath(rest[1..]);
          assert JoinPath(all) == [path[0]] + (rest[0] + "/" + JoinPath(rest[1..]));
        }
      }
    }
  }

  // ----- two places, one fingerprint

  /** Nothing is named: no text, the empty one, or the star that stands for either. */
  predicate Unnamed(name: Option<string>) {
    name.None? || name.value == "" || name.value == "*"
  }

  predicate SameName(a: Option<string>, b: Option<string>) {
    a == b || (Unnamed(a) && Unnamed(b))
  }

  lemma {:induction false} SameNameExactly(a: Option<string>, b: Option<string>)
    ensures OrStar(a) == OrStar(b) <==> SameName(a, b)
  {
  }

  /** Two places of one fingerprint, for hosts, paths and parameters free of the separator: the same
      class, host and port, as many segments with each pair agreeing or of one kind, and the same
      method and parameter, where naming none is one case. */
  lemma {:induction false} SamePlaceExactly(c: string, l: Location, d: string, m: Location, a: seq<string>,
                                            b: seq<string>)
    requires PipeFree(c) && PipeFree(d) && PipeFree(l.host) && PipeFree(m.host) && PipeFree(l.path) && PipeFree(m.path)
    requires PipeFree(OrStar(l.parameter)) && PipeFree(OrStar(m.parameter))
    requires a == SegmentsOf(l.path) && b == SegmentsOf(m.path)
    ensures Fingerprint(c, l) == Fingerprint(d, m) <==>
              && c == d && l.host == m.host && l.port == m.port
              && |a| == |b| && (forall i :: 0 <= i < |a| ==> SameSegment(a[i], b[i]))
              && SameName(l.verb, m.verb) && SameName(l.parameter, m.parameter)
  {
    SameFingerprintExactly(c, l, d, m);
    SameEndpointExactly(l.path, m.path, a, b);
    SameNameExactly(l.verb, m.verb);
    SameNameExactly(l.parameter, m.parameter);
  }
}
