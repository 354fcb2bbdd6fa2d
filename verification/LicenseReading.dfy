/** The text-based evaluator computes the flat reading: parentheses play no part in it. */
module LicenseReading {
  import opened Text
  import opened LicensePolicy
  import opened LicenseMeaning

  // ----- keywords between blanks

  lemma {:induction false} SeparatorShape(w: Keyword)
    ensures |Separator(w)| == |Spelling(w)| + 2
    ensures Separator(w)[0] == ' ' && Separator(w)[|Separator(w)| - 1] == ' '
    ensures forall i :: 1 <= i < |Separator(w)| - 1 ==>
            Separator(w)[i] == Spelling(w)[i - 1] && 'A' <= Separator(w)[i] <= 'Z'
  {
  }

  /** The character under position `j` of a match. */
  lemma {:induction false} MatchChar(s: string, pat: string, k: int, j: int)
    requires MatchAt(s, pat, k) && k <= j < k + |pat|
    ensures UpperChar(s[j]) == pat[j - k]
  {
    var i := j - k;
    assert UpperChar(s[k + i]) == pat[i];
  }

  /** A match moves along with the characters under it. */
  lemma {:induction false} MatchMoves(s: string, t: string, pat: string, k: int, d: int)
    requires MatchAt(s, pat, k) && 0 <= k + d && k + d + |pat| <= |t|
    requires forall j :: k <= j < k + |pat| ==> s[j] == t[j + d]
    ensures MatchAt(t, pat, k + d)
  {
    forall i | 0 <= i < |pat| ensures UpperChar(t[k + d + i]) == pat[i] {
      assert UpperChar(s[k + i]) == pat[i];
      var j := k + i;
      assert s[j] == t[j + d];
    }
  }

  lemma {:induction false} MatchInJoin(x: string, y: string, w: Keyword, k: int)
    requires MatchAt(" " + (x + " " + y) + " ", Separator(w), k)
    ensures MatchAt(" " + x + " ", Separator(w), k) || MatchAt(" " + y + " ", Separator(w), k - |x| - 1)
  {
    var sep, s, mid := Separator(w), " " + (x + " " + y) + " ", |x| + 1;
    SeparatorShape(w);
    if k < mid && mid < k + |sep| {
      MatchChar(s, sep, k, mid);
      assert s[mid] == ' ';
    }
    if k + |sep| <= mid + 1 {
      assert s[..mid + 1] == " " + x + " ";
      MatchMoves(s, s[..mid + 1], sep, k, 0);
    } else {
      assert s[mid..] == " " + y + " ";
      MatchMoves(s, s[mid..], sep, k, -mid);
    }
  }

  lemma {:induction false} FreeJoin(x: string, y: string, w: Keyword)
    requires Free(x, w) && Free(y, w)
    ensures Free(x + " " + y, w)
  {
    forall k ensures !MatchAt(" " + (x + " " + y) + " ", Separator(w), k) {
      if MatchAt(" " + (x + " " + y) + " ", Separator(w), k) {
        MatchInJoin(x, y, w, k);
      }
    }
  }

  lemma {:induction false} MatchAfterOpen(s: string, w: Keyword, k: int)
    requires MatchAt(" " + ("(" + s) + " ", Separator(w), k)
    ensures MatchAt(" " + s + " ", Separator(w), k - 1)
  {
    var sep, b, a := Separator(w), " " + ("(" + s) + " ", " " + s + " ";
    SeparatorShape(w);
    MatchChar(b, sep, k, k);
    MatchChar(b, sep, k, k + 1);
    assert forall j :: 2 <= j < |b| ==> b[j] == a[j - 1];
    MatchMoves(b, a, sep, k, -1);
  }

  lemma {:induction false} FreeOpen(s: string, w: Keyword)
    requires Free(s, w)
    ensures Free("(" + s, w)
  {
    forall k ensures !MatchAt(" " + ("(" + s) + " ", Separator(w), k) {
      if MatchAt(" " + ("(" + s) + " ", Separator(w), k) {
        MatchAfterOpen(s, w, k);
      }
    }
  }

  lemma {:induction false} MatchBeforeClose(s: string, w: Keyword, k: int)
    requires MatchAt(" " + (s + ")") + " ", Separator(w), k)
    ensures MatchAt(" " + s + " ", Separator(w), k)
  {
    var sep, b, a := Separator(w), " " + (s + ")") + " ", " " + s + " ";
    SeparatorShape(w);
    MatchChar(b, sep, k, k + |sep| - 1);
    MatchChar(b, sep, k, k + |sep| - 2);
    assert b[|s| + 1] == ')';
    assert forall j :: 0 <= j <= |s| ==> b[j] == a[j];
    MatchMoves(b, a, sep, k, 0);
  }

  lemma {:induction false} FreeClose(s: string, w: Keyword)
    requires Free(s, w)
    ensures Free(s + ")", w)
  {
    forall k ensures !MatchAt(" " + (s + ")") + " ", Separator(w), k) {
      if MatchAt(" " + (s + ")") + " ", Separator(w), k) {
        MatchBeforeClose(s, w, k);
      }
    }
  }

  lemma {:induction false} FreeCell(c: Cell, w: Keyword)
    requires GoodId(c.id)
    ensures Free(CellText(c), w)
  {
    FreeOpens(c.opens, c.id, w);
    FreeCloses(Repeat('(', c.opens) + c.id, c.closes, w);
  }

  lemma {:induction false} FreeOpens(n: nat, s: string, w: Keyword)
    requires Free(s, w)
    ensures Free(Repeat('(', n) + s, w)
  {
    if n == 0 {
      assert Repeat('(', 0) + s == s;
    } else {
      FreeOpens(n - 1, s, w);
      FreeOpen(Repeat('(', n - 1) + s, w);
      assert Repeat('(', n) + s == "(" + (Repeat('(', n - 1) + s);
    }
  }

  lemma {:induction false} FreeCloses(s: string, n: nat, w: Keyword)
    requires Free(s, w)
    ensures Free(s + Repeat(')', n), w)
    decreases n
  {
    if n == 0 {
      assert s + Repeat(')', 0) == s;
    } else {
      FreeClose(s, w);
      FreeCloses(s + ")", n - 1, w);
      assert s + Repeat(')', n) == (s + ")") + Repeat(')', n - 1);
    }
  }

  lemma {:induction false} FreeOp(op: string, v: Keyword, w: Keyword)
    requires ToUpper(op) == Spelling(v) && v != w
    ensures Free(op, w)
  {
    var a, sep := " " + op + " ", Separator(w);
    forall k ensures !MatchAt(a, sep, k) {
      if MatchAt(a, sep, k) {
        KeywordsDiffer(op, v, w, k);
      }
    }
  }

  lemma {:induction false} KeywordsDiffer(op: string, v: Keyword, w: Keyword, k: int)
    requires ToUpper(op) == Spelling(v)
    requires MatchAt(" " + op + " ", Separator(w), k)
    ensures v == w
  {
    var a, sep := " " + op + " ", Separator(w);
    SeparatorShape(w);
    assert |op| == |Spelling(v)|;
    assert forall i :: 0 <= i < |op| ==> a[i + 1] == op[i] && UpperChar(op[i]) == Spelling(v)[i] != ' ';
    MatchChar(a, sep, k, k);
    MatchChar(a, sep, k, k + |sep| - 1);
    MatchChar(a, sep, k, k + 1);
  }

  lemma {:induction false} FreeRow(cs: Row, w: Keyword)
    requires GoodRow(cs)
    requires forall i :: 1 <= i < |cs| ==> !IsOp(cs[i], w)
    ensures Free(Render(cs), w)
  {
    FreeCell(cs[0], w);
    if |cs| > 1 {
      FreeRow(cs[1..], w);
      FreeOp(cs[1].op, if w == OrWord then AndWord else OrWord, w);
      FreeJoin(CellText(cs[0]), cs[1].op, w);
      FreeJoin(CellText(cs[0]) + " " + cs[1].op, Render(cs[1..]), w);
      assert Render(cs) == (CellText(cs[0]) + " " + cs[1].op) + " " + Render(cs[1..]);
    }
  }

  // ----- splitting a rendered row

  /** A match in `x` and the blank after it is a match, one further, in ` x `. */
  lemma {:induction false} MatchInside(x: string, post: string, w: Keyword, k: int)
    requires MatchAt(x + post, Separator(w), k) && k + |Separator(w)| <= |x| + 1
    requires post != "" ==> post[0] == ' '
    ensures MatchAt(" " + x + " ", Separator(w), k + 1)
  {
    var s, t := x + post, " " + x + " ";
    assert forall j :: 0 <= j <= |x| && j < |s| ==> s[j] == t[j + 1];
    MatchMoves(s, t, Separator(w), k, 1);
  }

  lemma {:induction false} NoSeparator(s: string, w: Keyword)
    requires Free(s, w)
    ensures !Occurs(s, Separator(w))
    ensures SplitOn(s, Separator(w)) == [s]
  {
    var k := FindFrom(s, Separator(w), 0);
    if k < |s| {
      assert s + "" == s;
      MatchInside(s, "", w, k);
    }
  }

  lemma {:induction false} NoEarlyMatch(x: string, post: string, w: Keyword, k: nat)
    requires k < |x| && MatchAt(x + post, Separator(w), k)
    requires post != "" && post[0] == ' '
    ensures MatchAt(" " + x + " ", Separator(w), k + 1)
  {
    SeparatorShape(w);
    if |x| < k + |Separator(w)| {
      MatchChar(x + post, Separator(w), k, |x|);
    }
    MatchInside(x, post, w, k);
  }

  lemma {:induction false} SeparatorMatches(op: string, y: string, w: Keyword)
    requires ToUpper(op) == Spelling(w)
    ensures MatchAt(" " + op + " " + y, Separator(w), 0)
  {
    var post, sep := " " + op + " " + y, Separator(w);
    assert |op| == |Spelling(w)|;
    forall i | 0 <= i < |sep| ensures UpperChar(post[0 + i]) == sep[i] {
      if 1 <= i <= |op| {
        assert post[i] == op[i - 1] && UpperChar(op[i - 1]) == Spelling(w)[i - 1];
      }
    }
  }

  lemma {:induction false} FirstSeparator(x: string, post: string, w: Keyword)
    requires Free(x, w) && MatchAt(post, Separator(w), 0) && post[0] == ' '
    ensures FindFrom(x + post, Separator(w), 0) == |x|
  {
    var s, sep := x + post, Separator(w);
    MatchMoves(post, s, sep, 0, |x|);
    forall k | 0 <= k < |x| ensures !MatchAt(s, sep, k) {
      if MatchAt(s, sep, k) {
        NoEarlyMatch(x, post, w, k);
      }
    }
  }

  lemma {:induction false} SplitStep(x: string, op: string, y: string, w: Keyword)
    requires Free(x, w) && ToUpper(op) == Spelling(w)
    ensures var s := x + " " + op + " " + y;
            Occurs(s, Separator(w)) && SplitOn(s, Separator(w)) == [x] + SplitOn(y, Separator(w))
  {
    var s, post := x + " " + op + " " + y, " " + op + " " + y;
    assert s == x + post;
    SeparatorMatches(op, y, w);
    FirstSeparator(x, post, w);
    assert |op| == |Spelling(w)|;
    assert s[..|x|] == x && s[|x| + |Separator(w)|..] == y;
  }

  lemma {:induction false} RenderAppend(a: Row, b: Row)
    ensures Render(a + b) == Render(a) + " " + b[0].op + " " + Render(b)
  {
    if |a| == 1 {
      assert (a + b)[1..] == b;
    } else {
      assert (a + b)[1..] == a[1..] + b;
      RenderAppend(a[1..], b);
    }
  }

  function Texts(rows: seq<Row>): seq<string> {
    seq(|rows|, i requires 0 <= i < |rows| => Render(rows[i]))
  }

  lemma {:induction false} SplitAppend(a: Row, b: Row, w: Keyword)
    requires GoodRow(a) && (forall i :: 1 <= i < |a| ==> !IsOp(a[i], w)) && IsOp(b[0], w)
    ensures Occurs(Render(a + b), Separator(w))
    ensures SplitOn(Render(a + b), Separator(w)) == [Render(a)] + SplitOn(Render(b), Separator(w))
  {
    RenderAppend(a, b);
    FreeRow(a, w);
    SplitStep(Render(a), b[0].op, Render(b), w);
  }

  lemma {:induction false} TextsOfCons(a: Row, rest: seq<Row>)
    ensures Texts([a] + rest) == [Render(a)] + Texts(rest)
  {
  }

  lemma {:induction false} SplitOne(cs: Row, w: Keyword)
    requires GoodRow(cs) && FirstOp(cs, w) == |cs|
    ensures SplitOn(Render(cs), Separator(w)) == Texts([cs])
    ensures !Occurs(Render(cs), Separator(w))
  {
    FreeRow(cs, w);
    NoSeparator(Render(cs), w);
  }

  lemma {:induction false} SplitCut(cs: Row, a: Row, b: Row, w: Keyword)
    requires GoodRow(cs) && cs == a + b && |a| == FirstOp(cs, w)
    ensures GoodRow(b) && Chunks(cs, w) == [a] + Chunks(b, w)
    ensures Occurs(Render(cs), Separator(w))
    ensures SplitOn(Render(cs), Separator(w)) == [Render(a)] + SplitOn(Render(b), Separator(w))
  {
    assert cs[..|a|] == a && cs[|a|..] == b;
    assert forall i :: 0 <= i < |a| ==> a[i] == cs[i];
    assert forall i :: 0 <= i < |b| ==> b[i] == cs[|a| + i];
    SplitAppend(a, b, w);
  }

  lemma {:induction false} SplitRendered(cs: Row, w: Keyword)
    requires GoodRow(cs)
    ensures SplitOn(Render(cs), Separator(w)) == Texts(Chunks(cs, w))
    ensures Occurs(Render(cs), Separator(w)) <==> |Chunks(cs, w)| > 1
    decreases |cs|
  {
    var n := FirstOp(cs, w);
    if n == |cs| {
      SplitOne(cs, w);
    } else {
      var a, b: Row := cs[..n], cs[n..];
      SplitCut(cs, a, b, w);
      SplitRendered(b, w);
      TextsOfCons(a, Chunks(b, w));
    }
  }

  // ----- operands

  function NoOpens(cs: Row): Row {
    [cs[0].(opens := 0)] + cs[1..]
  }

  function NoCloses(cs: Row): Row {
    cs[..|cs| - 1] + [cs[|cs| - 1].(closes := 0)]
  }

  function Trimmed(cs: Row): Row {
    NoCloses(NoOpens(cs))
  }

  lemma {:induction false} CellOpens(c: Cell)
    ensures CellText(c) == Repeat('(', c.opens) + CellText(c.(opens := 0))
  {
  }

  lemma {:induction false} OpensComeFirst(cs: Row)
    ensures Render(cs) == Repeat('(', cs[0].opens) + Render(NoOpens(cs))
  {
    CellOpens(cs[0]);
    assert NoOpens(cs)[1..] == cs[1..];
    if |cs| > 1 {
      var opens, bare, rest :=
        Repeat('(', cs[0].opens), CellText(NoOpens(cs)[0]), " " + cs[1].op + " " + Render(cs[1..]);
      assert (opens + bare) + rest == opens + (bare + rest);
    }
  }

  lemma {:induction false} Associate(a: string, b: string, c: string)
    ensures (a + b) + c == a + (b + c)
  {
  }

  lemma {:induction false} CellCloses(c: Cell)
    ensures CellText(c) == CellText(c.(closes := 0)) + Repeat(')', c.closes)
  {
  }

  lemma {:induction false} ClosesComeLast(cs: Row)
    ensures Render(cs) == Render(NoCloses(cs)) + Repeat(')', cs[|cs| - 1].closes)
  {
    var n := |cs| - 1;
    var c, bare := cs[n], cs[n].(closes := 0);
    CellCloses(c);
    if n > 0 {
      var front: Row := cs[..n];
      assert cs == front + [c] && NoCloses(cs) == front + [bare];
      RenderAppend(front, [c]);
      RenderAppend(front, [bare]);
      Associate(Render(front) + " " + c.op + " ", CellText(bare), Repeat(')', c.closes));
    }
  }

  lemma {:induction false} LastIsSolid(cs: Row)
    requires GoodRow(cs) && cs[|cs| - 1].closes == 0
    ensures Render(cs) != "" && Solid(Render(cs)[|Render(cs)| - 1])
  {
    if |cs| > 1 {
      LastIsSolid(cs[1..]);
    }
  }

  lemma {:induction false} TrimmedShape(cs: Row)
    requires GoodRow(cs)
    ensures GoodRow(Trimmed(cs)) && |Trimmed(cs)| == |cs|
    ensures Trimmed(cs)[0].opens == 0 && Trimmed(cs)[|cs| - 1].closes == 0
    ensures forall i :: 0 <= i < |cs| ==> Trimmed(cs)[i].id == cs[i].id && Trimmed(cs)[i].op == cs[i].op
  {
  }

  lemma {:induction false} FirstIsSolid(cs: Row)
    requires GoodId(cs[0].id) && cs[0].opens == 0
    ensures Render(cs) != "" && Render(cs)[0] == cs[0].id[0]
  {
    assert CellText(cs[0]) == cs[0].id + Repeat(')', cs[0].closes);
  }

  lemma {:induction false} CoreOf(cs: Row)
    requires GoodRow(cs)
    ensures Render(cs) == Repeat('(', cs[0].opens) + Render(Trimmed(cs)) + Repeat(')', cs[|cs| - 1].closes)
  {
    OpensComeFirst(cs);
    ClosesComeLast(NoOpens(cs));
    var closes := Repeat(')', cs[|cs| - 1].closes);
    assert Repeat('(', cs[0].opens) + (Render(Trimmed(cs)) + closes) ==
      Repeat('(', cs[0].opens) + Render(Trimmed(cs)) + closes;
  }

  /** Stripping an operand takes off exactly the parentheses at its two ends. */
  lemma {:induction false} OperandOfRow(cs: Row)
    requires GoodRow(cs)
    ensures Strip(Render(cs)) == Render(cs) != ""
    ensures Operand(Render(cs)) == Render(Trimmed(cs))
  {
    TrimmedShape(cs);
    FirstIsSolid(Trimmed(cs));
    LastIsSolid(Trimmed(cs));
    CoreOf(cs);
    OperandOfCore(cs[0].opens, Render(Trimmed(cs)), cs[|cs| - 1].closes);
  }

  lemma {:induction false} StripParens(m: nat, core: string, n: nat)
    requires core != "" && Solid(core[0]) && Solid(core[|core| - 1])
    ensures StripBy(Repeat('(', m) + core + Repeat(')', n), IsParen) == core
  {
    var tail := core + Repeat(')', n);
    assert Repeat('(', m) + core + Repeat(')', n) == Repeat('(', m) + tail;
    StripLeftRepeat('(', m, tail, IsParen);
    assert StripLeft(tail, IsParen) == tail;
    StripRightRepeat(')', n, core, IsParen);
  }

  lemma {:induction false} OperandOfCore(m: nat, core: string, n: nat)
    requires core != "" && Solid(core[0]) && Solid(core[|core| - 1])
    ensures var s := Repeat('(', m) + core + Repeat(')', n);
            s != "" && Strip(s) == s && Operand(s) == core
  {
    EndsOf(m, core, n);
    StripParens(m, core, n);
  }

  lemma {:induction false} EndsOf(m: nat, core: string, n: nat)
    requires core != "" && !IsSpace(core[0]) && !IsSpace(core[|core| - 1])
    ensures var s := Repeat('(', m) + core + Repeat(')', n); !IsSpace(s[0]) && !IsSpace(s[|s| - 1])
  {
    if n > 0 {
      RepeatSnoc(')', n - 1);
    }
  }

  function TrimmedTexts(rows: seq<Row>): seq<string> {
    seq(|rows|, i requires 0 <= i < |rows| => Render(Trimmed(rows[i])))
  }

  lemma {:induction false} OperandsOfTexts(texts: seq<string>, cores: seq<string>, limit: nat)
    requires |texts| == |cores|
    requires forall i :: 0 <= i < |texts| ==>
             |texts[i]| < limit && Strip(texts[i]) != "" && Operand(texts[i]) == cores[i]
    ensures OperandsOf(texts, limit) == cores
  {
    if |texts| > 0 {
      OperandsOfTexts(texts[1..], cores[1..], limit);
    }
  }

  lemma {:induction false} OperandsOfRows(rows: seq<Row>, limit: nat)
    requires forall i :: 0 <= i < |rows| ==> GoodRow(rows[i])
    requires forall i :: 0 <= i < |rows| ==> |Texts(rows)[i]| < limit
    ensures OperandsOf(Texts(rows), limit) == TrimmedTexts(rows)
  {
    forall i | 0 <= i < |rows|
      ensures Strip(Texts(rows)[i]) != "" && Operand(Texts(rows)[i]) == TrimmedTexts(rows)[i]
    {
      OperandOfRow(rows[i]);
    }
    OperandsOfTexts(Texts(rows), TrimmedTexts(rows), limit);
  }

  lemma {:induction false} ChunksAreGood(cs: Row, w: Keyword)
    requires GoodRow(cs)
    ensures forall i :: 0 <= i < |Chunks(cs, w)| ==> GoodRow(Chunks(cs, w)[i])
    ensures forall i :: 0 <= i < |Chunks(cs, w)| ==> FirstOp(Chunks(cs, w)[i], w) == |Chunks(cs, w)[i]|
    decreases |cs|
  {
    var n := FirstOp(cs, w);
    if n < |cs| {
      var a, b: Row := cs[..n], cs[n..];
      assert GoodRow(a) && GoodRow(b);
      ChunksAreGood(b, w);
    }
  }

  lemma {:induction false} OperandsOfRendered(cs: Row, w: Keyword)
    requires GoodRow(cs) && |Chunks(cs, w)| > 1
    ensures Strip(Render(cs)) == Render(cs) != "" && Occurs(Render(cs), Separator(w)) && !IsSpace(Render(cs)[0])
    ensures Operands(Render(cs), Separator(w)) == TrimmedTexts(Chunks(cs, w))
  {
    OperandOfRow(cs);
    SplitRendered(cs, w);
    ChunksAreGood(cs, w);
    OperandsOfRows(Chunks(cs, w), |Render(cs)|);
  }

  // ----- classification

  function Class(p: Policy, text: string): nat {
    Severity(Classify(p, text).class_)
  }

  lemma {:induction false} ClassifyLeaf(p: Policy, raw: string)
    requires Strip(raw) == raw != "" && !Occurs(raw, " OR ") && !Occurs(raw, " AND ")
    ensures Class(p, raw) == SeverityIn(p)(raw)
  {
  }

  lemma {:induction false} ClassifyId(p: Policy, id: string)
    requires GoodId(id)
    ensures Class(p, id) == SeverityIn(p)(id)
  {
    ClassifyLeaf(p, id) by {
      NoSeparator(id, OrWord);
      NoSeparator(id, AndWord);
    }
  }

  ghost predicate Least(m: nat, xs: seq<nat>) {
    (forall i :: 0 <= i < |xs| ==> m <= xs[i]) && exists i :: 0 <= i < |xs| && m == xs[i]
  }

  ghost predicate Greatest(m: nat, xs: seq<nat>) {
    (forall i :: 0 <= i < |xs| ==> xs[i] <= m) && exists i :: 0 <= i < |xs| && m == xs[i]
  }

  function Classes(p: Policy, parts: seq<string>): seq<nat> {
    seq(|parts|, i requires 0 <= i < |parts| => Class(p, parts[i]))
  }

  lemma {:induction false} ClassifyOr(p: Policy, raw: string)
    requires Strip(raw) == raw != "" && Occurs(raw, " OR ")
    ensures Least(Class(p, raw), Classes(p, Operands(raw, " OR ")))
  {
    var parts := Operands(raw, " OR ");
    var ds := seq(|parts|, i requires 0 <= i < |parts| => Classify(p, parts[i]));
    var best := MinOf(ds);
    assert Classify(p, raw).class_ == best.class_;
    assert forall i :: 0 <= i < |parts| ==> Classes(p, parts)[i] == Severity(ds[i].class_);
    var i :| 0 <= i < |ds| && ds[i] == best;
    assert Class(p, raw) == Classes(p, parts)[i];
  }

  lemma {:induction false} ClassifyAnd(p: Policy, raw: string)
    requires Strip(raw) == raw != "" && !Occurs(raw, " OR ") && Occurs(raw, " AND ")
    ensures Greatest(Class(p, raw), Classes(p, Operands(raw, " AND ")))
  {
    var parts := Operands(raw, " AND ");
    var ds := seq(|parts|, i requires 0 <= i < |parts| => Classify(p, parts[i]));
    var worst := MaxOf(ds);
    assert Classify(p, raw).class_ == worst.class_;
    assert forall i :: 0 <= i < |parts| ==> Classes(p, parts)[i] == Severity(ds[i].class_);
    var i :| 0 <= i < |ds| && ds[i] == worst;
    assert Class(p, raw) == Classes(p, parts)[i];
  }

  lemma {:induction false} AndChunks(cs: Row)
    requires forall i :: 1 <= i < |cs| ==> IsOp(cs[i], AndWord)
    ensures |Chunks(cs, AndWord)| == |cs|
    ensures forall i :: 0 <= i < |cs| ==> Chunks(cs, AndWord)[i] == [cs[i]]
    decreases |cs|
  {
    if |cs| > 1 {
      var b: Row := cs[1..];
      assert FirstOp(cs, AndWord) == 1 && cs[..1] == [cs[0]];
      AndChunks(b);
    }
  }

  lemma {:induction false} TrimmedSingle(c: Cell)
    ensures Render(Trimmed([c])) == c.id
  {
    assert Trimmed([c]) == [c.(opens := 0, closes := 0)];
  }

  lemma {:induction false} ConjunctionParts(cs: Row, parts: seq<string>)
    requires |parts| == |cs| == |Chunks(cs, AndWord)|
    requires forall i :: 0 <= i < |parts| ==> Chunks(cs, AndWord)[i] == [cs[i]]
    requires forall i :: 0 <= i < |parts| ==> parts[i] == Render(Trimmed(Chunks(cs, AndWord)[i]))
    ensures parts == IdsOf(cs)
  {
    forall i | 0 <= i < |parts| ensures parts[i] == cs[i].id {
      TrimmedSingle(cs[i]);
    }
  }

  lemma {:induction false} ConjunctionOperands(cs: Row)
    requires GoodRow(cs) && FirstOp(cs, OrWord) == |cs| > 1
    ensures Strip(Render(cs)) == Render(cs) != "" && !Occurs(Render(cs), " OR ") && Occurs(Render(cs), " AND ")
    ensures !IsSpace(Render(cs)[0])
    ensures Operands(Render(cs), " AND ") == IdsOf(cs)
  {
    SplitOne(cs, OrWord);
    AndChunks(cs);
    OperandsOfRendered(cs, AndWord);
    ConjunctionParts(cs, Operands(Render(cs), " AND "));
  }

  function IdsOf(cs: Row): seq<string> {
    seq(|cs|, i requires 0 <= i < |cs| => cs[i].id)
  }

  lemma {:induction false} ClassesOfIds(p: Policy, cs: Row, m: nat)
    requires GoodRow(cs) && Greatest(m, Classes(p, IdsOf(cs)))
    ensures m == RowMax(cs, SeverityIn(p))
  {
    forall i | 0 <= i < |cs| ensures Classes(p, IdsOf(cs))[i] == SeverityIn(p)(cs[i].id) {
      ClassifyId(p, cs[i].id);
    }
    RowMaxIsGreatest(cs, SeverityIn(p), m);
  }

  /** A row without OR is worth its worst id. */
  lemma {:induction false} ClassifyConjunction(p: Policy, cs: Row)
    requires GoodRow(cs) && FirstOp(cs, OrWord) == |cs|
    requires |cs| == 1 ==> cs[0].opens == 0 && cs[0].closes == 0
    ensures Class(p, Render(cs)) == RowMax(cs, SeverityIn(p))
  {
    if |cs| == 1 {
      ClassifyId(p, cs[0].id);
      assert Render(cs) == cs[0].id;
    } else {
      ConjunctionOperands(cs);
      ClassifyAnd(p, Render(cs));
      ClassesOfIds(p, cs, Class(p, Render(cs)));
    }
  }

  /** The evaluator computes the flat reading of every row of two or more ids, and of a
      single id that stands without parentheses. */
  lemma {:induction false} ClassifyRow(p: Policy, cs: Row)
    requires GoodRow(cs)
    requires |cs| == 1 ==> cs[0].opens == 0 && cs[0].closes == 0
    ensures Class(p, Render(cs)) == Flat(ReadingOf(cs, SeverityIn(p)))
  {
    if FirstOp(cs, OrWord) == |cs| {
      ClassifyConjunction(p, cs);
      FlatOfStretch(cs, SeverityIn(p), 0);
    } else {
      ClassifyDisjunction(p, cs);
    }
  }

  lemma {:induction false} ClassifyDisjunction(p: Policy, cs: Row)
    requires GoodRow(cs) && |Chunks(cs, OrWord)| > 1
    ensures Class(p, Render(cs)) == Flat(ReadingOf(cs, SeverityIn(p)))
  {
    OperandsOfRendered(cs, OrWord);
    ClassifyOr(p, Render(cs));
    ChunksAreGood(cs, OrWord);
    ClassesOfChunks(p, Chunks(cs, OrWord), Operands(Render(cs), " OR "));
    FlatIsLeastMax(cs, SeverityIn(p));
    LeastIsUnique(Class(p, Render(cs)), Flat(ReadingOf(cs, SeverityIn(p))), Maxima(Chunks(cs, OrWord), SeverityIn(p)));
  }

  function Maxima(chunks: seq<Row>, sev: string -> nat): seq<nat> {
    seq(|chunks|, i requires 0 <= i < |chunks| => RowMax(chunks[i], sev))
  }

  lemma {:induction false} ClassesOfChunks(p: Policy, chunks: seq<Row>, parts: seq<string>)
    requires |chunks| == |parts|
    requires forall i :: 0 <= i < |chunks| ==>
                           GoodRow(chunks[i]) && FirstOp(chunks[i], OrWord) == |chunks[i]|
                             && parts[i] == Render(Trimmed(chunks[i]))
    ensures Classes(p, parts) == Maxima(chunks, SeverityIn(p))
  {
    forall i | 0 <= i < |chunks| ensures Class(p, parts[i]) == RowMax(chunks[i], SeverityIn(p)) {
      ClassifyTrimmed(p, chunks[i]);
    }
  }

  lemma {:induction false} LeastIsUnique(m: nat, n: nat, xs: seq<nat>)
    requires Least(m, xs) && Least(n, xs)
    ensures m == n
  {
  }

  lemma {:induction false} LeastOfCons(x: nat, m: nat, xs: seq<nat>)
    requires Least(m, xs)
    ensures Least(Min(x, m), [x] + xs)
  {
    var ys := [x] + xs;
    var i :| 0 <= i < |xs| && m == xs[i];
    assert ys[0] == x && ys[i + 1] == m;
  }

  lemma {:induction false} ReadingOfJoin(a: Row, b: Row, sev: string -> nat)
    ensures ReadingOf(a + b, sev) == Join(ReadingOf(a, sev), IsOp(b[0], OrWord), ReadingOf(b, sev))
  {
    if |a| == 1 {
      assert (a + b)[1..] == b;
    } else {
      assert (a + b)[1..] == a[1..] + b;
      ReadingOfJoin(a[1..], b, sev);
    }
  }

  lemma {:induction false} FlatOfStretch(cs: Row, sev: string -> nat, acc: nat)
    requires FirstOp(cs, OrWord) == |cs|
    ensures FlatFrom(ReadingOf(cs, sev), acc) == Max(acc, RowMax(cs, sev))
  {
    if |cs| > 1 {
      FlatOfStretch(cs[1..], sev, Max(acc, sev(cs[0].id)));
    }
  }

  lemma {:induction false} FlatIsLeastMax(cs: Row, sev: string -> nat)
    ensures Least(Flat(ReadingOf(cs, sev)), Maxima(Chunks(cs, OrWord), sev))
    decreases |cs|
  {
    var n := FirstOp(cs, OrWord);
    if n == |cs| {
      FlatOfStretch(cs, sev, 0);
      assert Maxima([cs], sev)[0] == RowMax(cs, sev);
    } else {
      var front, back: Row := cs[..n], cs[n..];
      FlatIsLeastMax(back, sev);
      FlatOfStretch(front, sev, 0);
      assert cs == front + back;
      ReadingOfJoin(front, back, sev);
      FlatOr(ReadingOf(front, sev), ReadingOf(back, sev), 0);
      LeastOfCons(RowMax(front, sev), Flat(ReadingOf(back, sev)), Maxima(Chunks(back, OrWord), sev));
      MaximaOfCons(front, Chunks(back, OrWord), sev);
    }
  }

  lemma {:induction false} MaximaOfCons(front: Row, rest: seq<Row>, sev: string -> nat)
    ensures Maxima([front] + rest, sev) == [RowMax(front, sev)] + Maxima(rest, sev)
  {
  }

  lemma {:induction false} ClassifyTrimmed(p: Policy, cs: Row)
    requires GoodRow(cs) && FirstOp(cs, OrWord) == |cs|
    ensures Class(p, Render(Trimmed(cs))) == RowMax(cs, SeverityIn(p))
  {
    TrimmedShape(cs);
    var t := Trimmed(cs);
    assert FirstOp(t, OrWord) == |t|;
    ClassifyConjunction(p, t);
    SameIdsSameMax(t, cs, SeverityIn(p));
  }

  lemma {:induction false} RowMaxIsGreatest(cs: Row, sev: string -> nat, m: nat)
    requires forall i :: 0 <= i < |cs| ==> sev(cs[i].id) <= m
    requires exists i :: 0 <= i < |cs| && sev(cs[i].id) == m
    ensures RowMax(cs, sev) == m
  {
    if |cs| > 1 {
      var tail: Row := cs[1..];
      assert forall i :: 0 <= i < |tail| ==> tail[i] == cs[i + 1];
      if sev(cs[0].id) == m {
        RowMaxBelow(tail, sev, m);
      } else {
        var i :| 0 <= i < |cs| && sev(cs[i].id) == m;
        assert sev(tail[i - 1].id) == m;
        RowMaxIsGreatest(tail, sev, m);
      }
    }
  }

  lemma {:induction false} RowMaxBelow(cs: Row, sev: string -> nat, m: nat)
    requires forall i :: 0 <= i < |cs| ==> sev(cs[i].id) <= m
    ensures RowMax(cs, sev) <= m
  {
    if |cs| > 1 {
      var tail: Row := cs[1..];
      assert forall i :: 0 <= i < |tail| ==> tail[i] == cs[i + 1];
      RowMaxBelow(tail, sev, m);
    }
  }

  lemma {:induction false} SameIdsSameMax(a: Row, b: Row, sev: string -> nat)
    requires |a| == |b| && forall i :: 0 <= i < |a| ==> a[i].id == b[i].id
    ensures RowMax(a, sev) == RowMax(b, sev)
  {
    if |a| > 1 {
      assert forall i :: 0 <= i < |a| - 1 ==> a[1..][i].id == b[1..][i].id;
      SameIdsSameMax(a[1..], b[1..], sev);
    }
  }
}
