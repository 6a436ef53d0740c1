/**
  The canonical form of an injected curve (cmd/dashboard/mayhem_adv.go, advCurveSetContentHash): the line
  that is hashed to give the curve its identity.

  Two curves share a line only if they are the same curve.  The proof is a parser that undoes the printer
  from the right, since the mode comes first and may itself hold any character, separators included.
 */
module Curve {
  import opened Options

  datatype Curve = Curve(mode: string, curveType: nat, xMult: int, yMult: int, yRefType: nat, vRef: nat,
                         openLoopTms: Option<nat>, points: seq<(int, int)>)

  // ---------------------------------------------------------------- the printer

  function DigitChar(n: nat): (ch: char)
    requires n < 10
    ensures '0' <= ch <= '9'
  {
    '0' + n as char
  }

  predicate AllDigits(s: string) {
    forall i :: 0 <= i < |s| ==> '0' <= s[i] <= '9'
  }

  function PrintNat(n: nat): (s: string)
    ensures s != "" && AllDigits(s)
  {
    if n < 10 then [DigitChar(n)] else PrintNat(n / 10) + [DigitChar(n % 10)]
  }

  function PrintInt(n: int): string {
    if n < 0 then ['-'] + PrintNat(-n) else PrintNat(n)
  }

  /** Absent is not zero. */
  function PrintLimit(limit: Option<nat>): string {
    match limit
    case None => "-"
    case Some(n) => PrintNat(n)
  }

  function PrintPoint(p: (int, int)): string {
    PrintInt(p.0) + [','] + PrintInt(p.1)
  }

  function PrintPoints(ps: seq<(int, int)>): string {
    if ps == [] then "" else PrintPoints(ps[..|ps| - 1]) + PrintPoint(ps[|ps| - 1]) + [';']
  }

  /** A text and the fields after it, each preceded by a bar. */
  function Barred(front: string, f: seq<string>): string {
    if f == [] then front else Barred(front, f[..|f| - 1]) + ['|'] + f[|f| - 1]
  }

  function FieldsOf(c: Curve): (f: seq<string>)
    ensures |f| == 7
  {
    [PrintNat(c.curveType), PrintInt(c.xMult), PrintInt(c.yMult), PrintNat(c.yRefType), PrintNat(c.vRef),
     PrintLimit(c.openLoopTms), PrintPoints(c.points)]
  }

  /** The line: the mode, six numbers and the points, with bars between, and a newline. */
  function Canonical(c: Curve): string {
    Barred(c.mode, FieldsOf(c)) + ['\n']
  }

  /** What is written into the digest: the header, then point by point, then the end of the line. */
  method CanonicalText(c: Curve) returns (text: string)
    ensures text == Canonical(c)
  {
    hide PrintNat, PrintInt, PrintPoint;
    var limit := "-";
    if c.openLoopTms.Some? {
      limit := PrintNat(c.openLoopTms.value);
    }
    text := Header(c.mode, PrintNat(c.curveType), PrintInt(c.xMult), PrintInt(c.yMult), PrintNat(c.yRefType),
                   PrintNat(c.vRef), limit);
    ghost var header := text;
    for i := 0 to |c.points|
      invariant text == header + PrintPoints(c.points[..i])
    {
      assert c.points[..i + 1][..i] == c.points[..i];
      text := text + (PrintPoint(c.points[i]) + [';']);
    }
    assert c.points[..|c.points|] == c.points;
    HeaderIsBarred(c, limit);
    text := text + "\n";
  }

  /** The line up to the points. */
  function Header(mode: string, a: string, b: string, c: string, d: string, e: string, limit: string): string {
    mode + "|" + a + "|" + b + "|" + c + "|" + d + "|" + e + "|" + limit + "|"
  }

  lemma BarredSnoc(front: string, f: seq<string>, last: string)
    ensures Barred(front, f + [last]) == Barred(front, f) + "|" + last
  {
    assert (f + [last])[..|f|] == f;
  }

  lemma HeaderIsBarred(c: Curve, limit: string)
    requires limit == PrintLimit(c.openLoopTms)
    ensures Barred(c.mode, FieldsOf(c))
         == Header(c.mode, PrintNat(c.curveType), PrintInt(c.xMult), PrintInt(c.yMult), PrintNat(c.yRefType),
                   PrintNat(c.vRef), limit) + PrintPoints(c.points)
  {
    hide PrintNat, PrintInt, PrintLimit, PrintPoints, Barred;
    var f := FieldsOf(c);
    EmptyBarred(c.mode);
    BarredSnoc(c.mode, [], f[0]);
    BarredSnoc(c.mode, [f[0]], f[1]);
    BarredSnoc(c.mode, [f[0], f[1]], f[2]);
    BarredSnoc(c.mode, [f[0], f[1], f[2]], f[3]);
    BarredSnoc(c.mode, [f[0], f[1], f[2], f[3]], f[4]);
    BarredSnoc(c.mode, [f[0], f[1], f[2], f[3], f[4]], f[5]);
    BarredSnoc(c.mode, [f[0], f[1], f[2], f[3], f[4], f[5]], f[6]);
    assert [] + [f[0]] == [f[0]];
    assert [f[0]] + [f[1]] == [f[0], f[1]];
    assert [f[0], f[1]] + [f[2]] == [f[0], f[1], f[2]];
    assert [f[0], f[1], f[2]] + [f[3]] == [f[0], f[1], f[2], f[3]];
    assert [f[0], f[1], f[2], f[3]] + [f[4]] == [f[0], f[1], f[2], f[3], f[4]];
    assert [f[0], f[1], f[2], f[3], f[4]] + [f[5]] == [f[0], f[1], f[2], f[3], f[4], f[5]];
    assert [f[0], f[1], f[2], f[3], f[4], f[5]] + [f[6]] == f;
  }

  lemma EmptyBarred(front: string)
    ensures Barred(front, []) == front
  {
  }

  // ---------------------------------------------------------------- splitting at the last separator

  predicate EndsIn(s: string, sep: char) {
    s == "" || s[|s| - 1] == sep
  }

  function Init(s: string): string
    requires s != ""
  {
    s[..|s| - 1]
  }

  /** The longest front that ends in `sep`, and the rest, which is free of it. */
  function SplitTail(s: string, sep: char): (r: (string, string))
    ensures r.0 + r.1 == s && sep !in r.1 && EndsIn(r.0, sep)
  {
    if EndsIn(s, sep) then (s, "")
    else
      var r := SplitTail(Init(s), sep);
      assert r.0 + (r.1 + [s[|s| - 1]]) == Init(s) + [s[|s| - 1]] == s;
      (r.0, r.1 + [s[|s| - 1]])
  }

  lemma SplitTailIs(s: string, sep: char, front: string, last: string)
    requires front + last == s && sep !in last && EndsIn(front, sep)
    ensures SplitTail(s, sep) == (front, last)
  {
    var (f, l) := SplitTail(s, sep);
    assert forall i :: 0 <= i < |last| ==> s[|front| + i] == last[i];
    assert forall i :: 0 <= i < |l| ==> s[|f| + i] == l[i];
    assert f != "" ==> s[|f| - 1] == sep;
    assert front != "" ==> s[|front| - 1] == sep;
    assert f == s[..|f|] && l == s[|f|..];
  }

  /** What stands before and after the last `sep`. */
  function Cut(s: string, sep: char): (r: Option<(string, string)>)
    ensures r.Some? ==> |r.value.0| < |s|
  {
    var (front, last) := SplitTail(s, sep);
    if front == "" then None else Some((Init(front), last))
  }

  lemma CutExactly(s: string, sep: char, front: string, last: string)
    ensures Cut(s, sep) == Some((front, last)) <==> front + [sep] + last == s && sep !in last
  {
    if front + [sep] + last == s && sep !in last {
      SplitTailIs(s, sep, front + [sep], last);
    }
    if Cut(s, sep) == Some((front, last)) {
      var f := SplitTail(s, sep).0;
      assert f == front + [sep];
    }
  }

  // ---------------------------------------------------------------- the parser

  function DigitOf(ch: char): (d: Option<nat>)
    ensures d.Some? <==> '0' <= ch <= '9'
    ensures d.Some? ==> d.value < 10 && DigitChar(d.value) == ch
  {
    if '0' <= ch <= '9' then
      var d: int := ch as int - '0' as int;
      Some(d)
    else None
  }

  lemma DigitRoundTrip(n: nat)
    requires n < 10
    ensures DigitOf(DigitChar(n)) == Some(n)
  {
  }

  /** Decimal digits, without leading zeros. */
  function ParseNat(s: string): Option<nat> {
    if s == "" then None
    else
      var d := DigitOf(s[|s| - 1]);
      if d.None? || |s| == 1 then d
      else
        var front := ParseNat(Init(s));
        if front.None? || front.value == 0 then None else Some(10 * front.value + d.value)
  }

  function ParseInt(s: string): Option<int> {
    if s != "" && s[0] == '-' then
      var n := ParseNat(s[1..]);
      if n.None? || n.value == 0 then None
      else
        var v: int := n.value;
        Some(-v)
    else
      var n := ParseNat(s);
      if n.None? then None else Some(n.value)
  }

  function ParseLimit(s: string): Option<Option<nat>> {
    if s == "-" then Some(None)
    else
      var n := ParseNat(s);
      if n.None? then None else Some(n)
  }

  function ParsePoint(s: string): Option<(int, int)> {
    var cut := Cut(s, ',');
    if cut.None? then None
    else
      var x, y := ParseInt(cut.value.0), ParseInt(cut.value.1);
      if x.None? || y.None? then None else Some((x.value, y.value))
  }

  function ParsePoints(s: string): Option<seq<(int, int)>>
    decreases |s|
  {
    if s == "" then Some([])
    else if s[|s| - 1] != ';' then None
    else
      var (front, last) := SplitTail(Init(s), ';');
      assert |front| <= |front + last| == |s| - 1;
      var ps, p := ParsePoints(front), ParsePoint(last);
      if ps.None? || p.None? then None else Some(ps.value + [p.value])
  }

  /** Take the last `n` fields off, each preceded by a bar, in the order they were written. */
  function Fields(s: string, n: nat): (r: Option<(string, seq<string>)>)
    ensures r.Some? ==> |r.value.1| == n
    decreases n
  {
    if n == 0 then Some((s, []))
    else
      var cut := Cut(s, '|');
      if cut.None? then None
      else
        var front := Fields(cut.value.0, n - 1);
        if front.None? then None else Some((front.value.0, front.value.1 + [cut.value.1]))
  }

  function Parse(s: string): Option<Curve> {
    if s == "" || s[|s| - 1] != '\n' then None
    else
      var split := Fields(Init(s), 7);
      if split.None? then None
      else
        var (mode, f) := split.value;
        var curveType, xMult, yMult := ParseNat(f[0]), ParseInt(f[1]), ParseInt(f[2]);
        var yRefType, vRef, limit, points := ParseNat(f[3]), ParseNat(f[4]), ParseLimit(f[5]), ParsePoints(f[6]);
        if curveType.None? || xMult.None? || yMult.None? || yRefType.None? || vRef.None? || limit.None? || points.None?
        then None
        else Some(Curve(mode, curveType.value, xMult.value, yMult.value, yRefType.value, vRef.value, limit.value, points.value))
  }

  // ---------------------------------------------------------------- numbers

  lemma InitOfSnoc(s: string, ch: char)
    ensures Init(s + [ch]) == s
  {
  }

  lemma {:induction false} NatRoundTrip(n: nat)
    ensures ParseNat(PrintNat(n)) == Some(n)
  {
    hide DigitOf, DigitChar;
    DigitRoundTrip(n % 10);
    if n >= 10 {
      NatRoundTrip(n / 10);
      InitOfSnoc(PrintNat(n / 10), DigitChar(n % 10));
    }
  }

  /** One more digit on the right. */
  lemma PrintSnoc(v: nat, d: nat)
    requires v > 0 && d < 10
    ensures PrintNat(10 * v + d) == PrintNat(v) + [DigitChar(d)]
  {
    assert (10 * v + d) / 10 == v && (10 * v + d) % 10 == d;
  }

  lemma {:induction false} NatIsCanonical(s: string)
    requires ParseNat(s).Some?
    ensures PrintNat(ParseNat(s).value) == s
  {
    hide DigitOf, DigitChar;
    var d := DigitOf(s[|s| - 1]);
    if |s| > 1 {
      hide PrintNat;
      NatIsCanonical(Init(s));
      PrintSnoc(ParseNat(Init(s)).value, d.value);
    }
    assert s == Init(s) + [s[|s| - 1]];
  }

  /** Natural numbers: the parser accepts the printed forms and no others. */
  lemma NatExactly(s: string, n: nat)
    ensures ParseNat(s) == Some(n) <==> PrintNat(n) == s
  {
    hide PrintNat, ParseNat;
    NatRoundTrip(n);
    if ParseNat(s) == Some(n) {
      NatIsCanonical(s);
    }
  }

  /** The same with a sign. */
  lemma IntExactly(s: string, n: int)
    ensures ParseInt(s) == Some(n) <==> PrintInt(n) == s
  {
    hide PrintNat, ParseNat;
    if n < 0 {
      if s != "" && s[0] == '-' {
        NatExactly(s[1..], -n);
        assert s == ['-'] + s[1..];
        assert (['-'] + PrintNat(-n))[1..] == PrintNat(-n);
      }
    } else {
      NatExactly(s, n);
    }
  }

  lemma LimitExactly(s: string, limit: Option<nat>)
    ensures ParseLimit(s) == Some(limit) <==> PrintLimit(limit) == s
  {
    hide PrintNat, ParseNat;
    assert !AllDigits("-") by { assert "-"[0] == '-'; }
    if limit.Some? {
      NatExactly(s, limit.value);
    }
  }

  // ---------------------------------------------------------------- points

  /** A printed number holds digits and at most a sign. */
  lemma Plain(n: int, ch: char)
    requires !('0' <= ch <= '9') && ch != '-'
    ensures ch !in PrintInt(n)
  {
  }

  lemma PointExactly(s: string, p: (int, int))
    ensures ParsePoint(s) == Some(p) <==> PrintPoint(p) == s
  {
    hide PrintInt, ParseInt, Cut;
    var x, y := PrintInt(p.0), PrintInt(p.1);
    Plain(p.1, ',');
    CutExactly(s, ',', x, y);
    IntExactly(x, p.0);
    IntExactly(y, p.1);
    var cut := Cut(s, ',');
    if cut.Some? {
      IntExactly(cut.value.0, p.0);
      IntExactly(cut.value.1, p.1);
      CutExactly(s, ',', cut.value.0, cut.value.1);
    }
  }

  lemma PointIsPlain(p: (int, int), ch: char)
    requires !('0' <= ch <= '9') && ch != '-' && ch != ','
    ensures ch !in PrintPoint(p)
  {
    hide PrintInt;
    Plain(p.0, ch);
    Plain(p.1, ch);
  }

  lemma PointsEnd(ps: seq<(int, int)>)
    ensures EndsIn(PrintPoints(ps), ';')
  {
  }

  /** Printed points come back. */
  lemma {:induction false} PointsRoundTrip(ps: seq<(int, int)>)
    ensures ParsePoints(PrintPoints(ps)) == Some(ps)
  {
    hide PrintPoint, ParsePoint, SplitTail;
    if ps != [] {
      var front, p := ps[..|ps| - 1], ps[|ps| - 1];
      var text, last := PrintPoints(front), PrintPoint(p);
      PointsRoundTrip(front);
      PointsEnd(front);
      PointIsPlain(p, ';');
      InitOfSnoc(text + last, ';');
      SplitTailIs(text + last, ';', text, last);
      PointExactly(last, p);
      assert front + [p] == ps;
    }
  }

  /** Only printed points parse. */
  lemma {:induction false} PointsAreCanonical(s: string)
    requires ParsePoints(s).Some?
    ensures PrintPoints(ParsePoints(s).value) == s
    decreases |s|
  {
    hide PrintPoint, ParsePoint, SplitTail;
    if s != "" {
      var (front, last) := SplitTail(Init(s), ';');
      assert |front| <= |front + last| == |s| - 1;
      var ps, p := ParsePoints(front).value, ParsePoint(last).value;
      PointsAreCanonical(front);
      PointExactly(last, p);
      assert (ps + [p])[..|ps|] == ps;
      assert s == Init(s) + [';'];
    }
  }

  lemma {:induction false} PointsHoldNoBar(ps: seq<(int, int)>)
    ensures '|' !in PrintPoints(ps)
  {
    hide PrintPoint;
    if ps != [] {
      PointsHoldNoBar(ps[..|ps| - 1]);
      PointIsPlain(ps[|ps| - 1], '|');
    }
  }

  // ---------------------------------------------------------------- fields

  /** Taking fields off the right undoes putting them there, whatever stands in front. */
  lemma {:induction false} FieldsExactly(s: string, n: nat, front: string, f: seq<string>)
    requires |f| == n && forall i :: 0 <= i < n ==> '|' !in f[i]
    ensures Fields(s, n) == Some((front, f)) <==> Barred(front, f) == s
    decreases n
  {
    hide Cut;
    if n > 0 {
      var init, last := f[..n - 1], f[n - 1];
      assert init + [last] == f;
      CutExactly(s, '|', Barred(front, init), last);
      FieldsExactly(Barred(front, init), n - 1, front, init);
      if Fields(s, n) == Some((front, f)) {
        var cut := Cut(s, '|').value;
        var inner := Fields(cut.0, n - 1).value;
        assert inner.1 + [cut.1] == init + [last];
        assert (inner.1 + [cut.1])[..n - 1] == inner.1;
        FieldsExactly(cut.0, n - 1, front, init);
        CutExactly(s, '|', cut.0, cut.1);
      }
    }
  }

  lemma {:induction false} FieldsHoldNoBar(s: string, n: nat)
    requires Fields(s, n).Some?
    ensures forall i :: 0 <= i < n ==> '|' !in Fields(s, n).value.1[i]
    decreases n
  {
    hide Cut;
    if n > 0 {
      var cut := Cut(s, '|').value;
      CutExactly(s, '|', cut.0, cut.1);
      FieldsHoldNoBar(cut.0, n - 1);
    }
  }

  lemma OwnFieldsHoldNoBar(c: Curve)
    ensures forall i :: 0 <= i < 7 ==> '|' !in FieldsOf(c)[i]
  {
    hide PrintNat, PrintPoints;
    PointsHoldNoBar(c.points);
  }

  // ---------------------------------------------------------------- the round trip

  /** The canonical line of a curve reads back as that curve. */
  lemma ParseCanonical(c: Curve)
    ensures Parse(Canonical(c)) == Some(c)
  {
    hide PrintNat, PrintInt, PrintLimit, PrintPoints, ParseNat, ParseInt, ParseLimit, ParsePoints, Fields, Barred;
    var f := FieldsOf(c);
    OwnFieldsHoldNoBar(c);
    FieldsExactly(Barred(c.mode, f), 7, c.mode, f);
    InitOfSnoc(Barred(c.mode, f), '\n');
    NatExactly(f[0], c.curveType);
    IntExactly(f[1], c.xMult);
    IntExactly(f[2], c.yMult);
    NatExactly(f[3], c.yRefType);
    NatExactly(f[4], c.vRef);
    LimitExactly(f[5], c.openLoopTms);
    PointsRoundTrip(c.points);
  }

  /** Nothing but a canonical line reads back. */
  lemma ParseIsCanonical(s: string)
    requires Parse(s).Some?
    ensures Canonical(Parse(s).value) == s
  {
    hide PrintNat, PrintInt, PrintLimit, PrintPoints, ParseNat, ParseInt, ParseLimit, ParsePoints, Fields, Barred;
    var c := Parse(s).value;
    var line := Init(s);
    var f := Fields(line, 7).value.1;
    FieldsHoldNoBar(line, 7);
    FieldsExactly(line, 7, c.mode, f);
    NatExactly(f[0], c.curveType);
    IntExactly(f[1], c.xMult);
    IntExactly(f[2], c.yMult);
    NatExactly(f[3], c.yRefType);
    NatExactly(f[4], c.vRef);
    LimitExactly(f[5], c.openLoopTms);
    PointsAreCanonical(f[6]);
    assert f == FieldsOf(c);
    assert s == line + ['\n'];
  }

  /** Main result.  A line reads back as a curve exactly when it is that curve's canonical line. */
  lemma ParseUndoesExactly(s: string, c: Curve)
    ensures Parse(s) == Some(c) <==> Canonical(c) == s
  {
    hide Parse, Canonical;
    ParseCanonical(c);
    if Parse(s) == Some(c) {
      ParseIsCanonical(s);
    }
  }

  /** Main result.  Different curves have different lines: any mode, any signs, an absent limit and a zero one. */
  lemma CanonicalIsInjective(c: Curve, d: Curve)
    requires Canonical(c) == Canonical(d)
    ensures c == d
  {
    hide Parse, Canonical;
    ParseCanonical(c);
    ParseCanonical(d);
  }

  // ---------------------------------------------------------------- the line itself

  /** The fields in their order, with a bar after each, then the points, then the end of the line. */
  lemma CanonicalIsTheLine(c: Curve)
    ensures Canonical(c)
         == c.mode + "|" + PrintNat(c.curveType) + "|" + PrintInt(c.xMult) + "|" + PrintInt(c.yMult) + "|" + PrintNat(c.yRefType)
            + "|" + PrintNat(c.vRef) + "|" + (if c.openLoopTms.None? then "-" else PrintNat(c.openLoopTms.value)) + "|"
            + PrintPoints(c.points) + "\n"
  {
    hide PrintNat, PrintInt, PrintPoints;
    HeaderIsBarred(c, PrintLimit(c.openLoopTms));
  }

  /** Each point is its x, a comma, its y and a semicolon, in order. */
  lemma PointsInOrder(ps: seq<(int, int)>, x: int, y: int)
    ensures PrintPoints([]) == "" && PrintPoints(ps + [(x, y)]) == PrintPoints(ps) + (PrintInt(x) + "," + PrintInt(y) + ";")
  {
    assert (ps + [(x, y)])[..|ps|] == ps;
  }

  /** Numbers are decimal, most significant digit first, with a minus sign where they are negative. */
  lemma NumbersAreDecimal(n: int, d: nat)
    requires n >= 0 && d < 10
    ensures PrintNat(d) == ["0123456789"[d]]
    ensures n > 0 ==> PrintNat(10 * n + d) == PrintNat(n) + ["0123456789"[d]]
    ensures PrintInt(n) == PrintNat(n) && (n > 0 ==> PrintInt(-n) == "-" + PrintNat(n))
  {
    assert DigitChar(d) == "0123456789"[d];
    if n > 0 {
      PrintSnoc(n, d);
    }
  }

  lemma SomeNumbers()
    ensures PrintNat(0) == "0" && PrintNat(1) == "1" && PrintNat(3) == "3" && PrintNat(11) == "11" && PrintNat(102) == "102"
    ensures PrintInt(92) == "92" && PrintInt(44) == "44" && PrintInt(0) == "0" && PrintInt(-2) == "-2" && PrintInt(-8) == "-8"
  {
    NumbersAreDecimal(0, 0);
    NumbersAreDecimal(1, 1);
    NumbersAreDecimal(2, 0);
    NumbersAreDecimal(0, 2);
    NumbersAreDecimal(0, 3);
    NumbersAreDecimal(1, 0);
    NumbersAreDecimal(10, 2);
    NumbersAreDecimal(0, 9);
    NumbersAreDecimal(9, 2);
    NumbersAreDecimal(92, 0);
    NumbersAreDecimal(0, 4);
    NumbersAreDecimal(4, 4);
    NumbersAreDecimal(44, 0);
    NumbersAreDecimal(8, 8);
    hide PrintNat, PrintInt, DigitChar;
    assert 10 * 1 + 1 == 11 && 10 * 1 + 0 == 10 && 10 * 10 + 2 == 102 && 10 * 9 + 2 == 92 && 10 * 4 + 4 == 44;
  }

  lemma SomePoints()
    ensures PrintPoints([(92, 44), (-8, 0)]) == "92,44;-8,0;"
  {
    SomeNumbers();
    PointsInOrder([], 92, 44);
    PointsInOrder([(92, 44)], -8, 0);
    hide PrintNat, PrintInt, PrintPoints;
    assert [] + [(92, 44)] == [(92, 44)] && [(92, 44)] + [(-8, 0)] == [(92, 44), (-8, 0)];
    assert PrintPoints([(92, 44)]) == "92,44;";
  }

  /** A line written out: a mode with a bar in it, a negative multiplier, a zero limit and two points. */
  lemma ALine()
    ensures Canonical(Curve("volt|var", 11, -2, 0, 3, 102, Some(0), [(92, 44), (-8, 0)]))
         == "volt|var|11|-2|0|3|102|0|92,44;-8,0;\n"
  {
    hide PrintNat, PrintInt, Canonical, PrintPoints;
    SomeNumbers();
    SomePoints();
    CanonicalIsTheLine(Curve("volt|var", 11, -2, 0, 3, 102, Some(0), [(92, 44), (-8, 0)]));
  }
}
