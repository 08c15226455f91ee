/**
 The text of a failed verification, cut to the size the Fleet server accepts
 without splitting a UTF-8 code point (sections 3 and 4 of RFC 3629).
 */
module VerifyReport {
  import opened Wrappers

  type Byte = b: int | 0 <= b < 256

  type Text = seq<Byte>

  const MAX: nat := 8192

  const NEWLINE: Byte := 10

  // ------------------------------------------------------- RFC 3629, section 4

  predicate Tail(b: Byte) { 0x80 <= b <= 0xBF }

  /** The second byte's range depends on the first for the shortest and the surrogate forms. */
  predicate SecondOk(first: Byte, second: Byte) {
    match first
    case 0xE0 => 0xA0 <= second <= 0xBF
    case 0xED => 0x80 <= second <= 0x9F
    case 0xF0 => 0x90 <= second <= 0xBF
    case 0xF4 => 0x80 <= second <= 0x8F
    case _ => Tail(second)
  }

  /** How long a code point that starts with this byte is; 0 if none does. */
  function LengthFrom(first: Byte): nat {
    if first < 0x80 then 1
    else if 0xC2 <= first <= 0xDF then 2
    else if 0xE0 <= first <= 0xEF then 3
    else if 0xF0 <= first <= 0xF4 then 4
    else 0
  }

  /** The length of the whole code point s starts with; 0 if it does not start with one. */
  function CodePoint(s: Text): (n: nat)
    ensures n <= 4 && n <= |s|
  {
    if s == [] then 0
    else
      var n := LengthFrom(s[0]);
      var whole := n <= |s| && (n >= 2 ==> SecondOk(s[0], s[1])) && (n >= 3 ==> Tail(s[2])) && (n == 4 ==> Tail(s[3]));
      if whole then n else 0
  }

  predicate Valid(s: Text) {
    s == [] || (CodePoint(s) > 0 && Valid(s[CodePoint(s)..]))
  }

  predicate WholeFrom(s: Text, p: nat) { p < |s| && CodePoint(s[p..]) == |s| - p }

  /** The last bytes of s are one whole code point. */
  ghost predicate EndsWhole(s: Text) { exists p: nat :: WholeFrom(s, p) }

  // ------------------------------------------------------- RFC 3629, section 3

  /** A Unicode scalar value: a code point that is no surrogate. */
  predicate Scalar(c: int) { 0 <= c < 0xD800 || 0xE000 <= c < 0x110000 }

  /** Six bits of the number, in a continuation byte. */
  function TailOf(c: nat): Byte { 0x80 + c % 64 }

  function Encode(c: int): Text
    requires Scalar(c)
  {
    if c < 0x80 then [c]
    else if c < 0x800 then [0xC0 + c / 64, TailOf(c)]
    else if c < 0x10000 then [0xE0 + c / 64 / 64, TailOf(c / 64), TailOf(c)]
    else [0xF0 + c / 64 / 64 / 64, TailOf(c / 64 / 64), TailOf(c / 64), TailOf(c)]
  }

  /** The byte ranges of section 4 accept every encoding of section 3, whatever follows. */
  lemma EncodingIsAccepted(c: int, rest: Text)
    requires Scalar(c)
    ensures CodePoint(Encode(c) + rest) == |Encode(c)|
  {
    var s := Encode(c) + rest;
    assert s[..|Encode(c)|] == Encode(c);
    if c >= 0x80 {
      assert s[0] == Encode(c)[0] && s[1] == Encode(c)[1];
    }
    if c >= 0x800 {
      assert s[2] == Encode(c)[2];
    }
    if c >= 0x10000 {
      assert s[3] == Encode(c)[3];
    }
  }

  /** The number with the six bits of a continuation byte put behind it. */
  ghost function Behind(high: int, low: Byte): int { high * 64 + low - 0x80 }

  lemma SixBits(high: nat, low: Byte)
    requires Tail(low)
    ensures Behind(high, low) >= 0 && Behind(high, low) / 64 == high && TailOf(Behind(high, low)) == low
  {
  }

  lemma OneByte(a: Byte) returns (c: int)
    requires LengthFrom(a) == 1
    ensures Scalar(c) && Encode(c) == [a]
  {
    c := a;
  }

  lemma TwoBytes(a: Byte, b: Byte) returns (c: int)
    requires LengthFrom(a) == 2 && SecondOk(a, b)
    ensures Scalar(c) && Encode(c) == [a, b]
  {
    SixBits(a - 0xC0, b);
    c := Behind(a - 0xC0, b);
    hide TailOf;
  }

  lemma ThreeBytes(a: Byte, b: Byte, d: Byte) returns (c: int)
    requires LengthFrom(a) == 3 && SecondOk(a, b) && Tail(d)
    ensures Scalar(c) && Encode(c) == [a, b, d]
  {
    SixBits(a - 0xE0, b);
    var high := Behind(a - 0xE0, b);
    SixBits(high, d);
    c := Behind(high, d);
    hide TailOf;
  }

  lemma FourBytes(a: Byte, b: Byte, d: Byte, e: Byte) returns (c: int)
    requires LengthFrom(a) == 4 && SecondOk(a, b) && Tail(d) && Tail(e)
    ensures Scalar(c) && Encode(c) == [a, b, d, e]
  {
    SixBits(a - 0xF0, b);
    var top := Behind(a - 0xF0, b);
    SixBits(top, d);
    var high := Behind(top, d);
    SixBits(high, e);
    c := Behind(high, e);
    hide TailOf;
  }

  /** And they accept nothing else. */
  lemma AcceptedIsEncoding(s: Text) returns (c: int)
    requires CodePoint(s) > 0
    ensures Scalar(c) && Encode(c) == s[..CodePoint(s)]
  {
    var n := CodePoint(s);
    hide Encode, Scalar, SecondOk, Tail;
    if n == 1 {
      c := OneByte(s[0]);
    } else if n == 2 {
      c := TwoBytes(s[0], s[1]);
    } else if n == 3 {
      c := ThreeBytes(s[0], s[1], s[2]);
    } else {
      c := FourBytes(s[0], s[1], s[2], s[3]);
    }
  }

  // -------------------------------------------- decoding backwards, as Go does

  predicate RuneStart(b: Byte) { !Tail(b) }

  function ScanBack(s: Text, start: int, lim: nat): (r: int)
    requires lim - 1 <= start < |s|
    ensures lim - 1 <= r <= start
    ensures forall j :: r < j <= start ==> Tail(s[j])
    ensures r >= lim ==> RuneStart(s[r])
    decreases start - lim + 1
  {
    if start < lim || RuneStart(s[start]) then start else ScanBack(s, start - 1, lim)
  }

  /** The size of the last rune; 0 where the decoder reports an error instead of a rune. */
  function LastRune(s: Text): nat
    requires |s| > 0
  {
    var end := |s|;
    if s[end - 1] < 0x80 then 1
    else
      var found := ScanBack(s, end - 2, if end >= 4 then end - 4 else 0);
      var start := if found < 0 then 0 else found;
      if start + CodePoint(s[start..]) == end then end - start else 0
  }

  lemma LastRuneIsWhole(s: Text)
    requires |s| > 0 && LastRune(s) > 0
    ensures LastRune(s) <= |s| && WholeFrom(s, |s| - LastRune(s))
  {
  }

  lemma LastRuneFinds(s: Text, p: nat)
    requires WholeFrom(s, p)
    ensures LastRune(s) == |s| - p
  {
    var c := s[p..];
    assert forall j :: 0 < j < |c| ==> s[p + j] == c[j] && Tail(c[j]);
    assert s[p] == c[0] && !Tail(c[0]);
  }

  /** The backward scan is exact: it finds a rune just when the text ends in a whole code point. */
  lemma LastRuneExact(s: Text)
    requires |s| > 0
    ensures LastRune(s) > 0 <==> EndsWhole(s)
  {
    if LastRune(s) > 0 {
      LastRuneIsWhole(s);
    }
    if EndsWhole(s) {
      var p: nat :| WholeFrom(s, p);
      LastRuneFinds(s, p);
    }
  }

  // ----------------------------------------------------- code point boundaries

  /** A code point is decided by its own bytes, whatever follows. */
  lemma CodePointOfPrefix(s: Text, n: nat)
    requires 0 < n <= |s|
    ensures CodePoint(s[..n]) == n ==> CodePoint(s) == n
    ensures CodePoint(s) == n ==> CodePoint(s[..n]) == n
  {
  }

  lemma {:induction false} ValidConcat(a: Text, b: Text)
    requires Valid(a) && Valid(b)
    ensures Valid(a + b)
    decreases |a|
  {
    if a == [] {
      assert a + b == b;
    } else {
      var n := CodePoint(a);
      assert (a + b)[..n] == a[..n];
      CodePointOfPrefix(a, n);
      CodePointOfPrefix(a + b, n);
      assert (a + b)[n..] == a[n..] + b;
      ValidConcat(a[n..], b);
    }
  }

  lemma BoundaryBehind(s: Text, p: nat)
    requires CodePoint(s) > 0 && CodePoint(s) <= p <= |s| && Valid(s[CodePoint(s)..][..p - CodePoint(s)])
    ensures Valid(s[..p])
  {
    var n := CodePoint(s);
    CodePointOfPrefix(s, n);
    assert s[..p][..n] == s[..n];
    CodePointOfPrefix(s[..p], n);
    assert s[..p][n..] == s[n..][..p - n];
  }

  /** In valid text every byte that is not a continuation begins a code point. */
  lemma {:induction false} LeadIsBoundary(s: Text, p: nat)
    requires Valid(s) && p < |s| && !Tail(s[p])
    ensures Valid(s[..p])
    decreases |s|
  {
    var n := CodePoint(s);
    if p < n {
      assert p == 0;
    } else {
      LeadIsBoundary(s[n..], p - n);
      BoundaryBehind(s, p);
    }
  }

  lemma WholeStartsAtLead(s: Text, p: nat)
    requires WholeFrom(s, p)
    ensures !Tail(s[p])
  {
    assert s[p..][0] == s[p];
  }

  lemma WholeAfter(s: Text, p: nat)
    requires WholeFrom(s, p) && Valid(s[..p])
    ensures Valid(s)
  {
    assert s[p..][|s| - p..] == [];
    assert Valid(s[p..]);
    ValidConcat(s[..p], s[p..]);
    assert s[..p] + s[p..] == s;
  }

  lemma {:induction false} ValidEndsWhole(s: Text)
    requires Valid(s) && s != []
    ensures EndsWhole(s)
    decreases |s|
  {
    var n := CodePoint(s);
    if n == |s| {
      assert s[0..] == s;
      assert WholeFrom(s, 0);
    } else {
      ValidEndsWhole(s[n..]);
      var p: nat :| WholeFrom(s[n..], p);
      assert s[n..][p..] == s[n + p..];
      assert WholeFrom(s, n + p);
    }
  }

  /** Cut valid text anywhere: the part kept is valid just when it is empty or ends in a whole code point. */
  lemma BoundaryExact(s: Text, p: nat)
    requires Valid(s) && p <= |s|
    ensures Valid(s[..p]) <==> p == 0 || EndsWhole(s[..p])
  {
    if p > 0 && EndsWhole(s[..p]) {
      var q: nat :| WholeFrom(s[..p], q);
      WholeStartsAtLead(s[..p], q);
      LeadIsBoundary(s, q);
      assert s[..p][..q] == s[..q];
      WholeAfter(s[..p], q);
    }
    if p > 0 && Valid(s[..p]) {
      ValidEndsWhole(s[..p]);
    }
  }

  /** Valid text has a boundary at most three bytes before any position. */
  lemma {:induction false} BoundaryNearby(s: Text, p: nat) returns (q: nat)
    requires Valid(s) && p <= |s|
    ensures p - 3 <= q <= p && Valid(s[..q])
    decreases |s|
  {
    if s == [] || p < CodePoint(s) {
      q := 0;
    } else {
      var n := CodePoint(s);
      q := BoundaryNearby(s[n..], p - n);
      q := q + n;
      BoundaryBehind(s, q);
    }
  }

  // ---------------------------------------------------------------- the report

  function Join(lines: seq<Text>): Text {
    if lines == [] then []
    else if |lines| == 1 then lines[0]
    else lines[0] + [NEWLINE] + Join(lines[1..])
  }

  /** Where line i begins in the joined text. */
  ghost function LineStart(lines: seq<Text>, i: nat): nat
    requires i <= |lines|
  {
    if i == 0 then 0 else LineStart(lines, i - 1) + |lines[i - 1]| + 1
  }

  /** From where line j begins, the joined text is that of the lines from j on. */
  lemma {:induction false} JoinFrom(lines: seq<Text>, j: nat)
    requires j < |lines|
    ensures LineStart(lines, j) <= |Join(lines)| && Join(lines)[LineStart(lines, j)..] == Join(lines[j..])
  {
    if j == 0 {
      assert lines[0..] == lines;
    } else {
      JoinFrom(lines, j - 1);
      var start, line := LineStart(lines, j - 1), lines[j - 1];
      assert lines[j - 1..][1..] == lines[j..];
      assert Join(lines)[start..] == line + [NEWLINE] + Join(lines[j..]);
      assert (line + [NEWLINE] + Join(lines[j..]))[|line| + 1..] == Join(lines[j..]);
      assert Join(lines)[start..][|line| + 1..] == Join(lines)[LineStart(lines, j)..];
    }
  }

  /** The lines stand in order, with one newline between each two and none after the last. */
  lemma JoinedAt(lines: seq<Text>, i: nat)
    requires i < |lines|
    ensures LineStart(lines, i) + |lines[i]| <= |Join(lines)|
    ensures Join(lines)[LineStart(lines, i)..LineStart(lines, i) + |lines[i]|] == lines[i]
    ensures i + 1 < |lines| ==>
              LineStart(lines, i + 1) <= |Join(lines)| && Join(lines)[LineStart(lines, i + 1) - 1] == NEWLINE
    ensures i + 1 == |lines| ==> LineStart(lines, i) + |lines[i]| == |Join(lines)|
  {
    JoinFrom(lines, i);
    var start, line := LineStart(lines, i), lines[i];
    var rest := Join(lines)[start..];
    assert line <= rest;
    assert rest[..|line|] == Join(lines)[start..start + |line|];
    if i + 1 < |lines| {
      assert rest[|line|] == NEWLINE;
    }
  }

  /** The errors found or, without any, the error that stopped the verification. */
  function Rendered(errors: seq<Text>, err: Option<Text>): Text {
    Join(if errors == [] && err.Some? then [err.value] else errors)
  }

  /** Every error found stands whole on its own line; without any, the report is the error that stopped the run. */
  lemma ReportedLines(errors: seq<Text>, err: Option<Text>, i: nat)
    ensures i < |errors| ==>
              && LineStart(errors, i) + |errors[i]| <= |Rendered(errors, err)|
              && Rendered(errors, err)[LineStart(errors, i)..LineStart(errors, i) + |errors[i]|] == errors[i]
    ensures errors == [] ==> Rendered(errors, err) == if err.Some? then err.value else []
  {
    if i < |errors| {
      JoinedAt(errors, i);
    }
  }

  lemma {:induction false} JoinValid(lines: seq<Text>)
    requires forall l :: l in lines ==> Valid(l)
    ensures Valid(Join(lines))
  {
    if |lines| > 1 {
      JoinValid(lines[1..]);
      assert [NEWLINE][1..] == [];
      ValidConcat(lines[0], [NEWLINE]);
      ValidConcat(lines[0] + [NEWLINE], Join(lines[1..]));
    }
  }

  /** The longest prefix within the bound that is empty or ends in a whole code point. */
  ghost predicate LongestWhole(text: Text, r: Text) {
    && r <= text && |r| <= MAX
    && (r == [] || EndsWhole(r))
    && (forall n :: |r| < n <= MAX && n <= |text| ==> !EndsWhole(text[..n]))
  }

  method VerifyStderr(errors: seq<Text>, err: Option<Text>) returns (r: Text)
    ensures |Rendered(errors, err)| <= MAX ==> r == Rendered(errors, err)
    ensures |Rendered(errors, err)| > MAX ==> LongestWhole(Rendered(errors, err), r)
    ensures r == [] || EndsWhole(r) <==>
            |Rendered(errors, err)| > MAX || Rendered(errors, err) == [] || EndsWhole(Rendered(errors, err))
  {
    hide CodePoint, LastRune;
    var lines := errors;
    if |lines| == 0 && err.Some? {
      lines := [err.value];
    }
    var text := Join(lines);
    r := text;
    if |r| <= MAX {
      return;
    }
    r := r[..MAX];
    while |r| > 0
      invariant |r| <= MAX && r == text[..|r|]
      invariant forall n :: |r| < n <= MAX ==> !EndsWhole(text[..n])
    {
      LastRuneExact(r);
      if LastRune(r) > 0 {
        break;
      }
      r := r[..|r| - 1];
      assert r == text[..|r|];
    }
  }

  /** For valid text the cut keeps whole code points, as many as fit, and costs at most three bytes. */
  lemma ValidTextIsCutAtACodePoint(text: Text, r: Text)
    requires Valid(text) && |text| > MAX && LongestWhole(text, r)
    ensures Valid(r)
    ensures forall n :: |r| < n <= MAX ==> !Valid(text[..n])
    ensures 8192 - 3 <= |r| <= 8192
  {
    hide CodePoint, EndsWhole;
    assert r == text[..|r|];
    BoundaryExact(text, |r|);
    forall n | |r| < n <= MAX
      ensures !Valid(text[..n])
    {
      BoundaryExact(text, n);
    }
    var q := BoundaryNearby(text, MAX);
    assert q <= |r|;
  }

  /** There is only one such prefix. */
  lemma LongestWholeIsUnique(text: Text, r: Text, r': Text)
    requires LongestWhole(text, r) && LongestWhole(text, r')
    ensures r == r'
  {
    assert r == text[..|r|] && r' == text[..|r'|];
  }

  /** Text within the bound is not looked at: it is reported as it is, also when it ends inside a code point. */
  lemma ShortTextIsNotRepaired()
    ensures |Rendered([[0xC3]], None)| <= MAX
    ensures Rendered([[0xC3]], None) == [0xC3] && !EndsWhole([0xC3])
  {
    assert [0xC3 as Byte][0..] == [0xC3];
    assert !WholeFrom([0xC3], 0);
  }
}
