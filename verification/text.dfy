/**
 * The string primitives the app relies on, with JavaScript's meaning:
 * `String.prototype.trim`, `Array.prototype.join`, template literals and the
 * decimal rendering of a number inside one. `Split` is a reference definition
 * the app never calls, used to read joined lines back. Strings are sequences
 * of code points.
 */
module Text {

  /** The characters `trim` removes: ECMAScript WhiteSpace and LineTerminator. */
  predicate IsWhitespace(c: char) {
    c in WhitespaceChars
  }

  const WhitespaceChars: set<char> := {
    '\t', '\n', '\U{000B}', '\U{000C}', '\r', ' ', '\U{00A0}', '\U{1680}',
    '\U{2000}', '\U{2001}', '\U{2002}', '\U{2003}', '\U{2004}', '\U{2005}',
    '\U{2006}', '\U{2007}', '\U{2008}', '\U{2009}', '\U{200A}',
    '\U{2028}', '\U{2029}', '\U{202F}', '\U{205F}', '\U{3000}', '\U{FEFF}' }

  /** Every character of `s` is whitespace (the empty string included). */
  predicate IsBlank(s: string) {
    forall i :: 0 <= i < |s| ==> IsWhitespace(s[i])
  }

  /** Neither end of `s` is whitespace. */
  predicate IsTrimmed(s: string) {
    s == [] || (!IsWhitespace(s[0]) && !IsWhitespace(s[|s| - 1]))
  }

  /** The first index at or after `i` that does not hold whitespace, or `|s|`. */
  function SkipForward(s: string, i: nat): (k: nat)
    requires i <= |s|
    ensures i <= k <= |s|
    ensures forall j :: i <= j < k ==> IsWhitespace(s[j])
    ensures k < |s| ==> !IsWhitespace(s[k])
    decreases |s| - i
  {
    if i < |s| && IsWhitespace(s[i]) then SkipForward(s, i + 1) else i
  }

  /** Walking back from `j`, the end of the last non-whitespace character above `lo`, or `lo`. */
  function SkipBackward(s: string, lo: nat, j: nat): (k: nat)
    requires lo <= j <= |s|
    ensures lo <= k <= j
    ensures forall m :: k <= m < j ==> IsWhitespace(s[m])
    ensures k > lo ==> !IsWhitespace(s[k - 1])
  {
    if j > lo && IsWhitespace(s[j - 1]) then SkipBackward(s, lo, j - 1) else j
  }

  /** Where the text `trim` keeps starts. */
  function TrimStartIndex(s: string): (k: nat)
    ensures k <= |s|
  {
    SkipForward(s, 0)
  }

  /** Where the text `trim` keeps ends. */
  function TrimEndIndex(s: string): (k: nat)
    ensures TrimStartIndex(s) <= k <= |s|
  {
    SkipBackward(s, TrimStartIndex(s), |s|)
  }

  /**
   * JavaScript's `s.trim()`: the slice of `s` left when the whitespace at
   * both ends is cut away.
   */
  function Trim(s: string): (r: string)
    ensures IsTrimmed(r)
  {
    s[TrimStartIndex(s)..TrimEndIndex(s)]
  }

  /** The blank-name test of the form: `s.trim() === ''` holds exactly for all-whitespace `s`. */
  lemma TrimEmptyIffBlank(s: string)
    ensures Trim(s) == [] <==> IsBlank(s)
  {
    var a, b := TrimStartIndex(s), TrimEndIndex(s);
    if a < |s| {
      assert b > a;
    }
  }

  /** A string without whitespace at its ends is its own trim. */
  lemma TrimOfTrimmed(s: string)
    requires IsTrimmed(s)
    ensures Trim(s) == s
  {
    if s != [] {
      assert TrimStartIndex(s) == 0;
      assert s[|s| - 1] == s[..][|s| - 1];
    }
  }

  /** Trimming is idempotent. */
  lemma TrimIdempotent(s: string)
    ensures Trim(Trim(s)) == Trim(s)
  {
    TrimOfTrimmed(Trim(s));
  }

  /** Surrounding whitespace never changes the outcome of `trim`. */
  lemma TrimIgnoresPadding(w1: string, s: string, w2: string)
    requires IsBlank(w1) && IsBlank(w2)
    ensures Trim(w1 + s + w2) == Trim(s)
  {
    var t := w1 + s + w2;
    var a, b := TrimStartIndex(s), TrimEndIndex(s);
    var a', b' := TrimStartIndex(t), TrimEndIndex(t);
    if a < |s| {
      assert t[|w1| + a] == s[a];
      assert a' == |w1| + a;
      assert t[|w1| + b - 1] == s[b - 1];
      assert b' == |w1| + b;
      assert t[a'..b'] == s[a..b];
    } else {
      assert b' == a';
    }
  }

  /** What `trim` keeps from `a + b` ends where `b`'s trimmed text ends, when `b` is not blank. */
  lemma TrimConcatEnd(a: string, b: string)
    requires !IsBlank(b)
    ensures |Trim(b)| <= |Trim(a + b)|
    ensures Trim(a + b)[|Trim(a + b)| - |Trim(b)|..] == Trim(b)
  {
    var t := a + b;
    var i, j := TrimStartIndex(b), TrimEndIndex(b);
    var lo, hi := TrimStartIndex(t), TrimEndIndex(t);
    ConcatTrimIndices(a, b);
    SliceAfter(a, b, i, j);
    DropOfSlice(t, lo, hi, |a| + i - lo);
  }

  lemma DropOfSlice(s: string, lo: nat, hi: nat, k: nat)
    requires lo + k <= hi <= |s|
    ensures s[lo..hi][k..] == s[lo + k..hi]
  {
  }

  /** Past a part that is not blank, `a + b` starts no later than `b` does and ends where `b` ends. */
  lemma ConcatTrimIndices(a: string, b: string)
    requires !IsBlank(b)
    ensures TrimStartIndex(b) < TrimEndIndex(b)
    ensures TrimStartIndex(a + b) <= |a| + TrimStartIndex(b)
    ensures TrimEndIndex(a + b) == |a| + TrimEndIndex(b)
  {
    var t := a + b;
    var i, j := TrimStartIndex(b), TrimEndIndex(b);
    assert !IsWhitespace(b[i]);
    assert t[|a| + i] == b[i];
    ConcatTrimEnd(a, b, TrimStartIndex(t));
  }

  lemma ConcatTrimEnd(a: string, b: string, lo: nat)
    requires TrimStartIndex(b) < TrimEndIndex(b)
    requires lo <= |a| + TrimStartIndex(b)
    ensures SkipBackward(a + b, lo, |a + b|) == |a| + TrimEndIndex(b)
  {
    var t := a + b;
    var j := TrimEndIndex(b);
    forall m | |a| + j <= m < |t| ensures IsWhitespace(t[m]) {
      assert t[m] == b[m - |a|];
    }
    assert t[|a| + j - 1] == b[j - 1];
    SkipBackwardAt(t, lo, |t|, |a| + j);
  }

  /** `SkipBackward` stops at the one place with whitespace above it and none just below. */
  lemma SkipBackwardAt(s: string, lo: nat, j: nat, k: nat)
    requires lo <= k <= j <= |s|
    requires forall m :: k <= m < j ==> IsWhitespace(s[m])
    requires k > lo ==> !IsWhitespace(s[k - 1])
    ensures SkipBackward(s, lo, j) == k
  {
    var r := SkipBackward(s, lo, j);
    assert k > lo ==> !IsWhitespace(s[k - 1]);
    assert r > lo ==> !IsWhitespace(s[r - 1]);
  }

  /** When neither part is blank, `trim` of `a + b` keeps all of `a` after its leading whitespace. */
  lemma TrimKeepsPrefix(a: string, b: string)
    requires !IsBlank(a) && !IsBlank(b)
    ensures TrimStart(a) <= Trim(a + b)
  {
    var t := a + b;
    var i := TrimStartIndex(a);
    var k :| 0 <= k < |b| && !IsWhitespace(b[k]);
    assert t[|a| + k] == b[k];
    assert TrimEndIndex(t) > |a| + k;
    assert TrimStartIndex(t) == i by {
      assert i < |a|;
      assert t[i] == a[i];
    }
    assert t[i..|a|] == a[i..];
  }

  /** `s` without its leading whitespace. */
  function TrimStart(s: string): string {
    s[TrimStartIndex(s)..]
  }

  /** JavaScript's `parts.join(sep)`. */
  function Join(parts: seq<string>, sep: string): (r: string)
    ensures |parts| > 0 ==> parts[0] <= r
    decreases |parts|
  {
    if |parts| == 0 then ""
    else if |parts| == 1 then parts[0]
    else parts[0] + sep + Join(parts[1..], sep)
  }

  /** Joining one more part appends the separator and that part. */
  lemma {:induction false} JoinSnoc(parts: seq<string>, x: string, sep: string)
    requires |parts| > 0
    ensures Join(parts + [x], sep) == Join(parts, sep) + sep + x
    decreases |parts|
  {
    if |parts| > 1 {
      assert (parts + [x])[1..] == parts[1..] + [x];
      JoinSnoc(parts[1..], x, sep);
    } else {
      assert (parts + [x])[1..] == [x];
    }
  }

  /** A join is empty only when there is nothing to join or only empty parts. */
  lemma JoinEmptyIff(parts: seq<string>, sep: string)
    requires sep != []
    ensures Join(parts, sep) == [] <==> |parts| == 0 || (|parts| == 1 && parts[0] == [])
  {
  }

  /** `SkipForward` stops at the one place with whitespace before it and none at it. */
  lemma SkipForwardAt(s: string, i: nat, k: nat)
    requires i <= k <= |s|
    requires forall j :: i <= j < k ==> IsWhitespace(s[j])
    requires k < |s| ==> !IsWhitespace(s[k])
    ensures SkipForward(s, i) == k
  {
    var r := SkipForward(s, i);
    assert k < |s| ==> !IsWhitespace(s[k]);
    assert r < |s| ==> !IsWhitespace(s[r]);
  }

  /** Leading whitespace in front of a text that starts with a visible character is exactly what `TrimStart` drops. */
  lemma TrimStartAfterBlank(w: string, x: string)
    requires IsBlank(w) && |x| > 0 && !IsWhitespace(x[0])
    ensures TrimStart(w + x) == x
  {
    var t := w + x;
    forall j | 0 <= j < |w| ensures IsWhitespace(t[j]) {
      assert t[j] == w[j];
    }
    assert t[|w|] == x[0];
    SkipForwardAt(t, 0, |w|);
    assert t[|w|..] == x;
  }

  /** Trimming whitespace, then a text opening with a visible character, then a text that is not blank, keeps that text at the start. */
  lemma TrimStartsWith(w: string, x: string, b: string)
    requires IsBlank(w) && |x| > 0 && !IsWhitespace(x[0]) && !IsBlank(b)
    ensures x <= Trim(w + x + b)
  {
    var a := w + x;
    assert !IsBlank(a) by {
      assert a[|w|] == x[0];
    }
    TrimStartAfterBlank(w, x);
    TrimKeepsPrefix(a, b);
  }

  /**
   * Joined with a blank separator and trimmed, lines that open with a blank
   * line start with the second line, when it opens with a visible character
   * and some later line is not blank.
   */
  lemma JoinTrimStart(parts: seq<string>, sep: string, k: nat)
    requires 2 <= k < |parts| && IsBlank(parts[0]) && IsBlank(sep)
    requires |parts[1]| > 0 && !IsWhitespace(parts[1][0])
    requires !IsBlank(parts[k])
    ensures parts[1] <= Trim(Join(parts, sep))
  {
    var rest := Join(parts[2..], sep);
    JoinFirstTwo(parts, sep);
    BlankConcat(parts[0], sep);
    JoinNotBlank(parts[2..], sep, k - 2);
    NotBlankAfter(sep, rest);
    TrimStartsWith(parts[0] + sep, parts[1], sep + rest);
  }

  /** The first two parts of a join of at least three, and what follows them. */
  lemma JoinFirstTwo(parts: seq<string>, sep: string)
    requires |parts| >= 3
    ensures Join(parts, sep) == parts[0] + sep + parts[1] + (sep + Join(parts[2..], sep))
  {
    var rest := Join(parts[2..], sep);
    var w := parts[0] + sep;
    assert parts[1..][1..] == parts[2..];
    assert Join(parts, sep) == w + ((parts[1] + sep) + rest);
    Assoc(parts[1], sep, rest);
    Assoc(w, parts[1], sep + rest);
  }

  /** Text that is not blank stays so behind anything. */
  lemma NotBlankAfter(a: string, b: string)
    requires !IsBlank(b)
    ensures !IsBlank(a + b)
  {
    var j :| 0 <= j < |b| && !IsWhitespace(b[j]);
    assert (a + b)[|a| + j] == b[j];
  }

  lemma Assoc(a: string, b: string, c: string)
    ensures (a + b) + c == a + (b + c)
  {
  }

  /** Regrouping a concatenation of four texts. */
  lemma Regroup(a: string, b: string, c: string, d: string)
    ensures a + b + c + d == a + (b + (c + d))
  {
  }

  /** The last two parts of a join, with what comes before them. */
  lemma JoinLastTwo(parts: seq<string>, sep: string)
    requires |parts| >= 2
    ensures var n := |parts|;
      var before := if n == 2 then [] else Join(parts[..n - 2], sep) + sep;
      Join(parts, sep) == before + (parts[n - 2] + (sep + parts[n - 1]))
  {
    var n := |parts|;
    var x, y := parts[n - 2], parts[n - 1];
    if n == 2 {
      assert parts[1..] == [y];
      assert Join(parts, sep) == x + sep + y;
      Regroup([], x, sep, y);
    } else {
      var init := parts[..n - 2];
      assert parts[..n - 1] == init + [x];
      assert parts == parts[..n - 1] + [y];
      JoinSnoc(parts[..n - 1], y, sep);
      JoinSnoc(init, x, sep);
      assert Join(parts, sep) == (Join(init, sep) + sep) + x + sep + y;
      Regroup(Join(init, sep) + sep, x, sep, y);
    }
  }

  lemma BlankConcat(a: string, b: string)
    requires IsBlank(a) && IsBlank(b)
    ensures IsBlank(a + b)
  {
    forall k | 0 <= k < |a + b| ensures IsWhitespace((a + b)[k]) {
      if k >= |a| {
        assert (a + b)[k] == b[k - |a|];
      }
    }
  }

  /** Trimming a text that ends with `x` and then whitespace ends with `x` trimmed. */
  lemma TrimEndsWith(before: string, x: string, tail: string)
    requires !IsBlank(x) && IsBlank(tail)
    ensures var t := Trim(before + (x + tail));
      |Trim(x)| <= |t| && t[|t| - |Trim(x)|..] == Trim(x)
  {
    assert !IsBlank(x + tail) by {
      var k :| 0 <= k < |x| && !IsWhitespace(x[k]);
      assert (x + tail)[k] == x[k];
    }
    TrimConcatEnd(before, x + tail);
    assert x + tail == [] + x + tail;
    TrimIgnoresPadding([], x, tail);
  }

  /**
   * Joined with a blank separator and trimmed, lines that end in a blank
   * line end with the trimmed text of the last line that is not blank.
   */
  lemma JoinTrimEnd(parts: seq<string>, sep: string)
    requires |parts| >= 2 && IsBlank(sep)
    requires IsBlank(parts[|parts| - 1]) && !IsBlank(parts[|parts| - 2])
    ensures var t := Trim(Join(parts, sep));
      var e := Trim(parts[|parts| - 2]);
      |e| <= |t| && t[|t| - |e|..] == e
  {
    var n := |parts|;
    BlankConcat(sep, parts[n - 1]);
    JoinLastTwo(parts, sep);
    TrimEndsWith(if n == 2 then [] else Join(parts[..n - 2], sep) + sep, parts[n - 2], sep + parts[n - 1]);
  }

  /** A join holding a non-blank part is not blank. */
  lemma {:induction false} JoinNotBlank(parts: seq<string>, sep: string, k: nat)
    requires k < |parts| && !IsBlank(parts[k])
    ensures !IsBlank(Join(parts, sep))
    decreases |parts|
  {
    if k > 0 {
      JoinNotBlank(parts[1..], sep, k - 1);
      var j := Join(parts[1..], sep);
      var w :| 0 <= w < |j| && !IsWhitespace(j[w]);
      var pre := parts[0] + sep;
      assert Join(parts, sep) == pre + j;
      assert (pre + j)[|pre| + w] == j[w];
    } else {
      var w :| 0 <= w < |parts[0]| && !IsWhitespace(parts[0][w]);
      assert Join(parts, sep)[w] == parts[0][w];
    }
  }

  /** A template literal: `texts[0]`, `values[0]`, `texts[1]`, ..., `values[n - 1]`, `texts[n]` laid end to end. */
  function Interpolate(texts: seq<string>, values: seq<string>): string
    requires |texts| == |values| + 1
    decreases |values|
  {
    if |values| == 0 then texts[0] else texts[0] + values[0] + Interpolate(texts[1..], values[1..])
  }

  /** Where the `k`-th interpolated value starts. */
  function SlotStart(texts: seq<string>, values: seq<string>, k: nat): nat
    requires |texts| == |values| + 1 && k < |values|
    decreases k
  {
    if k == 0 then |texts[0]| else |texts[0]| + |values[0]| + SlotStart(texts[1..], values[1..], k - 1)
  }

  /** Each value appears verbatim at its slot. */
  lemma {:induction false} InterpolateSlot(texts: seq<string>, values: seq<string>, k: nat)
    requires |texts| == |values| + 1 && k < |values|
    ensures var t := Interpolate(texts, values);
      var o := SlotStart(texts, values, k);
      o + |values[k]| <= |t| && t[o..o + |values[k]|] == values[k]
    decreases k
  {
    var head := texts[0] + values[0];
    var rest := Interpolate(texts[1..], values[1..]);
    assert Interpolate(texts, values) == head + rest;
    if k == 0 {
      assert (head + rest)[|texts[0]|..|head|] == values[0];
    } else {
      InterpolateSlot(texts[1..], values[1..], k - 1);
      assert values[1..][k - 1] == values[k];
      var o' := SlotStart(texts[1..], values[1..], k - 1);
      SliceAfter(head, rest, o', o' + |values[k]|);
    }
  }

  /** A slice of the second part of a concatenation, read at its shifted offsets. */
  lemma SliceAfter(a: string, b: string, lo: nat, hi: nat)
    requires lo <= hi <= |b|
    ensures (a + b)[|a| + lo..|a| + hi] == b[lo..hi]
  {
  }

  /**
   * Splitting at every occurrence of `c`, as JavaScript's `split` would. The app
   * never splits a string; this is the reference definition that reads joined
   * lines back in `SplitJoin`.
   */
  function Split(s: string, c: char): (r: seq<string>)
    ensures |r| >= 1
    ensures forall i :: 0 <= i < |r| ==> c !in r[i]
  {
    if |s| == 0 then [""]
    else
      var rest := Split(s[1..], c);
      if s[0] == c then [""] + rest else [[s[0]] + rest[0]] + rest[1..]
  }

  lemma {:induction false} SplitWithout(x: string, c: char)
    requires c !in x
    ensures Split(x, c) == [x]
  {
    if x != [] {
      SplitWithout(x[1..], c);
      assert [x[0]] + x[1..] == x;
    }
  }

  lemma {:induction false} SplitAt(x: string, c: char, y: string)
    requires c !in x
    ensures Split(x + [c] + y, c) == [x] + Split(y, c)
  {
    if x == [] {
      assert x + [c] + y == [c] + y;
      assert ([c] + y)[1..] == y;
    } else {
      assert (x + [c] + y)[1..] == x[1..] + [c] + y;
      SplitAt(x[1..], c, y);
      assert [x[0]] + x[1..] == x;
    }
  }

  /** Splitting a line-joined text gives back its lines, when no line holds the separator. */
  lemma {:induction false} SplitJoin(parts: seq<string>, c: char)
    requires |parts| >= 1
    requires forall i :: 0 <= i < |parts| ==> c !in parts[i]
    ensures Split(Join(parts, [c]), c) == parts
    decreases |parts|
  {
    if |parts| == 1 {
      SplitWithout(parts[0], c);
    } else {
      SplitJoin(parts[1..], c);
      SplitAt(parts[0], c, Join(parts[1..], [c]));
      assert [parts[0]] + parts[1..] == parts;
    }
  }

  /** The decimal digit for `d`. */
  function DigitChar(d: nat): (c: char)
    requires d < 10
    ensures '0' <= c <= '9' && (c - '0') as int == d
  {
    "0123456789"[d]
  }

  predicate IsDigits(s: string) {
    forall i :: 0 <= i < |s| ==> '0' <= s[i] <= '9'
  }

  /** The number a string of decimal digits denotes. */
  function DecimalValue(s: string): nat
    requires IsDigits(s)
  {
    if s == [] then 0 else DecimalValue(s[..|s| - 1]) * 10 + (s[|s| - 1] - '0') as int
  }

  /** `${n}` for a natural number: its decimal digits, with no leading zero. */
  function NatToString(n: nat): (r: string)
    ensures |r| >= 1 && IsDigits(r)
    ensures r[0] == '0' ==> n == 0
  {
    if n < 10 then [DigitChar(n)] else NatToString(n / 10) + [DigitChar(n % 10)]
  }

  /** Reading the rendered digits back gives the number. */
  lemma {:induction false} NatToStringRoundTrip(n: nat)
    ensures DecimalValue(NatToString(n)) == n
  {
    if n >= 10 {
      var s := NatToString(n);
      assert s[..|s| - 1] == NatToString(n / 10);
      NatToStringRoundTrip(n / 10);
    }
  }
}
