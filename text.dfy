/**
 * The JavaScript string operations the action relies on: `String.prototype.split`
 * with a non-empty separator, `Array.prototype.join`, `substring`, `trim`, and the
 * decimal rendering of integers (`Number.prototype.toString`, template literals).
 */
module Text {
  import opened Wrappers

  // ---------------------------------------------------------------------------
  // Occurrences of a separator

  /** `sep` occurs in `s` starting at index `j`. */
  predicate OccursAt(s: string, sep: string, j: int) {
    0 <= j && j + |sep| <= |s| && s[j..j + |sep|] == sep
  }

  predicate Contains(s: string, sep: string) {
    exists j | 0 <= j <= |s| :: OccursAt(s, sep, j)
  }

  lemma OccursAtTail(s: string, sep: string, j: int)
    requires |s| > 0 && 1 <= j
    ensures OccursAt(s[1..], sep, j - 1) <==> OccursAt(s, sep, j)
  {
    if j + |sep| <= |s| {
      var shifted, here := s[1..][j - 1..j - 1 + |sep|], s[j..j + |sep|];
      forall k | 0 <= k < |sep| ensures shifted[k] == here[k] {
      }
      assert shifted == here;
    }
  }

  /** The index of the leftmost occurrence of `sep` in `s`, as `indexOf` finds it. */
  function IndexOf(s: string, sep: string): (r: Option<nat>)
    requires |sep| > 0
    ensures r.Some? ==> OccursAt(s, sep, r.value)
    ensures forall j :: 0 <= j && (r.None? || j < r.value) ==> !OccursAt(s, sep, j)
    ensures r.Some? <==> Contains(s, sep)
    decreases |s|
  {
    if |s| < |sep| then None
    else if s[..|sep|] == sep then
      assert OccursAt(s, sep, 0);
      Some(0)
    else
      var rest := IndexOf(s[1..], sep);
      assert forall j :: 1 <= j ==> (OccursAt(s[1..], sep, j - 1) <==> OccursAt(s, sep, j)) by {
        forall j | 1 <= j { OccursAtTail(s, sep, j); }
      }
      assert !OccursAt(s, sep, 0);
      match rest
      case None => None
      case Some(i) => Some(i + 1)
  }

  /** Every leftmost search finds the same index: the first occurrence. */
  lemma IndexOfIsFirst(s: string, sep: string, i: nat)
    requires |sep| > 0
    requires OccursAt(s, sep, i)
    requires forall j :: 0 <= j < i ==> !OccursAt(s, sep, j)
    ensures IndexOf(s, sep) == Some(i)
  {
  }

  // ---------------------------------------------------------------------------
  // split and join

  /** A prefix ending before every occurrence holds none. */
  lemma NoOccurrenceBefore(s: string, sep: string, i: nat)
    requires |sep| > 0 && i <= |s|
    requires forall j :: 0 <= j < i ==> !OccursAt(s, sep, j)
    ensures !Contains(s[..i], sep)
  {
    var head := s[..i];
    forall j | 0 <= j <= |head| ensures !OccursAt(head, sep, j) {
      if j + |sep| <= |head| {
        assert s[j..j + |sep|] == head[j..j + |sep|];
        assert !OccursAt(s, sep, j);
      }
    }
  }

  /** The text before the first occurrence holds no occurrence. */
  lemma AroundFirst(s: string, sep: string, i: nat)
    requires |sep| > 0 && IndexOf(s, sep) == Some(i)
    ensures s == s[..i] + sep + s[i + |sep|..] && !Contains(s[..i], sep)
  {
    assert OccursAt(s, sep, i);
    assert forall j :: 0 <= j < i ==> !OccursAt(s, sep, j);
    AroundOccurrence(s, sep, i);
    NoOccurrenceBefore(s, sep, i);
  }

  /** An occurrence splits `s` into the text before it, `sep`, and the text after it. */
  lemma AroundOccurrence(s: string, sep: string, i: nat)
    requires OccursAt(s, sep, i)
    ensures s == s[..i] + sep + s[i + |sep|..]
  {
    assert s[i..] == s[i..i + |sep|] + s[i + |sep|..];
    assert s == s[..i] + s[i..];
  }

  /** The three parts of `prefix + middle + suffix` can be sliced back out. */
  lemma SliceThree(prefix: string, middle: string, suffix: string)
    ensures var t := prefix + middle + suffix;
      && |t| >= |prefix| + |suffix|
      && t[..|prefix|] == prefix
      && t[|t| - |suffix|..] == suffix
      && t[|prefix|..|t| - |suffix|] == middle
  {
  }

  /** `parts.join(sep)`: the parts with `sep` between neighbours; `[].join(sep)` is "". */
  function Join(parts: seq<string>, sep: string): string
    decreases |parts|
  {
    if |parts| == 0 then ""
    else if |parts| == 1 then parts[0]
    else parts[0] + sep + Join(parts[1..], sep)
  }

  lemma {:induction false} JoinSnoc(parts: seq<string>, last: string, sep: string)
    requires |parts| > 0
    ensures Join(parts + [last], sep) == Join(parts, sep) + sep + last
    decreases |parts|
  {
    if |parts| == 1 {
      assert (parts + [last])[1..] == [last];
    } else {
      assert (parts + [last])[1..] == parts[1..] + [last];
      JoinSnoc(parts[1..], last, sep);
    }
  }

  /**
   * `s.split(sep)` for a non-empty separator: the pieces between the occurrences
   * found left to right, empty pieces included. Joining the pieces gives `s` back.
   */
  function Split(s: string, sep: string): (parts: seq<string>)
    requires |sep| > 0
    ensures |parts| >= 1
    ensures Join(parts, sep) == s
    decreases |s|
  {
    match IndexOf(s, sep)
    case None =>
      assert forall j :: !OccursAt(s, sep, j);
      [s]
    case Some(i) =>
      var head, rest := s[..i], Split(s[i + |sep|..], sep);
      AroundFirst(s, sep, i);
      assert ([head] + rest)[1..] == rest;
      assert s == head + sep + s[i + |sep|..];
      [head] + rest
  }

  /** No piece of a split contains the separator: every occurrence was cut. */
  lemma {:induction false} SplitPiecesFree(s: string, sep: string)
    requires |sep| > 0
    ensures forall k :: 0 <= k < |Split(s, sep)| ==> !Contains(Split(s, sep)[k], sep)
    decreases |s|
  {
    match IndexOf(s, sep)
    case None =>
    case Some(i) =>
      AroundFirst(s, sep, i);
      SplitPiecesFree(s[i + |sep|..], sep);
  }

  /** A string that does not contain the separator splits into itself alone. */
  lemma SplitNoSeparator(s: string, sep: string)
    requires |sep| > 0 && !Contains(s, sep)
    ensures Split(s, sep) == [s]
  {

  }

  /** A string that splits into more than one piece contains the separator. */
  lemma SplitInTwoContains(s: string, sep: string)
    requires |sep| > 0 && |Split(s, sep)| > 1
    ensures Contains(s, sep)
  {
    if !Contains(s, sep) {
      SplitNoSeparator(s, sep);
      assert false;
    }
  }

  /** A string none of whose characters is the separator's first one does not contain it. */
  lemma NoLeadCharNoContains(s: string, sep: string)
    requires |sep| > 0
    requires forall k :: 0 <= k < |s| ==> s[k] != sep[0]
    ensures !Contains(s, sep)
  {
    forall j | 0 <= j <= |s| ensures !OccursAt(s, sep, j) {
      if j + |sep| <= |s| {
        assert s[j..j + |sep|][0] == s[j] != sep[0];
      }
    }
  }

  /** No proper suffix of `sep` is also a prefix of it, so occurrences cannot overlap. */
  predicate NoSelfOverlap(sep: string) {
    forall k :: 0 < k < |sep| ==> sep[k..] != sep[..|sep| - k]
  }

  /**
   * Splitting `a + sep + b`, where `a` holds no occurrence, cuts first right after `a`.
   */
  lemma SplitHead(a: string, sep: string, b: string)
    requires |sep| > 0 && NoSelfOverlap(sep) && !Contains(a, sep)
    ensures Split(a + sep + b, sep) == [a] + Split(b, sep)
  {
    var s := a + sep + b;
    assert OccursAt(s, sep, |a|) by {
      assert s[|a|..|a| + |sep|] == sep;
    }
    forall j | 0 <= j < |a| ensures !OccursAt(s, sep, j) {
      if j + |sep| <= |a| {
        assert s[j..j + |sep|] == a[j..j + |sep|];
        assert !OccursAt(a, sep, j);
      } else {
        var k := |a| - j;
        if j + |sep| <= |s| {
          assert s[j..j + |sep|][k..] == s[|a|..j + |sep|] == sep[..|sep| - k];
          assert sep[k..] != sep[..|sep| - k];
        }
      }
    }
    IndexOfIsFirst(s, sep, |a|);
    assert s[..|a|] == a;
    assert s[|a| + |sep|..] == b;
  }

  /** Splitting around one separator occurrence splits each side independently. */
  lemma {:induction false} SplitAround(a: string, sep: string, b: string)
    requires |sep| > 0 && NoSelfOverlap(sep)
    ensures Split(a + sep + b, sep) == Split(a, sep) + Split(b, sep)
    decreases |a|
  {
    var r := IndexOf(a, sep);
    if r.None? {
      SplitHead(a, sep, b);
      SplitNoSeparator(a, sep);
    } else {
      var i := r.value;
      var a1, a2 := a[..i], a[i + |sep|..];
      AroundFirst(a, sep, i);
      var t := a2 + sep + b;
      Regroup(a, sep, b, a1, a2);
      SplitAround(a2, sep, b);
      SplitAroundStep(sep, b, a1, a2, t);
    }
  }

  lemma Regroup(a: string, sep: string, b: string, a1: string, a2: string)
    requires a == a1 + sep + a2
    ensures a + sep + b == a1 + sep + (a2 + sep + b)
  {
  }

  lemma SplitAroundStep(sep: string, b: string, a1: string, a2: string, t: string)
    requires |sep| > 0 && NoSelfOverlap(sep) && !Contains(a1, sep)
    requires t == a2 + sep + b
    requires Split(t, sep) == Split(a2, sep) + Split(b, sep)
    ensures Split(a1 + sep + t, sep) == Split(a1 + sep + a2, sep) + Split(b, sep)
  {
    SplitHead(a1, sep, t);
    SplitHead(a1, sep, a2);
  }

  // ---------------------------------------------------------------------------
  // substring

  function Clamp(i: int, len: nat): (r: nat)
    ensures r <= len
  {
    if i < 0 then 0 else if i > len then len else i
  }

  /**
   * `s.substring(start, end)`: both bounds are clamped to the string, then
   * swapped if they come in the wrong order.
   */
  function Substring(s: string, start: int, end: int): (r: string)
    ensures |r| <= |s|
    ensures 0 <= start <= end <= |s| ==> r == s[start..end]
    ensures 0 <= end <= start <= |s| ==> r == s[end..start]
    ensures 0 <= start <= |s| <= end ==> r == s[start..]
    ensures 0 <= end <= |s| <= start ==> r == s[end..]
  {
    var a, b := Clamp(start, |s|), Clamp(end, |s|);
    if a <= b then s[a..b] else s[b..a]
  }

  // ---------------------------------------------------------------------------
  // trim

  /** The characters `String.prototype.trim` removes: white space and line terminators. */
  predicate IsJsWhitespace(c: char) {
    || c == '\t' || c == '\n' || c == '\U{B}' || c == '\U{C}' || c == '\r' || c == ' '
    || c == '\U{A0}' || c == '\U{1680}' || ('\U{2000}' <= c <= '\U{200A}')
    || c == '\U{2028}' || c == '\U{2029}' || c == '\U{202F}' || c == '\U{205F}'
    || c == '\U{3000}' || c == '\U{FEFF}'
  }

  /** Every character of `s` is white space. */
  predicate AllWhitespace(s: string) {
    forall k :: 0 <= k < |s| ==> IsJsWhitespace(s[k])
  }

  lemma AllWhitespaceCons(c: char, s: string)
    requires IsJsWhitespace(c) && AllWhitespace(s)
    ensures AllWhitespace([c] + s)
  {
  }

  lemma AllWhitespaceSnoc(s: string, c: char)
    requires AllWhitespace(s) && IsJsWhitespace(c)
    ensures AllWhitespace(s + [c])
  {
  }

  /** `s` without its leading white space: a suffix of `s`. */
  function TrimStart(s: string): (r: string)
    ensures |r| <= |s| && r == s[|s| - |r|..]
    ensures AllWhitespace(s[..|s| - |r|])
    ensures r == [] || !IsJsWhitespace(r[0])
    decreases |s|
  {
    if |s| > 0 && IsJsWhitespace(s[0]) then
      var tail := s[1..];
      var r := TrimStart(tail);
      assert s[..|s| - |r|] == [s[0]] + tail[..|tail| - |r|];
      AllWhitespaceCons(s[0], tail[..|tail| - |r|]);
      r
    else
      assert s[..0] == [];
      s
  }

  /** `s` without its trailing white space: a prefix of `s`. */
  function TrimEnd(s: string): (r: string)
    ensures |r| <= |s| && r == s[..|r|]
    ensures AllWhitespace(s[|r|..])
    ensures r == [] || !IsJsWhitespace(r[|r| - 1])
    decreases |s|
  {
    if |s| > 0 && IsJsWhitespace(s[|s| - 1]) then
      var init := s[..|s| - 1];
      var r := TrimEnd(init);
      assert init[..|r|] == s[..|r|];
      assert s[|r|..] == init[|r|..] + [s[|s| - 1]];
      AllWhitespaceSnoc(init[|r|..], s[|s| - 1]);
      r
    else
      assert s[|s|..] == [];
      s
  }

  /**
   * `r` is the slice of `s` starting at `i`, and everything of `s` before and
   * after that slice is white space.
   */
  predicate CutsTo(s: string, i: nat, r: string) {
    && i + |r| <= |s| && r == s[i..i + |r|]
    && AllWhitespace(s[..i]) && AllWhitespace(s[i + |r|..])
  }

  /**
   * `s.trim()`: a slice of `s` that cuts off only white space, and that neither
   * starts nor ends with white space.
   */
  function Trim(s: string): (r: string)
    ensures exists i: nat :: CutsTo(s, i, r)
    ensures r == [] || (!IsJsWhitespace(r[0]) && !IsJsWhitespace(r[|r| - 1]))
  {
    var t := TrimStart(s);
    var r := TrimEnd(t);
    TrimStartEndCuts(s);
    assert CutsTo(s, |s| - |t|, r);
    assert r != [] ==> r[0] == t[0];
    r
  }

  /** Trimming the start and then the end cuts `s` down to a slice. */
  lemma TrimStartEndCuts(s: string)
    ensures CutsTo(s, |s| - |TrimStart(s)|, TrimEnd(TrimStart(s)))
  {
    var t := TrimStart(s);
    CutsCompose(s, |s| - |t|, t, TrimEnd(t));
  }

  /** Cutting white space off the front of `s` and then off the back of the rest cuts `s` down to a slice. */
  lemma CutsCompose(s: string, i: nat, t: string, r: string)
    requires i <= |s| && t == s[i..] && |r| <= |t| && r == t[..|r|]
    requires AllWhitespace(s[..i]) && AllWhitespace(t[|r|..])
    ensures CutsTo(s, i, r)
  {
    assert r == s[i..i + |r|];
    assert t[|r|..] == s[i + |r|..];
  }

  /** A string without white space at either end is its own trim. */
  lemma TrimNoPadding(s: string)
    requires s == [] || (!IsJsWhitespace(s[0]) && !IsJsWhitespace(s[|s| - 1]))
    ensures Trim(s) == s
  {
  }

  /** Trimming twice trims no more than trimming once. */
  lemma TrimIdempotent(s: string)
    ensures Trim(Trim(s)) == Trim(s)
  {
    TrimNoPadding(Trim(s));
  }

  /** One leading space before an unpadded string is trimmed away. */
  lemma TrimLeadingSpace(s: string)
    requires s == [] || (!IsJsWhitespace(s[0]) && !IsJsWhitespace(s[|s| - 1]))
    ensures Trim(" " + s) == s
  {
    assert (" " + s)[1..] == s;
    assert TrimStart(" " + s) == TrimStart(s);
    TrimNoPadding(s);
  }

  // ---------------------------------------------------------------------------
  // Decimal numerals

  predicate IsDigit(c: char) {
    '0' <= c <= '9'
  }

  predicate AllDigits(s: string) {
    forall k :: 0 <= k < |s| ==> IsDigit(s[k])
  }

  function DigitChar(d: nat): (c: char)
    requires d < 10
    ensures IsDigit(c)
  {
    ('0' as int + d) as char
  }

  function DigitValue(c: char): (d: nat)
    requires IsDigit(c)
    ensures d < 10
  {
    c as int - '0' as int
  }

  /**
   * The decimal numeral of `n`, as JavaScript renders a non-negative integer:
   * only digits, and no leading zero except for 0 itself.
   */
  function NatToString(n: nat): (s: string)
    ensures |s| >= 1 && AllDigits(s)
    ensures (s[0] == '0') == (n == 0)
    ensures n == 0 ==> s == "0"
    decreases n
  {
    if n < 10 then [DigitChar(n)] else NatToString(n / 10) + [DigitChar(n % 10)]
  }

  /** The value of a numeral of decimal digits (the empty numeral counts as 0). */
  function ParseNat(s: string): nat
    requires AllDigits(s)
    decreases |s|
  {
    if |s| == 0 then 0 else ParseNat(s[..|s| - 1]) * 10 + DigitValue(s[|s| - 1])
  }

  /** The numeral of `n` reads back as `n`: the rendering loses nothing. */
  lemma {:induction false} ParseNatToString(n: nat)
    ensures ParseNat(NatToString(n)) == n
    decreases n
  {
    var s := NatToString(n);
    if n < 10 {
      assert s[..0] == [];
    } else {
      var p := NatToString(n / 10);
      assert s[..|s| - 1] == p;
      ParseNatToString(n / 10);
    }
  }

  /**
   * The decimal numeral of an integer: a minus sign exactly for a negative one,
   * then digits with no leading zero except for 0 itself.
   */
  function IntToString(x: int): (s: string)
    ensures |s| >= 1 && (s[0] == '-' <==> x < 0)
    ensures x < 0 ==> |s| >= 2 && AllDigits(s[1..]) && s[1] != '0'
    ensures x >= 0 ==> AllDigits(s) && (s[0] == '0' <==> x == 0)
  {
    if x < 0 then "-" + NatToString(-x) else NatToString(x)
  }

  /** The value of an optionally signed decimal numeral. */
  function ParseInt(s: string): int
    requires |s| > 0 && (s[0] == '-' || IsDigit(s[0])) && AllDigits(s[1..])
  {
    if s[0] == '-' then 0 - ParseNat(s[1..]) else ParseNat(s)
  }

  lemma ParseIntToString(x: int)
    ensures var s := IntToString(x);
      |s| > 0 && (s[0] == '-' || IsDigit(s[0])) && AllDigits(s[1..]) && ParseInt(s) == x
  {
    var s := IntToString(x);
    if x < 0 {
      assert s[1..] == NatToString(-x);
      ParseNatToString(-x);
    } else {
      ParseNatToString(x);
    }
  }

  function Pow10(k: nat): (p: nat)
    ensures p >= 1
  {
    if k == 0 then 1 else 10 * Pow10(k - 1)
  }

  function Zeros(k: nat): (z: string)
    ensures |z| == k && forall i :: 0 <= i < k ==> z[i] == '0'
  {
    if k == 0 then "" else Zeros(k - 1) + "0"
  }

  /** Multiplying a positive number by ten appends one zero digit to its numeral. */
  lemma AppendZero(m: nat)
    requires m > 0
    ensures NatToString(m * 10) == NatToString(m) + "0"
  {
    assert (m * 10) / 10 == m && (m * 10) % 10 == 0;
  }

  lemma MulByTen(n: nat, p: nat)
    requires n > 0 && p > 0
    ensures n * (10 * p) == (n * p) * 10 && n * p > 0
  {
  }

  /** Scaling a positive number by 10^k appends k zero digits to its numeral. */
  lemma {:induction false} NatToStringShift(n: nat, k: nat)
    requires n > 0
    ensures NatToString(n * Pow10(k)) == NatToString(n) + Zeros(k)
    decreases k
  {
    if k > 0 {
      NatToStringShift(n, k - 1);
      var p := Pow10(k - 1);
      var m := n * p;
      MulByTen(n, p);
      assert m > 0;
      AppendZero(m);
      assert NatToString(n) + Zeros(k - 1) + "0" == NatToString(n) + Zeros(k);
    }
  }
}
