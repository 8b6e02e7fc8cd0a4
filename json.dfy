/**
 * The part of `JSON.stringify` the action uses: string values and flat objects
 * whose members are all strings. Escaping follows the ECMAScript `QuoteJSONString`
 * operation; a decoder for string bodies is its inverse.
 */
module Json {
  import opened Wrappers
  import opened Text

  // ---------------------------------------------------------------------------
  // Hexadecimal digits, as `\u00XX` escapes write them (lower case)

  function HexDigit(d: nat): (c: char)
    requires d < 16
  {
    if d < 10 then ('0' as int + d) as char else ('a' as int + d - 10) as char
  }

  predicate IsHexDigit(c: char) {
    ('0' <= c <= '9') || ('a' <= c <= 'f') || ('A' <= c <= 'F')
  }

  function HexValue(c: char): (d: nat)
    requires IsHexDigit(c)
    ensures d < 16
  {
    if '0' <= c <= '9' then c as int - '0' as int
    else if 'a' <= c <= 'f' then c as int - 'a' as int + 10
    else c as int - 'A' as int + 10
  }

  lemma HexValueOfDigit(d: nat)
    requires d < 16
    ensures IsHexDigit(HexDigit(d)) && HexValue(HexDigit(d)) == d
  {
  }

  // ---------------------------------------------------------------------------
  // Escaping

  /** How `JSON.stringify` writes one character inside a string literal. */
  function EscapeChar(c: char): string {
    if c == '"' then "\\\""
    else if c == '\\' then "\\\\"
    else if c == '\U{8}' then "\\b"
    else if c == '\U{C}' then "\\f"
    else if c == '\n' then "\\n"
    else if c == '\r' then "\\r"
    else if c == '\t' then "\\t"
    else if (c as int) < 0x20 then "\\u00" + [HexDigit((c as int) / 16), HexDigit((c as int) % 16)]
    else [c]
  }

  /** A character `JSON.stringify` writes as it is: no quote, backslash or control character. */
  predicate PlainChar(c: char) {
    c != '"' && c != '\\' && (c as int) >= 0x20
  }

  predicate PlainText(s: string) {
    forall k :: 0 <= k < |s| ==> PlainChar(s[k])
  }

  /**
   * The body of the string literal `JSON.stringify(s)` produces (without the
   * quotes). Decoding it gives `s` back, so escaping loses nothing and two
   * different strings never print the same; plain text is written as it is.
   */
  function EscapeString(s: string): (e: string)
    ensures |e| >= |s|
    ensures UnescapeString(e) == Some(s)
    ensures PlainText(s) ==> e == s
    decreases |s|
  {
    if s == [] then ""
    else
      var rest := EscapeString(s[1..]);
      EscapeCons(s[0], rest, s[1..]);
      assert [s[0]] + s[1..] == s;
      assert PlainText(s) ==> PlainChar(s[0]) && PlainText(s[1..]);
      EscapeChar(s[0]) + rest
  }

  /** Escaping one more character in front keeps the three properties of `EscapeString`. */
  lemma EscapeCons(c: char, rest: string, tail: string)
    requires UnescapeString(rest) == Some(tail) && |rest| >= |tail|
    ensures UnescapeString(EscapeChar(c) + rest) == Some([c] + tail)
    ensures |EscapeChar(c) + rest| >= |[c] + tail|
    ensures PlainChar(c) && rest == tail ==> EscapeChar(c) + rest == [c] + tail
  {
    UnescapeEscapeChar(c, rest);
  }

  /** The JSON text of a string: the escaped body between double quotes. */
  function Quote(s: string): string {
    "\"" + EscapeString(s) + "\""
  }

  // ---------------------------------------------------------------------------
  // Decoding a string body

  function Prepend(c: char, rest: Option<string>): Option<string> {
    match rest
    case None => None
    case Some(t) => Some([c] + t)
  }

  /** The character a two-character escape `\x` stands for, if `x` names one. */
  function ShortEscape(x: char): Option<char> {
    if x == '"' then Some('"')
    else if x == '\\' then Some('\\')
    else if x == '/' then Some('/')
    else if x == 'b' then Some('\U{8}')
    else if x == 'f' then Some('\U{C}')
    else if x == 'n' then Some('\n')
    else if x == 'r' then Some('\r')
    else if x == 't' then Some('\t')
    else None
  }

  /** A code point Dafny's `char` can hold (no surrogate halves). */
  predicate IsScalarValue(v: int) {
    (0 <= v < 0xD800) || (0xE000 <= v < 0x11_0000)
  }

  /**
   * The characters a JSON string body stands for, or None when the body is not
   * well formed (a bare quote or control character, an unknown or cut-off escape,
   * a `\u` escape naming a lone surrogate).
   */
  function UnescapeString(s: string): Option<string>
    decreases |s|
  {
    if s == [] then Some("")
    else if s[0] == '"' || (s[0] as int) < 0x20 then None
    else if s[0] != '\\' then Prepend(s[0], UnescapeString(s[1..]))
    else if |s| < 2 then None
    else if s[1] == 'u' then
      if |s| < 6 || !IsHexDigit(s[2]) || !IsHexDigit(s[3]) || !IsHexDigit(s[4]) || !IsHexDigit(s[5]) then None
      else
        var v := ((HexValue(s[2]) * 16 + HexValue(s[3])) * 16 + HexValue(s[4])) * 16 + HexValue(s[5]);
        if IsScalarValue(v) then Prepend(v as char, UnescapeString(s[6..])) else None
    else
      match ShortEscape(s[1])
      case None => None
      case Some(c) => Prepend(c, UnescapeString(s[2..]))
  }

  /** Decoding undoes the escape of one character, whatever follows it. */
  lemma UnescapeEscapeChar(c: char, t: string)
    ensures UnescapeString(EscapeChar(c) + t) == Prepend(c, UnescapeString(t))
  {
    var e := EscapeChar(c);
    var s := e + t;
    if c == '"' || c == '\\' || c == '\U{8}' || c == '\U{C}' || c == '\n' || c == '\r' || c == '\t' {
      assert |e| == 2 && s[0] == '\\' && s[1] == e[1];
      assert s[2..] == t;
    } else if (c as int) < 0x20 {
      var hi, lo := (c as int) / 16, (c as int) % 16;
      HexValueOfDigit(hi);
      HexValueOfDigit(lo);
      assert s[0] == '\\' && s[1] == 'u' && s[2] == '0' && s[3] == '0';
      assert s[4] == HexDigit(hi) && s[5] == HexDigit(lo);
      assert s[6..] == t;
      assert ((0 * 16 + 0) * 16 + hi) * 16 + lo == c as int;
    } else {
      assert s[0] == c && s[1..] == t;
    }
  }

  // ---------------------------------------------------------------------------
  // Flat objects

  /** One `"key":"value"` member. */
  function Member(field: (string, string)): string {
    Quote(field.0) + ":" + Quote(field.1)
  }

  function Members(fields: seq<(string, string)>): string {
    Join(seq(|fields|, i requires 0 <= i < |fields| => Member(fields[i])), ",")
  }

  /**
   * `JSON.stringify` of an object whose own properties, in creation order, are
   * `fields`, all with string values: no white space, members separated by commas.
   */
  function ObjectText(fields: seq<(string, string)>): (text: string)
    ensures |text| >= 2 && text[0] == '{' && text[|text| - 1] == '}'
    ensures fields == [] ==> text == "{}"
  {
    "{" + Members(fields) + "}"
  }

  /** Adding a member at the end of a non-empty object extends its text by one member. */
  lemma MembersSnoc(fields: seq<(string, string)>, last: (string, string))
    requires |fields| > 0
    ensures Members(fields + [last]) == Members(fields) + "," + Member(last)
  {
    var ms := seq(|fields|, i requires 0 <= i < |fields| => Member(fields[i]));
    var all := fields + [last];
    assert seq(|all|, i requires 0 <= i < |all| => Member(all[i])) == ms + [Member(last)];
    JoinSnoc(ms, Member(last), ",");
  }

  /**
   * An object whose last member is `key: value`: the text of the members before
   * it, then that member, whose escaped value runs up to the closing `"}`.
   */
  lemma ObjectSnoc(fields: seq<(string, string)>, key: string, value: string)
    requires |fields| > 0
    ensures ObjectText(fields + [(key, value)])
         == "{" + Members(fields) + "," + Quote(key) + ":\"" + EscapeString(value) + "\"}"
  {
    MembersSnoc(fields, (key, value));
    ObjectRegroup(Members(fields), Quote(key), EscapeString(value));
  }

  lemma ObjectRegroup(m: string, q: string, e: string)
    ensures "{" + (m + "," + (q + ":" + ("\"" + e + "\""))) + "}" == "{" + m + "," + q + ":\"" + e + "\"}"
  {
  }
}
