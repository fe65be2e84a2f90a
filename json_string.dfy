/**
 * The JSON string literal that the plugin's errors are serialised to
 * (`serializer.serialize_str(..)` under serde_json). Escaping follows
 * section 7 of RFC 8259 with serde_json's choices: `"` and `\` get a
 * backslash, the five control characters with a short form use it, every
 * other control character below U+0020 becomes `\u00xx` with lower-case
 * hex digits, and everything else is written as it is.
 *
 * `Unescape` is a decoder for string bodies in the same section of RFC 8259
 * (surrogate pairs written as two `\u` escapes are not decoded). The round
 * trip `Unquote(Quote(s)) == Some(s)` says that a reader of the serialised
 * error gets back exactly its display text.
 */
module JsonString {
  import opened Wrappers

  /** The characters a JSON string body may not contain unescaped. */
  predicate NeedsEscape(c: char) {
    c == '"' || c == '\\' || (c as int) < 0x20
  }

  function HexDigit(n: nat): (c: char)
    requires n < 16
    ensures '0' <= c <= '9' || 'a' <= c <= 'f'
  {
    "0123456789abcdef"[n]
  }

  /** The value of a hexadecimal digit in either case. */
  function HexValue(c: char): (v: Option<nat>)
    ensures v.Some? ==> v.value < 16
    ensures v.Some? <==> ('0' <= c <= '9' || 'a' <= c <= 'f' || 'A' <= c <= 'F')
  {
    if '0' <= c <= '9' then Some(c as int - '0' as int)
    else if 'a' <= c <= 'f' then Some(c as int - 'a' as int + 10)
    else if 'A' <= c <= 'F' then Some(c as int - 'A' as int + 10)
    else None
  }

  /** The value of the four hex digits after `\u`. */
  function HexQuad(t: string): (v: Option<nat>)
    requires |t| == 4
    ensures v.Some? ==> v.value < 0x1_0000
  {
    match (HexValue(t[0]), HexValue(t[1]), HexValue(t[2]), HexValue(t[3]))
    case (Some(a), Some(b), Some(c), Some(d)) => Some(((a * 16 + b) * 16 + c) * 16 + d)
    case _ => None
  }

  predicate IsScalar(v: nat) {
    v < 0xD800 || 0xE000 <= v < 0x11_0000
  }

  /** What serde_json writes for one character of a string. */
  function EscapeChar(c: char): (e: string)
    ensures 1 <= |e| <= 6
    ensures NeedsEscape(c) <==> |e| > 1
    ensures !NeedsEscape(c) ==> e == [c]
  {
    if c == '"' then "\\\""
    else if c == '\\' then "\\\\"
    else if c as int == 0x08 then "\\b"
    else if c as int == 0x0C then "\\f"
    else if c == '\n' then "\\n"
    else if c == '\r' then "\\r"
    else if c == '\t' then "\\t"
    else if (c as int) < 0x20 then "\\u00" + [HexDigit(c as int / 16), HexDigit(c as int % 16)]
    else [c]
  }

  /** The body of the string literal serde_json writes for `s`. */
  function Escape(s: string): (e: string)
    ensures |e| >= |s|
  {
    if s == [] then [] else EscapeChar(s[0]) + Escape(s[1..])
  }

  /** The full string literal: the escaped body between double quotes. */
  function Quote(s: string): (q: string)
    ensures Unquote(q) == Some(s)
  {
    UnescapeEscape(s);
    var q := "\"" + Escape(s) + "\"";
    assert q[1..|q| - 1] == Escape(s);
    q
  }

  function Prepend(c: char, rest: Option<string>): Option<string> {
    if rest.Some? then Some([c] + rest.value) else None
  }

  /** Decodes a JSON string body; None when it is not a well-formed one. */
  function Unescape(t: string): (r: Option<string>)
    ensures r.Some? ==> |r.value| <= |t|
    decreases |t|
  {
    if t == [] then Some([])
    else if t[0] == '\\' then
      if |t| < 2 then None
      else if t[1] == '"' then Prepend('"', Unescape(t[2..]))
      else if t[1] == '\\' then Prepend('\\', Unescape(t[2..]))
      else if t[1] == '/' then Prepend('/', Unescape(t[2..]))
      else if t[1] == 'b' then Prepend(0x08 as char, Unescape(t[2..]))
      else if t[1] == 'f' then Prepend(0x0C as char, Unescape(t[2..]))
      else if t[1] == 'n' then Prepend('\n', Unescape(t[2..]))
      else if t[1] == 'r' then Prepend('\r', Unescape(t[2..]))
      else if t[1] == 't' then Prepend('\t', Unescape(t[2..]))
      else if t[1] == 'u' && |t| >= 6 then
        match HexQuad(t[2..6])
        case Some(v) =>
          if IsScalar(v) then Prepend(v as char, Unescape(t[6..])) else None
        case None => None
      else None
    else if NeedsEscape(t[0]) then None
    else Prepend(t[0], Unescape(t[1..]))
  }

  /** Decodes a whole JSON string literal, quotes included. */
  function Unquote(q: string): Option<string> {
    if |q| >= 2 && q[0] == '"' && q[|q| - 1] == '"' then Unescape(q[1..|q| - 1]) else None
  }

  lemma HexDigitValue(n: nat)
    requires n < 16
    ensures HexValue(HexDigit(n)) == Some(n)
  {
    var s := "0123456789abcdef";
    assert s[n] as int == if n < 10 then '0' as int + n else 'a' as int + n - 10;
  }

  /** The control characters without a short escape, written as `\u00xx`. */
  predicate IsUnicodeEscaped(c: char) {
    (c as int) < 0x20 && c as int != 0x08 && c as int != 0x0C && c != '\n' && c != '\r' && c != '\t'
  }

  /** The four hex digits of a `\u00xx` escape give back the character's code point. */
  lemma UnicodeEscapeDigits(c: char)
    requires IsUnicodeEscaped(c)
    ensures |EscapeChar(c)| == 6 && EscapeChar(c)[0] == '\\' && EscapeChar(c)[1] == 'u'
    ensures HexQuad(EscapeChar(c)[2..6]) == Some(c as int)
  {
    var hi, lo := c as int / 16, c as int % 16;
    HexDigitValue(hi);
    HexDigitValue(lo);
    assert EscapeChar(c)[2..6] == "00" + [HexDigit(hi), HexDigit(lo)];
  }

  /** Decoding one escaped character in front of any body. */
  lemma UnescapeEscapeChar(c: char, rest: string)
    ensures Unescape(EscapeChar(c) + rest) == Prepend(c, Unescape(rest))
  {
    var t := EscapeChar(c) + rest;
    if !NeedsEscape(c) {
      assert t[1..] == rest;
    } else if IsUnicodeEscaped(c) {
      UnicodeEscapeDigits(c);
      assert t[2..6] == EscapeChar(c)[2..6];
      assert t[6..] == rest;
    } else {
      assert t[2..] == rest;
    }
  }

  /** Decoding undoes escaping, for every string. */
  lemma {:induction false} UnescapeEscape(s: string)
    ensures Unescape(Escape(s)) == Some(s)
  {
    if s != [] {
      UnescapeEscape(s[1..]);
      UnescapeEscapeChar(s[0], Escape(s[1..]));
      assert [s[0]] + s[1..] == s;
    }
  }

  /** Escaping leaves a string as it is exactly when none of its characters needs an escape. */
  lemma {:induction false} EscapeIdentity(s: string)
    ensures Escape(s) == s <==> forall i :: 0 <= i < |s| ==> !NeedsEscape(s[i])
  {
    if s != [] {
      EscapeIdentity(s[1..]);
      var e := Escape(s);
      assert e == EscapeChar(s[0]) + Escape(s[1..]);
      if NeedsEscape(s[0]) {
        assert |e| > |s|;
      } else if Escape(s[1..]) != s[1..] {
        assert e[1..] == Escape(s[1..]);
      } else {
        assert forall i :: 1 <= i < |s| ==> s[i] == s[1..][i - 1];
        assert e == [s[0]] + s[1..] == s;
      }
    }
  }
}
