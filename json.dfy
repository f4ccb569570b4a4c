/**
  JSON values as the grid encoder builds them, and their compact text as
  `json.dumps(value, separators=(",", ":"))` writes it with its default
  `ensure_ascii=True`: no whitespace, every character outside printable ASCII
  written as a `\uXXXX` escape (a surrogate pair above U+FFFF).

  `Parse` is a decoder for that text. It is not part of the converter; it is
  the partner that `ParseRender` proves `Render` against: the text determines
  the value it was rendered from.
*/
module Json {
  import opened Wrappers

  /** The JSON shapes the encoder produces. Object members keep their order. */
  datatype Json =
    | JNumber(n: nat)
    | JString(s: string)
    | JArray(items: seq<Json>)
    | JObject(members: seq<Member>)

  datatype Member = Member(key: string, value: Json)

  // ---------------------------------------------------------------------
  // Characters and digits
  // ---------------------------------------------------------------------

  predicate IsDigit(c: char) {
    '0' <= c <= '9'
  }

  /** Printable ASCII, the only characters `ensure_ascii` output contains. */
  predicate IsPrintableAscii(c: char) {
    ' ' <= c <= '~'
  }

  predicate IsAsciiText(s: string) {
    forall i :: 0 <= i < |s| ==> IsPrintableAscii(s[i])
  }

  /** The lower-case hexadecimal digit for `d`, as the encoder writes it. */
  function HexDigit(d: nat): (c: char)
    requires d < 16
    ensures IsPrintableAscii(c)
  {
    if d < 10 then ('0' as int + d) as char else ('a' as int + d - 10) as char
  }

  /** The value of a hexadecimal digit of either case, as a decoder reads it. */
  function HexValue(c: char): (r: Option<nat>)
    ensures r.Some? ==> r.value < 16
  {
    if '0' <= c <= '9' then Some(c as int - '0' as int)
    else if 'a' <= c <= 'f' then Some(c as int - 'a' as int + 10)
    else if 'A' <= c <= 'F' then Some(c as int - 'A' as int + 10)
    else None
  }

  /** Four lower-case hexadecimal digits, most significant first. */
  function Hex4(n: nat): (r: string)
    requires n < 0x1_0000
    ensures |r| == 4 && IsAsciiText(r)
  {
    var q1 := n / 0x10;
    var q2 := q1 / 0x10;
    [HexDigit(q2 / 0x10), HexDigit(q2 % 0x10), HexDigit(q1 % 0x10), HexDigit(n % 0x10)]
  }

  /** Reads four hexadecimal digits from the front of `s`. */
  function ParseHex4(s: string): (r: Option<nat>)
    ensures r.Some? ==> r.value < 0x1_0000
  {
    if |s| < 4 then None
    else match (HexValue(s[0]), HexValue(s[1]), HexValue(s[2]), HexValue(s[3]))
      case (Some(a), Some(b), Some(c), Some(d)) => Some(a * 0x1000 + b * 0x100 + c * 0x10 + d)
      case _ => None
  }

  // ---------------------------------------------------------------------
  // Rendering
  // ---------------------------------------------------------------------

  /** Decimal text of a natural number, without leading zeros. */
  function NatText(n: nat): (r: string)
    ensures r != [] && IsAsciiText(r)
    ensures forall i :: 0 <= i < |r| ==> IsDigit(r[i])
  {
    if n < 10 then [('0' as int + n) as char]
    else NatText(n / 10) + [('0' as int + n % 10) as char]
  }

  /**
    The characters with a one-letter backslash escape, and that letter:
    quote, backslash, newline, carriage return, tab, backspace, form feed.
  */
  function ShortEscape(c: char): Option<char> {
    if c == '"' then Some('"')
    else if c == '\\' then Some('\\')
    else if c == '\n' then Some('n')
    else if c == '\r' then Some('r')
    else if c == '\t' then Some('t')
    else if c == '\U{8}' then Some('b')
    else if c == '\U{C}' then Some('f')
    else None
  }

  /** The UTF-16 code units of `c` as the hex digits of one or two `\uXXXX` escapes. */
  function CodeUnitsText(c: char): (r: string)
    ensures |r| == 4 || |r| == 10
    ensures IsAsciiText(r)
  {
    if c as int < 0x1_0000 then Hex4(c as int)
    else
      var v := c as int - 0x1_0000;
      Hex4(0xD800 + v / 0x400) + "\\u" + Hex4(0xDC00 + v % 0x400)
  }

  /**
    How one character of a string literal is written: a one-letter escape
    where there is one; other printable ASCII stands for itself; everything
    else becomes `\uXXXX`, or a surrogate pair of two such escapes above
    U+FFFF.
  */
  function EscapeChar(c: char): (r: string)
    ensures |r| > 0 && IsAsciiText(r)
  {
    match ShortEscape(c)
    case Some(e) => ['\\', e]
    case None => if IsPrintableAscii(c) then [c] else "\\u" + CodeUnitsText(c)
  }

  function Escape(s: string): (r: string)
  {
    if s == [] then [] else EscapeChar(s[0]) + Escape(s[1..])
  }

  /** A string literal: the escaped characters between double quotes. */
  function Quote(s: string): (r: string)
  {
    "\"" + Escape(s) + "\""
  }

  /** Compact rendering: `,` between elements, `:` after keys, no spaces. */
  function Render(j: Json): (r: string)
    decreases j
  {
    match j
    case JNumber(n) => NatText(n)
    case JString(s) => Quote(s)
    case JArray(items) => "[" + RenderItems(items) + "]"
    case JObject(members) => "{" + RenderMembers(members) + "}"
  }

  function RenderItems(items: seq<Json>): (r: string)
    decreases items
  {
    if items == [] then ""
    else if |items| == 1 then Render(items[0])
    else Render(items[0]) + "," + RenderItems(items[1..])
  }

  function RenderMember(m: Member): (r: string)
    decreases m
  {
    Quote(m.key) + ":" + Render(m.value)
  }

  function RenderMembers(members: seq<Member>): (r: string)
    decreases members
  {
    if members == [] then ""
    else if |members| == 1 then RenderMember(members[0])
    else RenderMember(members[0]) + "," + RenderMembers(members[1..])
  }

  /** Gluing two ASCII texts gives ASCII text. */
  lemma AsciiConcat(a: string, b: string)
    requires IsAsciiText(a) && IsAsciiText(b)
    ensures IsAsciiText(a + b)
  {
    assert forall i :: 0 <= i < |a + b| ==> (a + b)[i] == if i < |a| then a[i] else b[i - |a|];
  }

  lemma {:induction false} EscapeIsAscii(s: string)
    ensures IsAsciiText(Escape(s))
  {
    if s != [] {
      EscapeIsAscii(s[1..]);
      AsciiConcat(EscapeChar(s[0]), Escape(s[1..]));
    }
  }

  lemma QuoteIsAscii(s: string)
    ensures IsAsciiText(Quote(s))
  {
    EscapeIsAscii(s);
    AsciiConcat("\"", Escape(s));
    AsciiConcat("\"" + Escape(s), "\"");
  }

  /**
    The rendered text is pure printable ASCII: every character outside
    ' '..'~' has been written as an escape.
  */
  lemma {:induction false} RenderIsAscii(j: Json)
    ensures IsAsciiText(Render(j))
    decreases j, 1
  {
    match j
    case JNumber(n) =>
    case JString(x) => QuoteIsAscii(x);
    case JArray(items) =>
      RenderItemsIsAscii(items);
      AsciiConcat("[", RenderItems(items));
      AsciiConcat("[" + RenderItems(items), "]");
    case JObject(members) =>
      RenderMembersIsAscii(members);
      AsciiConcat("{", RenderMembers(members));
      AsciiConcat("{" + RenderMembers(members), "}");
  }

  lemma {:induction false} RenderItemsIsAscii(items: seq<Json>)
    ensures IsAsciiText(RenderItems(items))
    decreases items, 0
  {
    if |items| == 1 {
      RenderIsAscii(items[0]);
    } else if items != [] {
      RenderIsAscii(items[0]);
      RenderItemsIsAscii(items[1..]);
      AsciiConcat(Render(items[0]), ",");
      AsciiConcat(Render(items[0]) + ",", RenderItems(items[1..]));
    }
  }

  lemma {:induction false} RenderMembersIsAscii(members: seq<Member>)
    ensures IsAsciiText(RenderMembers(members))
    decreases members, 0
  {
    if members != [] {
      var m := members[0];
      RenderIsAscii(m.value);
      QuoteIsAscii(m.key);
      AsciiConcat(Quote(m.key), ":");
      AsciiConcat(Quote(m.key) + ":", Render(m.value));
      if |members| > 1 {
        RenderMembersIsAscii(members[1..]);
        AsciiConcat(RenderMember(m), ",");
        AsciiConcat(RenderMember(m) + ",", RenderMembers(members[1..]));
      }
    }
  }

  // ---------------------------------------------------------------------
  // Decoding
  // ---------------------------------------------------------------------

  /** Reads the longest run of decimal digits at the front of `s` into `acc`. */
  function ParseNat(s: string, acc: nat): (r: (nat, string))
    ensures |r.1| <= |s|
    ensures s != [] && IsDigit(s[0]) ==> |r.1| < |s|
  {
    if s != [] && IsDigit(s[0]) then ParseNat(s[1..], acc * 10 + (s[0] as int - '0' as int))
    else (acc, s)
  }

  /** The character a one-letter escape stands for (`/` may be escaped too). */
  function ShortUnescape(e: char): Option<char> {
    if e == '"' then Some('"')
    else if e == '\\' then Some('\\')
    else if e == '/' then Some('/')
    else if e == 'n' then Some('\n')
    else if e == 'r' then Some('\r')
    else if e == 't' then Some('\t')
    else if e == 'b' then Some('\U{8}')
    else if e == 'f' then Some('\U{C}')
    else None
  }

  /** The character above U+FFFF that a high and a low surrogate encode together. */
  function FromSurrogates(hi: nat, lo: nat): (c: char)
    requires 0xD800 <= hi < 0xDC00 && 0xDC00 <= lo < 0xE000
    ensures c as int == 0x1_0000 + (hi - 0xD800) * 0x400 + (lo - 0xDC00)
  {
    var high := hi - 0xD800;
    assert high * 0x400 <= 0x3FF * 0x400;
    (0x1_0000 + high * 0x400 + (lo - 0xDC00)) as char
  }

  /** Reads the hex digits of a `\uXXXX` escape (`s` starts after `\u`), and a second one for a surrogate pair. */
  function UnescapeCode(s: string): (r: Option<(char, string)>)
    ensures r.Some? ==> |r.value.1| < |s|
  {
    match ParseHex4(s)
    case None => None
    case Some(h) =>
      if h < 0xD800 || 0xE000 <= h then Some((h as char, s[4..]))
      else if 0xDC00 <= h || |s| < 10 || s[4] != '\\' || s[5] != 'u' then None
      else
        match ParseHex4(s[6..])
        case None => None
        case Some(l) =>
          if 0xDC00 <= l < 0xE000 then Some((FromSurrogates(h, l), s[10..])) else None
  }

  /** The character after a backslash escape; `s` starts after the backslash. */
  function Unescape(s: string): (r: Option<(char, string)>)
    ensures r.Some? ==> |r.value.1| < |s|
  {
    if s == [] then None
    else if s[0] == 'u' then UnescapeCode(s[1..])
    else
      match ShortUnescape(s[0])
      case None => None
      case Some(c) => Some((c, s[1..]))
  }

  /** Reads the characters of a string literal up to and past its closing quote. */
  function ParseChars(s: string): (r: Option<(string, string)>)
    ensures r.Some? ==> |r.value.1| < |s|
    decreases |s|
  {
    if s == [] then None
    else if s[0] == '"' then Some(([], s[1..]))
    else if s[0] == '\\' then
      match Unescape(s[1..])
      case None => None
      case Some((c, t)) =>
        match ParseChars(t)
        case None => None
        case Some((x, u)) => Some(([c] + x, u))
    else
      match ParseChars(s[1..])
      case None => None
      case Some((x, u)) => Some(([s[0]] + x, u))
  }

  /** Reads one value from the front of `s`; returns it with the text after it. */
  function ParseValue(s: string): (r: Option<(Json, string)>)
    ensures r.Some? ==> |r.value.1| < |s|
    decreases |s|, 0
  {
    if s == [] then None
    else if IsDigit(s[0]) then
      var (n, t) := ParseNat(s, 0);
      Some((JNumber(n), t))
    else if s[0] == '"' then
      match ParseChars(s[1..])
      case None => None
      case Some((x, t)) => Some((JString(x), t))
    else if s[0] == '[' then
      if |s| > 1 && s[1] == ']' then Some((JArray([]), s[2..]))
      else
        match ParseItems(s[1..])
        case None => None
        case Some((items, t)) => Some((JArray(items), t))
    else if s[0] == '{' then
      if |s| > 1 && s[1] == '}' then Some((JObject([]), s[2..]))
      else
        match ParseMembers(s[1..])
        case None => None
        case Some((members, t)) => Some((JObject(members), t))
    else None
  }

  /** Reads `v1,...,vn]` (n >= 1), up to and past the closing bracket. */
  function ParseItems(s: string): (r: Option<(seq<Json>, string)>)
    ensures r.Some? ==> |r.value.1| < |s|
    decreases |s|, 2
  {
    match ParseValue(s)
    case None => None
    case Some((v, t)) =>
      if t == [] then None
      else if t[0] == ']' then Some(([v], t[1..]))
      else if t[0] == ',' then
        match ParseItems(t[1..])
        case None => None
        case Some((vs, u)) => Some(([v] + vs, u))
      else None
  }

  /** Reads one `"k":v` member from the front of `s`. */
  function ParseMember(s: string): (r: Option<(Member, string)>)
    ensures r.Some? ==> |r.value.1| < |s|
    decreases |s|, 1
  {
    if s == [] || s[0] != '"' then None
    else
      match ParseChars(s[1..])
      case None => None
      case Some((k, t)) =>
        if t == [] || t[0] != ':' then None
        else
          match ParseValue(t[1..])
          case None => None
          case Some((v, u)) => Some((Member(k, v), u))
  }

  /** Reads `"k1":v1,...,"kn":vn}` (n >= 1), up to and past the closing brace. */
  function ParseMembers(s: string): (r: Option<(seq<Member>, string)>)
    ensures r.Some? ==> |r.value.1| < |s|
    decreases |s|, 2
  {
    match ParseMember(s)
    case None => None
    case Some((m, t)) =>
      if t == [] then None
      else if t[0] == '}' then Some(([m], t[1..]))
      else if t[0] == ',' then
        match ParseMembers(t[1..])
        case None => None
        case Some((ms, u)) => Some(([m] + ms, u))
      else None
  }

  /** A whole text holding exactly one value. */
  function Parse(s: string): Option<Json> {
    match ParseValue(s)
    case Some((j, rest)) => if rest == [] then Some(j) else None
    case None => None
  }

  // ---------------------------------------------------------------------
  // Round trip: the rendered text decodes to the value it came from
  // ---------------------------------------------------------------------

  lemma HexDigitValue(d: nat)
    requires d < 16
    ensures HexValue(HexDigit(d)) == Some(d)
  {
  }

  /** The four digits `Hex4` writes add back up to `n`. */
  lemma Hex4Split(n: nat)
    requires n < 0x1_0000
    ensures var q1 := n / 0x10; var q2 := q1 / 0x10;
      q2 / 0x10 * 0x1000 + q2 % 0x10 * 0x100 + q1 % 0x10 * 0x10 + n % 0x10 == n
  {
    var q1 := n / 0x10;
    var q2 := q1 / 0x10;
    assert n == q1 * 0x10 + n % 0x10;
    assert q1 == q2 * 0x10 + q1 % 0x10;
    assert q2 == q2 / 0x10 * 0x10 + q2 % 0x10;
  }

  lemma {:induction false} ParseHex4Of(n: nat, rest: string)
    requires n < 0x1_0000
    ensures ParseHex4(Hex4(n) + rest) == Some(n)
  {
    var s := Hex4(n) + rest;
    var q1 := n / 0x10;
    var q2 := q1 / 0x10;
    var a, b, c, d := q2 / 0x10, q2 % 0x10, q1 % 0x10, n % 0x10;
    Hex4Split(n);
    HexDigitValue(a);
    HexDigitValue(b);
    HexDigitValue(c);
    HexDigitValue(d);
    assert s[0] == HexDigit(a) && s[1] == HexDigit(b) && s[2] == HexDigit(c) && s[3] == HexDigit(d);
    assert ParseHex4(s) == Some(a * 0x1000 + b * 0x100 + c * 0x10 + d);
  }

  lemma SurrogateSplit(v: nat)
    ensures v / 0x400 * 0x400 + v % 0x400 == v
  {
  }

  /** Two `\uXXXX` escapes holding a high and a low surrogate are read as one character. */
  lemma UnescapeCodePair(s: string, hi: nat, lo: nat)
    requires 0xD800 <= hi < 0xDC00 && 0xDC00 <= lo < 0xE000
    requires ParseHex4(s) == Some(hi)
    requires |s| >= 10 && s[4] == '\\' && s[5] == 'u'
    requires ParseHex4(s[6..]) == Some(lo)
    ensures UnescapeCode(s) == Some((FromSurrogates(hi, lo), s[10..]))
  {
  }

  lemma DropPrefix(a: string, b: string)
    ensures (a + b)[|a|..] == b
  {
  }

  /** The two halves `CodeUnitsText` computes are a high and a low surrogate that encode `c`. */
  lemma SurrogateHalves(c: char)
    requires 0x1_0000 <= c as int
    ensures var v := c as int - 0x1_0000;
      && 0xD800 <= 0xD800 + v / 0x400 < 0xDC00
      && 0xDC00 <= 0xDC00 + v % 0x400 < 0xE000
      && FromSurrogates(0xD800 + v / 0x400, 0xDC00 + v % 0x400) == c
  {
    var v := c as int - 0x1_0000;
    assert v < 0x10_0000;
    SurrogateSplit(v);
  }

  /** The text of two surrogate escapes is read back as the character they encode. */
  lemma UnescapePairText(hi: nat, lo: nat, t: string)
    requires 0xD800 <= hi < 0xDC00 && 0xDC00 <= lo < 0xE000
    ensures UnescapeCode(Hex4(hi) + "\\u" + Hex4(lo) + t) == Some((FromSurrogates(hi, lo), t))
  {
    var low := Hex4(lo) + t;
    var tail := "\\u" + low;
    var s := Hex4(hi) + "\\u" + Hex4(lo) + t;
    Regroup5(Hex4(hi), "\\u", Hex4(lo), t, []);
    assert s == Hex4(hi) + tail;
    ParseHex4Of(hi, tail);
    DropPrefix(Hex4(hi), tail);
    DropPrefix("\\u", low);
    DropPrefix(Hex4(lo), t);
    assert s[4..] == tail && s[6..] == tail[2..] == low && s[10..] == low[4..] == t;
    ParseHex4Of(lo, t);
    UnescapeCodePair(s, hi, lo);
  }

  /** A surrogate pair is read back as the character it encodes. */
  lemma UnescapeSurrogates(c: char, t: string)
    requires 0x1_0000 <= c as int
    ensures UnescapeCode(CodeUnitsText(c) + t) == Some((c, t))
  {
    var v := c as int - 0x1_0000;
    var hi, lo := 0xD800 + v / 0x400, 0xDC00 + v % 0x400;
    SurrogateHalves(c);
    assert CodeUnitsText(c) == Hex4(hi) + "\\u" + Hex4(lo);
    UnescapePairText(hi, lo, t);
  }

  /** The hex digits of `CodeUnitsText(c)` are read back as `c`. */
  lemma {:induction false} UnescapeCodeUnits(c: char, t: string)
    ensures UnescapeCode(CodeUnitsText(c) + t) == Some((c, t))
  {
    if c as int < 0x1_0000 {
      ParseHex4Of(c as int, t);
      DropPrefix(Hex4(c as int), t);
    } else {
      UnescapeSurrogates(c, t);
    }
  }

  /** An escaped character is read back as itself, leaving the text after it. */
  lemma UnescapeChar(c: char, t: string)
    requires !IsPrintableAscii(c) || ShortEscape(c).Some?
    ensures EscapeChar(c)[0] == '\\'
    ensures Unescape(EscapeChar(c)[1..] + t) == Some((c, t))
  {
    if ShortEscape(c).None? {
      var code := CodeUnitsText(c);
      assert EscapeChar(c)[1..] == "u" + code;
      Regroup3("u", code, t);
      DropPrefix("u", code + t);
      UnescapeCodeUnits(c, t);
    }
  }

  /** Reading one escaped character consumes exactly its escape. */
  lemma {:induction false} ParseCharsStep(c: char, t: string)
    ensures ParseChars(EscapeChar(c) + t) ==
      match ParseChars(t)
      case None => None
      case Some((x, u)) => Some(([c] + x, u))
  {
    var s := EscapeChar(c) + t;
    if !IsPrintableAscii(c) || ShortEscape(c).Some? {
      UnescapeChar(c, t);
      assert s[1..] == EscapeChar(c)[1..] + t;
    } else {
      assert EscapeChar(c) == [c];
      assert s[1..] == t;
    }
  }

  /** Decoding a rendered string literal's body gives back the string. */
  lemma {:induction false} ParseEscaped(x: string, rest: string)
    ensures ParseChars(Escape(x) + "\"" + rest) == Some((x, rest))
    decreases x
  {
    if x == [] {
      assert Escape(x) + "\"" + rest == "\"" + rest;
    } else {
      var t := Escape(x[1..]) + "\"" + rest;
      ParseEscaped(x[1..], rest);
      assert Escape(x) + "\"" + rest == EscapeChar(x[0]) + t;
      ParseCharsStep(x[0], t);
      assert [x[0]] + x[1..] == x;
    }
  }

  /** Reading digits further accumulates them left to right. */
  function DigitsValue(acc: nat, ds: string): nat
    requires forall i :: 0 <= i < |ds| ==> IsDigit(ds[i])
    decreases |ds|
  {
    if ds == [] then acc
    else
      assert IsDigit(ds[0]);
      DigitsValue(acc * 10 + (ds[0] as int - '0' as int), ds[1..])
  }

  lemma {:induction false} DigitsValueSnoc(acc: nat, ds: string, d: char)
    requires forall i :: 0 <= i < |ds| ==> IsDigit(ds[i])
    requires IsDigit(d)
    ensures DigitsValue(acc, ds + [d]) == DigitsValue(acc, ds) * 10 + (d as int - '0' as int)
    decreases ds
  {
    if ds != [] {
      assert (ds + [d])[1..] == ds[1..] + [d];
      DigitsValueSnoc(acc * 10 + (ds[0] as int - '0' as int), ds[1..], d);
    }
  }

  lemma {:induction false} DigitsValueOfNatText(n: nat)
    ensures DigitsValue(0, NatText(n)) == n
  {
    if n >= 10 {
      DigitsValueOfNatText(n / 10);
      DigitsValueSnoc(0, NatText(n / 10), ('0' as int + n % 10) as char);
    }
  }

  lemma {:induction false} ParseNatDigits(acc: nat, ds: string, rest: string)
    requires forall i :: 0 <= i < |ds| ==> IsDigit(ds[i])
    requires rest == [] || !IsDigit(rest[0])
    ensures ParseNat(ds + rest, acc) == (DigitsValue(acc, ds), rest)
    decreases ds
  {
    if ds == [] {
      assert ds + rest == rest;
    } else {
      assert (ds + rest)[1..] == ds[1..] + rest;
      ParseNatDigits(acc * 10 + (ds[0] as int - '0' as int), ds[1..], rest);
    }
  }

  lemma {:induction false} ParseRenderNumber(n: nat, rest: string)
    requires rest == [] || !IsDigit(rest[0])
    ensures ParseValue(NatText(n) + rest) == Some((JNumber(n), rest))
  {
    DigitsValueOfNatText(n);
    ParseNatDigits(0, NatText(n), rest);
  }

  lemma {:induction false} ParseRenderString(x: string, rest: string)
    ensures ParseValue(Quote(x) + rest) == Some((JString(x), rest))
  {
    var s := Quote(x) + rest;
    assert s[1..] == Escape(x) + "\"" + rest;
    ParseEscaped(x, rest);
  }

  /**
    The round trip: the text `Render(j)`, followed by anything that cannot
    continue a number, decodes to `j` and leaves exactly what followed.
  */
  lemma {:induction false} ParseRender(j: Json, rest: string)
    requires rest == [] || !IsDigit(rest[0])
    ensures ParseValue(Render(j) + rest) == Some((j, rest))
    decreases j, 2
  {
    match j
    case JNumber(n) => ParseRenderNumber(n, rest);
    case JString(x) => ParseRenderString(x, rest);
    case JArray(items) => ParseRenderArray(items, rest);
    case JObject(members) => ParseRenderObject(members, rest);
  }

  lemma {:induction false} ParseRenderArray(items: seq<Json>, rest: string)
    ensures ParseValue("[" + RenderItems(items) + "]" + rest) == Some((JArray(items), rest))
    decreases items, 1
  {
    var s := "[" + RenderItems(items) + "]" + rest;
    if items != [] {
      assert s[1..] == RenderItems(items) + "]" + rest;
      ParseRenderItems(items, rest);
      assert s[0] == '[' && s[1] != ']';
    }
  }

  lemma {:induction false} ParseRenderObject(members: seq<Member>, rest: string)
    ensures ParseValue("{" + RenderMembers(members) + "}" + rest) == Some((JObject(members), rest))
    decreases members, 1
  {
    var s := "{" + RenderMembers(members) + "}" + rest;
    if members != [] {
      assert s[1..] == RenderMembers(members) + "}" + rest;
      ParseRenderMembers(members, rest);
      assert s[0] == '{' && s[1] == '"';
    }
  }

  /** A value followed by `]` closes the item list. */
  lemma ParseItemsLast(s: string, v: Json, t: string)
    requires ParseValue(s) == Some((v, "]" + t))
    ensures ParseItems(s) == Some(([v], t))
  {
    assert ("]" + t)[1..] == t;
  }

  /** A value followed by `,` is the head of the item list read after the comma. */
  lemma ParseItemsNext(s: string, v: Json, t: string, vs: seq<Json>, u: string)
    requires ParseValue(s) == Some((v, "," + t))
    requires ParseItems(t) == Some((vs, u))
    ensures ParseItems(s) == Some(([v] + vs, u))
  {
    assert ("," + t)[1..] == t;
  }

  // Regroup3, Regroup5 and Regroup6 only reassociate concatenations: they
  // let the proofs below name each piece instead of comparing sequences.
  lemma Regroup3(a: string, b: string, c: string)
    ensures a + b + c == a + (b + c)
  {
  }

  lemma Regroup5(a: string, b: string, c: string, d: string, e: string)
    ensures a + b + c + d + e == a + (b + (c + d + e))
  {
  }

  lemma {:induction false} ParseRenderItems(items: seq<Json>, rest: string)
    requires items != []
    ensures ParseItems(RenderItems(items) + "]" + rest) == Some((items, rest))
    decreases items, 0
  {
    var v := items[0];
    if |items| == 1 {
      assert RenderItems(items) == Render(v);
      Regroup3(Render(v), "]", rest);
      ParseRender(v, "]" + rest);
      ParseItemsLast(Render(v) + ("]" + rest), v, rest);
      assert [v] == items;
    } else {
      var tail := RenderItems(items[1..]) + "]" + rest;
      assert RenderItems(items) == Render(v) + "," + RenderItems(items[1..]);
      Regroup5(Render(v), ",", RenderItems(items[1..]), "]", rest);
      ParseRender(v, "," + tail);
      ParseRenderItems(items[1..], rest);
      ParseItemsNext(Render(v) + ("," + tail), v, tail, items[1..], rest);
      assert [v] + items[1..] == items;
    }
  }

  lemma Regroup6(a: string, b: string, c: string, d: string, e: string, f: string)
    ensures a + b + c + d + e + f == a + (b + c + (d + (e + f)))
  {
  }

  /** A quoted key, a colon and a value make one member. */
  lemma ParseMemberStep(body: string, k: string, value: string, v: Json, u: string)
    requires ParseChars(body) == Some((k, ":" + value))
    requires ParseValue(value) == Some((v, u))
    ensures ParseMember("\"" + body) == Some((Member(k, v), u))
  {
    DropPrefix("\"", body);
    DropPrefix(":", value);
  }

  lemma {:induction false} ParseRenderMember(m: Member, rest: string)
    requires rest == [] || !IsDigit(rest[0])
    ensures ParseMember(RenderMember(m) + rest) == Some((m, rest))
    decreases m, 0
  {
    var value := Render(m.value) + rest;
    assert RenderMember(m) == "\"" + Escape(m.key) + "\"" + ":" + Render(m.value);
    Regroup6("\"", Escape(m.key), "\"", ":", Render(m.value), rest);
    ParseEscaped(m.key, ":" + value);
    ParseRender(m.value, rest);
    ParseMemberStep(Escape(m.key) + "\"" + (":" + value), m.key, value, m.value, rest);
  }

  /** A member followed by `}` closes the member list. */
  lemma ParseMembersLast(s: string, m: Member, t: string)
    requires ParseMember(s) == Some((m, "}" + t))
    ensures ParseMembers(s) == Some(([m], t))
  {
    assert ("}" + t)[1..] == t;
  }

  /** A member followed by `,` is the head of the member list read after the comma. */
  lemma ParseMembersNext(s: string, m: Member, t: string, ms: seq<Member>, u: string)
    requires ParseMember(s) == Some((m, "," + t))
    requires ParseMembers(t) == Some((ms, u))
    ensures ParseMembers(s) == Some(([m] + ms, u))
  {
    assert ("," + t)[1..] == t;
  }

  lemma {:induction false} ParseRenderMembers(members: seq<Member>, rest: string)
    requires members != []
    ensures ParseMembers(RenderMembers(members) + "}" + rest) == Some((members, rest))
    decreases members, 0
  {
    var m := members[0];
    var head := RenderMember(m);
    if |members| == 1 {
      assert RenderMembers(members) == head;
      Regroup3(head, "}", rest);
      ParseRenderMember(m, "}" + rest);
      ParseMembersLast(head + ("}" + rest), m, rest);
      assert [m] == members;
    } else {
      var tail := RenderMembers(members[1..]) + "}" + rest;
      assert RenderMembers(members) == head + "," + RenderMembers(members[1..]);
      Regroup5(head, ",", RenderMembers(members[1..]), "}", rest);
      ParseRenderMember(m, "," + tail);
      ParseRenderMembers(members[1..], rest);
      ParseMembersNext(head + ("," + tail), m, tail, members[1..], rest);
      assert [m] + members[1..] == members;
    }
  }

  /** The decoder recovers every value from its compact text. */
  lemma RenderIsInjective(j: Json)
    ensures Parse(Render(j)) == Some(j)
  {
    ParseRender(j, []);
    assert Render(j) + [] == Render(j);
  }
}
