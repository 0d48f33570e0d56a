/** The one permitted JSON representation: printer, parser and nesting scanner for wire
    contracts (geniusnew/contracts.py), following sections 2 to 9 of RFC 8259.
    The value space has no floating-point numbers: the parser refuses their literals. */
module Json {
  import opened Prelude

  /** Objects list their fields in key order, so equal meaning is equal value. */
  datatype Value =
    | Null
    | Bool(b: bool)
    | Num(n: int)
    | Str(s: Text)
    | Arr(items: Items)
    | Obj(fields: Fields)
  datatype Items = NoItems | Item(head: Value, tail: Items)
  datatype Fields = NoFields | Field(key: Text, value: Value, rest: Fields)

  const QUOTE: Code := 34
  const BACKSLASH: Code := 92
  const COMMA: Code := 44
  const COLON: Code := 58
  const OPEN_ARRAY: Code := 91
  const CLOSE_ARRAY: Code := 93
  const OPEN_OBJECT: Code := 123
  const CLOSE_OBJECT: Code := 125
  const MINUS: Code := 45
  const LETTER_U: Code := 117
  const NULL_TEXT: Text := [110, 117, 108, 108]
  const TRUE_TEXT: Text := [116, 114, 117, 101]
  const FALSE_TEXT: Text := [102, 97, 108, 115, 101]

  /** CPython converts no integer literal longer than this. */
  const MAX_INT_DIGITS := 4300

  // ---------------------------------------------------------------- printing

  function HexDigit(n: int): Code
    requires 0 <= n < 16
  {
    if n < 10 then 48 + n else 87 + n
  }

  /** A UTF-16 code unit as `\uXXXX`. */
  function UnitEscape(n: int): (t: Text)
    requires 0 <= n < 0x1_0000
    ensures |t| == 6
  {
    [BACKSLASH, LETTER_U, HexDigit(n / 0x1000), HexDigit(n / 0x100 % 16), HexDigit(n / 16 % 16), HexDigit(n % 16)]
  }

  function HighUnit(c: Code): int
    requires c >= 0x1_0000
  {
    0xD800 + (c - 0x1_0000) / 0x400
  }

  function LowUnit(c: Code): int
    requires c >= 0x1_0000
  {
    0xDC00 + (c - 0x1_0000) % 0x400
  }

  function EscapeCode(c: Code): (t: Text)
    ensures |t| > 0
  {
    if c == QUOTE then [BACKSLASH, QUOTE]
    else if c == BACKSLASH then [BACKSLASH, BACKSLASH]
    else if c == 8 then [BACKSLASH, 98]
    else if c == 9 then [BACKSLASH, 116]
    else if c == 10 then [BACKSLASH, 110]
    else if c == 12 then [BACKSLASH, 102]
    else if c == 13 then [BACKSLASH, 114]
    else if 32 <= c <= 126 then [c]
    else if c < 0x1_0000 then UnitEscape(c)
    else UnitEscape(HighUnit(c)) + UnitEscape(LowUnit(c))
  }

  function Escape(s: Text): Text {
    if s == [] then [] else EscapeCode(s[0]) + Escape(s[1..])
  }

  function PrintString(s: Text): Text { [QUOTE] + Escape(s) + [QUOTE] }

  function Digits(n: nat): (t: Text)
    ensures |t| > 0
  {
    if n < 10 then [48 + n] else Digits(n / 10) + [48 + n % 10]
  }

  function PrintInt(n: int): Text {
    if n < 0 then [MINUS] + Digits(-n) else Digits(n)
  }

  function Print(v: Value): Text
    decreases v
  {
    match v
    case Null => NULL_TEXT
    case Bool(b) => if b then TRUE_TEXT else FALSE_TEXT
    case Num(n) => PrintInt(n)
    case Str(s) => PrintString(s)
    case Arr(items) => [OPEN_ARRAY] + PrintItems(items) + [CLOSE_ARRAY]
    case Obj(fields) => [OPEN_OBJECT] + PrintFields(fields) + [CLOSE_OBJECT]
  }

  function PrintItems(items: Items): Text
    decreases items
  {
    match items
    case NoItems => []
    case Item(head, tail) => Print(head) + (if tail.NoItems? then [] else [COMMA] + PrintItems(tail))
  }

  function PrintFields(fields: Fields): Text
    decreases fields
  {
    match fields
    case NoFields => []
    case Field(key, value, rest) =>
      PrintString(key) + [COLON] + Print(value) + (if rest.NoFields? then [] else [COMMA] + PrintFields(rest))
  }

  // ---------------------------------------------------------------- printing, spelled out

  lemma HexSpelled(n: int)
    requires 0 <= n < 16
    ensures HexDigit(n) == "0123456789abcdef"[n] as int
  {
  }

  /** The seven short escapes, printable ASCII as itself, and every other code point as the
      `\u` escapes of its UTF-16 code units. */
  lemma EscapesSpelled(c: Code)
    ensures EscapeCode(0x22) == ['\\' as int, '\"' as int] && EscapeCode(0x5C) == ['\\' as int, '\\' as int]
    ensures EscapeCode(0x08) == ['\\' as int, 'b' as int] && EscapeCode(0x09) == ['\\' as int, 't' as int]
    ensures EscapeCode(0x0A) == ['\\' as int, 'n' as int] && EscapeCode(0x0C) == ['\\' as int, 'f' as int]
    ensures EscapeCode(0x0D) == ['\\' as int, 'r' as int]
    ensures 0x20 <= c <= 0x7E && c != 0x22 && c != 0x5C ==> EscapeCode(c) == [c]
    ensures (c < 0x20 || 0x7F <= c < 0x1_0000) && c !in {0x08, 0x09, 0x0A, 0x0C, 0x0D} ==> EscapeCode(c) == UnitEscape(c)
    ensures 0x1_0000 <= c ==>
              EscapeCode(c) == UnitEscape(0xD800 + (c - 0x1_0000) / 1024) + UnitEscape(0xDC00 + (c - 0x1_0000) % 1024)
  {
  }

  /** A code unit in four lower-case hexadecimal digits, highest first. */
  lemma UnitSpelled(n: int)
    requires 0 <= n < 0x1_0000
    ensures |UnitEscape(n)| == 6 && UnitEscape(n)[0] == '\\' as int && UnitEscape(n)[1] == 'u' as int
    ensures UnitEscape(n)[2] == "0123456789abcdef"[n / 4096] as int
    ensures UnitEscape(n)[3] == "0123456789abcdef"[n / 256 % 16] as int
    ensures UnitEscape(n)[4] == "0123456789abcdef"[n / 16 % 16] as int
    ensures UnitEscape(n)[5] == "0123456789abcdef"[n % 16] as int
  {
    hide HexDigit;
    HexSpelled(n / 4096);
    HexSpelled(n / 256 % 16);
    HexSpelled(n / 16 % 16);
    HexSpelled(n % 16);
  }

  lemma ScalarsSpelled(s: Text)
    ensures Print(Null) == Ascii("null") && Print(Bool(true)) == Ascii("true") && Print(Bool(false)) == Ascii("false")
    ensures Print(Str(s)) == ['\"' as int] + Escape(s) + ['\"' as int]
  {
    hide Escape;
  }

  lemma ItemsSpelled(v: Value, more: Items)
    ensures PrintItems(NoItems) == []
    ensures PrintItems(Item(v, more)) == Print(v) + (if more.Item? then [',' as int] + PrintItems(more) else [])
  {
    hide Print;
  }

  /** Items follow each other with one comma between them and nothing else. */
  lemma ArraysSpelled(v: Value, more: Items)
    ensures Print(Arr(NoItems)) == ['[' as int, ']' as int]
    ensures Print(Arr(Item(v, NoItems))) == ['[' as int] + Print(v) + [']' as int]
    ensures more.Item? ==> Print(Arr(Item(v, more))) == ['[' as int] + Print(v) + [',' as int] + Print(Arr(more))[1..]
  {
    hide PrintItems;
    ItemsSpelled(v, more);
    ItemsSpelled(v, NoItems);
    assert Print(Arr(more))[1..] == PrintItems(more) + [']' as int];
  }

  lemma FieldsSpelled(key: Text, v: Value, more: Fields)
    ensures PrintFields(NoFields) == []
    ensures PrintFields(Field(key, v, more)) ==
            PrintString(key) + [':' as int] + Print(v) + (if more.Field? then [',' as int] + PrintFields(more) else [])
  {
    hide PrintString, Print;
  }

  /** Every field is its key, a colon and its value, with one comma between fields. */
  lemma ObjectsSpelled(key: Text, v: Value, more: Fields)
    ensures Print(Obj(NoFields)) == ['{' as int, '}' as int]
    ensures Print(Obj(Field(key, v, NoFields))) == ['{' as int] + PrintString(key) + [':' as int] + Print(v) + ['}' as int]
    ensures more.Field? ==>
              Print(Obj(Field(key, v, more)))
              == ['{' as int] + PrintString(key) + [':' as int] + Print(v) + [',' as int] + Print(Obj(more))[1..]
  {
    hide PrintString, PrintFields;
    FieldsSpelled(key, v, more);
    FieldsSpelled(key, v, NoFields);
  }

  // ---------------------------------------------------------------- parsing

  datatype Parsed<+T> = Parsed(value: T, rest: Text)

  predicate IsSpace(c: Code) { c == 32 || c == 9 || c == 10 || c == 13 }

  function SkipSpace(s: Text): (t: Text)
    ensures |t| <= |s|
  {
    if s != [] && IsSpace(s[0]) then SkipSpace(s[1..]) else s
  }

  predicate IsHexDigit(c: Code) { 48 <= c <= 57 || 97 <= c <= 102 || 65 <= c <= 70 }

  function HexValue(c: Code): (v: int)
    requires IsHexDigit(c)
    ensures 0 <= v < 16
  {
    if c <= 57 then c - 48 else if c <= 70 then c - 55 else c - 87
  }

  /** The four digits of a `\u` escape. */
  function ParseUnit(s: Text): (r: Option<int>)
    ensures r.Some? ==> 4 <= |s| && 0 <= r.value < 0x1_0000
  {
    if |s| >= 4 && IsHexDigit(s[0]) && IsHexDigit(s[1]) && IsHexDigit(s[2]) && IsHexDigit(s[3])
    then Some(HexValue(s[0]) * 0x1000 + HexValue(s[1]) * 0x100 + HexValue(s[2]) * 16 + HexValue(s[3]))
    else None
  }

  predicate IsHigh(u: int) { 0xD800 <= u <= 0xDBFF }
  predicate IsLow(u: int) { 0xDC00 <= u <= 0xDFFF }

  function Joined(high: int, low: int): Code
    requires IsHigh(high) && IsLow(low)
  {
    0x1_0000 + (high - 0xD800) * 0x400 + (low - 0xDC00)
  }

  /** One character of a string literal; `s` is not at its closing quote. */
  function ParseCode(s: Text): (r: Option<Parsed<Code>>)
    requires s != []
    ensures r.Some? ==> |r.value.rest| < |s|
  {
    if s[0] != BACKSLASH then (if s[0] < 32 then None else Some(Parsed(s[0], s[1..])))
    else if |s| < 2 then None
    else if s[1] == LETTER_U then
      match ParseUnit(s[2..])
      case None => None
      case Some(unit) =>
        if IsHigh(unit) && |s| >= 8 && s[6] == BACKSLASH && s[7] == LETTER_U then
          match ParseUnit(s[8..])
          case None => None
          case Some(low) => if IsLow(low) then Some(Parsed(Joined(unit, low), s[12..])) else Some(Parsed(unit, s[6..]))
        else Some(Parsed(unit, s[6..]))
    else
      match s[1]
      case 34 => Some(Parsed(34, s[2..]))
      case 92 => Some(Parsed(92, s[2..]))
      case 47 => Some(Parsed(47, s[2..]))
      case 98 => Some(Parsed(8, s[2..]))
      case 102 => Some(Parsed(12, s[2..]))
      case 110 => Some(Parsed(10, s[2..]))
      case 114 => Some(Parsed(13, s[2..]))
      case 116 => Some(Parsed(9, s[2..]))
      case _ => None
  }

  /** The rest of a string literal after its opening quote. */
  function ParseString(s: Text): (r: Option<Parsed<Text>>)
    ensures r.Some? ==> |r.value.rest| < |s|
  {
    if s == [] then None
    else if s[0] == QUOTE then Some(Parsed([], s[1..]))
    else match ParseCode(s)
    case None => None
    case Some(first) =>
      match ParseString(first.rest)
      case None => None
      case Some(more) => Some(Parsed([first.value] + more.value, more.rest))
  }

  function DigitValue(c: Code): nat
    requires IsDigit(c)
  {
    c - 48
  }

  function DigitCount(s: Text): (n: nat)
    ensures n <= |s|
    ensures forall i :: 0 <= i < n ==> IsDigit(s[i])
  {
    if s != [] && IsDigit(s[0]) then 1 + DigitCount(s[1..]) else 0
  }

  function DigitsValue(s: Text): nat
    requires forall i :: 0 <= i < |s| ==> IsDigit(s[i])
  {
    if s == [] then 0 else DigitsValue(s[..|s| - 1]) * 10 + DigitValue(s[|s| - 1])
  }

  function ParseNatural(s: Text): (r: Option<Parsed<nat>>)
    ensures r.Some? ==> |r.value.rest| < |s|
  {
    var n := if s != [] && s[0] == 48 then 1 else DigitCount(s);
    if n == 0 || n > MAX_INT_DIGITS then None
    else if n < |s| && (s[n] == 46 || s[n] == 69 || s[n] == 101) then None
    else Some(Parsed(DigitsValue(s[..n]), s[n..]))
  }

  function ParseInt(s: Text): (r: Option<Parsed<Value>>)
    ensures r.Some? ==> |r.value.rest| < |s|
  {
    if s != [] && s[0] == MINUS then
      match ParseNatural(s[1..])
      case None => None
      case Some(p) => Some(Parsed(Num(0 - p.value), p.rest))
    else
      match ParseNatural(s)
      case None => None
      case Some(p) => Some(Parsed(Num(p.value), p.rest))
  }

  function ParseScalar(s: Text): (r: Option<Parsed<Value>>)
    ensures r.Some? ==> |r.value.rest| < |s|
  {
    if NULL_TEXT <= s then Some(Parsed(Null, s[4..]))
    else if TRUE_TEXT <= s then Some(Parsed(Bool(true), s[4..]))
    else if FALSE_TEXT <= s then Some(Parsed(Bool(false), s[5..]))
    else ParseInt(s)
  }

  function ParseValue(s: Text): (r: Option<Parsed<Value>>)
    ensures r.Some? ==> |r.value.rest| < |s|
    decreases |s|, 0
  {
    if s == [] then None
    else if s[0] == QUOTE then
      match ParseString(s[1..])
      case None => None
      case Some(p) => Some(Parsed(Str(p.value), p.rest))
    else if s[0] == OPEN_ARRAY then
      var t := SkipSpace(s[1..]);
      if t != [] && t[0] == CLOSE_ARRAY then Some(Parsed(Arr(NoItems), t[1..]))
      else match ParseItems(t)
      case None => None
      case Some(p) => Some(Parsed(Arr(p.value), p.rest))
    else if s[0] == OPEN_OBJECT then
      var t := SkipSpace(s[1..]);
      if t != [] && t[0] == CLOSE_OBJECT then Some(Parsed(Obj(NoFields), t[1..]))
      else match ParseFields(t)
      case None => None
      case Some(p) => Some(Parsed(Obj(p.value), p.rest))
    else ParseScalar(s)
  }

  function ParseItems(s: Text): (r: Option<Parsed<Items>>)
    ensures r.Some? ==> |r.value.rest| < |s|
    decreases |s|, 1
  {
    match ParseValue(s)
    case None => None
    case Some(head) =>
      var t := SkipSpace(head.rest);
      if t == [] then None
      else if t[0] == CLOSE_ARRAY then Some(Parsed(Item(head.value, NoItems), t[1..]))
      else if t[0] != COMMA then None
      else match ParseItems(SkipSpace(t[1..]))
      case None => None
      case Some(tail) => Some(Parsed(Item(head.value, tail.value), tail.rest))
  }

  /** A key, its colon and the space around it. */
  function ParseKey(s: Text): (r: Option<Parsed<Text>>)
    ensures r.Some? ==> |r.value.rest| < |s|
  {
    if s == [] || s[0] != QUOTE then None
    else match ParseString(s[1..])
    case None => None
    case Some(key) =>
      var t := SkipSpace(key.rest);
      if t == [] || t[0] != COLON then None else Some(Parsed(key.value, SkipSpace(t[1..])))
  }

  function ParseFields(s: Text): (r: Option<Parsed<Fields>>)
    ensures r.Some? ==> |r.value.rest| < |s|
    decreases |s|, 1
  {
    match ParseKey(s)
    case None => None
    case Some(key) =>
      match ParseValue(key.rest)
      case None => None
      case Some(value) =>
        var t := SkipSpace(value.rest);
        if t == [] then None
        else if t[0] == CLOSE_OBJECT then Some(Parsed(Field(key.value, value.value, NoFields), t[1..]))
        else if t[0] != COMMA then None
        else match ParseFields(SkipSpace(t[1..]))
        case None => None
        case Some(rest) => Some(Parsed(Field(key.value, value.value, rest.value), rest.rest))
  }

  /** A whole document, with nothing but space around it. */
  function Parse(s: Text): Option<Value> {
    match ParseValue(SkipSpace(s))
    case None => None
    case Some(p) => if SkipSpace(p.rest) == [] then Some(p.value) else None
  }

  // ---------------------------------------------------------------- strings read back as printed

  /** What printing cannot tell apart: a high and a low surrogate in a row print as the one
      code point they encode. */
  function Join(s: Text): (t: Text)
    ensures |t| <= |s|
  {
    if |s| >= 2 && IsHigh(s[0]) && IsLow(s[1]) then [Joined(s[0], s[1])] + Join(s[2..])
    else if s == [] then []
    else [s[0]] + Join(s[1..])
  }

  predicate PairFree(s: Text) {
    |s| < 2 || (!(IsHigh(s[0]) && IsLow(s[1])) && PairFree(s[1..]))
  }

  lemma HexSplit(n: int)
    requires 0 <= n < 0x1_0000
    ensures n == n / 0x1000 * 0x1000 + n / 0x100 % 16 * 0x100 + n / 16 % 16 * 16 + n % 16
  {
    assert n / 0x100 / 16 == n / 0x1000 && n / 16 / 16 == n / 0x100;
  }

  lemma HexDigitReads(n: int)
    requires 0 <= n < 16
    ensures IsHexDigit(HexDigit(n)) && HexValue(HexDigit(n)) == n
  {
  }

  lemma UnitParses(n: int, rest: Text)
    requires 0 <= n < 0x1_0000
    ensures ParseUnit(UnitEscape(n)[2..] + rest) == Some(n)
  {
    HexSplit(n);
    HexDigitReads(n / 0x1000);
    HexDigitReads(n / 0x100 % 16);
    HexDigitReads(n / 16 % 16);
    HexDigitReads(n % 16);
  }

  /** `s` goes on with an escape that a preceding high surrogate would swallow. */
  predicate StartsLow(s: Text) {
    && |s| >= 2 && s[0] == BACKSLASH && s[1] == LETTER_U
    && (ParseUnit(s[2..]).Some? ==> IsLow(ParseUnit(s[2..]).value))
  }

  lemma UnitCodeParses(n: int, rest: Text)
    requires 0 <= n < 0x1_0000
    requires IsHigh(n) ==> !StartsLow(rest)
    ensures ParseCode(UnitEscape(n) + rest) == Some(Parsed(n, rest))
  {
    var t := UnitEscape(n) + rest;
    assert t[2..] == UnitEscape(n)[2..] + rest;
    UnitParses(n, rest);
    assert t[6..] == rest;
    if |rest| >= 2 {
      assert t[6] == rest[0] && t[7] == rest[1] && t[8..] == rest[2..];
    }
  }

  lemma PairParses(high: int, low: int, rest: Text)
    requires IsHigh(high) && IsLow(low)
    ensures ParseCode(UnitEscape(high) + UnitEscape(low) + rest) == Some(Parsed(Joined(high, low), rest))
  {
    var second := UnitEscape(low) + rest;
    var t := UnitEscape(high) + UnitEscape(low) + rest;
    assert t[2..] == UnitEscape(high)[2..] + second;
    UnitParses(high, second);
    assert t[6] == BACKSLASH && t[7] == LETTER_U;
    assert t[8..] == UnitEscape(low)[2..] + rest;
    UnitParses(low, rest);
    assert t[12..] == rest;
  }

  lemma CodeParses(c: Code, rest: Text)
    requires IsHigh(c) ==> !StartsLow(rest)
    ensures ParseCode(EscapeCode(c) + rest) == Some(Parsed(c, rest))
  {
    var t := EscapeCode(c) + rest;
    assert t[|EscapeCode(c)|..] == rest;
    if c in {34, 92, 8, 9, 10, 12, 13} || 32 <= c <= 126 {
    } else if c < 0x1_0000 {
      UnitCodeParses(c, rest);
    } else {
      PairParses(HighUnit(c), LowUnit(c), rest);
      assert Joined(HighUnit(c), LowUnit(c)) == c;
    }
  }

  lemma UnitStart(n: int, rest: Text)
    requires 0 <= n < 0x1_0000 && !IsLow(n)
    ensures !StartsLow(UnitEscape(n) + rest)
  {
    hide UnitEscape, ParseUnit;
    assert (UnitEscape(n) + rest)[2..] == UnitEscape(n)[2..] + rest;
    UnitParses(n, rest);
  }

  lemma CodeStart(c: Code, rest: Text)
    requires !IsLow(c)
    ensures !StartsLow(EscapeCode(c) + rest)
  {
    hide UnitEscape, ParseUnit;
    if c >= 0x1_0000 {
      UnitStart(HighUnit(c), UnitEscape(LowUnit(c)) + rest);
      assert EscapeCode(c) + rest == UnitEscape(HighUnit(c)) + (UnitEscape(LowUnit(c)) + rest);
    } else {
      UnitStart(c, rest);
    }
  }

  lemma QuoteStart(rest: Text)
    ensures !StartsLow([QUOTE] + rest)
  {
  }

  lemma EscapedStart(s: Text, rest: Text)
    requires s != [] ==> !IsLow(s[0])
    ensures !StartsLow(Escape(s) + [QUOTE] + rest)
  {
    hide EscapeCode, StartsLow;
    if s == [] {
      QuoteStart(rest);
      assert Escape(s) + [QUOTE] + rest == [QUOTE] + rest;
    } else {
      CodeStart(s[0], Escape(s[1..]) + [QUOTE] + rest);
      assert Escape(s) + [QUOTE] + rest == EscapeCode(s[0]) + (Escape(s[1..]) + [QUOTE] + rest);
    }
  }

  lemma SurrogateEscape(c: Code)
    requires IsHigh(c) || IsLow(c)
    ensures EscapeCode(c) == UnitEscape(c)
  {
  }

  lemma EscapePair(s: Text)
    requires |s| >= 2 && IsHigh(s[0]) && IsLow(s[1])
    ensures Escape(s) == UnitEscape(s[0]) + UnitEscape(s[1]) + Escape(s[2..])
  {
    SurrogateEscape(s[0]);
    SurrogateEscape(s[1]);
    hide EscapeCode, UnitEscape;
    assert s[1..][1..] == s[2..];
  }

  lemma StringStep(s: Text, c: Code, more: Text, tail: Text, rest: Text)
    requires s != [] && s[0] != QUOTE
    requires ParseCode(s) == Some(Parsed(c, more)) && ParseString(more) == Some(Parsed(tail, rest))
    ensures ParseString(s) == Some(Parsed([c] + tail, rest))
  {
  }

  lemma PairHead(s: Text, rest: Text, tail: Text)
    requires |s| >= 2 && IsHigh(s[0]) && IsLow(s[1])
    requires ParseString(Escape(s[2..]) + [QUOTE] + rest) == Some(Parsed(tail, rest))
    ensures ParseString(Escape(s) + [QUOTE] + rest) == Some(Parsed([Joined(s[0], s[1])] + tail, rest))
  {
    var more := Escape(s[2..]) + [QUOTE] + rest;
    EscapePair(s);
    assert Escape(s) + [QUOTE] + rest == UnitEscape(s[0]) + UnitEscape(s[1]) + more;
    PairParses(s[0], s[1], more);
    StringStep(Escape(s) + [QUOTE] + rest, Joined(s[0], s[1]), more, tail, rest);
  }

  lemma PlainHead(s: Text, rest: Text, tail: Text)
    requires s != [] && (|s| >= 2 && IsHigh(s[0]) ==> !IsLow(s[1]))
    requires ParseString(Escape(s[1..]) + [QUOTE] + rest) == Some(Parsed(tail, rest))
    ensures ParseString(Escape(s) + [QUOTE] + rest) == Some(Parsed([s[0]] + tail, rest))
  {
    var more := Escape(s[1..]) + [QUOTE] + rest;
    assert Escape(s) + [QUOTE] + rest == EscapeCode(s[0]) + more;
    if IsHigh(s[0]) {
      EscapedStart(s[1..], rest);
    }
    CodeParses(s[0], more);
    EscapeStarts(s[0]);
    StringStep(EscapeCode(s[0]) + more, s[0], more, tail, rest);
  }

  /** Reading a printed string back gives the string with its surrogate pairs joined. */
  lemma {:induction false} StringReadsBack(s: Text, rest: Text)
    ensures ParseString(Escape(s) + [QUOTE] + rest) == Some(Parsed(Join(s), rest))
    decreases |s|
  {
    if s == [] {
      assert (Escape(s) + [QUOTE] + rest)[1..] == rest;
    } else if |s| >= 2 && IsHigh(s[0]) && IsLow(s[1]) {
      StringReadsBack(s[2..], rest);
      PairHead(s, rest, Join(s[2..]));
    } else {
      StringReadsBack(s[1..], rest);
      PlainHead(s, rest, Join(s[1..]));
    }
  }

  lemma EscapeStarts(c: Code)
    ensures EscapeCode(c)[0] != QUOTE
  {
  }

  lemma {:induction false} AsciiIsPairFree(t: Text)
    requires forall i :: 0 <= i < |t| ==> t[i] < 128
    ensures PairFree(t)
  {
    if |t| >= 2 {
      AsciiIsPairFree(t[1..]);
    }
  }

  lemma {:induction false} JoinKeepsPairFree(s: Text)
    ensures Join(s) == s <==> PairFree(s)
    decreases |s|
  {
    if |s| >= 2 && IsHigh(s[0]) && IsLow(s[1]) {
    } else if s != [] {
      JoinKeepsPairFree(s[1..]);
      assert s == [s[0]] + s[1..];
    }
  }
}
