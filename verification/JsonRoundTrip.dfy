/** Parsing undoes printing, for every value: what comes back is the value with each surrogate
    pair in its strings joined, so exactly the values without such a pair come back unchanged. */
module JsonRoundTrip {
  import opened Prelude
  import opened Json

  // ---------------------------------------------------------------- integers

  /** What can follow a value inside a printed document. */
  predicate Stops(rest: Text) {
    rest == [] || rest[0] in {COMMA, CLOSE_ARRAY, CLOSE_OBJECT}
  }

  lemma {:induction false} DigitsReadBack(n: nat)
    ensures forall i :: 0 <= i < |Digits(n)| ==> IsDigit(Digits(n)[i])
    ensures DigitsValue(Digits(n)) == n
    ensures Digits(n)[0] == 48 <==> n == 0
  {
    var t := Digits(n);
    assert t[..|t| - 1] == if n < 10 then [] else Digits(n / 10);
    if n >= 10 {
      DigitsReadBack(n / 10);
    }
  }

  function Pow10(k: nat): nat { if k == 0 then 1 else 10 * Pow10(k - 1) }

  lemma {:induction false} FewerDigits(n: nat, k: nat)
    requires k > 0 && n < Pow10(k)
    ensures |Digits(n)| <= k
  {
    if n >= 10 {
      assert n / 10 < Pow10(k - 1);
      FewerDigits(n / 10, k - 1);
    }
  }

  lemma {:induction false} CountsDigits(digits: Text, rest: Text)
    requires forall i :: 0 <= i < |digits| ==> IsDigit(digits[i])
    requires rest != [] ==> !IsDigit(rest[0])
    ensures DigitCount(digits + rest) == |digits|
  {
    if digits == [] {
      assert digits + rest == rest;
    } else {
      assert (digits + rest)[1..] == digits[1..] + rest;
      CountsDigits(digits[1..], rest);
    }
  }

  lemma NaturalReadsBack(n: nat, rest: Text)
    requires Stops(rest) && |Digits(n)| <= MAX_INT_DIGITS
    ensures ParseNatural(Digits(n) + rest) == Some(Parsed(n, rest))
  {
    var digits := Digits(n);
    DigitsReadBack(n);
    CountsDigits(digits, rest);
    assert (digits + rest)[..|digits|] == digits && (digits + rest)[|digits|..] == rest;
    if n == 0 {
      assert digits == [48];
    }
  }

  predicate IntFits(n: int) { |Digits(if n < 0 then -n else n)| <= MAX_INT_DIGITS }

  lemma IntReadsBack(n: int, rest: Text)
    requires Stops(rest) && IntFits(n)
    ensures ParseInt(PrintInt(n) + rest) == Some(Parsed(Num(n), rest))
  {
    if n < 0 {
      NegativeReadsBack(-n, rest);
    } else {
      NaturalReadsBack(n, rest);
      DigitsReadBack(n);
      assert (Digits(n) + rest)[0] == Digits(n)[0];
    }
  }

  lemma NegativeReadsBack(n: nat, rest: Text)
    requires Stops(rest) && |Digits(n)| <= MAX_INT_DIGITS
    ensures ParseInt([MINUS] + Digits(n) + rest) == Some(Parsed(Num(0 - n), rest))
  {
    NaturalReadsBack(n, rest);
    assert ([MINUS] + Digits(n) + rest)[1..] == Digits(n) + rest;
  }

  // ---------------------------------------------------------------- values

  function JoinValue(v: Value): Value {
    match v
    case Str(s) => Str(Join(s))
    case Arr(items) => Arr(JoinItems(items))
    case Obj(fields) => Obj(JoinFields(fields))
    case _ => v
  }

  function JoinItems(items: Items): Items {
    match items
    case NoItems => NoItems
    case Item(head, tail) => Item(JoinValue(head), JoinItems(tail))
  }

  function JoinFields(fields: Fields): Fields {
    match fields
    case NoFields => NoFields
    case Field(key, value, rest) => Field(Join(key), JoinValue(value), JoinFields(rest))
  }

  predicate IntsFit(v: Value) {
    match v
    case Num(n) => IntFits(n)
    case Arr(items) => ItemsFit(items)
    case Obj(fields) => FieldsFit(fields)
    case _ => true
  }

  predicate ItemsFit(items: Items) {
    match items
    case NoItems => true
    case Item(head, tail) => IntsFit(head) && ItemsFit(tail)
  }

  predicate FieldsFit(fields: Fields) {
    match fields
    case NoFields => true
    case Field(_, value, rest) => IntsFit(value) && FieldsFit(rest)
  }

  lemma PrintStarts(v: Value)
    ensures Print(v) != [] && !IsSpace(Print(v)[0]) && Print(v)[0] != CLOSE_ARRAY
  {
    if v.Num? {
      IntStarts(v.n);
    }
  }

  lemma IntStarts(n: int)
    ensures PrintInt(n) != [] && (PrintInt(n)[0] == MINUS || IsDigit(PrintInt(n)[0]))
  {
    DigitsReadBack(if n < 0 then -n else n);
  }

  lemma ScalarReadsBack(v: Value, rest: Text)
    requires v.Null? || v.Bool? || v.Num?
    requires Stops(rest) && IntsFit(v)
    ensures ParseValue(Print(v) + rest) == Some(Parsed(v, rest))
  {
    if v.Num? {
      NumReadsBack(v.n, rest);
    } else {
      WordReadsBack(v, rest);
    }
  }

  lemma WordReadsBack(v: Value, rest: Text)
    requires v.Null? || v.Bool?
    ensures ParseValue(Print(v) + rest) == Some(Parsed(v, rest))
  {
    hide ParseInt, ParseString, ParseItems, ParseFields, SkipSpace;
    var s := Print(v) + rest;
    match v
    case Null => assert NULL_TEXT <= s && s[4..] == rest;
    case Bool(true) => assert TRUE_TEXT <= s && s[4..] == rest;
    case Bool(false) => assert FALSE_TEXT <= s && s[5..] == rest;
  }

  lemma NumReadsBack(n: int, rest: Text)
    requires Stops(rest) && IntFits(n)
    ensures ParseValue(PrintInt(n) + rest) == Some(Parsed(Num(n), rest))
  {
    hide ParseInt, ParseString, ParseItems, ParseFields, SkipSpace, PrintInt, IntFits, Stops;
    IntReadsBack(n, rest);
    IntStarts(n);
    assert (PrintInt(n) + rest)[0] == PrintInt(n)[0];
  }

  /** The text of a document, read as a value, gives the value with its surrogate pairs joined. */
  lemma {:induction false} ReadsBack(v: Value, rest: Text)
    requires Stops(rest) && IntsFit(v)
    ensures ParseValue(Print(v) + rest) == Some(Parsed(JoinValue(v), rest))
    decreases v, 1
  {
    match v
    case Str(s) => StringValueReadsBack(s, rest);
    case Arr(items) => ArrayReadsBack(items, rest);
    case Obj(fields) => ObjectReadsBack(fields, rest);
    case _ => ScalarReadsBack(v, rest);
  }

  lemma StringValueReadsBack(s: Text, rest: Text)
    ensures ParseValue(PrintString(s) + rest) == Some(Parsed(Str(Join(s)), rest))
  {
    assert (PrintString(s) + rest)[1..] == Escape(s) + [QUOTE] + rest;
    StringReadsBack(s, rest);
  }

  // How the parser goes on after one more element.

  lemma LastItem(s: Text, head: Value, rest: Text)
    requires ParseValue(s) == Some(Parsed(head, [CLOSE_ARRAY] + rest))
    ensures ParseItems(s) == Some(Parsed(Item(head, NoItems), rest))
  {
    hide ParseValue;
    assert ([CLOSE_ARRAY] + rest)[1..] == rest;
  }

  lemma NextItem(s: Text, head: Value, next: Text, tail: Items, rest: Text)
    requires ParseValue(s) == Some(Parsed(head, [COMMA] + next))
    requires next != [] && !IsSpace(next[0]) && ParseItems(next) == Some(Parsed(tail, rest))
    ensures ParseItems(s) == Some(Parsed(Item(head, tail), rest))
  {
    hide ParseValue;
    assert ([COMMA] + next)[1..] == next;
  }

  lemma LastField(s: Text, key: Text, t: Text, value: Value, rest: Text)
    requires ParseKey(s) == Some(Parsed(key, t))
    requires ParseValue(t) == Some(Parsed(value, [CLOSE_OBJECT] + rest))
    ensures ParseFields(s) == Some(Parsed(Field(key, value, NoFields), rest))
  {
    hide ParseValue, ParseKey;
    assert ([CLOSE_OBJECT] + rest)[1..] == rest;
  }

  lemma NextField(s: Text, key: Text, t: Text, value: Value, next: Text, more: Fields, rest: Text)
    requires ParseKey(s) == Some(Parsed(key, t))
    requires ParseValue(t) == Some(Parsed(value, [COMMA] + next))
    requires next != [] && !IsSpace(next[0]) && ParseFields(next) == Some(Parsed(more, rest))
    ensures ParseFields(s) == Some(Parsed(Field(key, value, more), rest))
  {
    hide ParseValue, ParseKey;
    assert ([COMMA] + next)[1..] == next;
  }

  lemma WholeArray(t: Text, items: Items, rest: Text)
    requires t != [] && !IsSpace(t[0]) && t[0] != CLOSE_ARRAY && ParseItems(t) == Some(Parsed(items, rest))
    ensures ParseValue([OPEN_ARRAY] + t) == Some(Parsed(Arr(items), rest))
  {
    hide ParseItems, ParseFields, ParseString, ParseScalar;
    assert ([OPEN_ARRAY] + t)[1..] == t;
  }

  lemma WholeObject(t: Text, fields: Fields, rest: Text)
    requires t != [] && t[0] == QUOTE && ParseFields(t) == Some(Parsed(fields, rest))
    ensures ParseValue([OPEN_OBJECT] + t) == Some(Parsed(Obj(fields), rest))
  {
    hide ParseItems, ParseFields, ParseString, ParseScalar;
    assert ([OPEN_OBJECT] + t)[1..] == t;
  }

  lemma EmptyReadsBack(rest: Text)
    ensures ParseValue([OPEN_ARRAY] + [CLOSE_ARRAY] + rest) == Some(Parsed(Arr(NoItems), rest))
    ensures ParseValue([OPEN_OBJECT] + [CLOSE_OBJECT] + rest) == Some(Parsed(Obj(NoFields), rest))
  {
    assert ([OPEN_ARRAY] + [CLOSE_ARRAY] + rest)[1..] == [CLOSE_ARRAY] + rest;
    assert ([OPEN_OBJECT] + [CLOSE_OBJECT] + rest)[1..] == [CLOSE_OBJECT] + rest;
    assert ([CLOSE_ARRAY] + rest)[1..] == rest && ([CLOSE_OBJECT] + rest)[1..] == rest;
  }

  lemma ArrayReadsBack(items: Items, rest: Text)
    requires Stops(rest) && ItemsFit(items)
    ensures ParseValue(Print(Arr(items)) + rest) == Some(Parsed(Arr(JoinItems(items)), rest))
    decreases items, 1
  {
    hide ParseValue, ParseItems, IsSpace;
    EmptyReadsBack(rest);
    if items.NoItems? {
      assert Print(Arr(items)) == [OPEN_ARRAY] + [CLOSE_ARRAY];
    } else {
      var t := PrintItems(items) + [CLOSE_ARRAY] + rest;
      assert Print(Arr(items)) + rest == [OPEN_ARRAY] + t;
      PrintStarts(items.head);
      assert t[0] == Print(items.head)[0];
      ItemsReadBack(items, rest);
      WholeArray(t, JoinItems(items), rest);
    }
  }

  lemma ItemsReadBack(items: Items, rest: Text)
    requires items.Item? && Stops(rest) && ItemsFit(items)
    ensures ParseItems(PrintItems(items) + [CLOSE_ARRAY] + rest) == Some(Parsed(JoinItems(items), rest))
    decreases items, 0
  {
    hide Print, ParseValue, ParseItems, JoinValue, IsSpace;
    var s := PrintItems(items) + [CLOSE_ARRAY] + rest;
    var head := JoinValue(items.head);
    if items.tail.NoItems? {
      assert s == Print(items.head) + ([CLOSE_ARRAY] + rest);
      ReadsBack(items.head, [CLOSE_ARRAY] + rest);
      LastItem(s, head, rest);
    } else {
      var next := PrintItems(items.tail) + [CLOSE_ARRAY] + rest;
      assert s == Print(items.head) + ([COMMA] + next);
      ReadsBack(items.head, [COMMA] + next);
      PrintStarts(items.tail.head);
      assert next[0] == Print(items.tail.head)[0];
      ItemsReadBack(items.tail, rest);
      NextItem(s, head, next, JoinItems(items.tail), rest);
    }
  }

  lemma ObjectReadsBack(fields: Fields, rest: Text)
    requires Stops(rest) && FieldsFit(fields)
    ensures ParseValue(Print(Obj(fields)) + rest) == Some(Parsed(Obj(JoinFields(fields)), rest))
    decreases fields, 2
  {
    ObjectText(fields, rest);
    if fields.NoFields? {
      EmptyReadsBack(rest);
    } else {
      FieldsReadBack(fields, rest);
      FieldsStart(fields);
      WholeObject(PrintFields(fields) + [CLOSE_OBJECT] + rest, JoinFields(fields), rest);
    }
  }

  lemma ObjectText(fields: Fields, rest: Text)
    ensures Print(Obj(fields)) + rest == [OPEN_OBJECT] + (PrintFields(fields) + [CLOSE_OBJECT] + rest)
    ensures fields.NoFields? ==> Print(Obj(fields)) + rest == [OPEN_OBJECT] + [CLOSE_OBJECT] + rest
  {
  }

  lemma FieldsStart(fields: Fields)
    requires fields.Field?
    ensures PrintFields(fields) != [] && PrintFields(fields)[0] == QUOTE
  {
  }

  lemma KeyReadsBack(key: Text, value: Value, rest: Text)
    ensures ParseKey(PrintString(key) + [COLON] + Print(value) + rest) == Some(Parsed(Join(key), Print(value) + rest))
  {
    hide ParseString, Escape, Print, Join;
    var s, after := PrintString(key) + [COLON] + Print(value) + rest, [COLON] + Print(value) + rest;
    assert s[1..] == Escape(key) + [QUOTE] + after;
    StringReadsBack(key, after);
    assert after[1..] == Print(value) + rest;
    PrintStarts(value);
  }

  lemma FieldsReadBack(fields: Fields, rest: Text)
    requires fields.Field? && Stops(rest) && FieldsFit(fields)
    ensures ParseFields(PrintFields(fields) + [CLOSE_OBJECT] + rest) == Some(Parsed(JoinFields(fields), rest))
    decreases fields, 1
  {
    if fields.rest.NoFields? {
      LastFieldReadsBack(fields, rest);
    } else {
      NextFieldReadsBack(fields, rest);
    }
  }

  lemma LastFieldReadsBack(fields: Fields, rest: Text)
    requires fields.Field? && fields.rest.NoFields? && Stops(rest) && FieldsFit(fields)
    ensures ParseFields(PrintFields(fields) + [CLOSE_OBJECT] + rest) == Some(Parsed(JoinFields(fields), rest))
    decreases fields, 0
  {
    hide Print, PrintString, ParseValue, ParseFields, ParseKey, JoinValue, Join;
    var s, after := PrintFields(fields) + [CLOSE_OBJECT] + rest, [CLOSE_OBJECT] + rest;
    assert s == PrintString(fields.key) + [COLON] + Print(fields.value) + after;
    KeyReadsBack(fields.key, fields.value, after);
    ReadsBack(fields.value, after);
    LastField(s, Join(fields.key), Print(fields.value) + after, JoinValue(fields.value), rest);
  }

  lemma NextFieldReadsBack(fields: Fields, rest: Text)
    requires fields.Field? && fields.rest.Field? && Stops(rest) && FieldsFit(fields)
    ensures ParseFields(PrintFields(fields) + [CLOSE_OBJECT] + rest) == Some(Parsed(JoinFields(fields), rest))
    decreases fields, 0
  {
    hide Print, PrintString, ParseValue, ParseFields, ParseKey, JoinValue, Join;
    var s, next := PrintFields(fields) + [CLOSE_OBJECT] + rest, PrintFields(fields.rest) + [CLOSE_OBJECT] + rest;
    var after := [COMMA] + next;
    assert s == PrintString(fields.key) + [COLON] + Print(fields.value) + after;
    KeyReadsBack(fields.key, fields.value, after);
    ReadsBack(fields.value, after);
    FieldsStart(fields.rest);
    assert next[0] == PrintFields(fields.rest)[0];
    FieldsReadBack(fields.rest, rest);
    NextField(s, Join(fields.key), Print(fields.value) + after, JoinValue(fields.value), next,
              JoinFields(fields.rest), rest);
  }

  // ---------------------------------------------------------------- which values come back unchanged

  predicate PairFreeValue(v: Value) {
    match v
    case Str(s) => PairFree(s)
    case Arr(items) => PairFreeItems(items)
    case Obj(fields) => PairFreeFields(fields)
    case _ => true
  }

  predicate PairFreeItems(items: Items) {
    match items
    case NoItems => true
    case Item(head, tail) => PairFreeValue(head) && PairFreeItems(tail)
  }

  predicate PairFreeFields(fields: Fields) {
    match fields
    case NoFields => true
    case Field(key, value, rest) => PairFree(key) && PairFreeValue(value) && PairFreeFields(rest)
  }

  lemma {:induction false} JoinValueKeepsPairFree(v: Value)
    ensures JoinValue(v) == v <==> PairFreeValue(v)
    decreases v, 1
  {
    match v
    case Str(s) => JoinKeepsPairFree(s);
    case Arr(items) => JoinItemsKeepsPairFree(items);
    case Obj(fields) => JoinFieldsKeepsPairFree(fields);
    case _ =>
  }

  lemma JoinItemsKeepsPairFree(items: Items)
    ensures JoinItems(items) == items <==> PairFreeItems(items)
    decreases items, 0
  {
    if items.Item? {
      JoinValueKeepsPairFree(items.head);
      JoinItemsKeepsPairFree(items.tail);
    }
  }

  lemma JoinFieldsKeepsPairFree(fields: Fields)
    ensures JoinFields(fields) == fields <==> PairFreeFields(fields)
    decreases fields, 0
  {
    if fields.Field? {
      JoinKeepsPairFree(fields.key);
      JoinValueKeepsPairFree(fields.value);
      JoinFieldsKeepsPairFree(fields.rest);
    }
  }

  /** What is joined stays joined. */
  lemma {:induction false} JoinedIsPairFree(s: Text)
    ensures PairFree(Join(s))
    ensures s != [] && !(|s| >= 2 && IsHigh(s[0]) && IsLow(s[1])) ==> Join(s) != [] && Join(s)[0] == s[0]
    decreases |s|
  {
    if |s| >= 2 && IsHigh(s[0]) && IsLow(s[1]) {
      JoinedIsPairFree(s[2..]);
    } else if s != [] {
      JoinedIsPairFree(s[1..]);
      assert Join(s)[1..] == Join(s[1..]);
    }
  }

  lemma {:induction false} JoinedValueIsPairFree(v: Value)
    ensures PairFreeValue(JoinValue(v))
    decreases v, 1
  {
    match v
    case Str(s) => JoinedIsPairFree(s);
    case Arr(items) => JoinedItemsArePairFree(items);
    case Obj(fields) => JoinedFieldsArePairFree(fields);
    case _ =>
  }

  lemma JoinedItemsArePairFree(items: Items)
    ensures PairFreeItems(JoinItems(items))
    decreases items, 0
  {
    if items.Item? {
      JoinedValueIsPairFree(items.head);
      JoinedItemsArePairFree(items.tail);
    }
  }

  lemma JoinedFieldsArePairFree(fields: Fields)
    ensures PairFreeFields(JoinFields(fields))
    decreases fields, 0
  {
    if fields.Field? {
      JoinedIsPairFree(fields.key);
      JoinedValueIsPairFree(fields.value);
      JoinedFieldsArePairFree(fields.rest);
    }
  }

  /** Parsing inverts printing exactly on the values without a surrogate pair. */
  lemma ParseInvertsPrint(v: Value)
    requires IntsFit(v)
    ensures Parse(Print(v)) == Some(JoinValue(v))
    ensures Parse(Print(v)) == Some(v) <==> PairFreeValue(v)
  {
    ReadsBack(v, []);
    PrintStarts(v);
    assert Print(v) + [] == Print(v);
    JoinValueKeepsPairFree(v);
  }

  /** Two lone surrogates that stand side by side come back as the one character they encode. */
  lemma PairComesBackJoined()
    ensures Parse(Print(Str([0xD83D, 0xDE00]))) == Some(Str([0x1F600]))
  {
    var v := Str([0xD83D, 0xDE00]);
    ParseInvertsPrint(v);
    assert Joined(0xD83D, 0xDE00) == 0x1F600;
    assert v.s[2..] == [] && [0x1F600] + [] == [0x1F600];
  }

  // ---------------------------------------------------------------- what a print cannot tell apart

  lemma JoinedEscape(high: int, low: int)
    requires IsHigh(high) && IsLow(low)
    ensures EscapeCode(Joined(high, low)) == UnitEscape(high) + UnitEscape(low)
  {
    hide UnitEscape;
    assert HighUnit(Joined(high, low)) == high && LowUnit(Joined(high, low)) == low;
  }

  lemma {:induction false} EscapeJoined(s: Text)
    ensures Escape(Join(s)) == Escape(s)
    decreases |s|
  {
    hide EscapeCode, UnitEscape;
    if |s| >= 2 && IsHigh(s[0]) && IsLow(s[1]) {
      EscapeJoined(s[2..]);
      EscapePair(s);
      JoinedEscape(s[0], s[1]);
      assert Join(s)[1..] == Join(s[2..]);
    } else if s != [] {
      EscapeJoined(s[1..]);
      assert Join(s)[1..] == Join(s[1..]);
    }
  }

  lemma {:induction false} PrintJoined(v: Value)
    ensures Print(JoinValue(v)) == Print(v)
    decreases v, 1
  {
    match v
    case Str(s) => EscapeJoined(s);
    case Arr(items) => PrintJoinedItems(items);
    case Obj(fields) => PrintJoinedFields(fields);
    case _ =>
  }

  lemma PrintJoinedItems(items: Items)
    ensures PrintItems(JoinItems(items)) == PrintItems(items)
    decreases items, 0
  {
    if items.Item? {
      PrintJoined(items.head);
      PrintJoinedItems(items.tail);
    }
  }

  lemma PrintJoinedFields(fields: Fields)
    ensures PrintFields(JoinFields(fields)) == PrintFields(fields)
    decreases fields, 0
  {
    hide Escape, Join;
    if fields.Field? {
      EscapeJoined(fields.key);
      PrintJoined(fields.value);
      PrintJoinedFields(fields.rest);
    }
  }

  /** Two values have the same print exactly when they are the same once their surrogate pairs are joined. */
  lemma PrintsAgreeExactly(a: Value, b: Value)
    requires IntsFit(a) && IntsFit(b)
    ensures Print(a) == Print(b) <==> JoinValue(a) == JoinValue(b)
  {
    hide Parse, Print;
    ParseInvertsPrint(a);
    ParseInvertsPrint(b);
    PrintJoined(a);
    PrintJoined(b);
  }

  // ---------------------------------------------------------------- the digit bound

  lemma {:induction false} FewDigits(s: Text)
    requires forall i :: 0 <= i < |s| ==> IsDigit(s[i])
    ensures |Digits(DigitsValue(s))| <= Max(1, |s|)
  {
    if s != [] {
      var n := DigitsValue(s[..|s| - 1]);
      FewDigits(s[..|s| - 1]);
      assert DigitsValue(s) / 10 == n;
    }
  }

  lemma ParsedIntFits(s: Text)
    requires ParseInt(s).Some?
    ensures IntsFit(ParseInt(s).value.value)
  {
    var t := if s != [] && s[0] == MINUS then s[1..] else s;
    var n := if t != [] && t[0] == 48 then 1 else DigitCount(t);
    FewDigits(t[..n]);
  }

  /** Every integer the parser lets through can be printed again. */
  lemma {:induction false} ParsedIntsFit(s: Text)
    requires ParseValue(s).Some?
    ensures IntsFit(ParseValue(s).value.value)
    decreases |s|, 0
  {
    if s[0] == QUOTE {
    } else if s[0] == OPEN_ARRAY {
      var t := SkipSpace(s[1..]);
      if t == [] || t[0] != CLOSE_ARRAY {
        ParsedItemsFit(t);
      }
    } else if s[0] == OPEN_OBJECT {
      var t := SkipSpace(s[1..]);
      if t == [] || t[0] != CLOSE_OBJECT {
        ParsedFieldsFit(t);
      }
    } else {
      ParsedScalarFits(s);
    }
  }

  lemma ParsedScalarFits(s: Text)
    requires ParseScalar(s).Some?
    ensures IntsFit(ParseScalar(s).value.value)
  {
    if !(NULL_TEXT <= s) && !(TRUE_TEXT <= s) && !(FALSE_TEXT <= s) {
      ParsedIntFits(s);
    }
  }

  lemma ParsedItemsFit(s: Text)
    requires ParseItems(s).Some?
    ensures ItemsFit(ParseItems(s).value.value)
    decreases |s|, 1
  {
    ParsedIntsFit(s);
    var t := SkipSpace(ParseValue(s).value.rest);
    if t[0] != CLOSE_ARRAY {
      ParsedItemsFit(SkipSpace(t[1..]));
    }
  }

  lemma ParsedFieldsFit(s: Text)
    requires ParseFields(s).Some?
    ensures FieldsFit(ParseFields(s).value.value)
    decreases |s|, 1
  {
    var key := ParseKey(s).value;
    ParsedIntsFit(key.rest);
    var t := SkipSpace(ParseValue(key.rest).value.rest);
    if t[0] != CLOSE_OBJECT {
      ParsedFieldsFit(SkipSpace(t[1..]));
    }
  }

  // ---------------------------------------------------------------- prints are printable ASCII

  predicate Printable(s: Text) {
    forall i :: 0 <= i < |s| ==> 32 <= s[i] <= 126
  }

  lemma UnitIsPrintable(n: int)
    requires 0 <= n < 0x1_0000
    ensures Printable(UnitEscape(n))
  {
  }

  lemma CodeIsPrintable(c: Code)
    ensures Printable(EscapeCode(c))
  {
    hide UnitEscape;
    if c >= 0x1_0000 {
      UnitIsPrintable(HighUnit(c));
      UnitIsPrintable(LowUnit(c));
    } else {
      UnitIsPrintable(c);
    }
  }

  lemma {:induction false} EscapeIsPrintable(s: Text)
    ensures Printable(Escape(s))
  {
    hide EscapeCode;
    if s != [] {
      CodeIsPrintable(s[0]);
      EscapeIsPrintable(s[1..]);
    }
  }

  lemma IntIsPrintable(n: int)
    ensures Printable(PrintInt(n))
  {
    DigitsReadBack(if n < 0 then -n else n);
  }

  /** No line break, no control character and nothing outside ASCII in a print. */
  lemma {:induction false} PrintIsPrintable(v: Value)
    ensures Printable(Print(v))
    decreases v, 1
  {
    hide Escape, PrintInt, PrintItems, PrintFields;
    match v
    case Num(n) => IntIsPrintable(n);
    case Str(s) => EscapeIsPrintable(s);
    case Arr(items) => ItemsArePrintable(items);
    case Obj(fields) => FieldsArePrintable(fields);
    case _ =>
  }

  lemma ItemsArePrintable(items: Items)
    ensures Printable(PrintItems(items))
    decreases items, 0
  {
    hide Print;
    if items.Item? {
      PrintIsPrintable(items.head);
      ItemsArePrintable(items.tail);
    }
  }

  lemma FieldsArePrintable(fields: Fields)
    ensures Printable(PrintFields(fields))
    decreases fields, 0
  {
    hide Print, Escape;
    if fields.Field? {
      EscapeIsPrintable(fields.key);
      PrintIsPrintable(fields.value);
      FieldsArePrintable(fields.rest);
    }
  }
}
