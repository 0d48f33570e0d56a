/** Untrusted wire contracts (geniusnew/contracts.py): the nesting scanner and `decode_wire`,
    which accepts exactly the canonical prints of well-formed objects. */
module Wire {
  import opened Prelude
  import opened Json
  import opened JsonRoundTrip

  const MAX_WIRE_BYTES := 16 * 1024
  const MAX_WIRE_DEPTH := 4

  // ---------------------------------------------------------------- nesting

  datatype Scan = Scan(depth: int, deepest: int, inString: bool, escaped: bool)

  function ScanCode(st: Scan, c: Code): Scan {
    if st.inString then
      if st.escaped then st.(escaped := false)
      else if c == BACKSLASH then st.(escaped := true)
      else if c == QUOTE then st.(inString := false)
      else st
    else if c == QUOTE then st.(inString := true)
    else if c == OPEN_ARRAY || c == OPEN_OBJECT then
      st.(depth := st.depth + 1, deepest := Max(st.deepest, st.depth + 1))
    else if c == CLOSE_ARRAY || c == CLOSE_OBJECT then st.(depth := st.depth - 1)
    else st
  }

  function ScanText(st: Scan, s: Text): Scan
    decreases |s|
  {
    if s == [] then st else ScanText(ScanCode(st, s[0]), s[1..])
  }

  const SCAN_START := Scan(0, 0, false, false)

  /** Deepest bracket nesting outside string literals, without parsing. */
  method WireDepth(decoded: Text) returns (deepest: int)
    ensures deepest == ScanText(SCAN_START, decoded).deepest
  {
    var depth, inString, escaped := 0, false, false;
    deepest := 0;
    for i := 0 to |decoded|
      invariant ScanText(SCAN_START, decoded) == ScanText(Scan(depth, deepest, inString, escaped), decoded[i..])
    {
      var c := decoded[i];
      assert decoded[i..][1..] == decoded[i + 1..];
      if inString {
        if escaped {
          escaped := false;
        } else if c == BACKSLASH {
          escaped := true;
        } else if c == QUOTE {
          inString := false;
        }
      } else if c == QUOTE {
        inString := true;
      } else if c == OPEN_ARRAY || c == OPEN_OBJECT {
        depth := depth + 1;
        deepest := Max(deepest, depth);
      } else if c == CLOSE_ARRAY || c == CLOSE_OBJECT {
        depth := depth - 1;
      }
    }
  }

  /** How deeply arrays and objects nest. */
  function Depth(v: Value): nat {
    match v
    case Arr(items) => 1 + ItemsDepth(items)
    case Obj(fields) => 1 + FieldsDepth(fields)
    case _ => 0
  }

  function ItemsDepth(items: Items): nat {
    match items
    case NoItems => 0
    case Item(head, tail) => Max(Depth(head), ItemsDepth(tail))
  }

  function FieldsDepth(fields: Fields): nat {
    match fields
    case NoFields => 0
    case Field(_, value, rest) => Max(Depth(value), FieldsDepth(rest))
  }

  lemma {:induction false} ScanConcat(st: Scan, left: Text, right: Text)
    ensures ScanText(st, left + right) == ScanText(ScanText(st, left), right)
    decreases |left|
  {
    if left == [] {
      assert left + right == right;
    } else {
      assert (left + right)[1..] == left[1..] + right;
      ScanConcat(ScanCode(st, left[0]), left[1..], right);
    }
  }

  predicate Outside(st: Scan) { !st.inString && !st.escaped && st.depth <= st.deepest }

  function Reached(st: Scan, depth: int): Scan {
    st.(deepest := Max(st.deepest, st.depth + depth))
  }

  /** A printed text of plain characters changes nothing. */
  predicate Unstructured(s: Text) {
    forall i :: 0 <= i < |s| ==> s[i] !in {QUOTE, OPEN_ARRAY, OPEN_OBJECT, CLOSE_ARRAY, CLOSE_OBJECT}
  }

  lemma {:induction false} ScanUnstructured(st: Scan, s: Text)
    requires !st.inString && Unstructured(s)
    ensures ScanText(st, s) == st
  {
    if s != [] {
      ScanUnstructured(st, s[1..]);
    }
  }

  lemma ScanUnit(st: Scan, n: int)
    requires st.inString && !st.escaped && 0 <= n < 0x1_0000
    ensures ScanText(st, UnitEscape(n)) == st
  {
    var t := UnitEscape(n);
    var two := t[2..];
    assert t[1..][1..] == two;
    assert ScanText(st, t) == ScanText(st, two);
    ScanInside(st, two);
  }

  lemma {:induction false} ScanInside(st: Scan, s: Text)
    requires st.inString && !st.escaped
    requires forall i :: 0 <= i < |s| ==> s[i] != QUOTE && s[i] != BACKSLASH
    ensures ScanText(st, s) == st
  {
    if s != [] {
      ScanInside(st, s[1..]);
    }
  }

  lemma ScanEscapedCode(st: Scan, c: Code)
    requires st.inString && !st.escaped
    ensures ScanText(st, EscapeCode(c)) == st
  {
    if c in {34, 92, 8, 9, 10, 12, 13} {
      var t := EscapeCode(c);
      assert t[1..] == [t[1]] && t[1..][1..] == [];
      assert ScanText(ScanCode(st, t[0]), t[1..]) == st;
    } else if 32 <= c <= 126 {
      ScanInside(st, [c]);
    } else if c < 0x1_0000 {
      ScanUnit(st, c);
    } else {
      ScanUnit(st, HighUnit(c));
      ScanUnit(st, LowUnit(c));
      ScanConcat(st, UnitEscape(HighUnit(c)), UnitEscape(LowUnit(c)));
    }
  }

  /** Brackets, quotes and escapes inside a string are not nesting. */
  lemma {:induction false} ScanEscaped(st: Scan, s: Text)
    requires st.inString && !st.escaped
    ensures ScanText(st, Escape(s)) == st
  {
    if s != [] {
      ScanConcat(st, EscapeCode(s[0]), Escape(s[1..]));
      ScanEscapedCode(st, s[0]);
      ScanEscaped(st, s[1..]);
    }
  }

  lemma ScanString(st: Scan, s: Text)
    requires Outside(st)
    ensures ScanText(st, PrintString(s)) == st
  {
    var inside := st.(inString := true);
    ScanConcat(st, [QUOTE] + Escape(s), [QUOTE]);
    ScanConcat(st, [QUOTE], Escape(s));
    assert ScanText(st, [QUOTE]) == inside;
    ScanEscaped(inside, s);
    assert ScanText(inside, [QUOTE]) == st;
  }

  lemma ScanInt(st: Scan, n: int)
    requires Outside(st)
    ensures ScanText(st, PrintInt(n)) == st
  {
    DigitsReadBack(if n < 0 then -n else n);
    ScanUnstructured(st, PrintInt(n));
  }

  lemma ScanBracketed(st: Scan, open: Code, body: Text, close: Code, depth: nat)
    requires Outside(st) && open in {OPEN_ARRAY, OPEN_OBJECT} && close in {CLOSE_ARRAY, CLOSE_OBJECT}
    requires var inner := Reached(st, 1).(depth := st.depth + 1);
             ScanText(inner, body) == Reached(inner, depth)
    ensures ScanText(st, [open] + body + [close]) == Reached(st, 1 + depth)
  {
    var inner := Reached(st, 1).(depth := st.depth + 1);
    ScanConcat(st, [open] + body, [close]);
    ScanConcat(st, [open], body);
    assert ScanText(st, [open]) == inner;
    assert ScanText(Reached(inner, depth), [close]) == Reached(st, 1 + depth);
  }

  /** The scanner sees exactly the structural depth of what was printed. */
  lemma {:induction false} ScanPrinted(st: Scan, v: Value)
    requires Outside(st)
    ensures ScanText(st, Print(v)) == Reached(st, Depth(v))
    decreases v, 1
  {
    var inner := Reached(st, 1).(depth := st.depth + 1);
    match v
    case Null => ScanUnstructured(st, NULL_TEXT);
    case Bool(b) => ScanUnstructured(st, Print(v));
    case Num(n) => ScanInt(st, n);
    case Str(s) => ScanString(st, s);
    case Arr(items) =>
      ScanItems(inner, items);
      ScanBracketed(st, OPEN_ARRAY, PrintItems(items), CLOSE_ARRAY, ItemsDepth(items));
    case Obj(fields) =>
      ScanFields(inner, fields);
      ScanBracketed(st, OPEN_OBJECT, PrintFields(fields), CLOSE_OBJECT, FieldsDepth(fields));
  }

  lemma ScanItems(st: Scan, items: Items)
    requires Outside(st)
    ensures ScanText(st, PrintItems(items)) == Reached(st, ItemsDepth(items))
    decreases items, 0
  {
    match items
    case NoItems =>
    case Item(head, tail) =>
      var more := if tail.NoItems? then [] else [COMMA] + PrintItems(tail);
      ScanConcat(st, Print(head), more);
      ScanPrinted(st, head);
      var reached := Reached(st, Depth(head));
      if tail.Item? {
        ScanConcat(reached, [COMMA], PrintItems(tail));
        ScanUnstructured(reached, [COMMA]);
        ScanItems(reached, tail);
      }
  }

  lemma ScanFields(st: Scan, fields: Fields)
    requires Outside(st)
    ensures ScanText(st, PrintFields(fields)) == Reached(st, FieldsDepth(fields))
    decreases fields, 0
  {
    match fields
    case NoFields =>
    case Field(key, value, rest) =>
      var more := if rest.NoFields? then [] else [COMMA] + PrintFields(rest);
      ScanField(st, key, value, more);
      ScanPrinted(st, value);
      var reached := Reached(st, Depth(value));
      if rest.Field? {
        ScanConcat(reached, [COMMA], PrintFields(rest));
        ScanUnstructured(reached, [COMMA]);
        ScanFields(reached, rest);
      }
  }

  lemma ScanField(st: Scan, key: Text, value: Value, more: Text)
    requires Outside(st)
    ensures ScanText(st, PrintString(key) + [COLON] + Print(value) + more) == ScanText(ScanText(st, Print(value)), more)
  {
    ScanConcat(st, PrintString(key) + [COLON] + Print(value), more);
    ScanConcat(st, PrintString(key) + [COLON], Print(value));
    ScanConcat(st, PrintString(key), [COLON]);
    ScanString(st, key);
    ScanUnstructured(st, [COLON]);
  }

  /** For every value, `WireDepth` of its print is its nesting depth. */
  lemma DepthOfPrint(v: Value)
    ensures ScanText(SCAN_START, Print(v)).deepest == Depth(v)
  {
    ScanPrinted(SCAN_START, v);
  }
}
