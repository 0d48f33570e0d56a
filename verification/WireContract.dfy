/** `decode_wire` (geniusnew/contracts.py): an untrusted wire is accepted exactly when it is the
    canonical print of a well-formed object, so its meaning determines its bytes. */
module WireContract {
  import opened Prelude
  import opened Json
  import opened JsonRoundTrip
  import opened Wire

  type Byte = b: int | 0 <= b < 256 witness 0

  // ---------------------------------------------------------------- key order

  /** Strings compare by code point. */
  predicate Less(a: Text, b: Text) {
    b != [] && (a == [] || a[0] < b[0] || (a[0] == b[0] && Less(a[1..], b[1..])))
  }

  lemma {:induction false} LessIsTotal(a: Text, b: Text)
    ensures a == b || Less(a, b) || Less(b, a)
  {
    if a != [] && b != [] && a[0] == b[0] {
      LessIsTotal(a[1..], b[1..]);
      assert a == [a[0]] + a[1..] && b == [b[0]] + b[1..];
    }
  }

  lemma {:induction false} LessIsStrict(a: Text, b: Text)
    requires Less(a, b)
    ensures a != b && !Less(b, a)
  {
    if a != [] && a[0] == b[0] {
      LessIsStrict(a[1..], b[1..]);
    }
  }

  function Keys(fields: Fields): set<Text> {
    match fields
    case NoFields => {}
    case Field(key, _, rest) => {key} + Keys(rest)
  }

  // ---------------------------------------------------------------- dictionaries

  /** `json.loads` with duplicate keys refused, at every level. */
  predicate NoDuplicates(v: Value) {
    match v
    case Arr(items) => ItemsNoDuplicates(items)
    case Obj(fields) => FieldsNoDuplicates(fields)
    case _ => true
  }

  predicate ItemsNoDuplicates(items: Items) {
    match items
    case NoItems => true
    case Item(head, tail) => NoDuplicates(head) && ItemsNoDuplicates(tail)
  }

  predicate FieldsNoDuplicates(fields: Fields) {
    match fields
    case NoFields => true
    case Field(key, value, rest) => key !in Keys(rest) && NoDuplicates(value) && FieldsNoDuplicates(rest)
  }

  /** The order `sort_keys` gives a dictionary. */
  function SortValue(v: Value): Value {
    match v
    case Arr(items) => Arr(SortItems(items))
    case Obj(fields) => Obj(SortFields(fields))
    case _ => v
  }

  function SortItems(items: Items): Items {
    match items
    case NoItems => NoItems
    case Item(head, tail) => Item(SortValue(head), SortItems(tail))
  }

  function SortFields(fields: Fields): Fields {
    match fields
    case NoFields => NoFields
    case Field(key, value, rest) => InsertField(key, SortValue(value), SortFields(rest))
  }

  function InsertField(key: Text, value: Value, fields: Fields): Fields {
    if fields.NoFields? || Less(key, fields.key) then Field(key, value, fields)
    else Field(fields.key, fields.value, InsertField(key, value, fields.rest))
  }

  /** A dictionary listed in strictly rising key order, at every level. */
  predicate Sorted(v: Value) {
    match v
    case Arr(items) => ItemsSorted(items)
    case Obj(fields) => FieldsSorted(fields)
    case _ => true
  }

  predicate ItemsSorted(items: Items) {
    match items
    case NoItems => true
    case Item(head, tail) => Sorted(head) && ItemsSorted(tail)
  }

  predicate FieldsSorted(fields: Fields) {
    match fields
    case NoFields => true
    case Field(key, value, rest) => Below(key, rest) && Sorted(value) && FieldsSorted(rest)
  }

  predicate Below(key: Text, fields: Fields) {
    match fields
    case NoFields => true
    case Field(other, _, rest) => Less(key, other) && Below(key, rest)
  }

  lemma {:induction false} BelowKeys(key: Text, fields: Fields)
    requires Below(key, fields)
    ensures key !in Keys(fields)
  {
    if fields.Field? {
      LessIsStrict(key, fields.key);
      BelowKeys(key, fields.rest);
    }
  }

  lemma {:induction false} SortedHasNoDuplicates(v: Value)
    requires Sorted(v)
    ensures NoDuplicates(v) && SortValue(v) == v
    decreases v, 1
  {
    match v
    case Arr(items) => SortedItemsStay(items);
    case Obj(fields) => SortedFieldsStay(fields);
    case _ =>
  }

  lemma SortedItemsStay(items: Items)
    requires ItemsSorted(items)
    ensures ItemsNoDuplicates(items) && SortItems(items) == items
    decreases items, 0
  {
    if items.Item? {
      SortedHasNoDuplicates(items.head);
      SortedItemsStay(items.tail);
    }
  }

  lemma SortedFieldsStay(fields: Fields)
    requires FieldsSorted(fields)
    ensures FieldsNoDuplicates(fields) && SortFields(fields) == fields
    decreases fields, 0
  {
    if fields.Field? {
      SortedHasNoDuplicates(fields.value);
      SortedFieldsStay(fields.rest);
      BelowKeys(fields.key, fields.rest);
    }
  }

  lemma {:induction false} InsertKeeps(key: Text, value: Value, fields: Fields)
    requires FieldsSorted(fields) && key !in Keys(fields) && Sorted(value)
    ensures FieldsSorted(InsertField(key, value, fields))
    ensures Keys(InsertField(key, value, fields)) == Keys(fields) + {key}
    ensures forall k :: Below(k, fields) && Less(k, key) ==> Below(k, InsertField(key, value, fields))
  {
    if fields.NoFields? {
    } else if Less(key, fields.key) {
      BelowAll(key, fields);
    } else {
      LessIsTotal(key, fields.key);
      InsertKeeps(key, value, fields.rest);
    }
  }

  lemma {:induction false} LessIsTransitive(a: Text, b: Text, c: Text)
    requires Less(a, b) && Less(b, c)
    ensures Less(a, c)
  {
    if a != [] && a[0] == b[0] == c[0] {
      LessIsTransitive(a[1..], b[1..], c[1..]);
    }
  }

  lemma BelowAll(key: Text, fields: Fields)
    requires fields.Field? && Less(key, fields.key) && FieldsSorted(fields)
    ensures Below(key, fields)
  {
    BelowSmaller(key, fields.key, fields.rest);
  }

  lemma {:induction false} BelowSmaller(a: Text, b: Text, fields: Fields)
    requires Less(a, b) && Below(b, fields)
    ensures Below(a, fields)
  {
    if fields.Field? {
      LessIsTransitive(a, b, fields.key);
      BelowSmaller(a, b, fields.rest);
    }
  }

  lemma {:induction false} SortingSorts(v: Value)
    requires NoDuplicates(v)
    ensures Sorted(SortValue(v))
    decreases v, 1
  {
    match v
    case Arr(items) => SortingSortsItems(items);
    case Obj(fields) => SortingSortsFields(fields);
    case _ =>
  }

  lemma SortingSortsItems(items: Items)
    requires ItemsNoDuplicates(items)
    ensures ItemsSorted(SortItems(items))
    decreases items, 0
  {
    if items.Item? {
      SortingSorts(items.head);
      SortingSortsItems(items.tail);
    }
  }

  lemma SortingSortsFields(fields: Fields)
    requires FieldsNoDuplicates(fields)
    ensures FieldsSorted(SortFields(fields)) && Keys(SortFields(fields)) == Keys(fields)
    decreases fields, 0
  {
    if fields.Field? {
      SortingSorts(fields.value);
      SortingSortsFields(fields.rest);
      InsertKeeps(fields.key, SortValue(fields.value), SortFields(fields.rest));
    }
  }

  // Sorting moves fields and touches nothing else.

  lemma {:induction false} InsertKeepsContents(key: Text, value: Value, fields: Fields)
    ensures PairFree(key) && PairFreeValue(value) && PairFreeFields(fields)
            ==> PairFreeFields(InsertField(key, value, fields))
    ensures IntsFit(value) && FieldsFit(fields) ==> FieldsFit(InsertField(key, value, fields))
  {
    if fields.Field? {
      InsertKeepsContents(key, value, fields.rest);
    }
  }

  lemma {:induction false} SortKeepsContents(v: Value)
    ensures PairFreeValue(v) ==> PairFreeValue(SortValue(v))
    ensures IntsFit(v) ==> IntsFit(SortValue(v))
    decreases v, 1
  {
    match v
    case Arr(items) => SortItemsKeepsContents(items);
    case Obj(fields) => SortFieldsKeepsContents(fields);
    case _ =>
  }

  lemma SortItemsKeepsContents(items: Items)
    ensures PairFreeItems(items) ==> PairFreeItems(SortItems(items))
    ensures ItemsFit(items) ==> ItemsFit(SortItems(items))
    decreases items, 0
  {
    if items.Item? {
      SortKeepsContents(items.head);
      SortItemsKeepsContents(items.tail);
    }
  }

  lemma SortFieldsKeepsContents(fields: Fields)
    ensures PairFreeFields(fields) ==> PairFreeFields(SortFields(fields))
    ensures FieldsFit(fields) ==> FieldsFit(SortFields(fields))
    decreases fields, 0
  {
    if fields.Field? {
      SortKeepsContents(fields.value);
      SortFieldsKeepsContents(fields.rest);
      InsertKeepsContents(fields.key, SortValue(fields.value), SortFields(fields.rest));
    }
  }

  // ---------------------------------------------------------------- decode_wire

  /** The values a canonical wire can carry. */
  predicate WellFormed(v: Value) {
    Sorted(v) && PairFreeValue(v) && IntsFit(v)
  }

  /** Everything after the bounds: parse, refuse duplicates, and demand the canonical bytes. */
  function DecodeCanonical(s: Text): Option<Value> {
    match Parse(s)
    case None => None
    case Some(raw) =>
      if NoDuplicates(raw) && Print(SortValue(raw)) == s then Some(SortValue(raw)) else None
  }

  lemma CanonicalIsAPrint(s: Text, v: Value)
    requires DecodeCanonical(s) == Some(v)
    ensures WellFormed(v) && s == Print(v)
  {
    var raw := Parse(s).value;
    ParsedIntsFit(SkipSpace(s));
    SortKeepsContents(raw);
    ParseInvertsPrint(v);
    JoinedValueIsPairFree(v);
    SortingSorts(raw);
  }

  lemma PrintIsCanonical(v: Value)
    requires WellFormed(v)
    ensures DecodeCanonical(Print(v)) == Some(v)
  {
    ParseInvertsPrint(v);
    SortedHasNoDuplicates(v);
  }

  /** Bytes outside ASCII are refused at once: whatever UTF-8 makes of them, no canonical print
      contains them. */
  function Decode(wire: seq<Byte>, keys: set<Text>): Option<Value> {
    if wire == [] || |wire| > MAX_WIRE_BYTES || !(forall i :: 0 <= i < |wire| ==> wire[i] < 128) then None
    else if ScanText(SCAN_START, wire).deepest > MAX_WIRE_DEPTH then None
    else
      match DecodeCanonical(wire)
      case Some(Obj(fields)) => if Keys(fields) == keys then Some(Obj(fields)) else None
      case _ => None
  }

  method DecodeWire(wire: seq<Byte>, keys: set<Text>) returns (r: Option<Value>)
    ensures r == Decode(wire, keys)
  {
    if wire == [] || |wire| > MAX_WIRE_BYTES || !(forall i :: 0 <= i < |wire| ==> wire[i] < 128) {
      return None;
    }
    var depth := WireDepth(wire);
    if depth > MAX_WIRE_DEPTH {
      return None;
    }
    r := DecodeCanonical(wire);
    if r.None? || !r.value.Obj? || Keys(r.value.fields) != keys {
      return None;
    }
  }

  predicate Canonical(wire: seq<Byte>, keys: set<Text>, v: Value) {
    && v.Obj? && WellFormed(v) && Keys(v.fields) == keys
    && Depth(v) <= MAX_WIRE_DEPTH
    && |wire| <= MAX_WIRE_BYTES
    && wire == Print(v)
  }

  /** A wire decodes to a value exactly when it is that value's canonical print: meaning
      determines bytes, and every well-formed value within the bounds has its wire. */
  lemma DecodeAcceptsExactlyPrints(wire: seq<Byte>, keys: set<Text>, v: Value)
    ensures Decode(wire, keys) == Some(v) <==> Canonical(wire, keys, v)
    ensures Decode(wire, keys) == Some(v) <==>
            && v.Obj? && Sorted(v) && PairFreeValue(v) && IntsFit(v) && Keys(v.fields) == keys
            && Depth(v) <= 4 && |wire| <= 16_384 && wire == Print(v)
  {
    DepthOfPrint(v);
    if Decode(wire, keys) == Some(v) {
      CanonicalIsAPrint(wire, v);
    }
    if Canonical(wire, keys, v) {
      PrintIsCanonical(v);
      PrintIsPrintable(v);
      PrintStarts(v);
    }
  }

  lemma MeaningDeterminesBytes(left: seq<Byte>, right: seq<Byte>, keys: set<Text>)
    requires Decode(left, keys).Some? && Decode(left, keys) == Decode(right, keys)
    ensures left == right
  {
    DecodeAcceptsExactlyPrints(left, keys, Decode(left, keys).value);
    DecodeAcceptsExactlyPrints(right, keys, Decode(left, keys).value);
  }
}
