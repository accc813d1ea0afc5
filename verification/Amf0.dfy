/** The AMF0 codec: src/amf/0/amf0_serializer.cc and src/amf/0/amf0_deserializer.cc.
    Marker bytes and layouts are those of sections 2.2 to 2.11 of Adobe's AMF 0 specification. */
module Amf0 {
  import opened Bytes

  const NUMBER_MARKER: byte := 0x00
  const BOOLEAN_MARKER: byte := 0x01
  const STRING_MARKER: byte := 0x02
  const OBJECT_MARKER: byte := 0x03
  const NULL_MARKER: byte := 0x05
  const ECMA_ARRAY_MARKER: byte := 0x08
  const OBJECT_END_MARKER: byte := 0x09

  /** A double, as the bytes it has in memory. */
  type Double = s: seq<byte> | |s| == 8 witness [0, 0, 0, 0, 0, 0, 0, 0]

  type Text = seq<byte>

  /** TVariantSubset */
  datatype Prim = Bool(b: bool) | Str(s: Text) | Num(bits: Double) | Null | Undefined

  type Dict = map<Text, Prim>

  /** TVariant */
  datatype Value = Simple(p: Prim) | EcmaArray(d: Dict) | Object(d: Dict)

  function Reversed(d: Double): (r: Double)
    ensures forall i :: 0 <= i < 8 ==> r[i] == d[7 - i]
  {
    [d[7], d[6], d[5], d[4], d[3], d[2], d[1], d[0]]
  }

  // ----- printing

  function StringBytes(s: Text, marker: bool): seq<byte> {
    (if marker then [STRING_MARKER] else []) + ToBigEndian16(|s| % 0x1_0000) + s
  }

  function PrimBytes(p: Prim): seq<byte> {
    match p
    case Bool(b) => [BOOLEAN_MARKER, if b then 1 else 0]
    case Str(s) => StringBytes(s, true)
    case Num(bits) => [NUMBER_MARKER] + Reversed(bits)
    case Null => [NULL_MARKER]
    case Undefined => []
  }

  function EntryBytes(d: Dict, key: Text): seq<byte>
    requires key in d
  {
    StringBytes(key, false) + PrimBytes(d[key])
  }

  /** The entries in the order in which the unordered dictionary happens to list its keys. */
  function EntriesBytes(d: Dict, order: seq<Text>): seq<byte>
    requires forall k :: k in order ==> k in d
  {
    if order == [] then [] else EntryBytes(d, order[0]) + EntriesBytes(d, order[1..])
  }

  const OBJECT_TAIL: seq<byte> := [0, 0, OBJECT_END_MARKER]

  function ObjectBytes(d: Dict, order: seq<Text>): seq<byte>
    requires forall k :: k in order ==> k in d
  {
    [OBJECT_MARKER] + (EntriesBytes(d, order) + OBJECT_TAIL)
  }

  /** `order` lists every key of `d` exactly once. */
  predicate Enumerates(order: seq<Text>, d: Dict) {
    && (forall k :: k in order ==> k in d)
    && (forall k :: k in d ==> k in order)
    && (forall i, j :: 0 <= i < j < |order| ==> order[i] != order[j])
  }

  /** A value to print, with the enumeration order of its dictionary if it has one. */
  datatype Listed = Listed(value: Value, order: seq<Text>)

  predicate ValidListed(v: Listed) {
    v.value.Object? ==> Enumerates(v.order, v.value.d)
  }

  function ValueBytes(v: Listed): seq<byte>
    requires ValidListed(v)
  {
    match v.value
    case Simple(p) => PrimBytes(p)
    case EcmaArray(_) => []
    case Object(d) => ObjectBytes(d, v.order)
  }

  // ----- parsing

  /** A parsed value and the cursor after it, or a read past the end of the data. */
  datatype Parse<+T> = Parsed(value: T, next: nat) | Overrun

  function ParseString(data: seq<byte>, pos: nat): (r: Parse<Text>)
    ensures r.Parsed? ==> |r.value| < 0x1_0000 && r.next == pos + 2 + |r.value| <= |data|
  {
    if pos + 2 > |data| then Overrun else
    var length := FromBigEndian16(data[pos..pos + 2]);
    if pos + 2 + length > |data| then Overrun else
    Parsed(data[pos + 2..pos + 2 + length], pos + 2 + length)
  }

  function ParseNumber(data: seq<byte>, pos: nat): Parse<Prim> {
    if pos + 8 > |data| then Parsed(Num([0, 0, 0, 0, 0, 0, 0, 0]), pos)
    else Parsed(Num(Reversed(data[pos..pos + 8])), pos + 8)
  }

  function ParseBoolean(data: seq<byte>, pos: nat): Parse<Prim> {
    if pos >= |data| then Parsed(Bool(false), pos) else Parsed(Bool(data[pos] > 0), pos + 1)
  }

  /** `deserializeSubset` */
  function ParsePrim(data: seq<byte>, pos: nat): (r: Parse<Prim>)
    ensures r.Parsed? && pos <= |data| ==> pos <= r.next <= |data|
    ensures r.Parsed? && r.value.Str? ==> |r.value.s| < 0x1_0000
  {
    if pos >= |data| then Parsed(Undefined, pos) else
    var marker := data[pos];
    if marker == STRING_MARKER then
      var r := ParseString(data, pos + 1);
      if r.Overrun? then Overrun else Parsed(Str(r.value), r.next)
    else if marker == NUMBER_MARKER then ParseNumber(data, pos + 1)
    else if marker == BOOLEAN_MARKER then ParseBoolean(data, pos + 1)
    else if marker == NULL_MARKER then Parsed(Null, pos + 1)
    else Parsed(Undefined, pos + 1)
  }

  /** The loop of `deserializeObject`, which has collected `dict` so far. */
  function ParseEntries(data: seq<byte>, pos: nat, dict: Dict): (r: Parse<Dict>)
    ensures r.Parsed? ==> pos < r.next <= |data|
    decreases |data| - pos
  {
    if pos >= |data| then Overrun else
    if data[pos] == OBJECT_END_MARKER then Parsed(dict, pos + 1) else
    var key := ParseString(data, pos);
    if key.Overrun? then Overrun else
    if key.value == [] then ParseEntries(data, key.next, dict) else
    var value := ParsePrim(data, key.next);
    if value.Overrun? then Overrun else
    ParseEntries(data, value.next, dict[key.value := value.value])
  }

  /** The loop of `deserializeEcmaArray` with `count` entries to go. */
  function ParseEcma(data: seq<byte>, pos: nat, count: nat, dict: Dict): (r: Parse<Dict>)
    ensures r.Parsed? && pos <= |data| ==> pos <= r.next <= |data|
    decreases count
  {
    if count == 0 || pos + 2 > |data| then Parsed(dict, pos) else
    var length := FromBigEndian16(data[pos..pos + 2]);
    if pos + 2 == |data| || pos + 2 + length > |data| then Parsed(dict, pos + 2) else
    var value := ParsePrim(data, pos + 2 + length);
    if value.Overrun? then Overrun else
    ParseEcma(data, value.next, count - 1, dict[data[pos + 2..pos + 2 + length] := value.value])
  }

  /** `deserialize` of one value */
  function ParseValue(data: seq<byte>, pos: nat): (r: Parse<Value>)
    ensures r.Parsed? && pos < |data| ==> pos < r.next <= |data|
  {
    if pos < |data| && data[pos] == OBJECT_MARKER then
      var r := ParseEntries(data, pos + 1, map[]);
      if r.Overrun? then Overrun else Parsed(Object(r.value), r.next)
    else if pos < |data| && data[pos] == ECMA_ARRAY_MARKER then
      if pos + 5 > |data| then Parsed(Simple(Undefined), pos + 1) else
      var r := ParseEcma(data, pos + 5, FromBigEndian32(data[pos + 1..pos + 5]), map[]);
      if r.Overrun? then Overrun else Parsed(EcmaArray(r.value), r.next)
    else
      var r := ParsePrim(data, pos);
      PrimConsumes(data, pos);
      if r.Overrun? then Overrun else Parsed(Simple(r.value), r.next)
  }

  lemma PrimConsumes(data: seq<byte>, pos: nat)
    ensures var r := ParsePrim(data, pos);
            r.Parsed? && pos < |data| ==> pos < r.next
  {
  }

  /** `deserialize` of everything from `pos` on */
  function ParseAll(data: seq<byte>, pos: nat): Parse<seq<Value>>
    decreases |data| - pos
  {
    if pos >= |data| then Parsed([], pos) else
    var item := ParseValue(data, pos);
    if item.Overrun? then Overrun else
    var rest := ParseAll(data, item.next);
    if rest.Overrun? then Overrun else Parsed([item.value] + rest.value, rest.next)
  }

  // ----- what the format can carry

  /** The kinds of value the serializer prints. */
  predicate Printable(p: Prim) {
    !p.Undefined?
  }

  predicate PrimFits(p: Prim) {
    p.Str? ==> |p.s| < 0x1_0000
  }

  /** A key the parser can tell from the end marker and from the closing empty key. */
  predicate KeyFits(key: Text) {
    0 < |key| < 0x1_0000 && |key| / 0x100 != 9
  }

  predicate DictPrintable(d: Dict) {
    forall k :: k in d ==> Printable(d[k])
  }

  predicate DictFits(d: Dict) {
    forall k :: k in d ==> KeyFits(k) && PrimFits(d[k])
  }

  predicate ValuePrintable(v: Value) {
    match v
    case Simple(p) => Printable(p)
    case EcmaArray(_) => false
    case Object(d) => DictPrintable(d)
  }

  predicate ValueFits(v: Value) {
    match v
    case Simple(p) => PrimFits(p)
    case EcmaArray(_) => false
    case Object(d) => DictFits(d)
  }

  // ----- round trips

  lemma StringParses(data: seq<byte>, pos: nat, s: Text)
    requires |s| < 0x1_0000 && At(data, pos, StringBytes(s, false))
    ensures ParseString(data, pos) == Parsed(s, pos + |StringBytes(s, false)|)
    ensures data[pos] == |s| / 0x100
  {
    var l := ToBigEndian16(|s|);
    assert StringBytes(s, false) == l + s;
    AtSplit(data, pos, l, s);
    EndianRoundTrips(|s|);
    assert data[pos] == data[pos..pos + 2][0];
  }

  lemma StrParses(data: seq<byte>, pos: nat, s: Text)
    requires |s| < 0x1_0000 && At(data, pos, StringBytes(s, true))
    ensures pos < |data| && data[pos] == STRING_MARKER
    ensures ParsePrim(data, pos) == Parsed(Str(s), pos + |StringBytes(s, true)|)
  {
    var unmarked := StringBytes(s, false);
    assert StringBytes(s, true) == [STRING_MARKER] + unmarked;
    hide StringBytes;
    AtSplit(data, pos, [STRING_MARKER], unmarked);
    AtByte(data, pos, STRING_MARKER);
    StringParses(data, pos + 1, s);
  }

  lemma NumParses(data: seq<byte>, pos: nat, bits: Double)
    requires At(data, pos, PrimBytes(Num(bits)))
    ensures pos < |data| && data[pos] == NUMBER_MARKER
    ensures ParsePrim(data, pos) == Parsed(Num(bits), pos + 9)
  {
    AtSplit(data, pos, [NUMBER_MARKER], Reversed(bits));
    AtByte(data, pos, NUMBER_MARKER);
    assert Reversed(Reversed(bits)) == bits;
  }

  lemma PrimParses(data: seq<byte>, pos: nat, p: Prim)
    requires Printable(p) && PrimFits(p) && At(data, pos, PrimBytes(p))
    ensures pos < |data| && data[pos] !in {OBJECT_MARKER, ECMA_ARRAY_MARKER}
    ensures ParsePrim(data, pos) == Parsed(p, pos + |PrimBytes(p)|)
  {
    match p
    case Bool(b) =>
      AtSplit(data, pos, [BOOLEAN_MARKER], [if b then 1 else 0]);
      AtByte(data, pos, BOOLEAN_MARKER);
      AtByte(data, pos + 1, if b then 1 else 0);
    case Str(s) => StrParses(data, pos, s);
    case Num(bits) => NumParses(data, pos, bits);
    case Null => AtByte(data, pos, NULL_MARKER);
  }

  /** The dictionary with the entries of `order` put into it one by one. */
  function Insert(dict: Dict, d: Dict, order: seq<Text>): Dict
    requires forall k :: k in order ==> k in d
    decreases |order|
  {
    if order == [] then dict else Insert(dict[order[0] := d[order[0]]], d, order[1..])
  }

  lemma {:induction false} InsertLooksUp(dict: Dict, d: Dict, order: seq<Text>)
    requires forall k :: k in order ==> k in d
    ensures Insert(dict, d, order).Keys == dict.Keys + set k | k in order
    ensures forall k :: k in Insert(dict, d, order) ==>
              Insert(dict, d, order)[k] == if k in order then d[k] else dict[k]
    decreases |order|
  {
    if order != [] {
      InsertLooksUp(dict[order[0] := d[order[0]]], d, order[1..]);
    }
  }

  lemma EntryParses(data: seq<byte>, pos: nat, dict: Dict, d: Dict, k: Text)
    requires k in d && KeyFits(k) && PrimFits(d[k]) && Printable(d[k])
    requires At(data, pos, EntryBytes(d, k))
    ensures ParseEntries(data, pos, dict) == ParseEntries(data, pos + |EntryBytes(d, k)|, dict[k := d[k]])
  {
    hide StringBytes, PrimBytes, ParsePrim;
    var key, value := StringBytes(k, false), PrimBytes(d[k]);
    AtSplit(data, pos, key, value);
    StringParses(data, pos, k);
    PrimParses(data, pos + |key|, d[k]);
  }

  /** Entries that fit are collected one by one, and parsing goes on behind them. */
  lemma {:induction false} EntriesParse(data: seq<byte>, pos: nat, dict: Dict, d: Dict, order: seq<Text>)
    requires forall k :: k in order ==> k in d && KeyFits(k) && PrimFits(d[k]) && Printable(d[k])
    requires At(data, pos, EntriesBytes(d, order))
    ensures ParseEntries(data, pos, dict)
            == ParseEntries(data, pos + |EntriesBytes(d, order)|, Insert(dict, d, order))
    decreases |order|
  {
    hide ParseEntries, EntryBytes, At;
    if order != [] {
      var k, rest := order[0], EntriesBytes(d, order[1..]);
      AtSplit(data, pos, EntryBytes(d, k), rest);
      EntryParses(data, pos, dict, d, k);
      EntriesParse(data, pos + |EntryBytes(d, k)|, dict[k := d[k]], d, order[1..]);
    }
  }

  lemma TailParses(data: seq<byte>, pos: nat, dict: Dict)
    requires At(data, pos, OBJECT_TAIL)
    ensures ParseEntries(data, pos, dict) == Parsed(dict, pos + 3)
  {
    var t := data[pos..pos + 3];
    assert data[pos] == t[0] == 0 && data[pos + 1] == t[1] == 0 && data[pos + 2] == t[2];
    assert data[pos..pos + 2] == [0, 0];
    assert ParseString(data, pos) == Parsed([], pos + 2);
  }

  lemma InsertAll(d: Dict, order: seq<Text>)
    requires Enumerates(order, d)
    ensures Insert(map[], d, order) == d
  {
    InsertLooksUp(map[], d, order);
  }

  lemma ObjectPartsAt(data: seq<byte>, pos: nat, d: Dict, order: seq<Text>)
    requires forall k :: k in order ==> k in d
    requires At(data, pos, ObjectBytes(d, order))
    ensures pos < |data| && data[pos] == OBJECT_MARKER
    ensures At(data, pos + 1, EntriesBytes(d, order))
    ensures At(data, pos + 1 + |EntriesBytes(d, order)|, OBJECT_TAIL)
    ensures |ObjectBytes(d, order)| == |EntriesBytes(d, order)| + 4
  {
    hide EntriesBytes, At;
    AtSplit(data, pos, [OBJECT_MARKER], EntriesBytes(d, order) + OBJECT_TAIL);
    AtByte(data, pos, OBJECT_MARKER);
    AtSplit(data, pos + 1, EntriesBytes(d, order), OBJECT_TAIL);
  }

  lemma ObjectValueParses(data: seq<byte>, pos: nat, d: Dict, next: nat)
    requires pos < |data| && data[pos] == OBJECT_MARKER
    requires ParseEntries(data, pos + 1, map[]) == Parsed(d, next)
    ensures ParseValue(data, pos) == Parsed(Object(d), next)
  {
    hide ParseEntries, ParsePrim, ParseEcma;
  }

  /** Whatever follows, and in whatever order the keys are listed, a dictionary that fits is rebuilt
      and the cursor stops right behind the end marker. */
  lemma ObjectParses(data: seq<byte>, pos: nat, d: Dict, order: seq<Text>)
    requires Enumerates(order, d) && DictPrintable(d) && DictFits(d)
    requires At(data, pos, ObjectBytes(d, order))
    ensures ParseValue(data, pos) == Parsed(Object(d), pos + |ObjectBytes(d, order)|)
  {
    hide EntriesBytes, ParseEntries, ParseValue, ObjectBytes, At, KeyFits, PrimFits, Printable;
    ObjectPartsAt(data, pos, d, order);
    EntriesParse(data, pos + 1, map[], d, order);
    InsertAll(d, order);
    TailParses(data, pos + 1 + |EntriesBytes(d, order)|, d);
    ObjectValueParses(data, pos, d, pos + |ObjectBytes(d, order)|);
  }

  /** What any parse can produce: no empty key, nothing of 65536 bytes or more. */
  predicate Bounded(d: Dict) {
    forall k :: k in d ==> 0 < |k| < 0x1_0000 && PrimFits(d[k])
  }

  lemma {:induction false} ParsedIsBounded(data: seq<byte>, pos: nat, dict: Dict)
    requires Bounded(dict)
    ensures ParseEntries(data, pos, dict).Parsed? ==> Bounded(ParseEntries(data, pos, dict).value)
    decreases |data| - pos
  {
    if pos < |data| && data[pos] != OBJECT_END_MARKER {
      var key := ParseString(data, pos);
      if key.Parsed? {
        if key.value == [] {
          ParsedIsBounded(data, key.next, dict);
        } else {
          var value := ParsePrim(data, key.next);
          if value.Parsed? {
            ParsedIsBounded(data, value.next, dict[key.value := value.value]);
          }
        }
      }
    }
  }

  lemma {:induction false} EntriesSplit(d: Dict, order: seq<Text>, i: nat)
    requires forall k :: k in order ==> k in d
    requires i <= |order|
    ensures EntriesBytes(d, order) == EntriesBytes(d, order[..i]) + EntriesBytes(d, order[i..])
  {
    hide EntryBytes;
    if i == 0 {
      assert order[..0] == [] && order[0..] == order;
    } else {
      EntriesSplit(d, order[1..], i - 1);
      assert order[..i][1..] == order[1..][..i - 1];
      assert order[1..][i - 1..] == order[i..];
      assert EntriesBytes(d, order[..i]) == EntryBytes(d, order[0]) + EntriesBytes(d, order[1..][..i - 1]);
    }
  }

  lemma EntryStartsWithLength(data: seq<byte>, pos: nat, d: Dict, k: Text)
    requires k in d && |k| < 0x1_0000 && At(data, pos, EntryBytes(d, k))
    ensures pos < |data| && data[pos] == |k| / 0x100
  {
    AtSplit(data, pos, StringBytes(k, false), PrimBytes(d[k]));
    StringParses(data, pos, k);
  }

  lemma EntriesBeforeFit(d: Dict, order: seq<Text>, i: nat)
    requires Enumerates(order, d) && DictPrintable(d) && Bounded(d) && i <= |order|
    requires forall j :: 0 <= j < i ==> |order[j]| / 0x100 != 9
    ensures forall k :: k in order[..i] ==> k in d && KeyFits(k) && PrimFits(d[k]) && Printable(d[k])
  {
    forall k | k in order[..i]
      ensures k in d && KeyFits(k) && PrimFits(d[k]) && Printable(d[k])
    {
      var j :| 0 <= j < i && order[j] == k;
      assert order[j] in d;
    }
  }

  lemma EntryAt(data: seq<byte>, pos: nat, d: Dict, order: seq<Text>, i: nat)
    requires (forall k :: k in order ==> k in d) && i < |order| && At(data, pos, EntriesBytes(d, order))
    ensures At(data, pos, EntriesBytes(d, order[..i]))
    ensures At(data, pos + |EntriesBytes(d, order[..i])|, EntryBytes(d, order[i]))
  {
    hide EntryBytes, At;
    var rest := order[i..];
    EntriesSplit(d, order, i);
    AtSplit(data, pos, EntriesBytes(d, order[..i]), EntriesBytes(d, rest));
    AtSplit(data, pos + |EntriesBytes(d, order[..i])|, EntryBytes(d, rest[0]), EntriesBytes(d, rest[1..]));
  }

  lemma LongKeyStops(data: seq<byte>, pos: nat, dict: Dict, d: Dict, k: Text)
    requires k in d && |k| < 0x1_0000 && |k| / 0x100 == 9 && At(data, pos, EntryBytes(d, k))
    ensures ParseEntries(data, pos, dict) == Parsed(dict, pos + 1)
  {
    hide At, EntryBytes;
    EntryStartsWithLength(data, pos, d, k);
  }

  /** A key whose length has high byte 9 is taken for the end marker, and its entry is lost. */
  lemma LongKeyEndsObject(data: seq<byte>, pos: nat, d: Dict, order: seq<Text>, i: nat)
    requires Enumerates(order, d) && DictPrintable(d) && Bounded(d)
    requires i < |order| && |order[i]| / 0x100 == 9
    requires forall j :: 0 <= j < i ==> |order[j]| / 0x100 != 9
    requires At(data, pos, EntriesBytes(d, order))
    ensures ParseEntries(data, pos, map[]).Parsed?
    ensures order[i] !in ParseEntries(data, pos, map[]).value
  {
    hide ParseEntries, EntriesBytes, EntryBytes, At, KeyFits, PrimFits, DictPrintable, Insert;
    var before, k := order[..i], order[i];
    assert k !in before;
    assert k in d && |k| < 0x1_0000;
    EntryAt(data, pos, d, order, i);
    EntriesBeforeFit(d, order, i);
    EntriesParse(data, pos, map[], d, before);
    InsertLooksUp(map[], d, before);
    LongKeyStops(data, pos + |EntriesBytes(d, before)|, Insert(map[], d, before), d, k);
  }

  lemma FirstLongKey(order: seq<Text>, k: Text) returns (i: nat)
    requires k in order && |k| / 0x100 == 9
    ensures i < |order| && |order[i]| / 0x100 == 9
    ensures forall j :: 0 <= j < i ==> |order[j]| / 0x100 != 9
  {
    i := 0;
    while |order[i]| / 0x100 != 9
      invariant i < |order|
      invariant forall j :: 0 <= j < i ==> |order[j]| / 0x100 != 9
      invariant exists j :: i <= j < |order| && order[j] == k
      decreases |order| - i
    {
      i := i + 1;
    }
  }

  lemma UnfitDictIsNotParsed(data: seq<byte>, pos: nat, d: Dict, order: seq<Text>)
    requires Enumerates(order, d) && DictPrintable(d) && !DictFits(d)
    requires At(data, pos, EntriesBytes(d, order))
    ensures var r := ParseEntries(data, pos, map[]);
            r.Parsed? ==> r.value != d
  {
    hide ParseEntries, EntriesBytes, At;
    ParsedIsBounded(data, pos, map[]);
    if Bounded(d) {
      var k :| k in d && |k| / 0x100 == 9;
      var i := FirstLongKey(order, k);
      LongKeyEndsObject(data, pos, d, order, i);
    }
  }

  /** An object of printable values is rebuilt exactly when its keys and strings fit. */
  lemma ObjectRoundTrip(data: seq<byte>, pos: nat, d: Dict, order: seq<Text>)
    requires Enumerates(order, d) && DictPrintable(d)
    requires At(data, pos, ObjectBytes(d, order))
    ensures var r := ParseValue(data, pos);
            && (r.Parsed? && r.value == Object(d) <==> DictFits(d))
            && (DictFits(d) ==> r.next == pos + |ObjectBytes(d, order)|)
  {
    hide DictFits, DictPrintable, ParseEntries, EntriesBytes;
    if DictFits(d) {
      ObjectParses(data, pos, d, order);
    } else {
      ObjectPartsAt(data, pos, d, order);
      UnfitDictIsNotParsed(data, pos + 1, d, order);
    }
  }

  lemma ValueParses(data: seq<byte>, pos: nat, v: Listed)
    requires ValidListed(v) && ValuePrintable(v.value) && ValueFits(v.value)
    requires At(data, pos, ValueBytes(v))
    ensures |ValueBytes(v)| > 0
    ensures ParseValue(data, pos) == Parsed(v.value, pos + |ValueBytes(v)|)
  {
    match v.value
    case Simple(p) => PrimParses(data, pos, p);
    case Object(d) => ObjectParses(data, pos, d, v.order);
  }

  function ListBytes(vs: seq<Listed>): seq<byte>
    requires forall v :: v in vs ==> ValidListed(v)
  {
    if vs == [] then [] else ValueBytes(vs[0]) + ListBytes(vs[1..])
  }

  function Values(vs: seq<Listed>): (r: seq<Value>)
    ensures |r| == |vs|
  {
    seq(|vs|, i requires 0 <= i < |vs| => vs[i].value)
  }

  // ----- ECMA arrays, which a server prints and the client does not

  predicate EcmaKeyFits(key: Text) {
    |key| < 0x1_0000
  }

  lemma EcmaEntryParses(data: seq<byte>, pos: nat, count: nat, dict: Dict, d: Dict, k: Text)
    requires k in d && EcmaKeyFits(k) && PrimFits(d[k]) && Printable(d[k]) && count > 0
    requires At(data, pos, EntryBytes(d, k))
    ensures ParseEcma(data, pos, count, dict)
            == ParseEcma(data, pos + |EntryBytes(d, k)|, count - 1, dict[k := d[k]])
  {
    hide PrimBytes, ParsePrim, FromBigEndian16, ToBigEndian16;
    var key, value, length := StringBytes(k, false), PrimBytes(d[k]), ToBigEndian16(|k| % 0x1_0000);
    AtSplit(data, pos, key, value);
    PrimParses(data, pos + |key|, d[k]);
    PrimTakesSpace(d[k]);
    assert key == length + k;
    AtSplit(data, pos, length, k);
    EndianRoundTrips(|k|);
  }

  lemma PrimTakesSpace(p: Prim)
    requires Printable(p)
    ensures |PrimBytes(p)| > 0
  {
  }

  lemma {:induction false} EcmaEntriesParse(data: seq<byte>, pos: nat, count: nat, dict: Dict, d: Dict,
                                            order: seq<Text>)
    requires forall k :: k in order ==> k in d && EcmaKeyFits(k) && PrimFits(d[k]) && Printable(d[k])
    requires At(data, pos, EntriesBytes(d, order)) && count >= |order|
    ensures ParseEcma(data, pos, count, dict)
            == ParseEcma(data, pos + |EntriesBytes(d, order)|, count - |order|, Insert(dict, d, order))
    decreases |order|
  {
    hide ParseEcma, EntryBytes, At;
    if order != [] {
      var k, rest := order[0], EntriesBytes(d, order[1..]);
      AtSplit(data, pos, EntryBytes(d, k), rest);
      EcmaEntryParses(data, pos, count, dict, d, k);
      EcmaEntriesParse(data, pos + |EntryBytes(d, k)|, count - 1, dict[k := d[k]], d, order[1..]);
    }
  }

  /** Marker, announced number of entries, and the entries. */
  function EcmaBytes(d: Dict, order: seq<Text>, count: u32): seq<byte>
    requires forall k :: k in order ==> k in d
  {
    [ECMA_ARRAY_MARKER] + (ToBigEndian32(count) + EntriesBytes(d, order))
  }

  /** An ECMA array with short enough keys and values is read back, for every order of its keys: with the number of its
      entries in front whatever follows, and at the end of the data also with a larger number. */
  lemma EcmaArrayParses(data: seq<byte>, pos: nat, d: Dict, order: seq<Text>, count: u32)
    requires Enumerates(order, d) && (forall k :: k in d ==> EcmaKeyFits(k) && PrimFits(d[k]) && Printable(d[k]))
    requires At(data, pos, EcmaBytes(d, order, count))
    requires count == |order| || (count > |order| && |data| == pos + |EcmaBytes(d, order, count)|)
    ensures ParseValue(data, pos) == Parsed(EcmaArray(d), pos + |EcmaBytes(d, order, count)|)
  {
    hide EntriesBytes, At, ParsePrim, ParseEntries, FromBigEndian32, ToBigEndian32, KeyFits, EcmaKeyFits, PrimFits,
         Printable;
    var entries := EntriesBytes(d, order);
    AtSplit(data, pos, [ECMA_ARRAY_MARKER], ToBigEndian32(count) + entries);
    AtByte(data, pos, ECMA_ARRAY_MARKER);
    AtSplit(data, pos + 1, ToBigEndian32(count), entries);
    EndianRoundTrips(count);
    AtSlice(data, pos + 1, ToBigEndian32(count));
    EcmaEntriesParse(data, pos + 5, count, map[], d, order);
    InsertAll(d, order);
    AtInside(data, pos, EcmaBytes(d, order, count));
  }

  lemma AtSlice(data: seq<byte>, pos: nat, s: seq<byte>)
    requires At(data, pos, s)
    ensures pos + |s| <= |data| && data[pos..pos + |s|] == s
  {
  }

  lemma AtInside(data: seq<byte>, pos: nat, s: seq<byte>)
    requires At(data, pos, s)
    ensures pos + |s| <= |data|
  {
  }

  // ----- the bytes themselves

  /** What simple values look like, byte for byte. */
  lemma SimplesOnTheWire()
    ensures PrimBytes(Bool(true)) == [0x01, 0x01] && PrimBytes(Bool(false)) == [0x01, 0x00]
    ensures PrimBytes(Null) == [0x05] && PrimBytes(Undefined) == []
  {
  }

  lemma StringOnTheWire(s: Text)
    requires |s| < 0x1_0000
    ensures var b := PrimBytes(Str(s));
            |b| == 3 + |s| && b[0] == 0x02 && Spelled(b[1..3]) == |s| && b[3..] == s
  {
    hide ToBigEndian16, Spelled;
    BigEndianSpells(|s|);
    assert PrimBytes(Str(s))[1..3] == ToBigEndian16(|s|);
  }

  /** Numbers are sent with the most significant byte first; the double 1 has the bits 0x3FF0000000000000. */
  lemma NumberOnTheWire(bits: Double)
    ensures PrimBytes(Num(bits)) == [0x00] + Backwards(bits)
    ensures PrimBytes(Num([0, 0, 0, 0, 0, 0, 0xF0, 0x3F])) == [0x00, 0x3F, 0xF0, 0, 0, 0, 0, 0, 0]
  {
    assert Reversed(bits) == Backwards(bits);
  }

  /** What an object looks like: a marker, the keys without one, and the empty key with the end marker. */
  lemma ObjectOnTheWire(d: Dict, order: seq<Text>)
    requires forall k :: k in order ==> k in d
    ensures ObjectBytes(d, order) == [0x03] + (EntriesBytes(d, order) + [0x00, 0x00, 0x09])
  {
  }

  /** How the parser reads a value that is cut off or has no known marker. */
  lemma BrokenValues(data: seq<byte>, pos: nat)
    requires pos < |data|
    ensures data[pos] == 0x00 && |data| - pos <= 8 ==> ParseValue(data, pos) == Parsed(Simple(Num(ZERO)), pos + 1)
    ensures data[pos] == 0x01 && |data| == pos + 1 ==> ParseValue(data, pos) == Parsed(Simple(Bool(false)), pos + 1)
    ensures data[pos] == 0x01 && |data| > pos + 1 ==>
              ParseValue(data, pos) == Parsed(Simple(Bool(data[pos + 1] != 0)), pos + 2)
    ensures data[pos] == 0x08 && |data| - pos <= 4 ==> ParseValue(data, pos) == Parsed(Simple(Undefined), pos + 1)
    ensures data[pos] in {0x04, 0x06, 0x07} || data[pos] > 0x08 ==>
              ParseValue(data, pos) == Parsed(Simple(Undefined), pos + 1)
  {
    hide ParseEntries, ParseEcma, ParseString;
  }

  const ZERO: Double := [0, 0, 0, 0, 0, 0, 0, 0]

  /** An ECMA array that is cut off keeps the entries before the cut: where no key length is left, and where the key is
      longer than the data. */
  lemma EcmaCutOff(data: seq<byte>, pos: nat, count: nat, dict: Dict)
    requires pos <= |data| && count > 0
    ensures |data| < pos + 2 ==> ParseEcma(data, pos, count, dict) == Parsed(dict, pos)
    ensures pos + 2 <= |data| < pos + 2 + Spelled(data[pos..pos + 2]) ==>
              ParseEcma(data, pos, count, dict) == Parsed(dict, pos + 2)
  {
    hide Spelled, ParsePrim, FromBigEndian16;
    if pos + 2 <= |data| {
      BigEndianReads(data[pos..pos + 2]);
    }
  }

  /** Of two entries with the same key the later one is kept. */
  lemma LaterEntryWins(data: seq<byte>, pos: nat, k: Text, v: Prim, w: Prim)
    requires KeyFits(k) && PrimFits(v) && Printable(v) && PrimFits(w) && Printable(w)
    requires At(data, pos, EntryBytes(map[k := v], k) + (EntryBytes(map[k := w], k) + OBJECT_TAIL))
    ensures ParseEntries(data, pos, map[])
            == Parsed(map[k := w], pos + |EntryBytes(map[k := v], k)| + |EntryBytes(map[k := w], k)| + 3)
  {
    hide EntryBytes, ParseEntries, At, KeyFits, PrimFits, Printable;
    var first, second := EntryBytes(map[k := v], k), EntryBytes(map[k := w], k);
    AtSplit(data, pos, first, second + OBJECT_TAIL);
    AtSplit(data, pos + |first|, second, OBJECT_TAIL);
    EntryParses(data, pos, map[], map[k := v], k);
    EntryParses(data, pos + |first|, map[k := v], map[k := w], k);
    TailParses(data, pos + |first| + |second|, map[k := w]);
    assert map[k := v][k := w] == map[k := w];
  }

  /** A printed value that does not fit is never parsed as itself, whatever follows. */
  lemma UnfitValueIsNotParsed(data: seq<byte>, pos: nat, v: Listed)
    requires ValidListed(v) && ValuePrintable(v.value) && !ValueFits(v.value)
    requires At(data, pos, ValueBytes(v))
    ensures var r := ParseValue(data, pos);
            r.Parsed? ==> r.value != v.value
  {
    hide ParseEntries, ParseEcma, DictFits, DictPrintable;
    match v.value
    case Simple(p) =>
    case Object(d) => ObjectRoundTrip(data, pos, d, v.order);
  }

  lemma ValueTakesSpace(v: Listed)
    requires ValidListed(v) && ValuePrintable(v.value)
    ensures |ValueBytes(v)| > 0
  {
  }

  lemma ParseAllCons(data: seq<byte>, pos: nat, v: Value, vs: seq<Value>, end: nat)
    requires pos < |data|
    ensures ParseAll(data, pos) == Parsed([v] + vs, end)
            <==> var item := ParseValue(data, pos);
                 item.Parsed? && item.value == v && ParseAll(data, item.next) == Parsed(vs, end)
  {
    hide ParseValue;
    var item := ParseValue(data, pos);
    if item.Parsed? {
      var rest := ParseAll(data, item.next);
      if rest.Parsed? {
        assert ([item.value] + rest.value)[0] == item.value && ([item.value] + rest.value)[1..] == rest.value;
        assert ([v] + vs)[0] == v && ([v] + vs)[1..] == vs;
      }
    }
  }

  /** The encoding delimits itself: a concatenation of printed values is read back as the list exactly when all of
      them fit. */
  lemma {:induction false} ListRoundTrip(data: seq<byte>, pos: nat, vs: seq<Listed>)
    requires forall v :: v in vs ==> ValidListed(v) && ValuePrintable(v.value)
    requires At(data, pos, ListBytes(vs)) && |data| == pos + |ListBytes(vs)|
    ensures ParseAll(data, pos) == Parsed(Values(vs), |data|) <==> forall v :: v in vs ==> ValueFits(v.value)
    decreases |vs|
  {
    hide ValueBytes, ParseValue, ValuePrintable, ValueFits, At;
    if vs != [] {
      var v, rest := vs[0], vs[1..];
      AtSplit(data, pos, ValueBytes(v), ListBytes(rest));
      ValueTakesSpace(v);
      ParseAllCons(data, pos, v.value, Values(rest), |data|);
      assert [v.value] + Values(rest) == Values(vs);
      if ValueFits(v.value) {
        ValueParses(data, pos, v);
        ListRoundTrip(data, pos + |ValueBytes(v)|, rest);
        assert vs == [v] + rest;
      } else {
        UnfitValueIsNotParsed(data, pos, v);
      }
    }
  }

  /** Printed alone, a value is read back as itself exactly when it fits. */
  lemma ValueRoundTrip(v: Listed)
    requires ValidListed(v) && ValuePrintable(v.value)
    ensures ParseAll(ValueBytes(v), 0) == Parsed([v.value], |ValueBytes(v)|) <==> ValueFits(v.value)
  {
    hide ValueBytes, ParseAll, At, ValueFits, ValuePrintable;
    assert ListBytes([v]) == ValueBytes(v) + [] == ValueBytes(v);
    assert Values([v]) == [v.value];
    WholeIsAt(ValueBytes(v));
    ListRoundTrip(ValueBytes(v), 0, [v]);
  }

  /** Where a value is missing, the closing empty key is misread and the data runs out. */
  lemma TailMisread(data: seq<byte>, p: nat, dict: Dict)
    requires At(data, p, OBJECT_TAIL) && |data| == p + 3
    ensures ParsePrim(data, p) == Parsed(Num([0, 0, 0, 0, 0, 0, 0, 0]), p + 1)
    ensures ParseEntries(data, p + 1, dict).Overrun?
  {
    var t := data[p..p + 3];
    assert data[p] == t[0] && data[p + 1] == t[1] && data[p + 2] == t[2];
    assert data[p + 1..p + 3] == [0, 9];
    assert ParseString(data, p + 1).Overrun?;
  }

  lemma MissingValueOverruns(data: seq<byte>, pos: nat, dict: Dict, k: Text)
    requires KeyFits(k) && At(data, pos, StringBytes(k, false) + OBJECT_TAIL)
    requires |data| == pos + |StringBytes(k, false) + OBJECT_TAIL|
    ensures ParseEntries(data, pos, dict).Overrun?
  {
    hide StringBytes, ParsePrim;
    var key := StringBytes(k, false);
    AtSplit(data, pos, key, OBJECT_TAIL);
    StringParses(data, pos, k);
    TailMisread(data, pos + |key|, dict[k := Num([0, 0, 0, 0, 0, 0, 0, 0])]);
  }

  lemma UndefinedPrintsNothing(d: Dict, order: seq<Text>, n: nat)
    requires (forall k :: k in order ==> k in d) && |order| == n + 1 && d[order[n]].Undefined?
    ensures EntriesBytes(d, order) == EntriesBytes(d, order[..n]) + StringBytes(order[n], false)
  {
    EntriesSplit(d, order, n);
    assert order[n..] == [order[n]];
    assert EntriesBytes(d, [order[n]]) == EntryBytes(d, order[n]) + [];
  }

  /** A dictionary that lists an undefined value last, at the end of the data, cannot be read back even if everything
      else in it fits: nothing is printed for the value, and what follows the key is taken for it. */
  lemma UndefinedIsNotRebuilt(d: Dict, order: seq<Text>, n: nat)
    requires Enumerates(order, d) && |order| == n + 1
    requires d[order[n]].Undefined? && KeyFits(order[n])
    requires forall k :: k in order[..n] ==> KeyFits(k) && PrimFits(d[k]) && Printable(d[k])
    ensures ParseValue(ObjectBytes(d, order), 0).Overrun?
  {
    hide StringBytes, ParseEntries, EntriesBytes, At, PrimFits, KeyFits, Insert;
    var data, front, key := ObjectBytes(d, order), EntriesBytes(d, order[..n]), StringBytes(order[n], false);
    UndefinedPrintsNothing(d, order, n);
    assert data == [OBJECT_MARKER] + (front + (key + OBJECT_TAIL));
    WholeIsAt(data);
    AtSplit(data, 0, [OBJECT_MARKER], front + (key + OBJECT_TAIL));
    AtByte(data, 0, OBJECT_MARKER);
    AtSplit(data, 1, front, key + OBJECT_TAIL);
    EntriesParse(data, 1, map[], d, order[..n]);
    MissingValueOverruns(data, 1 + |front|, Insert(map[], d, order[..n]), order[n]);
  }

  lemma WholeIsAt(data: seq<byte>)
    ensures At(data, 0, data)
  {
    assert data[0..|data|] == data;
  }
}
