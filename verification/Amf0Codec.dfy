/** The serializer and deserializer of src/amf/0 as methods over buffers and a moving cursor,
    each proved to compute the function of module Amf0 it stands for. */
module Amf0Codec {
  import opened Bytes
  import opened Amf0

  // ----- Serializer

  method SerializeString(data: Text, includeMarker: bool) returns (result: seq<byte>)
    ensures result == StringBytes(data, includeMarker)
  {
    var size := |data| + if includeMarker then 3 else 2;
    var buffer := new byte[size](_ => 0);
    var iter := 0;
    if includeMarker {
      buffer[iter] := STRING_MARKER;
      iter := iter + 1;
    }
    var length := ToBigEndian16(|data| % 0x1_0000);
    buffer[iter], buffer[iter + 1] := length[0], length[1];
    iter := iter + 2;
    ghost var front := buffer[..iter];
    assert front == (if includeMarker then [STRING_MARKER] else []) + length;
    for i := 0 to |data|
      invariant buffer[..iter] == front
      invariant forall j :: 0 <= j < i ==> buffer[iter + j] == data[j]
    {
      buffer[iter + i] := data[i];
    }
    assert buffer[iter..] == data;
    assert buffer[..] == buffer[..iter] + buffer[iter..];
    result := buffer[..];
  }

  method SerializeNumber(data: Double) returns (result: seq<byte>)
    ensures result == PrimBytes(Num(data))
  {
    var buffer := new byte[9](_ => 0);
    buffer[0] := NUMBER_MARKER;
    for i := 1 to 9
      invariant buffer[0] == NUMBER_MARKER
      invariant forall j :: 1 <= j < i ==> buffer[j] == data[8 - j]
    {
      buffer[i] := data[8 - i];
    }
    result := buffer[..];
    ghost var expected := [NUMBER_MARKER] + Reversed(data);
    assert forall j :: 1 <= j < 9 ==> expected[j] == data[8 - j];
  }

  method SerializeBoolean(data: bool) returns (result: seq<byte>)
    ensures result == PrimBytes(Bool(data))
  {
    var buffer := new byte[2](_ => 0);
    buffer[0] := BOOLEAN_MARKER;
    buffer[1] := if data then 1 else 0;
    result := buffer[..];
  }

  method SerializePrim(p: Prim) returns (result: seq<byte>)
    ensures result == PrimBytes(p)
  {
    result := [];
    match p
    case Str(s) => result := SerializeString(s, true);
    case Num(bits) => result := SerializeNumber(bits);
    case Bool(b) => result := SerializeBoolean(b);
    case Null => result := [NULL_MARKER];
    case Undefined =>
  }

  method SerializeObject(properties: Dict, order: seq<Text>) returns (result: seq<byte>)
    requires Enumerates(order, properties)
    ensures result == ObjectBytes(properties, order)
  {
    KeysAreThere(properties, order);
    hide StringBytes, PrimBytes, EntriesBytes, Enumerates;
    result := [OBJECT_MARKER];
    for i := 0 to |order|
      invariant result == [OBJECT_MARKER] + EntriesBytes(properties, order[..i])
    {
      var keyConverted := SerializeString(order[i], false);
      var valueConverted := SerializePrim(properties[order[i]]);
      AppendEntry(properties, order, i);
      Regroup([OBJECT_MARKER], EntriesBytes(properties, order[..i]), keyConverted, valueConverted);
      result := result + keyConverted;
      result := result + valueConverted;
    }
    assert order[..|order|] == order;
    var emptyStr := SerializeString([], false);
    EmptyString();
    Regroup([OBJECT_MARKER], EntriesBytes(properties, order), emptyStr, [OBJECT_END_MARKER]);
    result := result + emptyStr;
    result := result + [OBJECT_END_MARKER];
  }

  lemma KeysAreThere(d: Dict, order: seq<Text>)
    requires Enumerates(order, d)
    ensures forall k :: k in order ==> k in d
  {
  }

  lemma Regroup(a: seq<byte>, b: seq<byte>, c: seq<byte>, d: seq<byte>)
    ensures a + b + c + d == a + (b + (c + d))
  {
  }

  lemma EmptyString()
    ensures StringBytes([], false) + [OBJECT_END_MARKER] == OBJECT_TAIL
  {
  }

  lemma AppendEntry(d: Dict, order: seq<Text>, i: nat)
    requires (forall k :: k in order ==> k in d) && i < |order|
    ensures EntriesBytes(d, order[..i + 1]) == EntriesBytes(d, order[..i]) + EntryBytes(d, order[i])
  {
    var front := order[..i + 1];
    EntriesSplit(d, front, i);
    assert front[..i] == order[..i] && front[i..] == [order[i]];
    assert EntriesBytes(d, [order[i]]) == EntryBytes(d, order[i]) + [];
  }

  method SerializeVariant(item: Listed) returns (result: seq<byte>)
    requires ValidListed(item)
    ensures result == ValueBytes(item)
  {
    match item.value
    case Simple(p) => result := SerializePrim(p);
    case EcmaArray(_) => result := [];
    case Object(d) => result := SerializeObject(d, item.order);
  }

  // ----- Deserializer

  /** The data being read and the iterator into it. A method requires that the reads it makes without
      checking stay inside the data. */
  class Deserializer {
    const data: seq<byte>
    var iter: nat

    constructor (data: seq<byte>)
      ensures this.data == data && iter == 0
    {
      this.data := data;
      iter := 0;
    }

    method DeserializeString() returns (value: Text)
      requires ParseString(data, iter).Parsed?
      modifies this`iter
      ensures ParseString(data, old(iter)) == Parsed(value, iter)
    {
      var length := FromBigEndian16(data[iter..iter + 2]);
      iter := iter + 2;
      value := data[iter..iter + length];
      iter := iter + length;
    }

    method DeserializeNumber() returns (value: Prim)
      modifies this`iter
      ensures ParseNumber(data, old(iter)) == Parsed(value, iter)
    {
      if |data| - iter < 8 {
        return Num([0, 0, 0, 0, 0, 0, 0, 0]);
      }
      value := Num(Reversed(data[iter..iter + 8]));
      iter := iter + 8;
    }

    method DeserializeBoolean() returns (value: Prim)
      modifies this`iter
      ensures ParseBoolean(data, old(iter)) == Parsed(value, iter)
    {
      if iter >= |data| {
        return Bool(false);
      }
      value := Bool(data[iter] > 0);
      iter := iter + 1;
    }

    method DeserializeSubset() returns (value: Prim)
      requires ParsePrim(data, iter).Parsed?
      modifies this`iter
      ensures ParsePrim(data, old(iter)) == Parsed(value, iter)
    {
      if iter >= |data| {
        return Undefined;
      }
      var marker := data[iter];
      iter := iter + 1;
      if marker == STRING_MARKER {
        var s := DeserializeString();
        value := Str(s);
      } else if marker == NUMBER_MARKER {
        value := DeserializeNumber();
      } else if marker == BOOLEAN_MARKER {
        value := DeserializeBoolean();
      } else if marker == NULL_MARKER {
        value := Null;
      } else {
        value := Undefined;
      }
    }

    method DeserializeObject() returns (dict: Dict)
      requires ParseEntries(data, iter, map[]).Parsed?
      modifies this`iter
      ensures ParseEntries(data, old(iter), map[]) == Parsed(dict, iter)
    {
      dict := map[];
      ghost var goal := ParseEntries(data, iter, map[]);
      while data[iter] != OBJECT_END_MARKER
        invariant ParseEntries(data, iter, dict) == goal
        decreases |data| - iter
      {
        var key := DeserializeString();
        if key != [] {
          var value := DeserializeSubset();
          dict := dict[key := value];
        }
      }
      iter := iter + 1;
    }

    method DeserializeEcmaArray(size: u32) returns (dict: Dict)
      requires ParseEcma(data, iter, size, map[]).Parsed?
      modifies this`iter
      ensures ParseEcma(data, old(iter), size, map[]) == Parsed(dict, iter)
    {
      dict := map[];
      ghost var goal := ParseEcma(data, iter, size, map[]);
      var i := 0;
      while i < size
        invariant 0 <= i <= size
        invariant ParseEcma(data, iter, size - i, dict) == goal
      {
        if |data| - iter < 2 {
          return;
        }
        var length := FromBigEndian16(data[iter..iter + 2]);
        if iter + 2 == |data| || |data| - (iter + 2) < length {
          iter := iter + 2;
          return;
        }
        var key := data[iter + 2..iter + 2 + length];
        iter := iter + 2 + length;
        var value := DeserializeSubset();
        dict := dict[key := value];
        i := i + 1;
      }
    }

    method DeserializeOne() returns (value: Value)
      requires ParseValue(data, iter).Parsed?
      modifies this`iter
      ensures ParseValue(data, old(iter)) == Parsed(value, iter)
    {
      if iter < |data| && data[iter] == OBJECT_MARKER {
        iter := iter + 1;
        var d := DeserializeObject();
        value := Object(d);
      } else if iter < |data| && data[iter] == ECMA_ARRAY_MARKER {
        iter := iter + 1;
        if |data| - iter < 4 {
          return Simple(Undefined);
        }
        var associativeCount := FromBigEndian32(data[iter..iter + 4]);
        iter := iter + 4;
        var d := DeserializeEcmaArray(associativeCount);
        value := EcmaArray(d);
      } else {
        var p := DeserializeSubset();
        value := Simple(p);
      }
    }

    /** The whole data; the iterator advances in every round. */
    method Deserialize() returns (result: seq<Value>)
      requires ParseAll(data, 0).Parsed?
      modifies this`iter
      ensures ParseAll(data, 0) == Parsed(result, iter)
    {
      iter := 0;
      result := [];
      ghost var goal := ParseAll(data, 0);
      assert [] + goal.value == goal.value;
      while iter < |data|
        invariant iter <= |data|
        invariant ParseAll(data, iter).Parsed?
        invariant goal == Parsed(result + ParseAll(data, iter).value, ParseAll(data, iter).next)
        decreases |data| - iter
      {
        ghost var rest := ParseAll(data, iter).value;
        var item := DeserializeOne();
        assert rest == [item] + ParseAll(data, iter).value;
        assert result + rest == (result + [item]) + ParseAll(data, iter).value;
        result := result + [item];
      }
      assert result + [] == result;
    }
  }
}
