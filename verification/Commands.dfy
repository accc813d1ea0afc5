/** The connect and createStream commands (src/rtmp/message/command), whose length field is inserted
    after the body has been written. */
module Commands {
  import opened Bytes
  import opened MediaMessage
  import Amf0
  import Amf0Codec

  const COMMAND_AMF0: byte := 0x14

  type Text = Amf0.Text
  type Dict = Amf0.Dict

  /** A command's content; an order is how its unordered dictionary happens to list its keys. */
  datatype Command = Command(name: Text, transaction: Amf0.Double,
                             properties: Dict, propertiesOrder: seq<Text>,
                             arguments: Dict, argumentsOrder: seq<Text>)

  predicate ValidCommand(c: Command) {
    Amf0.Enumerates(c.propertiesOrder, c.properties) && Amf0.Enumerates(c.argumentsOrder, c.arguments)
  }

  function Plain(p: Amf0.Prim): Amf0.Listed {
    Amf0.Listed(Amf0.Simple(p), [])
  }

  function NameAndTransaction(c: Command): seq<Amf0.Listed> {
    [Plain(Amf0.Str(c.name)), Plain(Amf0.Num(c.transaction))]
  }

  /** A dictionary as the values of a command: an empty one is left out. */
  function DictValues(d: Dict, order: seq<Text>): seq<Amf0.Listed> {
    if d == map[] then [] else [Amf0.Listed(Amf0.Object(d), order)]
  }

  /** The values a connect command carries. */
  function ConnectValues(c: Command): seq<Amf0.Listed> {
    NameAndTransaction(c) + DictValues(c.properties, c.propertiesOrder) + DictValues(c.arguments, c.argumentsOrder)
  }

  /** The values a createStream command carries: an empty dictionary becomes null. */
  function CreateStreamValues(c: Command): seq<Amf0.Listed> {
    NameAndTransaction(c)
    + [if c.properties == map[] then Plain(Amf0.Null) else Amf0.Listed(Amf0.Object(c.properties), c.propertiesOrder)]
  }

  function ConnectHeader(size: u32): Header {
    FRESH.(msgType := COMMAND_AMF0, size := size)
  }

  function CreateStreamHeader(size: u32): Header {
    FRESH.(chunkType := 1, msgType := COMMAND_AMF0, size := size)
  }

  /** `insert` */
  function Inserted(s: seq<byte>, pos: nat, t: seq<byte>): seq<byte>
    requires pos <= |s|
  {
    s[..pos] + t + s[pos..]
  }

  lemma {:induction false} ListBytesAppend(xs: seq<Amf0.Listed>, y: Amf0.Listed)
    requires (forall x :: x in xs ==> Amf0.ValidListed(x)) && Amf0.ValidListed(y)
    ensures Amf0.ListBytes(xs + [y]) == Amf0.ListBytes(xs) + Amf0.ValueBytes(y)
  {
    hide Amf0.ValueBytes;
    if xs == [] {
      assert xs + [y] == [y];
      assert Amf0.ListBytes([y]) == Amf0.ValueBytes(y) + [];
    } else {
      ListBytesAppend(xs[1..], y);
      assert (xs + [y])[1..] == xs[1..] + [y];
    }
  }

  class RtmpCommandMessage {
    var header: Header
    var command: Command
    var payload: seq<byte>

    constructor Connect(command: Command)
      ensures header == ConnectHeader(0) && this.command == command && payload == []
    {
      header, this.command, payload := ConnectHeader(0), command, [];
    }

    constructor CreateStream(command: Command)
      ensures header == CreateStreamHeader(0) && this.command == command && payload == []
    {
      header, this.command, payload := CreateStreamHeader(0), command, [];
    }

    /** Appends one value to the body and adds its size, in 32-bit arithmetic. */
    method Append(v: Amf0.Listed, size: u32, ghost front: seq<byte>, ghost vs: seq<Amf0.Listed>) returns (newSize: u32)
      requires Amf0.ValidListed(v) && forall x :: x in vs ==> Amf0.ValidListed(x)
      requires payload == front + Amf0.ListBytes(vs) && size == |Amf0.ListBytes(vs)| % 0x1_0000_0000
      modifies this`payload
      ensures payload == front + Amf0.ListBytes(vs + [v])
      ensures newSize == |Amf0.ListBytes(vs + [v])| % 0x1_0000_0000
    {
      hide Amf0.ValueBytes;
      var data := Amf0Codec.SerializeVariant(v);
      ListBytesAppend(vs, v);
      payload := payload + data;
      newSize := (size + |data|) % 0x1_0000_0000;
    }

    /** Inserts the body size between the timestamp and the type. */
    method InsertSize(size: u32)
      requires |payload| >= 4
      modifies this`payload, this`header
      ensures header == old(header).(size := size)
      ensures payload == Inserted(old(payload), 4, ToBigEndian24(size))
    {
      header := header.(size := size);
      payload := payload[..4] + ToBigEndian24(header.size) + payload[4..];
    }

    /** The values every command starts with. */
    method AppendNameAndTransaction(ghost front: seq<byte>) returns (size: u32)
      requires payload == front
      modifies this`payload
      ensures payload == front + Amf0.ListBytes(NameAndTransaction(command))
      ensures size == |Amf0.ListBytes(NameAndTransaction(command))| % 0x1_0000_0000
    {
      var name, transaction := Plain(Amf0.Str(command.name)), Plain(Amf0.Num(command.transaction));
      assert front + [] == front && Amf0.ListBytes([]) == [];
      hide Amf0.ListBytes;
      size := Append(name, 0, front, []);
      assert [] + [name] == [name];
      size := Append(transaction, size, front, [name]);
      assert [name] + [transaction] == NameAndTransaction(command);
    }

    method AppendDictionary(d: Dict, order: seq<Text>, size: u32, ghost front: seq<byte>, ghost vs: seq<Amf0.Listed>)
      returns (newSize: u32)
      requires Amf0.Enumerates(order, d) && forall x :: x in vs ==> Amf0.ValidListed(x)
      requires payload == front + Amf0.ListBytes(vs) && size == |Amf0.ListBytes(vs)| % 0x1_0000_0000
      modifies this`payload
      ensures forall x :: x in vs + DictValues(d, order) ==> Amf0.ValidListed(x)
      ensures payload == front + Amf0.ListBytes(vs + DictValues(d, order))
      ensures newSize == |Amf0.ListBytes(vs + DictValues(d, order))| % 0x1_0000_0000
    {
      hide Amf0.ListBytes, Amf0.Enumerates;
      newSize := size;
      assert vs + [] == vs;
      if d != map[] {
        newSize := Append(Amf0.Listed(Amf0.Object(d), order), size, front, vs);
      }
    }

    method SerializeConnect()
      requires ValidCommand(command) && header.chunkType == 0
      modifies this`payload, this`header
      ensures header == old(header).(size := |Amf0.ListBytes(ConnectValues(command))| % 0x1_0000_0000)
      ensures payload == HeaderBytes(header) + Amf0.ListBytes(ConnectValues(command))
      ensures |payload| >= 12 && (FromBigEndian24(payload[4..7]) == |payload| - 12 <==> |payload| - 12 < 0x100_0000)
    {
      payload := [BasicByte(header.chunkType, header.csid)];
      payload := payload + ToBigEndian24(header.timestamp);
      payload := payload + [header.msgType];
      payload := payload + ToLittleEndian32(header.streamId);
      hide HeaderBytes, FromBigEndian24, ToBigEndian24, ToLittleEndian32, BasicByte, Inserted, DictValues,
           Amf0.ListBytes, Amf0.Enumerates;
      ghost var front, vs := payload, NameAndTransaction(command);
      var size := AppendNameAndTransaction(front);
      size := AppendDictionary(command.properties, command.propertiesOrder, size, front, vs);
      vs := vs + DictValues(command.properties, command.propertiesOrder);
      size := AppendDictionary(command.arguments, command.argumentsOrder, size, front, vs);
      vs := vs + DictValues(command.arguments, command.argumentsOrder);
      InsertSize(size);
      ConnectLayout(header, front, Amf0.ListBytes(vs));
      LengthFieldIsBodySize(header, Amf0.ListBytes(vs));
    }

    method SerializeCreateStream()
      requires ValidCommand(command) && header.chunkType == 1
      modifies this`payload, this`header
      ensures header == old(header).(size := |Amf0.ListBytes(CreateStreamValues(command))| % 0x1_0000_0000)
      ensures payload == HeaderBytes(header) + Amf0.ListBytes(CreateStreamValues(command))
      ensures |payload| >= 8 && (FromBigEndian24(payload[4..7]) == |payload| - 8 <==> |payload| - 8 < 0x100_0000)
    {
      payload := [BasicByte(header.chunkType, header.csid)];
      payload := payload + ToBigEndian24(header.timestamp);
      payload := payload + [header.msgType];
      hide HeaderBytes, FromBigEndian24, ToBigEndian24, ToLittleEndian32, BasicByte, Inserted, Amf0.ListBytes,
           Amf0.Enumerates;
      ghost var front, vs := payload, NameAndTransaction(command);
      var size := AppendNameAndTransaction(front);
      if command.properties != map[] {
        var v := Amf0.Listed(Amf0.Object(command.properties), command.propertiesOrder);
        size := Append(v, size, front, vs);
      } else {
        size := Append(Plain(Amf0.Null), size, front, vs);
      }
      InsertSize(size);
      CreateStreamLayout(header, front, Amf0.ListBytes(CreateStreamValues(command)));
      LengthFieldIsBodySize(header, Amf0.ListBytes(CreateStreamValues(command)));
    }
  }

  lemma ConnectLayout(h: Header, front: seq<byte>, body: seq<byte>)
    requires h.chunkType == 0
    requires front == [BasicByte(0, h.csid)] + ToBigEndian24(h.timestamp) + [h.msgType] + ToLittleEndian32(h.streamId)
    ensures Inserted(front + body, 4, ToBigEndian24(h.size)) == HeaderBytes(h) + body
  {
    hide ToBigEndian24, ToLittleEndian32, BasicByte;
    var all := front + body;
    assert all[..4] == [BasicByte(0, h.csid)] + ToBigEndian24(h.timestamp);
    assert all[4..] == [h.msgType] + ToLittleEndian32(h.streamId) + body;
  }

  lemma CreateStreamLayout(h: Header, front: seq<byte>, body: seq<byte>)
    requires h.chunkType == 1
    requires front == [BasicByte(1, h.csid)] + ToBigEndian24(h.timestamp) + [h.msgType]
    ensures Inserted(front + body, 4, ToBigEndian24(h.size)) == HeaderBytes(h) + body
  {
    hide ToBigEndian24, BasicByte;
    var all := front + body;
    assert all[..4] == [BasicByte(1, h.csid)] + ToBigEndian24(h.timestamp);
    assert all[4..] == [h.msgType] + body;
  }

  lemma ZeroBytes()
    ensures ToBigEndian24(0) == [0, 0, 0] && ToLittleEndian32(0) == [0, 0, 0, 0]
    ensures BasicByte(0, 3) == 0x03 && BasicByte(1, 3) == 0x43
  {
  }

  /** The header of a connect command, byte for byte. */
  lemma ConnectHeaderOnTheWire(size: u32)
    ensures var s := HeaderBytes(ConnectHeader(size));
            && |s| == 12 && s[..4] == [0x03, 0, 0, 0] && Spelled(s[4..7]) == size % 0x100_0000
            && s[7..] == [0x14, 0, 0, 0, 0]
  {
    hide Spelled, ToBigEndian24, ToLittleEndian32, BasicByte;
    ZeroBytes();
    BigEndianSpells(size);
    var s := HeaderBytes(ConnectHeader(size));
    assert s == [0x03, 0, 0, 0] + (ToBigEndian24(size) + [0x14, 0, 0, 0, 0]);
    assert s[4..7] == ToBigEndian24(size);
  }

  /** The header of a createStream command, byte for byte. */
  lemma CreateStreamHeaderOnTheWire(size: u32)
    ensures var s := HeaderBytes(CreateStreamHeader(size));
            && |s| == 8 && s[..4] == [0x43, 0, 0, 0] && Spelled(s[4..7]) == size % 0x100_0000 && s[7] == 0x14
  {
    hide Spelled, ToBigEndian24, BasicByte;
    ZeroBytes();
    BigEndianSpells(size);
    var s := HeaderBytes(CreateStreamHeader(size));
    assert s == [0x43, 0, 0, 0] + (ToBigEndian24(size) + [0x14]);
    assert s[4..7] == ToBigEndian24(size);
  }

  lemma SizeField(h: Header)
    requires h.chunkType <= 1
    ensures |HeaderBytes(h)| == if h.chunkType == 0 then 12 else 8
    ensures HeaderBytes(h)[4..7] == ToBigEndian24(h.size)
  {
    hide ToBigEndian24, ToLittleEndian32;
  }

  /** The length field at offset 4 is the number of bytes behind the header exactly when the body is
      smaller than 2^24 bytes, for both kinds of command header. */
  lemma LengthFieldIsBodySize(h: Header, body: seq<byte>)
    requires h.chunkType <= 1 && h.size == |body| % 0x1_0000_0000
    ensures var payload := HeaderBytes(h) + body;
            && |payload| == (if h.chunkType == 0 then 12 else 8) + |body|
            && (FromBigEndian24(payload[4..7]) == |body| <==> |body| < 0x100_0000)
  {
    hide FromBigEndian24, ToBigEndian24, HeaderBytes;
    SizeField(h);
    assert (HeaderBytes(h) + body)[4..7] == HeaderBytes(h)[4..7];
    EndianRoundTrips(h.size);
  }

  /** A list of printed values is read back by the deserializer exactly when all of them fit. */
  lemma BodyDecodes(vs: seq<Amf0.Listed>)
    requires forall v :: v in vs ==> Amf0.ValidListed(v) && Amf0.ValuePrintable(v.value)
    ensures Amf0.ParseAll(Amf0.ListBytes(vs), 0) == Amf0.Parsed(Amf0.Values(vs), |Amf0.ListBytes(vs)|)
            <==> forall v :: v in vs ==> Amf0.ValueFits(v.value)
  {
    Amf0.WholeIsAt(Amf0.ListBytes(vs));
    Amf0.ListRoundTrip(Amf0.ListBytes(vs), 0, vs);
  }

  lemma ConnectValuesFit(c: Command)
    ensures (forall v :: v in ConnectValues(c) ==> Amf0.ValueFits(v.value))
            <==> |c.name| < 0x1_0000 && Amf0.DictFits(c.properties) && Amf0.DictFits(c.arguments)
  {
    hide Amf0.DictFits;
    var vs, n, t := ConnectValues(c), Plain(Amf0.Str(c.name)), Plain(Amf0.Num(c.transaction));
    var p, a := Amf0.Listed(Amf0.Object(c.properties), c.propertiesOrder),
                Amf0.Listed(Amf0.Object(c.arguments), c.argumentsOrder);
    EmptyDictFits();
    assert n in vs && t in vs && (c.properties != map[] ==> p in vs) && (c.arguments != map[] ==> a in vs);
    assert forall v :: v in vs ==>
        v == n || v == t || (c.properties != map[] && v == p) || (c.arguments != map[] && v == a);
  }

  lemma CreateStreamValuesFit(c: Command)
    ensures (forall v :: v in CreateStreamValues(c) ==> Amf0.ValueFits(v.value))
            <==> |c.name| < 0x1_0000 && Amf0.DictFits(c.properties)
  {
    hide Amf0.DictFits;
    var vs := CreateStreamValues(c);
    EmptyDictFits();
    assert vs[0].value == Amf0.Simple(Amf0.Str(c.name)) && vs[1].value == Amf0.Simple(Amf0.Num(c.transaction));
    assert vs[2].value == if c.properties == map[] then Amf0.Simple(Amf0.Null) else Amf0.Object(c.properties);
    assert |vs| == 3 && vs[0] in vs && vs[2] in vs;
  }

  lemma EmptyDictFits()
    ensures Amf0.DictFits(map[]) && Amf0.DictPrintable(map[])
  {
  }

  /** A connect command's body decodes to its name, its transaction id and its non-empty dictionaries, exactly when
      its name and its dictionaries are short enough. */
  lemma ConnectBodyDecodes(c: Command)
    requires ValidCommand(c) && Amf0.DictPrintable(c.properties) && Amf0.DictPrintable(c.arguments)
    ensures var body := Amf0.ListBytes(ConnectValues(c));
            Amf0.ParseAll(body, 0) == Amf0.Parsed(Amf0.Values(ConnectValues(c)), |body|)
            <==> |c.name| < 0x1_0000 && Amf0.DictFits(c.properties) && Amf0.DictFits(c.arguments)
    ensures Amf0.Values(ConnectValues(c))
            == [Amf0.Simple(Amf0.Str(c.name)), Amf0.Simple(Amf0.Num(c.transaction))]
               + (if c.properties == map[] then [] else [Amf0.Object(c.properties)])
               + (if c.arguments == map[] then [] else [Amf0.Object(c.arguments)])
  {
    hide Amf0.ListBytes, Amf0.ParseAll, Amf0.Enumerates, Amf0.DictFits, Amf0.DictPrintable;
    BodyDecodes(ConnectValues(c));
    ConnectValuesFit(c);
  }

  /** A createStream command's body decodes to its name, its transaction id and its dictionary or null, exactly when
      its name and its dictionary are short enough. */
  lemma CreateStreamBodyDecodes(c: Command)
    requires ValidCommand(c) && Amf0.DictPrintable(c.properties)
    ensures var body := Amf0.ListBytes(CreateStreamValues(c));
            Amf0.ParseAll(body, 0) == Amf0.Parsed(Amf0.Values(CreateStreamValues(c)), |body|)
            <==> |c.name| < 0x1_0000 && Amf0.DictFits(c.properties)
    ensures Amf0.Values(CreateStreamValues(c))
            == [Amf0.Simple(Amf0.Str(c.name)), Amf0.Simple(Amf0.Num(c.transaction)),
                if c.properties == map[] then Amf0.Simple(Amf0.Null) else Amf0.Object(c.properties)]
  {
    hide Amf0.ListBytes, Amf0.ParseAll, Amf0.Enumerates, Amf0.DictFits, Amf0.DictPrintable;
    BodyDecodes(CreateStreamValues(c));
    CreateStreamValuesFit(c);
  }
}
