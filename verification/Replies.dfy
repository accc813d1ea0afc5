/** What a session makes of the decoded replies of its server:
    src/rtmp/message/command/rtmp_connect_command_response_message.cc, rtmp_onstatus_command_response_message.cc and
    rtmp_sample_access_message.cc in the same directory. */
module Replies {
  import opened Amf0

  const CODE: Text := [0x63, 0x6F, 0x64, 0x65]               // "code"
  const LEVEL: Text := [0x6C, 0x65, 0x76, 0x65, 0x6C]        // "level"
  const ERROR_TEXT: Text := [0x65, 0x72, 0x72, 0x6F, 0x72]   // "error"

  /** The key is there and names a string other than "error". */
  predicate Succeeds(d: Dict, key: Text) {
    key in d && d[key].Str? && d[key].s != ERROR_TEXT
  }

  function NonEmptyObjects(values: seq<Value>): (ds: seq<Dict>)
    ensures forall i :: 0 <= i < |ds| ==> ds[i] != map[]
  {
    if values == [] then [] else
    var last := values[|values| - 1];
    NonEmptyObjects(values[..|values| - 1]) + if last.Object? && last.d != map[] then [last.d] else []
  }

  /** A connection is accepted by the second object that is not empty. */
  predicate ConnectAccepted(values: seq<Value>) {
    var ds := NonEmptyObjects(values);
    |ds| >= 2 && Succeeds(ds[1], CODE)
  }

  /** A status is accepted by the first object that is not empty. */
  predicate StatusAccepted(values: seq<Value>) {
    var ds := NonEmptyObjects(values);
    |ds| >= 1 && Succeeds(ds[0], LEVEL)
  }

  function Flags(values: seq<Value>): seq<bool> {
    if values == [] then [] else
    var last := values[|values| - 1];
    Flags(values[..|values| - 1]) + if last.Simple? && last.p.Bool? then [last.p.b] else []
  }

  /** Access is granted by the last of the first two flags. */
  predicate SampleAccessGranted(values: seq<Value>) {
    var fs := Flags(values);
    |fs| >= 1 && fs[if |fs| >= 2 then 1 else 0]
  }

  method ConnectIsSuccessful(values: seq<Value>) returns (success: bool)
    ensures success == ConnectAccepted(values)
  {
    var commandObject: Dict, userArguments: Dict := map[], map[];
    for i := 0 to |values|
      invariant var ds := NonEmptyObjects(values[..i]);
                && commandObject == (if |ds| >= 1 then ds[0] else map[])
                && userArguments == (if |ds| >= 2 then ds[1] else map[])
    {
      assert values[..i + 1][..i] == values[..i];
      if values[i].Object? {
        if commandObject == map[] {
          commandObject := values[i].d;
        } else if userArguments == map[] {
          userArguments := values[i].d;
        }
      }
    }
    assert values[..|values|] == values;
    if userArguments == map[] {
      return false;
    }
    success := CODE in userArguments && userArguments[CODE].Str? && userArguments[CODE].s != ERROR_TEXT;
  }

  method StatusIsSuccessful(values: seq<Value>) returns (success: bool)
    ensures success == StatusAccepted(values)
  {
    var commandObject: Dict := map[];
    for i := 0 to |values|
      invariant var ds := NonEmptyObjects(values[..i]);
                && commandObject == (if |ds| >= 1 then ds[0] else map[])
    {
      assert values[..i + 1][..i] == values[..i];
      if values[i].Object? && commandObject == map[] {
        commandObject := values[i].d;
      }
    }
    assert values[..|values|] == values;
    if commandObject == map[] {
      return false;
    }
    success := LEVEL in commandObject && commandObject[LEVEL].Str? && commandObject[LEVEL].s != ERROR_TEXT;
  }

  /** The second flag is stored where the first one is, so `isVideoAllowed` is never set. */
  method SampleAccessIsSuccessful(values: seq<Value>) returns (success: bool)
    ensures success == SampleAccessGranted(values)
  {
    var isAudioAllowed, isAudioAllowedSet, isVideoAllowed, isVideoAllowedSet := false, false, false, false;
    for i := 0 to |values|
      invariant var fs := Flags(values[..i]);
                && isAudioAllowedSet == (|fs| >= 1) && isVideoAllowedSet == (|fs| >= 2)
                && isAudioAllowed == (|fs| >= 1 && fs[if |fs| >= 2 then 1 else 0])
                && !isVideoAllowed
    {
      assert values[..i + 1][..i] == values[..i];
      if values[i].Simple? && values[i].p.Bool? {
        if !isAudioAllowedSet {
          isAudioAllowedSet, isAudioAllowed := true, values[i].p.b;
        } else if !isVideoAllowedSet {
          isVideoAllowedSet, isAudioAllowed := true, values[i].p.b;
        }
      }
    }
    assert values[..|values|] == values;
    success := isVideoAllowed || isAudioAllowed;
  }

  // ----- what a server prints

  lemma ObjectsAppend(vs: seq<Value>, v: Value)
    ensures NonEmptyObjects(vs + [v]) == NonEmptyObjects(vs) + if v.Object? && v.d != map[] then [v.d] else []
  {
    assert (vs + [v])[..|vs|] == vs;
  }

  /** A reply with a name, a transaction, a null or properties, and an object with information. */
  function ReplyValues(name: Text, transaction: Double, properties: Value, info: Dict): seq<Value> {
    [Simple(Str(name)), Simple(Num(transaction)), properties, Object(info)]
  }

  function ReplyBody(name: Text, transaction: Double, properties: Listed, info: Dict, order: seq<Text>): seq<Listed> {
    [Listed(Simple(Str(name)), []), Listed(Simple(Num(transaction)), []), properties, Listed(Object(info), order)]
  }

  predicate Sendable(name: Text, properties: Listed, info: Dict, order: seq<Text>) {
    && |name| < 0x1_0000
    && (properties.value == Simple(Null) || properties.value.Object?)
    && ValidListed(properties) && ValuePrintable(properties.value) && ValueFits(properties.value)
    && Enumerates(order, info) && DictPrintable(info) && DictFits(info)
  }

  lemma ReplyParses(name: Text, transaction: Double, properties: Listed, info: Dict, order: seq<Text>)
    requires Sendable(name, properties, info, order)
    ensures forall v :: v in ReplyBody(name, transaction, properties, info, order) ==> ValidListed(v)
    ensures var data := ListBytes(ReplyBody(name, transaction, properties, info, order));
            ParseAll(data, 0) == Parsed(ReplyValues(name, transaction, properties.value, info), |data|)
  {
    hide ListBytes, ParseAll, Enumerates, DictPrintable, DictFits;
    var body := ReplyBody(name, transaction, properties, info, order);
    WholeIsAt(ListBytes(body));
    ListRoundTrip(ListBytes(body), 0, body);
    assert Values(body) == ReplyValues(name, transaction, properties.value, info);
  }

  lemma ReplyObjects(name: Text, transaction: Double, properties: Value, info: Dict)
    ensures NonEmptyObjects(ReplyValues(name, transaction, properties, info))
            == (if properties.Object? && properties.d != map[] then [properties.d] else [])
               + (if info != map[] then [info] else [])
  {
    var n, t, o := Simple(Str(name)), Simple(Num(transaction)), Object(info);
    hide NonEmptyObjects;
    ObjectsAppend([], n);
    ObjectsAppend([n], t);
    ObjectsAppend([n, t], properties);
    ObjectsAppend([n, t, properties], o);
    assert [] + [n] == [n] && [n] + [t] == [n, t] && [n, t] + [properties] == [n, t, properties];
    assert [n, t, properties] + [o] == ReplyValues(name, transaction, properties, info);
    NoObjects();
  }

  lemma NoObjects()
    ensures NonEmptyObjects([]) == []
  {
  }

  /** A printed status whose third value is null is accepted exactly when its "level" is a string other than
      "error". */
  lemma StatusDecided(name: Text, transaction: Double, info: Dict, order: seq<Text>)
    requires Sendable(name, Listed(Simple(Null), []), info, order)
    ensures var data := ListBytes(ReplyBody(name, transaction, Listed(Simple(Null), []), info, order));
            && ParseAll(data, 0).Parsed?
            && (StatusAccepted(ParseAll(data, 0).value)
                <==> var level: Text := [0x6C, 0x65, 0x76, 0x65, 0x6C];
                     level in info && info[level].Str? && info[level].s != [0x65, 0x72, 0x72, 0x6F, 0x72])
  {
    hide ListBytes, ParseAll, NonEmptyObjects, Sendable, ReplyBody, ReplyValues;
    ReplyParses(name, transaction, Listed(Simple(Null), []), info, order);
    ReplyObjects(name, transaction, Simple(Null), info);
  }

  /** A printed connect response is accepted exactly when its properties are not empty and the "code" of the object
      behind them is a string other than "error"; one with a null for properties never is. */
  lemma ConnectDecided(name: Text, transaction: Double, properties: Listed, info: Dict, order: seq<Text>)
    requires Sendable(name, properties, info, order)
    ensures forall v :: v in ReplyBody(name, transaction, properties, info, order) ==> ValidListed(v)
    ensures var data := ListBytes(ReplyBody(name, transaction, properties, info, order));
            && ParseAll(data, 0).Parsed?
            && (ConnectAccepted(ParseAll(data, 0).value)
                <==> var code: Text := [0x63, 0x6F, 0x64, 0x65];
                     && properties.value.Object? && properties.value.d != map[]
                     && code in info && info[code].Str? && info[code].s != [0x65, 0x72, 0x72, 0x6F, 0x72])
  {
    hide ListBytes, ParseAll, NonEmptyObjects, Sendable, ReplyBody, ReplyValues;
    ReplyParses(name, transaction, properties, info, order);
    ReplyObjects(name, transaction, properties.value, info);
  }

  /** The body of an RtmpSampleAccess message: its name and the two flags. */
  function SampleAccessBody(name: Text, audio: bool, video: bool): seq<Listed> {
    [Listed(Simple(Str(name)), []), Listed(Simple(Bool(audio)), []), Listed(Simple(Bool(video)), [])]
  }

  lemma SampleAccessValues(name: Text, audio: bool, video: bool)
    ensures Values(SampleAccessBody(name, audio, video))
            == [Simple(Str(name)), Simple(Bool(audio)), Simple(Bool(video))]
    ensures Flags(Values(SampleAccessBody(name, audio, video))) == [audio, video]
  {
    var vs := Values(SampleAccessBody(name, audio, video));
    assert vs == [Simple(Str(name)), Simple(Bool(audio)), Simple(Bool(video))];
    assert vs[..2] == [Simple(Str(name)), Simple(Bool(audio))];
    assert vs[..2][..1] == [Simple(Str(name))] && [Simple(Str(name))][..0] == [];
    assert Flags(vs[..2]) == Flags(vs[..2][..1]) + [audio];
  }

  /** With one flag it decides, and without any access is refused. */
  lemma FewerFlags(name: Text, audio: bool)
    ensures SampleAccessGranted([Simple(Str(name)), Simple(Bool(audio))]) == audio
    ensures !SampleAccessGranted([Simple(Str(name))]) && !SampleAccessGranted([])
  {
    var n, b := Simple(Str(name)), Simple(Bool(audio));
    assert [n, b][..1] == [n] && [n][..0] == [];
    assert Flags([n, b]) == Flags([n]) + [audio];
  }

  /** A message that a server prints with two flags is read as granting access exactly when video is allowed;
      `isSuccessfull` means to grant it when audio or video is, so it fails exactly for audio alone. */
  lemma AudioAloneIsRefused(name: Text, audio: bool, video: bool)
    requires |name| < 0x1_0000
    ensures var data := ListBytes(SampleAccessBody(name, audio, video));
            && ParseAll(data, 0).Parsed?
            && (SampleAccessGranted(ParseAll(data, 0).value) <==> video)
            && (SampleAccessGranted(ParseAll(data, 0).value) == (audio || video) <==> !(audio && !video))
  {
    hide ListBytes, ParseAll, Flags, Values;
    var data := ListBytes(SampleAccessBody(name, audio, video));
    WholeIsAt(data);
    ListRoundTrip(data, 0, SampleAccessBody(name, audio, video));
    SampleAccessValues(name, audio, video);
  }
}
