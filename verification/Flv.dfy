/** FLV files: the tag parser of src/flv/flv_mediaitem.cc and src/flv/flv_mediatag.cc, for the layout of
    Annex E of the Adobe Flash Video File Format Specification 10.1. */
module Flv {
  import opened Bytes

  const AUDIO_TAG: byte := 0x08
  const VIDEO_TAG: byte := 0x09
  const AMF_TAG: byte := 0x12

  const TAG_HEADER := 15

  /** A parsed tag; the payload size is the length of the payload. */
  datatype Tag = Tag(previousSize: u32, kind: byte, timestamp: u24, streamId: u24, payload: seq<byte>)

  datatype Callback = PacketReady(tag: Tag) | ParsingCompleted

  predicate KnownKind(kind: byte) {
    kind == AMF_TAG || kind == AUDIO_TAG || kind == VIDEO_TAG
  }

  // ----- parsing

  /** What one step of the parser finds at the cursor: a tag, nothing, or a tag that ends behind the data. */
  datatype Found = Found(tag: Tag) | Skipped | Overrun

  function TagAt(data: seq<byte>, pos: nat): Found {
    if pos + TAG_HEADER > |data| then Overrun else
    var size := FromBigEndian24(data[pos + 5..pos + 8]);
    if pos + TAG_HEADER + size > |data| then Overrun else
    Found(Tag(FromBigEndian32(data[pos..pos + 4]), data[pos + 4],
              FromBigEndian24(data[pos + 8..pos + 11]), FromBigEndian24(data[pos + 12..pos + 15]),
              data[pos + TAG_HEADER..pos + TAG_HEADER + size]))
  }

  /** `parseNextTags` */
  function NextTag(data: seq<byte>, pos: nat): Found {
    if |data| - pos <= 4 then Skipped else
    if KnownKind(data[pos + 4]) then TagAt(data, pos) else Skipped
  }

  function Step(f: Found): nat {
    if f.Found? then |f.tag.payload| + TAG_HEADER else 1
  }

  /** Every step of the parser moves the cursor forward and not past the end. */
  lemma StepAdvances(data: seq<byte>, pos: nat)
    requires pos < |data| && !NextTag(data, pos).Overrun?
    ensures pos < pos + Step(NextTag(data, pos)) <= |data|
  {
  }

  datatype Parse = Tags(tags: seq<Tag>) | Failed

  /** The loop of `parseTags` from `pos` on. */
  function ParseTags(data: seq<byte>, pos: nat): Parse
    decreases |data| - pos
  {
    if pos >= |data| then Tags([]) else
    var f := NextTag(data, pos);
    if f.Overrun? then Failed else
    StepAdvances(data, pos);
    var rest := ParseTags(data, pos + Step(f));
    if rest.Failed? then Failed else
    if f.Found? then Tags([f.tag] + rest.tags) else rest
  }

  lemma NothingLeft(data: seq<byte>)
    ensures ParseTags(data, |data|) == Tags([])
  {
  }

  lemma ParseTagsStep(data: seq<byte>, pos: nat, done: seq<Tag>)
    requires pos < |data| && ParseTags(data, pos).Tags?
    ensures var f := NextTag(data, pos);
            && !f.Overrun? && pos < pos + Step(f) <= |data| && ParseTags(data, pos + Step(f)).Tags?
            && done + ParseTags(data, pos).tags
               == (if f.Found? then done + [f.tag] else done) + ParseTags(data, pos + Step(f)).tags
  {
    StepAdvances(data, pos);
    hide NextTag;
    var f := NextTag(data, pos);
    if f.Found? {
      assert done + ([f.tag] + ParseTags(data, pos + Step(f)).tags)
             == done + [f.tag] + ParseTags(data, pos + Step(f)).tags;
    }
  }

  function OfKind(tags: seq<Tag>, kind: byte): seq<Tag> {
    if tags == [] then [] else
    OfKind(tags[..|tags| - 1], kind) + if tags[|tags| - 1].kind == kind then [tags[|tags| - 1]] else []
  }

  function Announcements(tags: seq<Tag>): (r: seq<Callback>)
    ensures |r| == |tags|
  {
    seq(|tags|, i requires 0 <= i < |tags| => PacketReady(tags[i]))
  }

  /** What an item has stored and announced. */
  datatype Store = Store(amf: seq<Tag>, audio: seq<Tag>, video: seq<Tag>, callbacks: seq<Callback>)

  function Added(s: Store, tag: Tag): Store {
    var s1 := if tag.kind == AMF_TAG then s.(amf := s.amf + [tag])
              else if tag.kind == AUDIO_TAG then s.(audio := s.audio + [tag])
              else s.(video := s.video + [tag]);
    s1.(callbacks := s1.callbacks + [PacketReady(tag)])
  }

  function AddedAll(s: Store, tags: seq<Tag>): Store {
    if tags == [] then s else Added(AddedAll(s, tags[..|tags| - 1]), tags[|tags| - 1])
  }

  lemma AddedAllAppend(s: Store, tags: seq<Tag>, tag: Tag)
    ensures AddedAll(s, tags + [tag]) == Added(AddedAll(s, tags), tag)
  {
    assert (tags + [tag])[..|tags|] == tags;
  }

  lemma {:induction false} AllKnown(data: seq<byte>, pos: nat)
    ensures ParseTags(data, pos).Tags? ==> forall t :: t in ParseTags(data, pos).tags ==> KnownKind(t.kind)
    decreases |data| - pos
  {
    if pos < |data| && !NextTag(data, pos).Overrun? {
      AllKnown(data, pos + Step(NextTag(data, pos)));
    }
  }

  /** The tags are split by kind, each kind in file order, and announced in file order. */
  lemma {:induction false} AddedAllSplitsByKind(s: Store, tags: seq<Tag>)
    requires forall t :: t in tags ==> KnownKind(t.kind)
    ensures AddedAll(s, tags) == Store(s.amf + OfKind(tags, AMF_TAG), s.audio + OfKind(tags, AUDIO_TAG),
                                       s.video + OfKind(tags, VIDEO_TAG), s.callbacks + Announcements(tags))
  {
    if tags != [] {
      var front, last := tags[..|tags| - 1], tags[|tags| - 1];
      AddedAllSplitsByKind(s, front);
      assert Announcements(tags) == Announcements(front) + [PacketReady(last)];
    }
  }

  function HeaderSize(data: seq<byte>): u32
    requires |data| >= 9
  {
    FromBigEndian32(data[5..9])
  }

  /** The file header and every tag end inside the data. */
  predicate Loadable(data: seq<byte>) {
    |data| >= 9 && HeaderSize(data) <= |data| && ParseTags(data[HeaderSize(data)..], 0).Tags?
  }

  /** An item after it has parsed a file: its tags by kind and announced, and the end announced. */
  function Loaded(s: Store, data: seq<byte>): Store
    requires Loadable(data)
  {
    var tags := ParseTags(data[HeaderSize(data)..], 0).tags;
    Store(s.amf + OfKind(tags, AMF_TAG), s.audio + OfKind(tags, AUDIO_TAG), s.video + OfKind(tags, VIDEO_TAG),
          s.callbacks + Announcements(tags) + [ParsingCompleted])
  }

  class FLVMediaItem {
    var buffer: seq<byte>
    var amfTags: seq<Tag>
    var audioTags: seq<Tag>
    var videoTags: seq<Tag>
    var callbacks: seq<Callback>  // the calls made to a delegate

    constructor ()
      ensures buffer == [] && amfTags == audioTags == videoTags == [] && callbacks == []
    {
      buffer, amfTags, audioTags, videoTags, callbacks := [], [], [], [], [];
    }

    method AppendPayload(data: seq<byte>)
      modifies this`buffer
      ensures buffer == old(buffer) + data
    {
      buffer := buffer + data;
    }

    function View(): Store
      reads this
    {
      Store(amfTags, audioTags, videoTags, callbacks)
    }

    /** Parses the whole buffer: the header gives its own size, the tags follow it. */
    method Deserialize()
      requires Loadable(buffer)
      modifies this
      ensures View() == Loaded(old(View()), old(buffer)) && buffer == []
    {
      hide ParseTags, OfKind, Announcements;
      var headerSize := FromBigEndian32(buffer[5..9]);
      AllKnown(buffer[headerSize..], 0);
      AddedAllSplitsByKind(View(), ParseTags(buffer[headerSize..], 0).tags);
      ParseAllTags(buffer[headerSize..]);
      buffer := [];
    }

    method ParseAllTags(data: seq<byte>)
      requires ParseTags(data, 0).Tags?
      modifies this`amfTags, this`audioTags, this`videoTags, this`callbacks
      ensures var s := AddedAll(old(View()), ParseTags(data, 0).tags);
              View() == s.(callbacks := s.callbacks + [ParsingCompleted])
    {
      var next := 0;
      ghost var done: seq<Tag> := [];
      hide NextTag, Added, ParseTags;
      while next < |data|
        invariant next <= |data| && ParseTags(data, next).Tags?
        invariant ParseTags(data, 0).tags == done + ParseTags(data, next).tags
        invariant View() == AddedAll(old(View()), done)
        decreases |data| - next
      {
        hide AddedAll;
        ghost var f := NextTag(data, next);
        ParseTagsStep(data, next, done);
        var size := ParseNextTag(data, next);
        if |data| - next < size {
          break;
        }
        next := next + size;
        if f.Found? {
          AddedAllAppend(old(View()), done, f.tag);
          done := done + [f.tag];
        }
      }
      NothingLeft(data);
      assert done + [] == done;
      callbacks := callbacks + [ParsingCompleted];
    }

    /** One step: a known tag is stored with its kind and announced; the result is how far to move. */
    method ParseNextTag(data: seq<byte>, begin: nat) returns (size: nat)
      requires begin < |data| && !NextTag(data, begin).Overrun?
      modifies this`amfTags, this`audioTags, this`videoTags, this`callbacks
      ensures var f := NextTag(data, begin);
              && size == Step(f) <= |data| - begin
              && View() == if f.Found? then Added(old(View()), f.tag) else old(View())
    {
      size := 1;
      if |data| - begin <= 4 {
        return;
      }
      var kind := data[begin + 4];
      if KnownKind(kind) {
        var tag := ReadTag(data, begin);
        size := |tag.payload| + TAG_HEADER;
        if kind == AMF_TAG {
          amfTags := amfTags + [tag];
        } else if kind == AUDIO_TAG {
          audioTags := audioTags + [tag];
        } else {
          videoTags := videoTags + [tag];
        }
        callbacks := callbacks + [PacketReady(tag)];
      }
    }

    /** `FLVMediaTag::deserialize` */
    method ReadTag(data: seq<byte>, begin: nat) returns (tag: Tag)
      requires TagAt(data, begin).Found?
      ensures TagAt(data, begin) == Found(tag)
    {
      var iter := begin;
      var previousSize := FromBigEndian32(data[iter..iter + 4]);
      iter := iter + 4;
      var kind := data[iter];
      iter := iter + 1;
      var payloadSize := FromBigEndian24(data[iter..iter + 3]);
      iter := iter + 3;
      var timestamp := FromBigEndian24(data[iter..iter + 3]);
      iter := iter + 4;
      var streamId := FromBigEndian24(data[iter..iter + 3]);
      iter := iter + 3;
      tag := Tag(previousSize, kind, timestamp, streamId, data[iter..iter + payloadSize]);
    }
  }

  // ----- files

  /** A tag as a file stores it: a 32-bit timestamp whose high byte has a place of its own. */
  datatype FileTag = FileTag(previousSize: u32, kind: byte, timestamp: u32, streamId: u24, payload: seq<byte>)

  predicate Storable(t: FileTag) {
    KnownKind(t.kind) && |t.payload| <= MAX24
  }

  function TagFields(t: FileTag): seq<byte> {
    ToBigEndian32(t.previousSize) + [t.kind] + ToBigEndian24(|t.payload| % 0x1_0000_0000)
    + ToBigEndian24(t.timestamp) + [t.timestamp / 0x100_0000] + ToBigEndian24(t.streamId)
  }

  function TagBytes(t: FileTag): seq<byte> {
    TagFields(t) + t.payload
  }

  /** What the parser makes of a stored tag: the high byte of the timestamp is dropped. */
  function Seen(t: FileTag): Tag {
    Tag(t.previousSize, t.kind, t.timestamp % 0x100_0000, t.streamId, t.payload)
  }

  function FileBytes(ts: seq<FileTag>): seq<byte> {
    if ts == [] then [] else TagBytes(ts[0]) + FileBytes(ts[1..])
  }

  function SeenAll(ts: seq<FileTag>): (r: seq<Tag>)
    ensures |r| == |ts|
  {
    seq(|ts|, i requires 0 <= i < |ts| => Seen(ts[i]))
  }

  lemma FieldSlices(t: FileTag)
    ensures var s := TagFields(t);
            && |s| == 15 && s[..4] == ToBigEndian32(t.previousSize) && s[4] == t.kind
            && s[5..8] == ToBigEndian24(|t.payload| % 0x1_0000_0000) && s[8..11] == ToBigEndian24(t.timestamp)
            && s[12..15] == ToBigEndian24(t.streamId)
  {
    hide ToBigEndian32, ToBigEndian24;
  }

  lemma SubSlices(data: seq<byte>, pos: nat, s: seq<byte>)
    requires At(data, pos, s) && |s| == 15
    ensures data[pos..pos + 4] == s[..4] && data[pos + 4] == s[4] && data[pos + 5..pos + 8] == s[5..8]
    ensures data[pos + 8..pos + 11] == s[8..11] && data[pos + 12..pos + 15] == s[12..15]
  {
    forall i | 0 <= i < 15 ensures data[pos + i] == s[i] {
      assert data[pos..pos + 15][i] == s[i];
    }
  }

  lemma FieldsParse(data: seq<byte>, pos: nat, t: FileTag)
    requires Storable(t) && At(data, pos, TagFields(t)) && |TagFields(t)| == 15
    ensures FromBigEndian32(data[pos..pos + 4]) == t.previousSize && data[pos + 4] == t.kind
    ensures FromBigEndian24(data[pos + 5..pos + 8]) == |t.payload|
    ensures FromBigEndian24(data[pos + 8..pos + 11]) == t.timestamp % 0x100_0000
    ensures FromBigEndian24(data[pos + 12..pos + 15]) == t.streamId
  {
    hide ToBigEndian32, ToBigEndian24, FromBigEndian24, FromBigEndian32, TagFields, At;
    SubSlices(data, pos, TagFields(t));
    FieldSlices(t);
    EndianRoundTrips(t.previousSize);
    EndianRoundTrips(|t.payload|);
    EndianRoundTrips(t.timestamp);
    EndianRoundTrips(t.streamId);
  }

  lemma TagParses(data: seq<byte>, pos: nat, t: FileTag)
    requires Storable(t) && At(data, pos, TagBytes(t))
    ensures NextTag(data, pos) == Found(Seen(t))
  {
    hide FromBigEndian24, FromBigEndian32, TagFields;
    FieldSlices(t);
    AtSplit(data, pos, TagFields(t), t.payload);
    FieldsParse(data, pos, t);
  }

  /** Up to four bytes at the end, such as a final PreviousTagSize, are skipped. */
  lemma {:induction false} ShortTailSkipped(data: seq<byte>, pos: nat)
    requires |data| - 4 <= pos <= |data|
    ensures ParseTags(data, pos) == Tags([])
    decreases |data| - pos
  {
    if pos < |data| {
      ShortTailSkipped(data, pos + 1);
    }
  }

  /** Where no known kind is in the place of a kind, the parser moves on by one byte. */
  lemma UnknownByteSkipped(data: seq<byte>, pos: nat)
    requires pos + 4 < |data| && data[pos + 4] != 0x08 && data[pos + 4] != 0x09 && data[pos + 4] != 0x12
    ensures ParseTags(data, pos) == ParseTags(data, pos + 1)
  {
  }

  lemma TagParsesFirst(data: seq<byte>, pos: nat, t: FileTag)
    requires Storable(t) && At(data, pos, TagBytes(t))
    requires ParseTags(data, pos + |TagBytes(t)|).Tags?
    ensures ParseTags(data, pos) == Tags([Seen(t)] + ParseTags(data, pos + |TagBytes(t)|).tags)
  {
    hide TagFields, NextTag;
    TagParses(data, pos, t);
    FieldSlices(t);
  }

  lemma {:induction false} FileParsesFrom(data: seq<byte>, pos: nat, ts: seq<FileTag>)
    requires forall t :: t in ts ==> Storable(t)
    requires At(data, pos, FileBytes(ts)) && |data| <= pos + |FileBytes(ts)| + 4
    ensures ParseTags(data, pos) == Tags(SeenAll(ts))
    decreases |ts|
  {
    hide TagBytes, ParseTags, Seen, Storable;
    if ts == [] {
      ShortTailSkipped(data, pos);
    } else {
      AtSplit(data, pos, TagBytes(ts[0]), FileBytes(ts[1..]));
      FileParsesFrom(data, pos + |TagBytes(ts[0])|, ts[1..]);
      TagParsesFirst(data, pos, ts[0]);
      assert [Seen(ts[0])] + SeenAll(ts[1..]) == SeenAll(ts);
    }
  }

  /** Every file of known tags, with or without a final PreviousTagSize, is parsed into exactly its tags in
      file order. */
  lemma FileParses(data: seq<byte>, ts: seq<FileTag>, tail: seq<byte>)
    requires forall t :: t in ts ==> Storable(t)
    requires data == FileBytes(ts) + tail && |tail| <= 4
    ensures ParseTags(data, 0) == Tags(SeenAll(ts))
  {
    hide FileBytes, ParseTags, SeenAll, Storable;
    assert data[0..|FileBytes(ts)|] == FileBytes(ts);
    FileParsesFrom(data, 0, ts);
  }

  /** The parser reports a stored tag with its fields; its timestamp survives exactly when it fits in 24 bits. */
  lemma TimestampsSurvive(data: seq<byte>, pos: nat, t: FileTag)
    requires Storable(t) && At(data, pos, TagBytes(t))
    ensures var f := NextTag(data, pos);
            && f.Found? && f.tag == Tag(t.previousSize, t.kind, f.tag.timestamp, t.streamId, t.payload)
            && (f.tag.timestamp == t.timestamp <==> t.timestamp <= MAX24)
  {
    hide NextTag, TagBytes, At;
    TagParses(data, pos, t);
  }

  /** From a whole file to the item: behind a header that gives its own size, the tags of every file of known tags
      are stored by kind in file order, announced in file order, and the end is announced once. */
  lemma FileIsLoaded(s: Store, header: seq<byte>, ts: seq<FileTag>, tail: seq<byte>)
    requires |header| >= 9 && Spelled(header[5..9]) == |header|
    requires (forall t :: t in ts ==> Storable(t)) && |tail| <= 4
    ensures var data, tags := header + (FileBytes(ts) + tail), SeenAll(ts);
            && Loadable(data)
            && Loaded(s, data) == Store(s.amf + OfKind(tags, AMF_TAG), s.audio + OfKind(tags, AUDIO_TAG),
                                        s.video + OfKind(tags, VIDEO_TAG),
                                        s.callbacks + Announcements(tags) + [ParsingCompleted])
  {
    hide FileBytes, ParseTags, SeenAll, Storable, OfKind, Announcements, FromBigEndian32, Spelled;
    BigEndianReads(header[5..9]);
    var data, rest := header + (FileBytes(ts) + tail), FileBytes(ts) + tail;
    assert data[5..9] == header[5..9];
    assert data[|header|..] == rest;
    FileParses(rest, ts, tail);
  }

  /** A tag, byte for byte: PreviousTagSize, kind, size, timestamp with its high byte behind, stream id, payload. */
  lemma TagOnTheWire(t: FileTag)
    requires |t.payload| <= MAX24
    ensures var s := TagBytes(t);
            && |s| == 15 + |t.payload| && Spelled(s[..4]) == t.previousSize && s[4] == t.kind
            && Spelled(s[5..8]) == |t.payload| && Spelled(s[8..11]) == t.timestamp % 0x100_0000
            && s[11] == t.timestamp / 0x100_0000 && Spelled(s[12..15]) == t.streamId && s[15..] == t.payload
  {
    hide Spelled, ToBigEndian32, ToBigEndian24, TagFields;
    FieldSlices(t);
    HighByte(t);
    var f, s := TagFields(t), TagBytes(t);
    assert s[..4] == f[..4] && s[5..8] == f[5..8] && s[8..11] == f[8..11] && s[12..15] == f[12..15];
    assert s[4] == f[4] && s[11] == f[11] && s[15..] == t.payload;
    BigEndianSpells(t.previousSize);
    BigEndianSpells(|t.payload|);
    BigEndianSpells(t.timestamp);
    BigEndianSpells(t.streamId);
  }

  lemma HighByte(t: FileTag)
    ensures |TagFields(t)| == 15 && TagFields(t)[11] == t.timestamp / 0x100_0000
  {
    hide ToBigEndian32, ToBigEndian24;
  }

  /** Sorting by kind and announcing keep the order of the tags. */
  lemma {:induction false} OrderIsKept(xs: seq<Tag>, ys: seq<Tag>, t: Tag, kind: byte)
    ensures OfKind(xs + ys, kind) == OfKind(xs, kind) + OfKind(ys, kind)
    ensures OfKind([t], kind) == if t.kind == kind then [t] else []
    ensures Announcements(xs + ys) == Announcements(xs) + Announcements(ys)
    ensures Announcements([t]) == [PacketReady(t)]
    decreases |ys|
  {
    assert [t][..0] == [];
    if ys == [] {
      assert xs + ys == xs;
    } else {
      var front := ys[..|ys| - 1];
      OrderIsKept(xs, front, t, kind);
      assert (xs + ys)[..|xs + ys| - 1] == xs + front;
    }
  }

  /** The kinds that are known, number by number. */
  lemma KnownKindsAre(kind: byte)
    ensures KnownKind(kind) <==> kind == 0x08 || kind == 0x09 || kind == 0x12
    ensures OfKind([Tag(0, 0x08, 0, 0, [])], AUDIO_TAG) == [Tag(0, 0x08, 0, 0, [])]
    ensures OfKind([Tag(0, 0x09, 0, 0, [])], VIDEO_TAG) == [Tag(0, 0x09, 0, 0, [])]
    ensures OfKind([Tag(0, 0x12, 0, 0, [])], AMF_TAG) == [Tag(0, 0x12, 0, 0, [])]
  {
    assert [Tag(0, 0x08, 0, 0, [])][..0] == [] && [Tag(0, 0x09, 0, 0, [])][..0] == [];
    assert [Tag(0, 0x12, 0, 0, [])][..0] == [];
  }

  // ----- flag bytes

  datatype AudioFlags = AudioFlags(format: nat, rate: nat, sampleSize: nat, channels: nat)

  const AAC := 10
  const AAC_RAW: byte := 1
  const AAC_UNKNOWN: byte := 99

  predicate ValidAudioFlags(f: AudioFlags) {
    f.format < 16 && f.rate < 4 && f.sampleSize < 2 && f.channels < 2
  }

  lemma FlagsUnpack(f: AudioFlags, b: byte)
    requires ValidAudioFlags(f) && b == f.format * 16 + f.rate * 4 + f.sampleSize * 2 + f.channels
    ensures UnpackAudio(b) == f
  {
  }

  class FLVMediaAudioTag {
    var payload: seq<byte>
    var payloadSize: u32
    var flags: AudioFlags
    var aacPacketType: byte

    constructor (payload: seq<byte>, flags: AudioFlags)
      ensures this.payload == payload && this.flags == flags
    {
      this.payload, this.flags := payload, flags;
      payloadSize, aacPacketType := 0, AAC_UNKNOWN;
    }

    /** Puts the flag byte and an AAC packet type in front of the data. */
    method UpdateMetadata()
      requires ValidAudioFlags(flags)
      modifies this`payload, this`payloadSize
      ensures |payload| == |old(payload)| + 2 && payload[2..] == old(payload) && payload[1] == AAC_RAW
      ensures UnpackAudio(payload[0]) == flags
      ensures payload[0] == 16 * flags.format + 4 * flags.rate + 2 * flags.sampleSize + flags.channels
      ensures payloadSize == |payload| % 0x1_0000_0000
    {
      var value: byte := flags.format * 16 + flags.rate * 4 + flags.sampleSize * 2 + flags.channels;
      FlagsUnpack(flags, value);
      hide UnpackAudio, ValidAudioFlags;
      payload := [value] + payload;
      payload := payload[..1] + [AAC_RAW] + payload[1..];
      payloadSize := |payload| % 0x1_0000_0000;
    }

    /** Reads the flags back. The packet type is taken from the flag byte itself. */
    method Deserialize()
      modifies this`flags, this`aacPacketType
      ensures payload == [] ==> flags == old(flags) && aacPacketType == old(aacPacketType)
      ensures payload != [] ==>
                && ValidAudioFlags(flags) && flags == UnpackAudio(payload[0])
                && aacPacketType == PacketType(payload[0])
    {
      if payload == [] {
        return;
      }
      var b := payload[0];
      flags := AudioFlags(b / 16, b / 4 % 4, b / 2 % 2, b % 2);
      aacPacketType := if flags.format == AAC then b else AAC_UNKNOWN;
    }
  }

  function UnpackAudio(b: byte): AudioFlags {
    AudioFlags(b / 16, b / 4 % 4, b / 2 % 2, b % 2)
  }

  function PacketType(b: byte): byte {
    if b / 16 == AAC then b else AAC_UNKNOWN
  }

  /** The AAC packet type that is written is never the one that is read back. */
  lemma PacketTypeIsLost(f: AudioFlags, b: byte)
    requires ValidAudioFlags(f) && UnpackAudio(b) == f
    ensures f.format == AAC ==> PacketType(b) >= 160
    ensures PacketType(b) != AAC_RAW
  {
  }

  datatype VideoFlags = VideoFlags(codec: nat, frame: nat)

  function UnpackVideo(b: byte): VideoFlags {
    VideoFlags(b % 16, b / 16)
  }

  class FLVMediaVideoTag {
    var payload: seq<byte>
    var payloadSize: u32
    var flags: VideoFlags

    constructor (payload: seq<byte>, flags: VideoFlags)
      ensures this.payload == payload && this.flags == flags
    {
      this.payload, this.flags, payloadSize := payload, flags, 0;
    }

    /** Puts the flag byte, a NAL unit marker and a zero composition time in front of the data. */
    method UpdateMetadata()
      requires flags.codec < 16 && flags.frame < 16
      modifies this`payload, this`payloadSize
      ensures |payload| == |old(payload)| + 5 && payload[5..] == old(payload) && payload[1..5] == [1, 0, 0, 0]
      ensures UnpackVideo(payload[0]) == flags && payload[0] == 16 * flags.frame + flags.codec
      ensures payloadSize == |payload| % 0x1_0000_0000
    {
      var value := flags.frame * 16 + flags.codec;
      payload := [value] + payload;
      payload := payload[..1] + [1] + payload[1..];
      payload := payload[..2] + [0] + payload[2..];
      payload := payload[..3] + [0] + payload[3..];
      payload := payload[..4] + [0] + payload[4..];
      payloadSize := |payload| % 0x1_0000_0000;
    }

    method Deserialize()
      modifies this`flags
      ensures flags == if payload == [] then old(flags) else UnpackVideo(payload[0])
    {
      if payload == [] {
        return;
      }
      flags := VideoFlags(payload[0] % 16, payload[0] / 16);
    }
  }

  /** The flag byte of a video tag: frame type and codec. An AVC key frame is 0x17. */
  lemma VideoFlagsOnTheWire(b: byte)
    ensures UnpackVideo(b).codec < 16 && b == 16 * UnpackVideo(b).frame + UnpackVideo(b).codec
    ensures UnpackVideo(0x17) == VideoFlags(7, 1)
  {
  }

  /** The flag byte of an audio tag: format, rate, sample size and channels. AAC with 44 kHz, 16 bits and two channels
      is 0xAF, and a flag byte of AAC is taken for the packet type. */
  lemma AudioFlagsOnTheWire(b: byte)
    ensures var a := UnpackAudio(b);
            ValidAudioFlags(a) && b == 16 * a.format + 4 * a.rate + 2 * a.sampleSize + a.channels
    ensures PacketType(b) == if 0xA0 <= b < 0xB0 then b else 99
  {
    var q, r: int := b / 4, b / 2;
    assert b / 16 == q / 4 && q == r / 2;
    AacFlags();
  }

  lemma AacFlags()
    ensures UnpackAudio(0xAF) == AudioFlags(10, 3, 1, 1)
  {
  }
}
