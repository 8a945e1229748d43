/**
 A record file as the reader and the writer see it: one header and a sequence of sections. The bytes of a
 section (protobuf) and its byte offset are not modelled; a position is the number of sections before it.
 */
module RecordFormat {

  datatype Message = Message(channel: string, time: nat, content: string)

  datatype ChunkHeader = ChunkHeader(beginTime: nat, endTime: nat, messageNumber: nat, rawSize: nat)

  datatype SingleIndex =
    | ChannelCache(name: string, messageNumber: nat)
    | ChunkHeaderCache(header: ChunkHeader)
    | ChunkBodyCache(messageNumber: nat)

  datatype Section =
    | ChannelSection(name: string)
    | ChunkHeaderSection(header: ChunkHeader)
    | ChunkBodySection(messages: seq<Message>)
    | IndexSection(index: seq<SingleIndex>)

  datatype Header = Header(
    beginTime: nat, endTime: nat, messageNumber: nat, chunkNumber: nat, channelNumber: nat,
    isComplete: bool, indexPosition: nat, chunkInterval: nat, chunkRawSize: nat)

  datatype File = File(header: Header, sections: seq<Section>)

  /** All messages of a stretch of sections, in file order. */
  function Messages(sections: seq<Section>): seq<Message> {
    if sections == [] then []
    else (if sections[0].ChunkBodySection? then sections[0].messages else []) + Messages(sections[1..])
  }

  /** A chunk header states the earliest and the latest time in its body. */
  predicate Describes(h: ChunkHeader, ms: seq<Message>) {
    && ms != [] && h.messageNumber == |ms|
    && (forall i | 0 <= i < |ms| :: h.beginTime <= ms[i].time <= h.endTime)
    && (exists i :: 0 <= i < |ms| && ms[i].time == h.beginTime)
    && (exists i :: 0 <= i < |ms| && ms[i].time == h.endTime)
  }

  /** Every chunk header is followed by a body that is not empty, and the index comes last. */
  predicate Framed(sections: seq<Section>) {
    forall i | 0 <= i < |sections| ::
      && (sections[i].ChunkHeaderSection? ==>
            i + 1 < |sections| && sections[i + 1].ChunkBodySection? && sections[i + 1].messages != [])
      && (sections[i].IndexSection? ==> i + 1 == |sections|)
  }

  /** What a reader of [b, e] concludes from a chunk header is true of its body. */
  predicate Honest(sections: seq<Section>, b: nat, e: nat) {
    forall i | 0 <= i < |sections| - 1 :: sections[i].ChunkHeaderSection? && sections[i + 1].ChunkBodySection? ==>
      HonestHeader(sections[i].header, sections[i + 1].messages, b, e)
  }

  predicate HonestHeader(h: ChunkHeader, ms: seq<Message>, b: nat, e: nat) {
    && (h.endTime < b ==> forall i | 0 <= i < |ms| :: ms[i].time < b)
    && (h.beginTime > e ==> ms != [] ==> ms[0].time > e)
  }

  /** Every chunk header is followed by the body it describes. */
  predicate WellFormed(sections: seq<Section>) {
    && Framed(sections)
    && forall i | 0 <= i < |sections| - 1 :: sections[i].ChunkHeaderSection? && sections[i + 1].ChunkBodySection? ==>
         Describes(sections[i].header, sections[i + 1].messages)
  }

  lemma WellFormedHonest(sections: seq<Section>, b: nat, e: nat)
    requires WellFormed(sections)
    ensures Honest(sections, b, e)
  {
    forall i | 0 <= i < |sections| - 1 && sections[i].ChunkHeaderSection? && sections[i + 1].ChunkBodySection?
      ensures HonestHeader(sections[i].header, sections[i + 1].messages, b, e)
    {
      assert Describes(sections[i].header, sections[i + 1].messages);
    }
  }

  /** The file header brackets every message time. */
  predicate Covers(h: Header, ms: seq<Message>) {
    forall i | 0 <= i < |ms| :: h.beginTime <= ms[i].time <= h.endTime
  }

  predicate SortedByTime(ms: seq<Message>) {
    forall i, j | 0 <= i < j < |ms| :: ms[i].time <= ms[j].time
  }

  lemma {:induction false} MessagesAppend(a: seq<Section>, b: seq<Section>)
    ensures Messages(a + b) == Messages(a) + Messages(b)
  {
    if a == [] {
      assert a + b == b;
    } else {
      MessagesAppend(a[1..], b);
      assert (a + b)[1..] == a[1..] + b;
    }
  }
}
