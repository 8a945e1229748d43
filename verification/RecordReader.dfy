/**
 Reading a record file with time-range skipping: cyber/record/record_reader.cc. The reader keeps a file
 position, the chunk it has loaded and an index into it, and skips whole chunks by their header. Proved
 equal to a plain walk over the messages of the file, sorted or not.
 */
module RecordReader {

  import opened RecordFormat

  const UINT64_MAX: nat := 0xFFFF_FFFF_FFFF_FFFF

  /** Going from `n` to `m` a walk with lower bound `b` passes only messages before `b`. */
  predicate PassesOld(all: seq<Message>, n: nat, m: nat, b: nat) {
    n <= m <= |all| && forall i | n <= i < m :: all[i].time < b
  }

  /** The answer of a read that takes the walk from `n` to `m`: the next message that is not before `b` and
      it is not after `e`, or none. */
  predicate Answers(all: seq<Message>, n: nat, m: nat, ok: bool, message: Message, b: nat, e: nat) {
    if ok then 1 <= m <= |all| && PassesOld(all, n, m - 1, b) && message == all[m - 1] && b <= message.time <= e
    else PassesOld(all, n, m, b)
  }

  /** Nothing of [b, e] is next: the walk is at the end or in front of a message after `e`. */
  predicate Blocked(all: seq<Message>, m: nat, e: nat) {
    m == |all| || (m < |all| && all[m].time > e)
  }

  lemma AnswersLater(all: seq<Message>, n: nat, k: nat, m: nat, ok: bool, message: Message, b: nat, e: nat)
    requires PassesOld(all, n, k, b) && Answers(all, k, m, ok, message, b, e)
    ensures Answers(all, n, m, ok, message, b, e)
  {
  }

  /** With the whole range nothing is passed over: each read takes the very next message. */
  lemma FullRangeStep(all: seq<Message>, k: nat, m: nat, ok: bool, message: Message, out: seq<Message>)
    requires Answers(all, k, m, ok, message, 0, UINT64_MAX) && k <= |all| && out == all[..k]
    requires ok || Blocked(all, m, UINT64_MAX)
    requires forall i | 0 <= i < |all| :: all[i].time <= UINT64_MAX
    ensures if ok then m == k + 1 && out + [message] == all[..m] else out == all
  {
    if k < |all| {
      assert all[k].time >= 0;
    }
  }

  class Reader {
    const file: File
    const isValid: bool
    var pos: nat
    var reachEnd: bool
    var chunk: seq<Message>
    var messageIndex: nat
    /** How many messages of the file the walk has passed. */
    ghost var taken: nat

    ghost function All(): seq<Message> {
      Messages(file.sections)
    }

    ghost predicate Valid()
      reads this
    {
      && Framed(file.sections)
      && pos <= |file.sections| && messageIndex <= |chunk| && taken <= |All()|
      && All()[taken..] == chunk[messageIndex..] + Messages(file.sections[pos..])
      && (reachEnd ==> pos == |file.sections|)
    }

    constructor (file: File, isValid: bool)
      requires Framed(file.sections)
      ensures this.file == file && this.isValid == isValid
      ensures Valid() && taken == 0
    {
      this.file, this.isValid := file, isValid;
      pos, reachEnd, chunk, messageIndex, taken := 0, false, [], 0, 0;
    }

    method Reset()
      requires Framed(file.sections)
      modifies this
      ensures Valid() && taken == 0
    {
      pos, reachEnd, chunk, messageIndex, taken := 0, false, [], 0, 0;
    }

    lemma NextSection()
      requires Valid() && messageIndex == |chunk| && pos < |file.sections|
      ensures All()[taken..] == (if file.sections[pos].ChunkBodySection? then file.sections[pos].messages else [])
                                + Messages(file.sections[pos + 1..])
      ensures file.sections[pos].IndexSection? ==> pos + 1 == |file.sections|
    {
      assert file.sections[pos..] == [file.sections[pos]] + file.sections[pos + 1..];
    }

    /** Right behind the header of a chunk that starts after `e`, nothing of the range is next. */
    lemma StopsAtHeader(b: nat, e: nat)
      requires Valid() && Honest(file.sections, b, e) && messageIndex == |chunk| && 0 < pos <= |file.sections|
      requires file.sections[pos - 1].ChunkHeaderSection? && file.sections[pos - 1].header.beginTime > e
      ensures Blocked(All(), taken, e)
    {
      assert HonestHeader(file.sections[pos - 1].header, file.sections[pos].messages, b, e);
      NextSection();
      assert All()[taken] == All()[taken..][0] == file.sections[pos].messages[0];
    }

    /** Loads the next chunk that can hold a message of [b, e]. Chunks that end before `b` are skipped; a
        chunk that starts after `e` stops the search with its body still ahead. */
    method ReadNextChunk(b: nat, e: nat) returns (ok: bool)
      requires Valid() && messageIndex == |chunk| && Honest(file.sections, b, e)
      modifies this
      ensures Valid() && PassesOld(All(), old(taken), taken, b)
      ensures ok ==> messageIndex == 0 && pos > old(pos)
      ensures !ok ==> Blocked(All(), taken, e)
    {
      var skipNextChunkBody := false;
      ghost var all, n := All(), taken;
      while !reachEnd
        invariant Valid() && messageIndex == |chunk| && pos >= old(pos)
        invariant PassesOld(all, n, taken, b)
        invariant skipNextChunkBody ==>
                    && pos < |file.sections| && file.sections[pos].ChunkBodySection?
                    && forall i | 0 <= i < |file.sections[pos].messages| :: file.sections[pos].messages[i].time < b
        decreases !reachEnd, |file.sections| - pos
      {
        if pos == |file.sections| {
          return false;
        }
        NextSection();
        var section := file.sections[pos];
        pos := pos + 1;
        match section {
          case IndexSection(_) =>
            reachEnd := true;
          case ChannelSection(_) =>
          case ChunkHeaderSection(header) =>
            assert HonestHeader(file.sections[pos - 1].header, file.sections[pos].messages, b, e);
            if header.endTime < b {
              skipNextChunkBody := true;
            }
            if header.beginTime > e {
              StopsAtHeader(b, e);
              return false;
            }
          case ChunkBodySection(messages) =>
            if skipNextChunkBody {
              skipNextChunkBody := false;
              PassBody(messages, b);
            } else {
              chunk, messageIndex := messages, 0;
              return true;
            }
        }
      }
      return false;
    }

    /** Skipping a body moves the walk past its messages. */
    ghost method PassBody(messages: seq<Message>, b: nat)
      requires taken <= |All()| && pos <= |file.sections| && messageIndex == |chunk|
      requires All()[taken..] == messages + Messages(file.sections[pos..])
      requires forall i | 0 <= i < |messages| :: messages[i].time < b
      modifies this`taken
      ensures taken <= |All()| && All()[taken..] == chunk[messageIndex..] + Messages(file.sections[pos..])
      ensures PassesOld(All(), old(taken), taken, b)
    {
      forall i | 0 <= i < |messages|
        ensures taken + i < |All()| && All()[taken + i] == messages[i]
      {
        assert All()[taken..][i] == messages[i];
      }
      assert All()[taken + |messages|..] == All()[taken..][|messages|..];
      taken := taken + |messages|;
    }

    /** The loop over the loaded chunk: `found` with a message, or `stopped` in front of one after `e`,
        or the chunk is used up. */
    method ReadLoaded(b: nat, e: nat) returns (found: bool, stopped: bool, message: Message)
      requires Valid()
      modifies this`messageIndex, this`taken
      ensures Valid() && !(found && stopped)
      ensures Answers(All(), old(taken), taken, found, message, b, e)
      ensures stopped ==> Blocked(All(), taken, e)
      ensures !found && !stopped ==> messageIndex == |chunk|
    {
      message := Message("", 0, "");
      while messageIndex < |chunk|
        invariant Valid()
        invariant PassesOld(All(), old(taken), taken, b)
      {
        var nextMessage := chunk[messageIndex];
        assert All()[taken..][0] == nextMessage;
        if nextMessage.time > e {
          return false, true, message;
        }
        assert All()[taken + 1..] == All()[taken..][1..];
        messageIndex, taken := messageIndex + 1, taken + 1;
        if nextMessage.time < b {
          continue;
        }
        return true, false, nextMessage;
      }
      return false, false, message;
    }

    /** The file header already tells that no message of [b, e] is in the file. */
    predicate Outside(b: nat, e: nat) {
      b > file.header.endTime || e < file.header.beginTime
    }

    /** One message of [b, e], or false: the next message of the file that is not before `b`, if it is not
        after `e`. Holds for any order of the messages; a request outside the header's range changes
        nothing. */
    method ReadMessage(b: nat, e: nat) returns (ok: bool, message: Message)
      requires Valid() && Honest(file.sections, b, e)
      modifies this
      ensures Valid()
      ensures Answers(All(), old(taken), taken, ok, message, b, e)
      ensures !ok && isValid && !Outside(b, e) ==> Blocked(All(), taken, e)
      ensures !isValid || Outside(b, e) ==> !ok && taken == old(taken)
      decreases |file.sections| - pos
    {
      message := Message("", 0, "");
      if !isValid {
        return false, message;
      }
      if b > file.header.endTime || e < file.header.beginTime {
        return false, message;
      }
      var again;
      ok, again, message := ReadOrLoad(b, e);
      if again {
        ghost var k := taken;
        ok, message := ReadMessage(b, e);
        AnswersLater(All(), old(taken), k, taken, ok, message, b, e);
      }
    }

    /** Reads from the loaded chunk and, when it is used up, loads the next one: then `again`. */
    method ReadOrLoad(b: nat, e: nat) returns (ok: bool, again: bool, message: Message)
      requires Valid() && Honest(file.sections, b, e)
      modifies this
      ensures Valid() && !(ok && again)
      ensures Answers(All(), old(taken), taken, ok, message, b, e)
      ensures again ==> pos > old(pos)
      ensures !ok && !again ==> Blocked(All(), taken, e)
    {
      var found, stopped;
      found, stopped, message := ReadLoaded(b, e);
      if found || stopped {
        return found, false, message;
      }
      ghost var k := taken;
      var more := ReadNextChunk(b, e);
      AnswersLater(All(), old(taken), k, taken, false, message, b, e);
      return false, more, message;
    }

    /** Reading with the default range until nothing is left returns every message of the file, in file
        order, whatever their times are and whatever the chunk headers say. The bounds are those of the
        64-bit fields. */
    method ReadAll() returns (out: seq<Message>)
      requires Valid() && isValid && taken == 0
      requires forall i | 0 <= i < |All()| :: All()[i].time <= UINT64_MAX
      requires file.header.beginTime <= UINT64_MAX
      requires forall i | 0 <= i < |file.sections| && file.sections[i].ChunkHeaderSection? ::
                 file.sections[i].header.beginTime <= UINT64_MAX
      modifies this
      ensures Valid() && out == All()
    {
      out := [];
      while true
        invariant Valid() && out == All()[..taken]
        decreases |All()| - taken
      {
        ghost var k := taken;
        var ok, message := ReadMessage(0, UINT64_MAX);
        FullRangeStep(All(), k, taken, ok, message, out);
        if !ok {
          return;
        }
        out := out + [message];
      }
    }
  }
}
