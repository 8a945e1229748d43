/**
 The viewer of cyber/record/record_viewer.cc: it merges any number of record files by time, reading them
 in windows of one second into a buffer sorted by time. For files in any order and with any headers it is
 proved to yield exactly the stable merge of the messages that its windows reach, and it is proved when
 these are all messages of the request.
 */
module RecordViewer {

  import opened RecordFormat
  import opened RecordReader

  // ---------------------------------------------------------------- the specification

  /** `multimap::emplace`: insert behind every entry that is not later. */
  function Insert(buffer: seq<Message>, m: Message): (r: seq<Message>)
    ensures |r| == |buffer| + 1
  {
    if buffer == [] then [m]
    else if buffer[|buffer| - 1].time <= m.time then buffer + [m]
    else Insert(buffer[..|buffer| - 1], m) + [buffer[|buffer| - 1]]
  }

  function InsertAll(buffer: seq<Message>, ms: seq<Message>): seq<Message>
    decreases |ms|
  {
    if ms == [] then buffer else InsertAll(Insert(buffer, ms[0]), ms[1..])
  }

  /** The messages of one file with a time in [b, e], in file order. */
  function InRange(ms: seq<Message>, b: int, e: int): seq<Message> {
    if ms == [] then []
    else if b <= ms[0].time <= e then [ms[0]] + InRange(ms[1..], b, e)
    else InRange(ms[1..], b, e)
  }

  /** The merge, into `buffer`, of the messages in [b, e] of the files, in the order of the files. */
  function Merge(buffer: seq<Message>, files: seq<seq<Message>>, b: int, e: int): seq<Message>
    decreases |files|
  {
    if files == [] then buffer else Merge(InsertAll(buffer, InRange(files[0], b, e)), files[1..], b, e)
  }

  /** The messages on the chosen channels; an empty choice means all of them. */
  function OnChannels(ms: seq<Message>, channels: set<string>): seq<Message> {
    if ms == [] then []
    else if channels == {} || ms[0].channel in channels then [ms[0]] + OnChannels(ms[1..], channels)
    else OnChannels(ms[1..], channels)
  }

  // ---------------------------------------------------------------- the specification is a sorted merge

  lemma {:induction false} InsertSorted(buffer: seq<Message>, m: Message)
    requires SortedByTime(buffer)
    ensures SortedByTime(Insert(buffer, m))
  {
    if buffer != [] && buffer[|buffer| - 1].time > m.time {
      var k := |buffer| - 1;
      InsertSorted(buffer[..k], m);
      InsertBounded(buffer[..k], m, buffer[k].time);
    }
  }

  lemma {:induction false} InsertAdds(buffer: seq<Message>, m: Message)
    ensures multiset(Insert(buffer, m)) == multiset(buffer) + multiset{m}
  {
    if buffer != [] && buffer[|buffer| - 1].time > m.time {
      var k := |buffer| - 1;
      InsertAdds(buffer[..k], m);
      calc {
        multiset(Insert(buffer, m));
        multiset(Insert(buffer[..k], m)) + multiset{buffer[k]};
        multiset(buffer[..k]) + multiset{buffer[k]} + multiset{m};
        { assert buffer == buffer[..k] + [buffer[k]]; }
        multiset(buffer) + multiset{m};
      }
    }
  }

  lemma {:induction false} InsertBounded(buffer: seq<Message>, m: Message, bound: nat)
    requires m.time <= bound && forall i | 0 <= i < |buffer| :: buffer[i].time <= bound
    ensures forall i | 0 <= i < |Insert(buffer, m)| :: Insert(buffer, m)[i].time <= bound
  {
    if buffer != [] && buffer[|buffer| - 1].time > m.time {
      InsertBounded(buffer[..|buffer| - 1], m, bound);
    }
  }

  lemma {:induction false} InsertAllSorted(buffer: seq<Message>, ms: seq<Message>)
    requires SortedByTime(buffer)
    ensures SortedByTime(InsertAll(buffer, ms))
    ensures multiset(InsertAll(buffer, ms)) == multiset(buffer) + multiset(ms)
    decreases |ms|
  {
    if ms != [] {
      InsertSorted(buffer, ms[0]);
      InsertAdds(buffer, ms[0]);
      InsertAllSorted(Insert(buffer, ms[0]), ms[1..]);
      assert ms == [ms[0]] + ms[1..];
    }
  }

  ghost function AllInRange(files: seq<seq<Message>>, b: int, e: int): multiset<Message> {
    if files == [] then multiset{} else multiset(InRange(files[0], b, e)) + AllInRange(files[1..], b, e)
  }

  /** The merge is sorted by time and consists of exactly the messages in range, each as often as it occurs. */
  lemma {:induction false} MergeIsSortedSelection(buffer: seq<Message>, files: seq<seq<Message>>, b: int, e: int)
    requires SortedByTime(buffer)
    ensures SortedByTime(Merge(buffer, files, b, e))
    ensures multiset(Merge(buffer, files, b, e)) == multiset(buffer) + AllInRange(files, b, e)
    decreases |files|
  {
    if files != [] {
      InsertAllSorted(buffer, InRange(files[0], b, e));
      MergeIsSortedSelection(InsertAll(buffer, InRange(files[0], b, e)), files[1..], b, e);
    }
  }

  // ---------------------------------------------------------------- windows compose

  predicate AllBefore(ms: seq<Message>, t: int) {
    forall i | 0 <= i < |ms| :: ms[i].time < t
  }

  predicate AllFrom(ms: seq<Message>, t: int) {
    forall i | 0 <= i < |ms| :: ms[i].time >= t
  }

  /** Inserting an early message works on the early part, a late one on the late part. */
  lemma {:induction false} InsertSplit(lo: seq<Message>, hi: seq<Message>, m: Message, t: int)
    requires AllBefore(lo, t) && AllFrom(hi, t)
    ensures Insert(lo + hi, m) == if m.time < t then Insert(lo, m) + hi else lo + Insert(hi, m)
    ensures m.time < t ==> AllBefore(Insert(lo, m), t)
    ensures m.time >= t ==> AllFrom(Insert(hi, m), t)
  {
    if hi == [] {
      assert lo + hi == lo;
      if m.time < t { InsertBounded(lo, m, t - 1); }
    } else {
      var k := |hi| - 1;
      assert (lo + hi)[..|lo + hi| - 1] == lo + hi[..k];
      if hi[k].time > m.time || m.time < t {
        InsertSplit(lo, hi[..k], m, t);
        assert hi == hi[..k] + [hi[k]];
      }
    }
  }

  lemma {:induction false} InsertAllSplit(lo: seq<Message>, hi: seq<Message>, ms: seq<Message>, b: int, t: int, e: int)
    requires AllBefore(lo, t) && AllFrom(hi, t) && b <= t <= e + 1
    ensures InsertAll(lo + hi, InRange(ms, b, e))
            == InsertAll(lo, InRange(ms, b, t - 1)) + InsertAll(hi, InRange(ms, t, e))
    ensures AllBefore(InsertAll(lo, InRange(ms, b, t - 1)), t)
    ensures AllFrom(InsertAll(hi, InRange(ms, t, e)), t)
    decreases |ms|
  {
    if ms != [] {
      var m := ms[0];
      InsertSplit(lo, hi, m, t);
      if b <= m.time < t {
        InsertAllSplit(Insert(lo, m), hi, ms[1..], b, t, e);
        InRangeCons(m, ms[1..], b, e);
        InRangeCons(m, ms[1..], b, t - 1);
      } else if t <= m.time <= e {
        InsertAllSplit(lo, Insert(hi, m), ms[1..], b, t, e);
        InRangeCons(m, ms[1..], b, e);
        InRangeCons(m, ms[1..], t, e);
      } else {
        InsertAllSplit(lo, hi, ms[1..], b, t, e);
      }
    }
  }

  lemma InRangeCons(m: Message, rest: seq<Message>, b: int, e: int)
    requires b <= m.time <= e
    ensures ([m] + InRange(rest, b, e))[0] == m && ([m] + InRange(rest, b, e))[1..] == InRange(rest, b, e)
  {
  }

  /** Splitting the range at any time splits the merge: window by window gives the whole. */
  lemma {:induction false} MergeSplit(lo: seq<Message>, hi: seq<Message>, files: seq<seq<Message>>, b: int, t: int, e: int)
    requires AllBefore(lo, t) && AllFrom(hi, t) && b <= t <= e + 1
    ensures Merge(lo + hi, files, b, e) == Merge(lo, files, b, t - 1) + Merge(hi, files, t, e)
    ensures AllBefore(Merge(lo, files, b, t - 1), t) && AllFrom(Merge(hi, files, t, e), t)
    decreases |files|
  {
    if files != [] {
      InsertAllSplit(lo, hi, files[0], b, t, e);
      MergeSplit(InsertAll(lo, InRange(files[0], b, t - 1)), InsertAll(hi, InRange(files[0], t, e)), files[1..], b, t, e);
    }
  }

  // ---------------------------------------------------------------- windows

  const STEP_TIME_NS: nat := 1_000_000_000
  const BUFFER_MIN_SIZE: nat := 128

  /** The windows of a view from `b` on are closed and follow one another; this one holds `t`. */
  function WindowBegin(b: nat, t: nat): nat
    requires b <= t
  {
    t - (t - b) % (STEP_TIME_NS + 1)
  }

  /** Where the window that begins at `w` ends, in a view up to `e`. */
  function WindowEnd(w: nat, e: nat): nat {
    if w + STEP_TIME_NS > e then e else w + STEP_TIME_NS
  }

  predicate BeginsWindow(b: nat, w: nat) {
    b <= w && (w - b) % (STEP_TIME_NS + 1) == 0
  }

  lemma InWindow(b: nat, e: nat, w: nat, t: nat)
    requires BeginsWindow(b, w) && w <= t <= WindowEnd(w, e)
    ensures WindowBegin(b, t) == w
  {
  }

  lemma NextWindow(b: nat, w: nat)
    requires BeginsWindow(b, w)
    ensures BeginsWindow(b, w + STEP_TIME_NS + 1)
  {
  }

  // ---------------------------------------------------------------- one file

  /** Whether a view of [b, e] comes to message `m` of a file, with `before` in front of it: the header of
      the file admits the window of `m`, and nothing before it lies behind that window. */
  predicate Reached(h: Header, before: seq<Message>, m: Message, b: nat, e: nat) {
    && b <= m.time <= e
    && var w := WindowBegin(b, m.time);
       w <= h.endTime && h.beginTime <= WindowEnd(w, e) && AllBefore(before, WindowEnd(w, e) + 1)
  }

  /** What a view of [b, e] gets to see of a file. */
  function Shown(h: Header, ms: seq<Message>, b: nat, e: nat): seq<Message> {
    if ms == [] then []
    else
      var k := |ms| - 1;
      Shown(h, ms[..k], b, e) + if Reached(h, ms[..k], ms[k], b, e) then [ms[k]] else []
  }

  lemma {:induction false} InRangeAppend(ms: seq<Message>, more: seq<Message>, b: int, e: int)
    ensures InRange(ms + more, b, e) == InRange(ms, b, e) + InRange(more, b, e)
  {
    if ms == [] {
      assert ms + more == more;
    } else {
      InRangeAppend(ms[1..], more, b, e);
      assert (ms + more)[1..] == ms[1..] + more;
      Regroup([ms[0]], InRange(ms[1..], b, e), InRange(more, b, e));
    }
  }

  lemma Regroup(a: seq<Message>, b: seq<Message>, c: seq<Message>)
    ensures a + (b + c) == (a + b) + c
  {
  }

  /** The part of what is seen that lies in [w, last]. */
  function SeenIn(h: Header, ms: seq<Message>, b: nat, e: nat, w: nat, last: nat): seq<Message> {
    InRange(Shown(h, ms, b, e), w, last)
  }

  lemma SeenOne(h: Header, ms: seq<Message>, n: nat, b: nat, e: nat, w: nat, last: nat)
    requires n < |ms|
    ensures SeenIn(h, ms[..n + 1], b, e, w, last)
            == SeenIn(h, ms[..n], b, e, w, last)
               + if Reached(h, ms[..n], ms[n], b, e) && w <= ms[n].time <= last then [ms[n]] else []
  {
    assert ms[..n + 1][..n] == ms[..n] && ms[..n + 1][n] == ms[n];
    InRangeAppend(Shown(h, ms[..n], b, e), if Reached(h, ms[..n], ms[n], b, e) then [ms[n]] else [], w, last);
  }

  /** A stretch of the file of which nothing is seen in the window. */
  lemma {:induction false} SeenNothing(h: Header, ms: seq<Message>, n: nat, m: nat, b: nat, e: nat, w: nat, last: nat)
    requires n <= m <= |ms|
    requires forall i | n <= i < m :: !(Reached(h, ms[..i], ms[i], b, e) && w <= ms[i].time <= last)
    ensures SeenIn(h, ms[..m], b, e, w, last) == SeenIn(h, ms[..n], b, e, w, last)
    decreases m - n
  {
    if n < m {
      SeenNothing(h, ms, n, m - 1, b, e, w, last);
      SeenOne(h, ms, m - 1, b, e, w, last);
    }
  }

  lemma {:induction false} InsertAllSnoc(buffer: seq<Message>, ms: seq<Message>, m: Message)
    ensures InsertAll(buffer, ms + [m]) == Insert(InsertAll(buffer, ms), m)
    decreases |ms|
  {
    if ms == [] {
      assert [m][1..] == [];
    } else {
      InsertAllSnoc(Insert(buffer, ms[0]), ms[1..], m);
      assert (ms + [m])[1..] == ms[1..] + [m];
    }
  }

  lemma {:induction false} InRangeNone(ms: seq<Message>, b: int, e: int)
    requires forall i | 0 <= i < |ms| :: !(b <= ms[i].time <= e)
    ensures InRange(ms, b, e) == []
  {
    if ms != [] { InRangeNone(ms[1..], b, e); }
  }

  /** The file header admits the window [w, last]. */
  predicate Admits(h: Header, w: nat, last: nat) {
    w <= h.endTime && h.beginTime <= last
  }

  /** With the walk at `n`, `filled` is `buffer` with all messages of window `w` seen so far. */
  predicate Moved(h: Header, all: seq<Message>, n: nat, buffer: seq<Message>, filled: seq<Message>, b: nat, e: nat, w: nat) {
    && n <= |all| && AllBefore(all[..n], WindowEnd(w, e) + 1)
    && filled == InsertAll(buffer, SeenIn(h, all[..n], b, e, w, WindowEnd(w, e)))
  }

  lemma MovedNone(h: Header, all: seq<Message>, n: nat, buffer: seq<Message>, b: nat, e: nat, w: nat)
    requires n <= |all| && AllBefore(all[..n], w) && w <= e
    ensures Moved(h, all, n, buffer, buffer, b, e, w)
  {
    forall i | 0 <= i < n ensures all[i].time < w { assert all[i] == all[..n][i]; }
    SeenNothing(h, all, 0, n, b, e, w, WindowEnd(w, e));
    assert all[..0] == [];
  }

  lemma MovedOne(h: Header, all: seq<Message>, n: nat, m: nat, buffer: seq<Message>, filled: seq<Message>,
                 message: Message, b: nat, e: nat, w: nat)
    requires Moved(h, all, n, buffer, filled, b, e, w) && BeginsWindow(b, w) && w <= e
    requires Admits(h, w, WindowEnd(w, e)) && Answers(all, n, m, true, message, w, WindowEnd(w, e))
    ensures Moved(h, all, m, buffer, Insert(filled, message), b, e, w)
  {
    var last := WindowEnd(w, e);
    PassedMore(all, n, m - 1, last + 1);
    SeenNext(h, all, n, m, message, b, e, w);
    InsertAllSnoc(buffer, SeenIn(h, all[..n], b, e, w, last), message);
    PassedMore(all, n, m, last + 1);
  }

  /** The message that a read inside the window answers with is the next one seen. */
  lemma SeenNext(h: Header, all: seq<Message>, n: nat, m: nat, message: Message, b: nat, e: nat, w: nat)
    requires BeginsWindow(b, w) && w <= e && Admits(h, w, WindowEnd(w, e))
    requires Answers(all, n, m, true, message, w, WindowEnd(w, e)) && AllBefore(all[..m - 1], WindowEnd(w, e) + 1)
    ensures SeenIn(h, all[..m], b, e, w, WindowEnd(w, e)) == SeenIn(h, all[..n], b, e, w, WindowEnd(w, e)) + [message]
  {
    InWindow(b, e, w, message.time);
    SeenNothing(h, all, n, m - 1, b, e, w, WindowEnd(w, e));
    SeenOne(h, all, m - 1, b, e, w, WindowEnd(w, e));
  }

  /** In front of a message behind the window, everything the window can show has been seen. */
  lemma MovedAll(h: Header, all: seq<Message>, n: nat, m: nat, buffer: seq<Message>, filled: seq<Message>,
                 b: nat, e: nat, w: nat)
    requires Moved(h, all, n, buffer, filled, b, e, w) && BeginsWindow(b, w) && w <= e
    requires PassesOld(all, n, m, w) && Blocked(all, m, WindowEnd(w, e))
    ensures filled == InsertAll(buffer, SeenIn(h, all, b, e, w, WindowEnd(w, e)))
    ensures AllBefore(all[..m], WindowEnd(w, e) + 1)
  {
    var last := WindowEnd(w, e);
    SeenNothing(h, all, n, m, b, e, w, last);
    forall i | m <= i < |all| && w <= all[i].time <= last
      ensures !Reached(h, all[..i], all[i], b, e)
    {
      InWindow(b, e, w, all[i].time);
      assert all[..i][m] == all[m];
    }
    SeenNothing(h, all, m, |all|, b, e, w, last);
    assert all[..|all|] == all;
    PassedMore(all, n, m, last + 1);
  }

  /** A window that the header does not admit shows nothing. */
  lemma NotAdmitted(h: Header, all: seq<Message>, b: nat, e: nat, w: nat)
    requires BeginsWindow(b, w) && w <= e && !Admits(h, w, WindowEnd(w, e))
    ensures SeenIn(h, all, b, e, w, WindowEnd(w, e)) == []
  {
    var last := WindowEnd(w, e);
    forall i | 0 <= i < |all| && w <= all[i].time <= last
      ensures !Reached(h, all[..i], all[i], b, e)
    {
      InWindow(b, e, w, all[i].time);
    }
    SeenNothing(h, all, 0, |all|, b, e, w, last);
    assert all[..|all|] == all && all[..0] == [];
  }

  lemma PassedMore(all: seq<Message>, n: nat, m: nat, t: int)
    requires n <= m <= |all| && AllBefore(all[..n], t) && forall i | n <= i < m :: all[i].time < t
    ensures AllBefore(all[..m], t)
  {
    forall i | 0 <= i < m
      ensures all[..m][i].time < t
    {
      if i < n { assert all[..n][i] == all[i]; }
    }
  }

  /** After a read that found nothing the window is finished. */
  lemma WindowDone(h: Header, all: seq<Message>, isValid: bool, n: nat, m: nat, buffer: seq<Message>, filled: seq<Message>,
                   b: nat, e: nat, w: nat)
    requires Moved(h, all, n, buffer, filled, b, e, w) && BeginsWindow(b, w) && w <= e && PassesOld(all, n, m, w)
    requires if isValid && Admits(h, w, WindowEnd(w, e)) then Blocked(all, m, WindowEnd(w, e)) else filled == buffer
    ensures AllBefore(all[..m], WindowEnd(w, e) + 1)
    ensures filled == InsertAll(buffer, InRange(if isValid then Shown(h, all, b, e) else [], w, WindowEnd(w, e)))
  {
    PassedMore(all, n, m, WindowEnd(w, e) + 1);
    if isValid && Admits(h, w, WindowEnd(w, e)) {
      MovedAll(h, all, n, m, buffer, filled, b, e, w);
    } else if isValid {
      NotAdmitted(h, all, b, e, w);
    }
  }

  /** A file whose chunk headers tell the truth about their chunks; its messages may stand in any order and
      its own header may say anything. */
  ghost predicate Usable(r: Reader) {
    WellFormed(r.file.sections)
  }

  datatype Part = Everything | Visible(begin: nat, end: nat)

  /** What a file holds, or what of it a view can see; a file that could not be opened contributes nothing. */
  ghost function PartOf(r: Reader, part: Part): seq<Message> {
    if !r.isValid then []
    else if part.Everything? then r.All()
    else Shown(r.file.header, r.All(), part.begin, part.end)
  }

  /** The reader has passed only messages before `t`. */
  ghost predicate PassedBefore(r: Reader, t: int)
    reads r
  {
    r.Valid() && AllBefore(r.All()[..r.taken], t)
  }

  /** The inner loop of `FillBuffer`: move every message of the window that can be seen from one reader to
      the buffer. */
  method Drain(r: Reader, buffer: seq<Message>, b: nat, e: nat, w: nat) returns (filled: seq<Message>)
    requires Usable(r) && PassedBefore(r, w) && BeginsWindow(b, w) && w <= e
    modifies r
    ensures PassedBefore(r, WindowEnd(w, e) + 1)
    ensures filled == InsertAll(buffer, InRange(PartOf(r, Visible(b, e)), w, WindowEnd(w, e)))
  {
    var last := WindowEnd(w, e);
    WellFormedHonest(r.file.sections, w, last);
    filled := buffer;
    ghost var all, h := r.All(), r.file.header;
    MovedNone(h, all, r.taken, buffer, b, e, w);
    while true
      invariant r.Valid() && Moved(h, all, r.taken, buffer, filled, b, e, w)
      invariant !r.isValid || !Admits(h, w, last) ==> filled == buffer
      decreases |all| - r.taken
    {
      ghost var n := r.taken;
      var ok, message := r.ReadMessage(w, last);
      if !ok {
        WindowDone(h, all, r.isValid, n, r.taken, buffer, filled, b, e, w);
        return;
      }
      MovedOne(h, all, n, r.taken, buffer, filled, message, b, e, w);
      filled := Insert(filled, message);
    }
  }

  // ---------------------------------------------------------------- what the merge contains

  /** How often `m` occurs in the files together. */
  function Occurrences(files: seq<seq<Message>>, m: Message): nat {
    if files == [] then 0 else multiset(files[0])[m] + Occurrences(files[1..], m)
  }

  lemma {:induction false} InRangeCount(ms: seq<Message>, b: int, e: int, m: Message)
    ensures multiset(InRange(ms, b, e))[m] == if b <= m.time <= e then multiset(ms)[m] else 0
  {
    if ms != [] {
      InRangeCount(ms[1..], b, e, m);
      assert ms == [ms[0]] + ms[1..];
    }
  }

  lemma {:induction false} AllInRangeCount(files: seq<seq<Message>>, b: int, e: int, m: Message)
    ensures AllInRange(files, b, e)[m] == if b <= m.time <= e then Occurrences(files, m) else 0
  {
    if files != [] {
      InRangeCount(files[0], b, e, m);
      AllInRangeCount(files[1..], b, e, m);
    }
  }

  lemma {:induction false} OnChannelsCount(ms: seq<Message>, channels: set<string>, m: Message)
    ensures multiset(OnChannels(ms, channels))[m]
            == if channels == {} || m.channel in channels then multiset(ms)[m] else 0
  {
    if ms != [] {
      OnChannelsCount(ms[1..], channels, m);
      assert ms == [ms[0]] + ms[1..];
    }
  }

  lemma {:induction false} OnChannelsSorted(ms: seq<Message>, channels: set<string>)
    requires SortedByTime(ms)
    ensures SortedByTime(OnChannels(ms, channels))
  {
    if ms != [] {
      OnChannelsSorted(ms[1..], channels);
      forall i | 0 <= i < |OnChannels(ms[1..], channels)|
        ensures OnChannels(ms[1..], channels)[i].time >= ms[0].time
      {
        var m := OnChannels(ms[1..], channels)[i];
        assert m in multiset(OnChannels(ms[1..], channels));
        OnChannelsCount(ms[1..], channels, m);
        assert m in ms[1..];
      }
    }
  }

  /** What an iteration yields: non-decreasing times, and each message on a chosen channel with a time in
      [b, e] exactly as often as the files hold it. */
  lemma ViewIsExact(files: seq<seq<Message>>, b: int, e: int, channels: set<string>, m: Message)
    ensures SortedByTime(OnChannels(Merge([], files, b, e), channels))
    ensures multiset(OnChannels(Merge([], files, b, e), channels))[m]
            == if b <= m.time <= e && (channels == {} || m.channel in channels) then Occurrences(files, m) else 0
  {
    MergeIsSortedSelection([], files, b, e);
    AllInRangeCount(files, b, e, m);
    OnChannelsCount(Merge([], files, b, e), channels, m);
    OnChannelsSorted(Merge([], files, b, e), channels);
  }

  // ---------------------------------------------------------------- ranges and windows of the merge

  lemma {:induction false} MergeNothing(buffer: seq<Message>, files: seq<seq<Message>>, b: int, e: int)
    requires b > e
    ensures Merge(buffer, files, b, e) == buffer
    decreases |files|
  {
    if files != [] {
      InRangeNone(files[0], b, e);
      MergeNothing(buffer, files[1..], b, e);
    }
  }

  /** Moving the window [b, e] into the buffer leaves the whole still to come unchanged. */
  lemma WindowStep(buffer: seq<Message>, files: seq<seq<Message>>, b: int, e: int, last: int)
    requires AllBefore(buffer, b) && b <= e + 1 <= last + 1
    ensures buffer + Merge([], files, b, last) == Merge(buffer, files, b, e) + Merge([], files, e + 1, last)
    ensures AllBefore(Merge(buffer, files, b, e), e + 1)
  {
    var whole, window, rest := Merge([], files, b, last), Merge([], files, b, e), Merge([], files, e + 1, last);
    MergeBehind(buffer, files, b, e);
    MergeApart(files, b, e, last);
    assert buffer + (window + rest) == (buffer + window) + rest;
  }

  /** Everything in the range comes behind a buffer that ends before it. */
  lemma MergeBehind(buffer: seq<Message>, files: seq<seq<Message>>, b: int, e: int)
    requires AllBefore(buffer, b) && b <= e + 1
    ensures Merge(buffer, files, b, e) == buffer + Merge([], files, b, e)
    ensures AllBefore(Merge(buffer, files, b, e), e + 1)
  {
    assert buffer + [] == buffer;
    MergeSplit(buffer, [], files, b, b, e);
    MergeNothing(buffer, files, b, b - 1);
    MergeSplit(buffer, [], files, b, e + 1, e);
  }

  lemma MergeApart(files: seq<seq<Message>>, b: int, e: int, last: int)
    requires b <= e + 1 <= last + 1
    ensures Merge([], files, b, last) == Merge([], files, b, e) + Merge([], files, e + 1, last)
  {
    var none: seq<Message> := [];
    assert none + none == none;
    MergeSplit([], [], files, b, e + 1, last);
  }

  lemma MergeFirst(buffer: seq<Message>, files: seq<seq<Message>>, i: nat, b: int, e: int)
    requires i < |files|
    ensures Merge(buffer, files[i..], b, e) == Merge(InsertAll(buffer, InRange(files[i], b, e)), files[i + 1..], b, e)
  {
    assert files[i..][0] == files[i] && files[i..][1..] == files[i + 1..];
  }

  /** Two ranges that no message tells apart select the same messages. */
  lemma {:induction false} InRangeSame(ms: seq<Message>, b: int, e: int, b': int, e': int)
    requires forall i | 0 <= i < |ms| :: b <= ms[i].time <= e <==> b' <= ms[i].time <= e'
    ensures InRange(ms, b, e) == InRange(ms, b', e')
  {
    if ms != [] { InRangeSame(ms[1..], b, e, b', e'); }
  }

  lemma {:induction false} MergeSame(buffer: seq<Message>, files: seq<seq<Message>>, b: int, e: int, b': int, e': int)
    requires forall k, i | 0 <= k < |files| && 0 <= i < |files[k]| ::
               b <= files[k][i].time <= e <==> b' <= files[k][i].time <= e'
    ensures Merge(buffer, files, b, e) == Merge(buffer, files, b', e')
    decreases |files|
  {
    if files != [] {
      InRangeSame(files[0], b, e, b', e');
      MergeSame(InsertAll(buffer, InRange(files[0], b, e)), files[1..], b, e, b', e');
    }
  }

  // ---------------------------------------------------------------- all files

  ghost function AllParts(readers: seq<Reader>, part: Part): (r: seq<seq<Message>>)
    ensures |r| == |readers| && forall i | 0 <= i < |r| :: r[i] == PartOf(readers[i], part)
  {
    seq(|readers|, i requires 0 <= i < |readers| => PartOf(readers[i], part))
  }

  /** A reader has passed nothing that a window from `t` on needs, or its file ended before `t`. */
  ghost predicate ReaderAt(finished: bool, r: Reader, t: int)
    reads r
  {
    if finished then r.file.header.endTime < t else PassedBefore(r, t)
  }

  ghost predicate AllUsable(readers: seq<Reader>) {
    readers == [] || (Usable(readers[|readers| - 1]) && AllUsable(readers[..|readers| - 1]))
  }

  lemma {:induction false} UsableAt(readers: seq<Reader>, i: nat)
    requires AllUsable(readers) && i < |readers|
    ensures Usable(readers[i])
  {
    if i < |readers| - 1 { UsableAt(readers[..|readers| - 1], i); }
  }

  lemma {:induction false} UsableFrom(readers: seq<Reader>)
    requires forall i | 0 <= i < |readers| :: Usable(readers[i])
    ensures AllUsable(readers)
  {
    if readers != [] { UsableFrom(readers[..|readers| - 1]); }
  }

  ghost predicate DistinctUsable(readers: seq<Reader>) {
    && AllUsable(readers)
    && (forall i, j | 0 <= i < j < |readers| :: readers[i] != readers[j])
  }

  /** All readers are at `t`. */
  ghost predicate AllAt(readers: seq<Reader>, finished: seq<bool>, t: int)
    requires |finished| == |readers|
    reads readers
  {
    readers == [] || (ReaderAt(finished[0], readers[0], t) && AllAt(readers[1..], finished[1..], t))
  }

  lemma {:induction false} EachAt(readers: seq<Reader>, finished: seq<bool>, t: int)
    requires |finished| == |readers| && forall i | 0 <= i < |readers| :: ReaderAt(finished[i], readers[i], t)
    ensures AllAt(readers, finished, t)
  {
    if readers != [] { EachAt(readers[1..], finished[1..], t); }
  }

  /** The readers before i, reader i and the readers behind it. */
  lemma {:induction false} AllAtSplit(readers: seq<Reader>, finished: seq<bool>, t: int, i: nat)
    requires i < |finished| == |readers|
    ensures AllAt(readers, finished, t) <==>
              && AllAt(readers[..i], finished[..i], t) && ReaderAt(finished[i], readers[i], t)
              && AllAt(readers[i + 1..], finished[i + 1..], t)
  {
    if i > 0 {
      AllAtSplit(readers[1..], finished[1..], t, i - 1);
      assert readers[1..][..i - 1] == readers[..i][1..] && finished[1..][..i - 1] == finished[..i][1..];
      assert readers[1..][i..] == readers[i + 1..] && finished[1..][i..] == finished[i + 1..];
    }
  }

  lemma OneMoreAt(readers: seq<Reader>, finished: seq<bool>, t: int, i: nat)
    requires i < |finished| == |readers| && AllAt(readers[..i], finished[..i], t) && ReaderAt(finished[i], readers[i], t)
    ensures AllAt(readers[..i + 1], finished[..i + 1], t)
  {
    var rs, fs := readers[..i + 1], finished[..i + 1];
    assert rs[..i] == readers[..i] && fs[..i] == finished[..i] && rs[i + 1..] == [] && fs[i + 1..] == [];
    AllAtSplit(rs, fs, t, i);
  }

  lemma OthersApart(readers: seq<Reader>, i: nat)
    requires i < |readers| && forall j, k | 0 <= j < k < |readers| :: readers[j] != readers[k]
    ensures readers[i] !in readers[..i] && readers[i] !in readers[i + 1..]
  {
  }

  /** The earliest begin time among the readers that could be opened. */
  function MinBegin(readers: seq<Reader>): nat {
    if readers == [] then UINT64_MAX
    else
      var rest := MinBegin(readers[..|readers| - 1]);
      var r := readers[|readers| - 1];
      if r.isValid && r.file.header.beginTime < rest then r.file.header.beginTime else rest
  }

  function MaxEnd(readers: seq<Reader>): nat {
    if readers == [] then 0
    else
      var rest := MaxEnd(readers[..|readers| - 1]);
      var r := readers[|readers| - 1];
      if r.isValid && rest < r.file.header.endTime then r.file.header.endTime else rest
  }

  lemma {:induction false} MinBeginBounds(readers: seq<Reader>, i: nat)
    requires i < |readers| && readers[i].isValid
    ensures MinBegin(readers) <= readers[i].file.header.beginTime
    ensures readers[i].file.header.endTime <= MaxEnd(readers)
  {
    if i < |readers| - 1 { MinBeginBounds(readers[..|readers| - 1], i); }
  }

  /** The range that is left of [b, e] when it is narrowed to what the headers state. */
  function From(readers: seq<Reader>, b: nat): nat {
    if b < MinBegin(readers) then MinBegin(readers) else b
  }

  function Until(readers: seq<Reader>, e: nat): nat {
    if e > MaxEnd(readers) then MaxEnd(readers) else e
  }

  /** The header of every readable file brackets its messages. */
  ghost predicate AllCovered(readers: seq<Reader>) {
    forall k | 0 <= k < |readers| && readers[k].isValid :: Covers(readers[k].file.header, readers[k].All())
  }

  /** Under true headers narrowing the range loses nothing. */
  lemma CoveredInRange(readers: seq<Reader>, k: nat, i: nat, b: nat, e: nat)
    requires AllCovered(readers) && k < |readers| && readers[k].isValid && i < |readers[k].All()|
    ensures b <= readers[k].All()[i].time <= e <==> From(readers, b) <= readers[k].All()[i].time <= Until(readers, e)
  {
    MinBeginBounds(readers, k);
  }

  lemma NarrowingKeepsAll(readers: seq<Reader>, b: nat, e: nat)
    requires AllCovered(readers)
    ensures Merge([], AllParts(readers, Everything), From(readers, b), Until(readers, e))
            == Merge([], AllParts(readers, Everything), b, e)
  {
    var files: seq<seq<Message>> := AllParts(readers, Everything);
    forall k, i | 0 <= k < |files| && 0 <= i < |files[k]|
      ensures b <= files[k][i].time <= e <==> From(readers, b) <= files[k][i].time <= Until(readers, e)
    {
      CoveredInRange(readers, k, i, b, e);
    }
    MergeSame([], files, b, e, From(readers, b), Until(readers, e));
  }

  lemma {:induction false} MoreReaders(readers: seq<Reader>, others: seq<Reader>)
    requires forall r | r in others :: r in readers
    ensures MinBegin(readers) <= MinBegin(others) && MaxEnd(others) <= MaxEnd(readers)
  {
    if others != [] {
      var r := others[|others| - 1];
      assert r in others;
      var k :| 0 <= k < |readers| && readers[k] == r;
      if r.isValid { MinBeginBounds(readers, k); }
      MoreReaders(readers, others[..|others| - 1]);
    } else {
      MinBeginSmall(readers);
    }
  }

  lemma {:induction false} MinBeginSmall(readers: seq<Reader>)
    ensures MinBegin(readers) <= UINT64_MAX
  {
    if readers != [] { MinBeginSmall(readers[..|readers| - 1]); }
  }

  // ---------------------------------------------------------------- sorting the readers

  /** The comparison of `Init`: by begin time, then by end time. */
  predicate Earlier(a: Reader, b: Reader) {
    if a.file.header.beginTime == b.file.header.beginTime then a.file.header.endTime < b.file.header.endTime
    else a.file.header.beginTime < b.file.header.beginTime
  }

  predicate OrderedByHeader(readers: seq<Reader>) {
    forall i, j | 0 <= i < j < |readers| :: !Earlier(readers[j], readers[i])
  }

  /** How often the files of the readers together hold `m`, or show it. */
  ghost function Held(readers: seq<Reader>, part: Part, m: Message): nat {
    if readers == [] then 0 else multiset(PartOf(readers[0], part))[m] + Held(readers[1..], part, m)
  }

  lemma {:induction false} HeldIsOccurrences(readers: seq<Reader>, part: Part, m: Message)
    ensures Occurrences(AllParts(readers, part), m) == Held(readers, part, m)
  {
    if readers != [] {
      HeldIsOccurrences(readers[1..], part, m);
      assert AllParts(readers, part)[1..] == AllParts(readers[1..], part);
    }
  }

  lemma {:induction false} HeldSnoc(readers: seq<Reader>, r: Reader, part: Part, m: Message)
    ensures Held(readers + [r], part, m) == Held(readers, part, m) + multiset(PartOf(r, part))[m]
  {
    if readers == [] {
      assert readers + [r] == [r] && [r][1..] == [];
    } else {
      HeldSnoc(readers[1..], r, part, m);
      assert (readers + [r])[1..] == readers[1..] + [r];
    }
  }

  /** Any sort will do: an ordered rearrangement of the readers. */
  method SortReaders(readers: seq<Reader>) returns (sorted: seq<Reader>)
    requires DistinctUsable(readers)
    ensures OrderedByHeader(sorted) && multiset(sorted) == multiset(readers) && DistinctUsable(sorted)
    ensures forall part, m :: Held(sorted, part, m) == Held(readers, part, m)
  {
    sorted := [];
    for i := 0 to |readers|
      invariant OrderedByHeader(sorted) && multiset(sorted) == multiset(readers[..i])
      invariant forall part, m :: Held(sorted, part, m) == Held(readers[..i], part, m)
    {
      assert readers[..i + 1] == readers[..i] + [readers[i]];
      PlaceAdds(sorted, readers[i]);
      PlaceOrdered(sorted, readers[i]);
      forall part, m ensures Held(PlaceReader(sorted, readers[i]), part, m) == Held(readers[..i + 1], part, m) {
        PlaceHolds(sorted, readers[i], part, m);
        HeldSnoc(readers[..i], readers[i], part, m);
      }
      sorted := PlaceReader(sorted, readers[i]);
    }
    assert readers[..|readers|] == readers;
    StillDistinct(readers, sorted);
  }

  function PlaceReader(sorted: seq<Reader>, r: Reader): seq<Reader> {
    if sorted == [] || Earlier(r, sorted[0]) then [r] + sorted else [sorted[0]] + PlaceReader(sorted[1..], r)
  }

  lemma {:induction false} PlaceAdds(sorted: seq<Reader>, r: Reader)
    ensures multiset(PlaceReader(sorted, r)) == multiset(sorted) + multiset{r}
  {
    if sorted != [] && !Earlier(r, sorted[0]) {
      PlaceAdds(sorted[1..], r);
      assert sorted == [sorted[0]] + sorted[1..];
    }
  }

  lemma {:induction false} PlaceHolds(sorted: seq<Reader>, r: Reader, part: Part, m: Message)
    ensures Held(PlaceReader(sorted, r), part, m) == Held(sorted, part, m) + multiset(PartOf(r, part))[m]
  {
    if sorted == [] || Earlier(r, sorted[0]) {
      assert ([r] + sorted)[1..] == sorted;
    } else {
      PlaceHolds(sorted[1..], r, part, m);
      assert ([sorted[0]] + PlaceReader(sorted[1..], r))[1..] == PlaceReader(sorted[1..], r);
    }
  }

  lemma {:induction false} PlaceOrdered(sorted: seq<Reader>, r: Reader)
    requires OrderedByHeader(sorted)
    ensures OrderedByHeader(PlaceReader(sorted, r))
  {
    if sorted != [] && !Earlier(r, sorted[0]) {
      var rest := PlaceReader(sorted[1..], r);
      PlaceOrdered(sorted[1..], r);
      PlaceAdds(sorted[1..], r);
      forall i | 0 <= i < |rest| ensures !Earlier(rest[i], sorted[0]) {
        assert rest[i] in multiset(rest);
        assert rest[i] == r || rest[i] in sorted[1..];
      }
    }
  }

  lemma StillDistinct(readers: seq<Reader>, sorted: seq<Reader>)
    requires DistinctUsable(readers) && multiset(sorted) == multiset(readers)
    ensures DistinctUsable(sorted)
  {
    forall i | 0 <= i < |sorted| ensures Usable(sorted[i]) {
      assert sorted[i] in multiset(sorted);
      assert sorted[i] in readers;
      var k :| 0 <= k < |readers| && readers[k] == sorted[i];
      UsableAt(readers, k);
    }
    UsableFrom(sorted);
    forall i, j | 0 <= i < j < |sorted| ensures sorted[i] != sorted[j] {
      CountOnce(readers, sorted[i]);
      CountTwice(sorted, i, j);
    }
  }

  lemma {:induction false} CountOnce(readers: seq<Reader>, r: Reader)
    requires forall i, j | 0 <= i < j < |readers| :: readers[i] != readers[j]
    ensures multiset(readers)[r] <= 1
  {
    if readers != [] {
      CountOnce(readers[1..], r);
      assert readers == [readers[0]] + readers[1..];
      assert readers[0] !in readers[1..];
    }
  }

  lemma CountTwice(readers: seq<Reader>, i: nat, j: nat)
    requires i < j < |readers|
    ensures readers[i] == readers[j] ==> multiset(readers)[readers[i]] >= 2
  {
    assert readers == readers[..j] + [readers[j]] + readers[j + 1..];
    assert readers[i] in readers[..j];
  }

  class Viewer {
    const readers: seq<Reader>
    const channels: set<string>
    var beginTime: nat
    var endTime: nat
    var currBeginTime: nat
    var readersFinished: seq<bool>
    var msgBuffer: seq<Message>

    ghost predicate ReadersOk()
      reads this`readersFinished
    {
      DistinctUsable(readers) && |readersFinished| == |readers|
    }

    ghost predicate Valid()
      reads this, readers
    {
      && ReadersOk() && AllAt(readers, readersFinished, currBeginTime)
      && AllBefore(msgBuffer, currBeginTime)
      && (currBeginTime <= endTime ==> BeginsWindow(beginTime, currBeginTime))
    }

    /** What each file shows to a view of this range. */
    ghost function Files(): seq<seq<Message>>
      reads this
    {
      AllParts(readers, Visible(beginTime, endTime))
    }

    /** Everything in view. */
    ghost function InView(): seq<Message>
      reads this
    {
      Merge([], Files(), beginTime, endTime)
    }

    /** Everything still to come, on any channel. */
    ghost function Pending(): seq<Message>
      reads this
    {
      msgBuffer + Merge([], Files(), currBeginTime, endTime)
    }

    constructor (readers: seq<Reader>, beginTime: nat, endTime: nat, channels: set<string>)
      requires DistinctUsable(readers)
      ensures multiset(this.readers) == multiset(readers) && OrderedByHeader(this.readers)
      ensures forall part, m :: Held(this.readers, part, m) == Held(readers, part, m)
      ensures this.channels == channels && ReadersOk()
      ensures this.beginTime == From(this.readers, beginTime) && this.endTime == Until(this.readers, endTime)
    {
      var sorted := SortReaders(readers);
      this.readers, this.channels := sorted, channels;
      this.beginTime, this.endTime, currBeginTime := beginTime, endTime, 0;
      msgBuffer := [];
      readersFinished := seq(|sorted|, i => false);
      new;
      UpdateTime();
    }

    /** Narrows the range to what the headers of the readable files state. If these are true, the narrower
        range selects the same messages. */
    method UpdateTime()
      requires ReadersOk()
      modifies this`beginTime, this`endTime, this`currBeginTime
      ensures beginTime == From(readers, old(beginTime)) && endTime == Until(readers, old(endTime))
      ensures currBeginTime == beginTime
      ensures AllCovered(readers) ==>
                Merge([], AllParts(readers, Everything), beginTime, endTime)
                == Merge([], AllParts(readers, Everything), old(beginTime), old(endTime))
    {
      var minBeginTime, maxEndTime := UINT64_MAX, 0;
      for i := 0 to |readers|
        invariant minBeginTime == MinBegin(readers[..i]) && maxEndTime == MaxEnd(readers[..i])
      {
        assert readers[..i + 1][..i] == readers[..i];
        if !readers[i].isValid { continue; }
        var header := readers[i].file.header;
        if minBeginTime > header.beginTime { minBeginTime := header.beginTime; }
        if maxEndTime < header.endTime { maxEndTime := header.endTime; }
      }
      assert readers[..|readers|] == readers;
      if beginTime < minBeginTime { beginTime := minBeginTime; }
      if endTime > maxEndTime { endTime := maxEndTime; }
      currBeginTime := beginTime;
      if AllCovered(readers) { NarrowingKeepsAll(readers, old(beginTime), old(endTime)); }
    }

    method Reset()
      requires ReadersOk()
      modifies this`readersFinished, this`currBeginTime, this`msgBuffer, readers
      ensures Valid() && Pending() == InView()
    {
      RewindReaders();
      readersFinished := seq(|readers|, i => false);
      currBeginTime := beginTime;
      msgBuffer := [];
      EachAt(readers, readersFinished, currBeginTime);
      assert Pending() == InView();
    }

    method RewindReaders()
      requires ReadersOk()
      modifies readers
      ensures forall i | 0 <= i < |readers| :: PassedBefore(readers[i], beginTime)
    {
      for i := 0 to |readers|
        invariant forall j | 0 <= j < i :: readers[j].Valid() && readers[j].taken == 0
      {
        UsableAt(readers, i);
        readers[i].Reset();
      }
    }

    /** Marks the readers whose file ends before the window, and rewinds them. */
    method RetireReaders(b: nat)
      requires Valid() && b == currBeginTime
      modifies this`readersFinished, readers
      ensures Valid() && Pending() == old(Pending())
    {
      for i := 0 to |readers|
        invariant Valid() && Pending() == old(Pending())
      {
        RetireReader(i, b);
      }
    }

    method RetireReader(i: nat, b: nat)
      requires Valid() && b == currBeginTime && i < |readers|
      modifies this`readersFinished, readers[i]
      ensures Valid() && Pending() == old(Pending())
    {
      if !readersFinished[i] && readers[i].file.header.endTime < b {
        AllAtSplit(readers, readersFinished, b, i);
        readersFinished := readersFinished[i := true];
        assert readersFinished[..i] == old(readersFinished)[..i];
        assert readersFinished[i + 1..] == old(readersFinished)[i + 1..];
        RewindReader(i, b);
        AllAtSplit(readers, readersFinished, b, i);
      }
    }

    /** Rewinding one reader leaves the others where they are. */
    method RewindReader(i: nat, t: nat)
      requires ReadersOk() && i < |readers|
      requires AllAt(readers[..i], readersFinished[..i], t) && AllAt(readers[i + 1..], readersFinished[i + 1..], t)
      modifies readers[i]
      ensures AllAt(readers[..i], readersFinished[..i], t) && AllAt(readers[i + 1..], readersFinished[i + 1..], t)
    {
      OthersApart(readers, i);
      UsableAt(readers, i);
      readers[i].Reset();
    }

    /** Moves every message of the window into the buffer. */
    method ReadWindow(b: nat, e: nat)
      requires Valid() && b == currBeginTime && b <= endTime && e == WindowEnd(b, endTime)
      modifies this`msgBuffer, readers
      ensures msgBuffer == Merge(old(msgBuffer), Files(), b, e)
      ensures AllAt(readers, readersFinished, e + 1)
    {
      ghost var files := Files();
      assert files[0..] == files && readers[0..] == readers && readersFinished[0..] == readersFinished;
      for i := 0 to |readers|
        invariant AllAt(readers[..i], readersFinished[..i], e + 1)
        invariant AllAt(readers[i..], readersFinished[i..], b)
        invariant Merge(msgBuffer, files[i..], b, e) == Merge(old(msgBuffer), files, b, e)
      {
        MergeFirst(msgBuffer, files, i, b, e);
        ReadFrom(i, b, e);
      }
      assert readers[..|readers|] == readers && readersFinished[..|readers|] == readersFinished;
    }

    /** Reader i hands over its messages of the window, unless it is finished. */
    method ReadFrom(i: nat, b: nat, e: nat)
      requires ReadersOk() && i < |readers| && BeginsWindow(beginTime, b) && b <= endTime && e == WindowEnd(b, endTime)
      requires AllAt(readers[..i], readersFinished[..i], e + 1) && AllAt(readers[i..], readersFinished[i..], b)
      modifies this`msgBuffer, readers[i]
      ensures AllAt(readers[..i + 1], readersFinished[..i + 1], e + 1)
      ensures AllAt(readers[i + 1..], readersFinished[i + 1..], b)
      ensures msgBuffer == InsertAll(old(msgBuffer), InRange(PartOf(readers[i], Visible(beginTime, endTime)), b, e))
    {
      OthersApart(readers, i);
      ghost var done, doneFlags := readers[..i], readersFinished[..i];
      ghost var rest, restFlags := readers[i + 1..], readersFinished[i + 1..];
      assert readers[i..][1..] == rest && readersFinished[i..][1..] == restFlags;
      assert AllAt(rest, restFlags, b) && AllAt(done, doneFlags, e + 1);
      UsableAt(readers, i);
      if readersFinished[i] {
        NotAdmitted(readers[i].file.header, readers[i].All(), beginTime, endTime, b);
      } else {
        msgBuffer := Drain(readers[i], msgBuffer, beginTime, endTime, b);
      }
      assert AllAt(rest, restFlags, b) && AllAt(done, doneFlags, e + 1);
      OneMoreAt(readers, readersFinished, e + 1, i);
    }

    /** One round of `FillBuffer`: the next window of the range goes into the buffer. */
    method FillWindow()
      requires Valid() && currBeginTime <= endTime
      modifies this`currBeginTime, this`msgBuffer, readers
      ensures Valid() && Pending() == old(Pending()) && currBeginTime > old(currBeginTime)
      ensures currBeginTime <= endTime + 1
    {
      var thisBeginTime := currBeginTime;
      var thisEndTime := thisBeginTime + STEP_TIME_NS;
      if thisEndTime > endTime { thisEndTime := endTime; }
      ghost var files := Files();
      WindowStep(msgBuffer, files, thisBeginTime, thisEndTime, endTime);
      PassWindow(thisBeginTime, thisEndTime);
      assert Pending() == msgBuffer + Merge([], files, currBeginTime, endTime);
    }

    /** Reads the window; the intervals are closed, so the next one begins one later. */
    method PassWindow(b: nat, e: nat)
      requires Valid() && b == currBeginTime && b <= endTime && e == WindowEnd(b, endTime)
      requires AllBefore(Merge(msgBuffer, Files(), b, e), e + 1)
      modifies this`currBeginTime, this`msgBuffer, readers
      ensures Valid() && currBeginTime == e + 1 && msgBuffer == Merge(old(msgBuffer), Files(), b, e)
    {
      ReadWindow(b, e);
      NextWindow(beginTime, b);
      currBeginTime := e + 1;
    }

    /** Reads windows until the buffer is large enough or the range is used up. Nothing is lost, doubled or
        reordered; false means that nothing is left. */
    method FillBuffer() returns (filled: bool)
      requires Valid()
      modifies this`readersFinished, this`currBeginTime, this`msgBuffer, readers
      ensures Valid() && Pending() == old(Pending())
      ensures filled == (msgBuffer != []) && (!filled ==> Pending() == [])
      ensures |msgBuffer| >= BUFFER_MIN_SIZE || currBeginTime > endTime
    {
      while currBeginTime <= endTime && |msgBuffer| < BUFFER_MIN_SIZE
        invariant Valid() && Pending() == old(Pending())
        decreases endTime + 1 - currBeginTime
      {
        RetireReaders(currBeginTime);
        FillWindow();
      }
      if currBeginTime > endTime { MergeNothing([], Files(), currBeginTime, endTime); }
      return msgBuffer != [];
    }

    /** The next message on a chosen channel, or false when there is none. */
    method Update() returns (find: bool, message: Message)
      requires Valid()
      modifies this`readersFinished, this`currBeginTime, this`msgBuffer, readers
      ensures Valid()
      ensures OnChannels(old(Pending()), channels)
              == (if find then [message] else []) + OnChannels(Pending(), channels)
      ensures !find ==> Pending() == []
    {
      find, message := false, Message("", 0, "");
      while !find
        invariant Valid()
        invariant OnChannels(old(Pending()), channels)
                  == (if find then [message] else []) + OnChannels(Pending(), channels)
        decreases !find, |Pending()|
      {
        if msgBuffer == [] {
          var filled := FillBuffer();
          if !filled { break; }
        }
        var msg := Pop();
        if channels == {} || msg.channel in channels {
          message, find := msg, true;
        }
      }
    }

    predicate IsValid()
      reads this
    {
      beginTime <= endTime
    }

    /** Rewinds and takes the first message of the view, if the range is not empty. */
    method Start() returns (find: bool, message: Message)
      requires ReadersOk()
      modifies this`readersFinished, this`currBeginTime, this`msgBuffer, readers
      ensures Valid()
      ensures OnChannels(InView(), channels) == (if find then [message] else []) + OnChannels(Pending(), channels)
      ensures !find ==> OnChannels(InView(), channels) == []
    {
      Reset();
      find, message := false, Message("", 0, "");
      if IsValid() {
        find, message := Update();
      } else {
        MergeNothing([], Files(), beginTime, endTime);
      }
    }

    /** Takes the earliest message out of the buffer. */
    method Pop() returns (msg: Message)
      requires Valid() && msgBuffer != []
      modifies this`msgBuffer
      ensures Valid() && old(Pending()) == [msg] + Pending()
    {
      msg := msgBuffer[0];
      FirstOut(msgBuffer, Merge([], Files(), currBeginTime, endTime), currBeginTime);
      msgBuffer := msgBuffer[1..];
    }
  }

  /** `RecordViewer::Iterator`; the end iterator is one with `atEnd`. */
  class Iterator {
    const viewer: Viewer
    var atEnd: bool
    var index: nat
    var message: Message

    /** What dereferencing and advancing this iterator will still show. */
    ghost function Remaining(): seq<Message>
      reads this, viewer
    {
      if atEnd then [] else [message] + OnChannels(viewer.Pending(), viewer.channels)
    }

    /** `begin()`: a fresh iterator always starts from the whole view. */
    constructor (viewer: Viewer)
      requires viewer.ReadersOk()
      modifies viewer`readersFinished, viewer`currBeginTime, viewer`msgBuffer, viewer.readers
      ensures this.viewer == viewer && viewer.Valid() && index == 0
      ensures Remaining() == OnChannels(viewer.InView(), viewer.channels)
    {
      var find, next := viewer.Start();
      this.viewer, index, atEnd, message := viewer, 0, !find, next;
    }

    method Advance()
      requires viewer.Valid() && !atEnd
      modifies this`atEnd, this`index, this`message
      modifies viewer`readersFinished, viewer`currBeginTime, viewer`msgBuffer, viewer.readers
      ensures viewer.Valid() && index == old(index) + 1
      ensures Remaining() == old(Remaining())[1..]
    {
      var find, next := viewer.Update();
      Show(find, next);
    }

    method Show(find: bool, next: Message)
      modifies this`atEnd, this`index, this`message
      ensures atEnd == !find && index == old(index) + 1 && (find ==> message == next)
    {
      atEnd, index := !find, index + 1;
      if find { message := next; }
    }
  }

  lemma FirstOut(buffer: seq<Message>, rest: seq<Message>, t: int)
    requires buffer != [] && AllBefore(buffer, t)
    ensures buffer + rest == [buffer[0]] + (buffer[1..] + rest) && AllBefore(buffer[1..], t)
  {
  }

  lemma TakeHead(out: seq<Message>, rest: seq<Message>)
    requires rest != []
    ensures out + rest == (out + [rest[0]]) + rest[1..]
  {
  }

  /** The range-based loop over a viewer yields exactly the view, and so does every later one. */
  method Collect(viewer: Viewer) returns (out: seq<Message>)
    requires viewer.ReadersOk()
    modifies viewer`readersFinished, viewer`currBeginTime, viewer`msgBuffer, viewer.readers
    ensures viewer.ReadersOk()
    ensures out == OnChannels(Merge([], viewer.Files(), viewer.beginTime, viewer.endTime), viewer.channels)
  {
    var it := new Iterator(viewer);
    out := [];
    ghost var view := it.Remaining();
    while !it.atEnd
      invariant it.viewer == viewer && viewer.Valid() && fresh(it)
      invariant view == out + it.Remaining()
      decreases |it.Remaining()|
    {
      TakeHead(out, it.Remaining());
      out := out + [it.message];
      it.Advance();
    }
    assert out + [] == out;
  }

  // ---------------------------------------------------------------- what a view shows

  /** A message that a view of [b, e] on the chosen channels is asked for. */
  predicate Asked(m: Message, b: nat, e: nat, channels: set<string>) {
    b <= m.time <= e && (channels == {} || m.channel in channels)
  }

  /** A view of [b, e] comes to every occurrence of `m` in the file. */
  predicate AllReached(h: Header, ms: seq<Message>, m: Message, b: nat, e: nat) {
    forall i | 0 <= i < |ms| && ms[i] == m :: Reached(h, ms[..i], m, b, e)
  }

  ghost predicate NoneHidden(readers: seq<Reader>, m: Message, b: nat, e: nat) {
    forall r | r in readers && r.isValid :: AllReached(r.file.header, r.All(), m, b, e)
  }

  lemma {:induction false} ShownCount(h: Header, ms: seq<Message>, m: Message, b: nat, e: nat)
    ensures multiset(Shown(h, ms, b, e))[m] <= multiset(ms)[m]
    ensures multiset(Shown(h, ms, b, e))[m] == multiset(ms)[m] <==> AllReached(h, ms, m, b, e)
  {
    if ms != [] {
      var k := |ms| - 1;
      ShownCount(h, ms[..k], m, b, e);
      CountLast(ms, m);
      ShownLast(h, ms, m, b, e);
      AllReachedLast(h, ms, m, b, e);
    }
  }

  lemma CountLast(ms: seq<Message>, m: Message)
    requires ms != []
    ensures multiset(ms)[m] == multiset(ms[..|ms| - 1])[m] + if ms[|ms| - 1] == m then 1 else 0
  {
    assert ms == ms[..|ms| - 1] + [ms[|ms| - 1]];
  }

  lemma ShownLast(h: Header, ms: seq<Message>, m: Message, b: nat, e: nat)
    requires ms != []
    ensures
      var before, last := ms[..|ms| - 1], ms[|ms| - 1];
      multiset(Shown(h, ms, b, e))[m]
      == multiset(Shown(h, before, b, e))[m] + if Reached(h, before, last, b, e) && last == m then 1 else 0
  {
    var before := Shown(h, ms[..|ms| - 1], b, e);
    assert before + [] == before;
  }

  lemma AllReachedLast(h: Header, ms: seq<Message>, m: Message, b: nat, e: nat)
    requires ms != []
    ensures
      var before, last := ms[..|ms| - 1], ms[|ms| - 1];
      AllReached(h, ms, m, b, e) <==> AllReached(h, before, m, b, e) && (last == m ==> Reached(h, before, m, b, e))
  {
    var k := |ms| - 1;
    assert forall i | 0 <= i < k :: ms[..k][..i] == ms[..i] && ms[..k][i] == ms[i];
  }

  lemma {:induction false} ShownInRange(h: Header, ms: seq<Message>, m: Message, b: nat, e: nat)
    requires !(b <= m.time <= e)
    ensures multiset(Shown(h, ms, b, e))[m] == 0
  {
    if ms != [] { ShownInRange(h, ms[..|ms| - 1], m, b, e); }
  }

  /** The files show a message as often as they hold it if and only if no occurrence is hidden. */
  lemma {:induction false} HeldIffNoneHidden(readers: seq<Reader>, m: Message, b: nat, e: nat)
    ensures Held(readers, Visible(b, e), m) <= Held(readers, Everything, m)
    ensures Held(readers, Visible(b, e), m) == Held(readers, Everything, m) <==> NoneHidden(readers, m, b, e)
  {
    if readers != [] {
      HeldIffNoneHidden(readers[1..], m, b, e);
      var r := readers[0];
      if r.isValid { ShownCount(r.file.header, r.All(), m, b, e); }
      assert forall x :: x in readers <==> x == r || x in readers[1..];
    }
  }

  lemma {:induction false} HeldInRange(readers: seq<Reader>, m: Message, b: nat, e: nat)
    requires !(b <= m.time <= e)
    ensures Held(readers, Visible(b, e), m) == 0
  {
    if readers != [] {
      HeldInRange(readers[1..], m, b, e);
      if readers[0].isValid { ShownInRange(readers[0].file.header, readers[0].All(), m, b, e); }
    }
  }

  /** From any files and any request to what is shown: in the order of time, each message asked for as often
      as the files show it. That is as often as they hold it if and only if the windows reach every
      occurrence. */
  method View(readers: seq<Reader>, b: nat, e: nat, channels: set<string>) returns (out: seq<Message>)
    requires DistinctUsable(readers)
    modifies readers
    ensures SortedByTime(out)
    ensures forall m :: multiset(out)[m]
                        == if Asked(m, b, e, channels) then Held(readers, Visible(From(readers, b), Until(readers, e)), m) else 0
    ensures forall m | Asked(m, b, e, channels) ::
              multiset(out)[m] == Held(readers, Everything, m)
              <==> NoneHidden(readers, m, From(readers, b), Until(readers, e))
  {
    var viewer := new Viewer(readers, b, e, channels);
    SameReaders(viewer.readers, readers);
    assert forall i | 0 <= i < |viewer.readers| :: viewer.readers[i] in readers;
    out := Collect(viewer);
    ghost var b', e' := viewer.beginTime, viewer.endTime;
    ViewIsExact(viewer.Files(), b', e', channels, Message("", 0, ""));
    forall m
      ensures multiset(out)[m] == if Asked(m, b, e, channels) then Held(readers, Visible(b', e'), m) else 0
    {
      ViewIsExact(viewer.Files(), b', e', channels, m);
      HeldIsOccurrences(viewer.readers, Visible(b', e'), m);
      if !(b' <= m.time <= e') { HeldInRange(readers, m, b', e'); }
    }
    forall m { HeldIffNoneHidden(readers, m, b', e'); }
  }

  lemma SameReaders(sorted: seq<Reader>, readers: seq<Reader>)
    requires multiset(sorted) == multiset(readers)
    ensures forall r :: r in sorted <==> r in readers
    ensures MinBegin(sorted) == MinBegin(readers) && MaxEnd(sorted) == MaxEnd(readers)
  {
    assert forall r :: r in sorted <==> r in multiset(sorted);
    MoreReaders(readers, sorted);
    MoreReaders(sorted, readers);
  }

  // ---------------------------------------------------------------- when a view shows everything

  /** Along the file the windows of a view of [b, e] never decrease. */
  predicate WindowsInOrder(ms: seq<Message>, b: nat, e: nat) {
    forall i, j | 0 <= i < j < |ms| && b <= ms[j].time <= e :: ms[i].time <= WindowEnd(WindowBegin(b, ms[j].time), e)
  }

  lemma WindowHolds(b: nat, e: nat, t: nat)
    requires b <= t <= e
    ensures b <= WindowBegin(b, t) <= t <= WindowEnd(WindowBegin(b, t), e)
  {
  }

  /** Under a true header only the order of the windows matters. */
  lemma CoveredReached(h: Header, ms: seq<Message>, i: nat, b: nat, e: nat)
    requires Covers(h, ms) && i < |ms| && b <= ms[i].time <= e
    ensures Reached(h, ms[..i], ms[i], b, e) <==>
              forall j | 0 <= j < i :: ms[j].time <= WindowEnd(WindowBegin(b, ms[i].time), e)
  {
    WindowHolds(b, e, ms[i].time);
    assert forall j | 0 <= j < i :: ms[..i][j] == ms[j];
  }

  ghost predicate AllInOrder(readers: seq<Reader>, b: nat, e: nat) {
    forall k | 0 <= k < |readers| && readers[k].isValid :: WindowsInOrder(readers[k].All(), b, e)
  }

  /** Files whose headers are true are shown exactly if and only if along each of them the windows of the
      view never decrease. */
  lemma ExactIffWindowsInOrder(readers: seq<Reader>, b: nat, e: nat)
    requires AllCovered(readers)
    ensures
      var b', e' := From(readers, b), Until(readers, e);
      (forall m: Message | b <= m.time <= e :: Held(readers, Visible(b', e'), m) == Held(readers, Everything, m))
      <==> AllInOrder(readers, b', e')
  {
    var b', e' := From(readers, b), Until(readers, e);
    if AllInOrder(readers, b', e') {
      forall m: Message | b <= m.time <= e
        ensures Held(readers, Visible(b', e'), m) == Held(readers, Everything, m)
      {
        InOrderNoneHidden(readers, m, b, e);
        HeldIffNoneHidden(readers, m, b', e');
      }
    } else {
      var m := HiddenByOrder(readers, b, e);
      HeldIffNoneHidden(readers, m, b', e');
    }
  }

  lemma InOrderNoneHidden(readers: seq<Reader>, m: Message, b: nat, e: nat)
    requires AllCovered(readers) && b <= m.time <= e
    requires AllInOrder(readers, From(readers, b), Until(readers, e))
    ensures NoneHidden(readers, m, From(readers, b), Until(readers, e))
  {
    forall r | r in readers && r.isValid
      ensures AllReached(r.file.header, r.All(), m, From(readers, b), Until(readers, e))
    {
      var k :| 0 <= k < |readers| && readers[k] == r;
      var ms := r.All();
      forall i | 0 <= i < |ms| && ms[i] == m
        ensures Reached(r.file.header, ms[..i], m, From(readers, b), Until(readers, e))
      {
        CoveredInRange(readers, k, i, b, e);
        CoveredReached(r.file.header, ms, i, From(readers, b), Until(readers, e));
      }
    }
  }

  lemma HiddenByOrder(readers: seq<Reader>, b: nat, e: nat) returns (m: Message)
    requires AllCovered(readers) && !AllInOrder(readers, From(readers, b), Until(readers, e))
    ensures b <= m.time <= e && !NoneHidden(readers, m, From(readers, b), Until(readers, e))
  {
    var b', e' := From(readers, b), Until(readers, e);
    var k :| 0 <= k < |readers| && readers[k].isValid && !WindowsInOrder(readers[k].All(), b', e');
    var ms := readers[k].All();
    var i, j :| 0 <= i < j < |ms| && b' <= ms[j].time <= e' && ms[i].time > WindowEnd(WindowBegin(b', ms[j].time), e');
    m := ms[j];
    CoveredInRange(readers, k, j, b, e);
    CoveredReached(readers[k].file.header, ms, j, b', e');
    assert !AllReached(readers[k].file.header, ms, m, b', e');
  }

  lemma SortedInOrder(ms: seq<Message>, b: nat, e: nat)
    requires SortedByTime(ms)
    ensures WindowsInOrder(ms, b, e)
  {
    forall j | 0 <= j < |ms| && b <= ms[j].time <= e
      ensures ms[j].time <= WindowEnd(WindowBegin(b, ms[j].time), e)
    {
      WindowHolds(b, e, ms[j].time);
    }
  }

  // ---------------------------------------------------------------- one file alone

  function FromHeader(h: Header, b: nat): nat {
    var first := if h.beginTime < UINT64_MAX then h.beginTime else UINT64_MAX;
    if b < first then first else b
  }

  function UntilHeader(h: Header, e: nat): nat {
    if e > h.endTime then h.endTime else e
  }

  /** The view of [b, e] of one file. */
  function FileView(f: File, b: nat, e: nat, channels: set<string>): seq<Message> {
    var b', e' := FromHeader(f.header, b), UntilHeader(f.header, e);
    OnChannels(Merge([], [Shown(f.header, Messages(f.sections), b', e')], b', e'), channels)
  }

  /** The viewer of a single reader shows exactly this. */
  method ViewFile(r: Reader, b: nat, e: nat, channels: set<string>) returns (out: seq<Message>)
    requires Usable(r) && r.isValid
    modifies r
    ensures out == FileView(r.file, b, e, channels)
  {
    UsableFrom([r]);
    var viewer := new Viewer([r], b, e, channels);
    OnlyReader(viewer.readers, r);
    out := Collect(viewer);
    assert viewer.Files() == [PartOf(r, Visible(viewer.beginTime, viewer.endTime))];
  }

  lemma OnlyReader(readers: seq<Reader>, r: Reader)
    requires multiset(readers) == multiset([r])
    ensures readers == [r]
    ensures r.isValid ==> forall b: nat :: From(readers, b) == FromHeader(r.file.header, b)
    ensures r.isValid ==> forall e: nat :: Until(readers, e) == UntilHeader(r.file.header, e)
  {
    assert |readers| == |multiset(readers)| == 1;
    assert readers[0] in multiset(readers);
    assert readers[..0] == [] && MinBegin([]) == UINT64_MAX && MaxEnd([]) == 0;
  }

  /** Whatever the file, its view is sorted and shows a message asked for as often as the file holds it if
      and only if the windows reach every occurrence. */
  lemma FileViewCounts(f: File, b: nat, e: nat, channels: set<string>, m: Message)
    ensures SortedByTime(FileView(f, b, e, channels))
    ensures !Asked(m, b, e, channels) ==> m !in FileView(f, b, e, channels)
    ensures multiset(FileView(f, b, e, channels))[m] <= multiset(Messages(f.sections))[m]
    ensures Asked(m, b, e, channels) ==>
              (multiset(FileView(f, b, e, channels))[m] == multiset(Messages(f.sections))[m]
               <==> AllReached(f.header, Messages(f.sections), m, FromHeader(f.header, b), UntilHeader(f.header, e)))
  {
    var b', e', all := FromHeader(f.header, b), UntilHeader(f.header, e), Messages(f.sections);
    var shown := Shown(f.header, all, b', e');
    assert Occurrences([shown], m) == multiset(shown)[m] by { assert [shown][1..] == []; }
    ViewIsExact([shown], b', e', channels, m);
    ShownCount(f.header, all, m, b', e');
    if !(b' <= m.time <= e') { ShownInRange(f.header, all, m, b', e'); }
    assert m in FileView(f, b, e, channels) <==> multiset(FileView(f, b, e, channels))[m] > 0;
  }

  lemma {:induction false} SortedShown(h: Header, ms: seq<Message>, b: nat, e: nat)
    requires SortedByTime(ms) && Covers(h, ms)
    ensures Shown(h, ms, b, e) == InRange(ms, b, e)
  {
    if ms != [] {
      var k := |ms| - 1;
      SortedShown(h, ms[..k], b, e);
      InRangeAppend(ms[..k], [ms[k]], b, e);
      assert ms == ms[..k] + [ms[k]];
      if b <= ms[k].time <= e {
        SortedInOrder(ms, b, e);
        CoveredReached(h, ms, k, b, e);
      }
    }
  }

  lemma {:induction false} InRangeTwice(ms: seq<Message>, b: int, e: int)
    ensures InRange(InRange(ms, b, e), b, e) == InRange(ms, b, e)
  {
    if ms != [] {
      InRangeTwice(ms[1..], b, e);
      if b <= ms[0].time <= e { InRangeCons(ms[0], ms[1..], b, e); }
    }
  }

  lemma {:induction false} InsertAllInOrder(buffer: seq<Message>, ms: seq<Message>)
    requires SortedByTime(buffer + ms)
    ensures InsertAll(buffer, ms) == buffer + ms
    decreases |ms|
  {
    if ms == [] {
      assert buffer + ms == buffer;
    } else {
      assert buffer + ms == (buffer + [ms[0]]) + ms[1..];
      assert buffer != [] ==> (buffer + ms)[|buffer| - 1].time <= (buffer + ms)[|buffer|].time;
      InsertAllInOrder(buffer + [ms[0]], ms[1..]);
    }
  }

  lemma {:induction false} InRangeSorted(ms: seq<Message>, b: int, e: int)
    requires SortedByTime(ms)
    ensures SortedByTime(InRange(ms, b, e)) && forall i | 0 <= i < |InRange(ms, b, e)| :: InRange(ms, b, e)[i] in ms
  {
    if ms != [] { InRangeSorted(ms[1..], b, e); }
  }

  /** A sorted file with a true header is shown as it stands. */
  lemma SortedFileView(f: File, b: nat, e: nat, channels: set<string>)
    requires SortedByTime(Messages(f.sections)) && Covers(f.header, Messages(f.sections))
    ensures FileView(f, b, e, channels) == OnChannels(InRange(Messages(f.sections), b, e), channels)
  {
    var b', e', all := FromHeader(f.header, b), UntilHeader(f.header, e), Messages(f.sections);
    SortedShown(f.header, all, b', e');
    MergeOfOne(all, b', e');
    InRangeSame(all, b, e, b', e');
  }

  lemma MergeOfOne(ms: seq<Message>, b: int, e: int)
    requires SortedByTime(ms)
    ensures Merge([], [InRange(ms, b, e)], b, e) == InRange(ms, b, e)
  {
    var part := InRange(ms, b, e);
    InRangeTwice(ms, b, e);
    InRangeSorted(ms, b, e);
    assert [] + part == part;
    InsertAllInOrder([], part);
    assert [part][1..] == [] && Merge(part, [], b, e) == part;
  }

  /** A file whose header ends before it begins is never shown at all. */
  lemma BackwardFileView(f: File, b: nat, e: nat, channels: set<string>)
    requires f.header.endTime < f.header.beginTime && f.header.endTime < UINT64_MAX
    ensures FileView(f, b, e, channels) == []
  {
    var b', e' := FromHeader(f.header, b), UntilHeader(f.header, e);
    MergeNothing([], [Shown(f.header, Messages(f.sections), b', e')], b', e');
  }
}
