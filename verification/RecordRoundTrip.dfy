/**
 From WriteMessage to the reader and the viewer: what comes back of the messages that a record writer
 accepted, over every interleaving of its two threads.
 */
module RecordRoundTrip {

  import opened RecordFormat
  import opened RecordReader
  import opened RecordViewer
  import opened RecordWriter

  /** Round trip: reading a closed file with the default range returns exactly the accepted messages, in
      the order of the chunks, which is the order of acceptance unless a swap crossed. */
  method ReadBack(h: Header, actions: seq<Action>) returns (messages: seq<Message>)
    requires FreshHeader(h) && Run(Open(h), actions) && Final(Open(h), actions).writer.Closed?
    requires Fits(Final(Open(h), actions).accepted)
    ensures var s := Final(Open(h), actions);
            && messages == Messages(s.out.sections) && multiset(messages) == multiset(s.accepted)
            && (!s.crossed ==> messages == s.accepted)
  {
    ClosedFileIsReadable(h, actions);
    var s := Final(Open(h), actions);
    var reader := new Reader(File(s.disk, s.out.sections), true);
    messages := reader.ReadAll();
  }

  // ---------------------------------------------------------------- writing, then viewing

  /** Every view gives back exactly the accepted messages of the request, in the order of acceptance. */
  ghost predicate Viewable(s: State) {
    forall b, e, channels :: Answered(s, b, e, channels)
  }

  ghost predicate Answered(s: State, b: nat, e: nat, channels: set<string>) {
    FileView(File(s.disk, s.out.sections), b, e, channels) == OnChannels(InRange(s.accepted, b, e), channels)
  }

  /** Messages accepted in strictly increasing order of time come back on every request if and only if no
      swap crossed. */
  lemma ViewableIffNeverCrossed(h: Header, actions: seq<Action>)
    requires FreshHeader(h) && Run(Open(h), actions) && Final(Open(h), actions).writer.Closed?
    requires NoZero(Final(Open(h), actions).accepted) && StrictlyIncreasing(Final(Open(h), actions).accepted)
    ensures Viewable(Final(Open(h), actions)) <==> !Final(Open(h), actions).crossed
  {
    var s := Final(Open(h), actions);
    ClosedFileIsComplete(h, actions);
    if s.crossed {
      CrossedIsUnsorted(h, actions);
      HidesOne(s);
    } else {
      ClosedFileIsSorted(h, actions);
      KeptFile(h, actions);
      forall b, e, channels ensures Answered(s, b, e, channels) {
        SortedFileView(File(s.disk, s.out.sections), b, e, channels);
      }
    }
  }

  lemma KeptFile(h: Header, actions: seq<Action>)
    requires FreshHeader(h) && Run(Open(h), actions) && Final(Open(h), actions).writer.Closed?
    requires !Final(Open(h), actions).crossed
    ensures Messages(Final(Open(h), actions).out.sections) == Final(Open(h), actions).accepted
  {
    OpenInv(h);
    RunInv(Open(h), actions);
    ClosedOrder(Final(Open(h), actions));
  }

  lemma CrossedIsUnsorted(h: Header, actions: seq<Action>)
    requires FreshHeader(h) && Run(Open(h), actions) && Final(Open(h), actions).writer.Closed?
    requires Final(Open(h), actions).crossed && StrictlyIncreasing(Final(Open(h), actions).accepted)
    ensures !SortedByTime(Messages(Final(Open(h), actions).out.sections))
  {
    var s := Final(Open(h), actions);
    ClosedFileIsComplete(h, actions);
    MessagesKeptIffNeverCrossed(h, actions);
    if SortedByTime(Messages(s.out.sections)) { SortedPermutationIsSame(Messages(s.out.sections), s.accepted); }
  }

  /** In a file that is not sorted, a request that ends with a message that came too late misses it. */
  lemma HidesOne(s: State)
    requires multiset(Messages(s.out.sections)) == multiset(s.accepted) && !SortedByTime(Messages(s.out.sections))
    ensures !Viewable(s)
  {
    var f, all := File(s.disk, s.out.sections), Messages(s.out.sections);
    var i, j :| 0 <= i < j < |all| && all[i].time > all[j].time;
    var m, e := all[j], all[j].time;
    assert all[..j][i] == all[i];
    assert !Reached(f.header, all[..j], m, FromHeader(f.header, 0), UntilHeader(f.header, e));
    FileViewCounts(f, 0, e, {}, m);
    OnChannelsCount(InRange(s.accepted, 0, e), {}, m);
    InRangeCount(s.accepted, 0, e, m);
    assert !Answered(s, 0, e, {});
  }

  /** The failure seen by the viewer: of the two messages of the crossed file no view shows any. */
  lemma CrossedFileIsNeverShown() returns (s: State)
    ensures Reaches(Open(TINY_CHUNKS), s) && s.writer.Closed? && s.crossed
    ensures s.accepted == [Message("c", 1, "xx"), Message("c", 2, "xx")]
    ensures forall b, e, channels :: FileView(File(s.disk, s.out.sections), b, e, channels) == []
  {
    s := CrossingHappens();
    forall b, e, channels ensures FileView(File(s.disk, s.out.sections), b, e, channels) == [] {
      BackwardFileView(File(s.disk, s.out.sections), b, e, channels);
    }
  }

  /** Round trip through the viewer, for any messages without time 0, any interleaving and any request: what
      comes back is sorted, holds nothing that was not asked for, and a message asked for as often as it was
      accepted if and only if the windows reach every occurrence in the file. */
  method ViewBack(h: Header, actions: seq<Action>, b: nat, e: nat, channels: set<string>) returns (out: seq<Message>)
    requires FreshHeader(h) && Run(Open(h), actions) && Final(Open(h), actions).writer.Closed?
    requires NoZero(Final(Open(h), actions).accepted)
    ensures SortedByTime(out)
    ensures forall m | m in out :: Asked(m, b, e, channels)
    ensures
      var s := Final(Open(h), actions);
      forall m | Asked(m, b, e, channels) ::
        multiset(out)[m] == multiset(s.accepted)[m]
        <==> AllReached(s.disk, Messages(s.out.sections), m, FromHeader(s.disk, b), UntilHeader(s.disk, e))
    ensures
      var s := Final(Open(h), actions);
      SortedByTime(s.accepted) && !s.crossed ==> out == OnChannels(InRange(s.accepted, b, e), channels)
  {
    ClosedFileIsComplete(h, actions);
    var s := Final(Open(h), actions);
    var f := File(s.disk, s.out.sections);
    var reader := new Reader(f, true);
    out := ViewFile(reader, b, e, channels);
    forall m { FileViewCounts(f, b, e, channels, m); }
    FileViewCounts(f, b, e, channels, Message("", 0, ""));
    if SortedByTime(s.accepted) && !s.crossed {
      ClosedFileIsSorted(h, actions);
      KeptFile(h, actions);
      SortedFileView(f, b, e, channels);
    }
  }
}
