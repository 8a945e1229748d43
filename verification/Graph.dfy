/**
 The topology graph: cyber/service_discovery/container/graph.cc. Per channel the graph keeps the writers
 and the readers, and beside it an adjacency list with one entry per writer, channel and reader, which is
 updated incrementally and searched breadth first.
 */
module Graph {

  datatype Edge = Edge(src: string, dst: string, value: string)

  /** The empty name is the dummy vertex. */
  predicate IsDummy(v: string) {
    v == ""
  }

  predicate IsValid(e: Edge) {
    e.value != "" && !(IsDummy(e.src) && IsDummy(e.dst))
  }

  function GetKey(value: string, dst: string): string {
    value + "_" + dst
  }

  datatype Related = Related(src: set<string>, dst: set<string>)

  type EdgeInfo = map<string, Related>

  type Adjacency = map<string, map<string, string>>

  /** A complete edge: a writer, a channel and a reader of it. */
  datatype Triple = Triple(src: string, channel: string, dst: string)

  function Key(t: Triple): string {
    GetKey(t.channel, t.dst)
  }

  // ---------------------------------------------------------------- the specification

  function One(v: string): set<string> {
    if IsDummy(v) then {} else {v}
  }

  /** What an insertion means for the writers and readers. */
  function Inserted(edges: EdgeInfo, e: Edge): EdgeInfo {
    if !IsValid(e) then edges
    else
      var r := if e.value in edges then edges[e.value] else Related({}, {});
      edges[e.value := Related(r.src + One(e.src), r.dst + One(e.dst))]
  }

  function Deleted(edges: EdgeInfo, e: Edge): EdgeInfo {
    if !IsValid(e) || e.value !in edges then edges
    else edges[e.value := Related(edges[e.value].src - One(e.src), edges[e.value].dst - One(e.dst))]
  }

  function Writers(edges: EdgeInfo, c: string): set<string> {
    if c in edges then edges[c].src else {}
  }

  function Readers(edges: EdgeInfo, c: string): set<string> {
    if c in edges then edges[c].dst else {}
  }

  /** The writers and readers after an insertion, channel by channel: a channel and its ends that have a name
      are joined, nothing else changes. */
  ghost predicate Joins(edges: EdgeInfo, edges': EdgeInfo, e: Edge) {
    forall c ::
      && Writers(edges', c) == Writers(edges, c) + (if c == e.value && c != "" && e.src != "" then {e.src} else {})
      && Readers(edges', c) == Readers(edges, c) + (if c == e.value && c != "" && e.dst != "" then {e.dst} else {})
  }

  /** The same for a deletion. */
  ghost predicate Leaves(edges: EdgeInfo, edges': EdgeInfo, e: Edge) {
    forall c ::
      && Writers(edges', c) == Writers(edges, c) - (if c == e.value && c != "" && e.src != "" then {e.src} else {})
      && Readers(edges', c) == Readers(edges, c) - (if c == e.value && c != "" && e.dst != "" then {e.dst} else {})
  }

  lemma InsertedJoins(edges: EdgeInfo, e: Edge)
    ensures Joins(edges, Inserted(edges, e), e)
  {
  }

  lemma DeletedLeaves(edges: EdgeInfo, e: Edge)
    ensures Leaves(edges, Deleted(edges, e), e)
  {
  }

  /** All complete edges: per channel every writer with every reader. */
  ghost function Triples(edges: EdgeInfo): (r: set<Triple>)
    ensures forall t :: t in r <==> IsTriple(edges, t)
  {
    set c, s, d | c in edges && s in edges[c].src && d in edges[c].dst :: Triple(s, c, d)
  }

  predicate IsTriple(edges: EdgeInfo, t: Triple) {
    t.channel in edges && t.src in edges[t.channel].src && t.dst in edges[t.channel].dst
  }

  /** The list holds exactly the complete edges. */
  predicate Has(list: Adjacency, t: Triple) {
    t.src in list && t.dst in list && Key(t) in list[t.src] && list[t.src][Key(t)] == t.dst
  }

  ghost predicate Justified(ts: set<Triple>, src: string, key: string) {
    exists t :: t in ts && t.src == src && Key(t) == key
  }

  ghost predicate Represents(list: Adjacency, ts: set<Triple>) {
    && (forall t | t in ts :: Has(list, t))
    && (forall src, key | src in list && key in list[src] :: Justified(ts, src, key))
  }

  /** No writer has two complete edges with the same key. */
  predicate NoClash(ts: set<Triple>) {
    forall t, t' | t in ts && t' in ts && t.src == t'.src && Key(t) == Key(t') :: t == t'
  }

  // ---------------------------------------------------------------- keys

  /** Two edges share a key only if they differ in both the channel and the reader. */
  lemma SameKeySameReader(t: Triple, t': Triple)
    requires Key(t) == Key(t') && t.dst == t'.dst
    ensures t.channel == t'.channel
  {
    var n := |t.channel|;
    assert |Key(t)| == n + 1 + |t.dst| && |Key(t')| == |t'.channel| + 1 + |t'.dst|;
    assert Key(t)[..n] == t.channel && Key(t')[..n] == t'.channel;
  }

  /** Keys are unambiguous as soon as no reader's name contains the separator. */
  lemma KeysDiffer(t: Triple, t': Triple)
    requires Key(t) == Key(t') && '_' !in t.dst && '_' !in t'.dst
    ensures t.channel == t'.channel && t.dst == t'.dst
  {
    var n, n' := |t.channel|, |t'.channel|;
    assert Key(t)[n] == '_' && Key(t')[n'] == '_';
    assert n == n';
    assert Key(t)[n + 1..] == t.dst && Key(t')[n + 1..] == t'.dst;
    SameKeySameReader(t, t');
  }

  lemma NoSeparatorNoClash(ts: set<Triple>)
    requires forall t | t in ts :: '_' !in t.dst
    ensures NoClash(ts)
  {
    forall t, t' | t in ts && t' in ts && t.src == t'.src && Key(t) == Key(t')
      ensures t == t'
    {
      KeysDiffer(t, t');
    }
  }

  /** A list that holds exactly the complete edges exists only without a clash. */
  lemma RepresentedMeansNoClash(list: Adjacency, ts: set<Triple>)
    requires Represents(list, ts)
    ensures NoClash(ts)
  {
    forall t, t' | t in ts && t' in ts && t.src == t'.src && Key(t) == Key(t')
      ensures t == t'
    {
      assert Has(list, t) && Has(list, t');
      SameKeySameReader(t, t');
    }
  }

  // ---------------------------------------------------------------- one complete edge

  function WithVertex(list: Adjacency, v: string): Adjacency {
    if v in list then list else list[v := map[]]
  }

  function AddComplete(list: Adjacency, t: Triple): Adjacency {
    var l := WithVertex(WithVertex(list, t.src), t.dst);
    l[t.src := l[t.src][Key(t) := t.dst]]
  }

  function RemoveComplete(list: Adjacency, t: Triple): Adjacency {
    var l := WithVertex(list, t.src);
    l[t.src := l[t.src] - {Key(t)}]
  }

  lemma AddRepresents(list: Adjacency, ts: set<Triple>, t: Triple)
    requires Represents(list, ts) && NoClash(ts + {t})
    ensures Represents(AddComplete(list, t), ts + {t})
  {
    var l := AddComplete(list, t);
    forall u | u in ts + {t}
      ensures Has(l, u)
    {
      if u != t { assert Has(list, u); }
    }
    forall src, key | src in l && key in l[src]
      ensures Justified(ts + {t}, src, key)
    {
      if src == t.src && key == Key(t) {
        assert t in ts + {t};
      } else {
        assert Justified(ts, src, key);
        var u :| u in ts && u.src == src && Key(u) == key;
        assert u in ts + {t};
      }
    }
  }

  lemma RemoveRepresents(list: Adjacency, ts: set<Triple>, t: Triple)
    requires Represents(list, ts) && NoClash(ts + {t})
    ensures Represents(RemoveComplete(list, t), ts - {t})
  {
    var l := RemoveComplete(list, t);
    forall u | u in ts - {t}
      ensures Has(l, u)
    {
      assert Has(list, u);
      assert u in ts + {t} && t in ts + {t};
    }
    forall src, key | src in l && key in l[src]
      ensures Justified(ts - {t}, src, key)
    {
      assert Justified(ts, src, key);
      var u :| u in ts && u.src == src && Key(u) == key;
      assert u in ts - {t};
    }
  }

  // ---------------------------------------------------------------- reachability

  /** There is an edge from `v` to `w`. */
  predicate Adjacent(list: Adjacency, v: string, w: string) {
    v in list && exists key :: key in list[v] && list[v][key] == w
  }

  predicate IsPath(list: Adjacency, p: seq<string>) {
    p != [] && forall i | 0 <= i < |p| - 1 :: Adjacent(list, p[i], p[i + 1])
  }

  ghost predicate Reachable(list: Adjacency, v: string, w: string) {
    exists p :: IsPath(list, p) && p[0] == v && p[|p| - 1] == w
  }

  lemma ReachableSelf(list: Adjacency, v: string)
    ensures Reachable(list, v, v)
  {
    assert IsPath(list, [v]);
  }

  lemma ReachableStep(list: Adjacency, v: string, w: string, x: string)
    requires Reachable(list, v, w) && Adjacent(list, w, x)
    ensures Reachable(list, v, x)
  {
    var p :| IsPath(list, p) && p[0] == v && p[|p| - 1] == w;
    assert IsPath(list, p + [x]);
  }

  /** A set that is closed under edges holds everything that can be reached from it. */
  lemma {:induction false} ClosedUnderEdges(list: Adjacency, seen: set<string>, p: seq<string>)
    requires IsPath(list, p) && p[0] in seen
    requires forall v, w | v in seen && Adjacent(list, v, w) :: w in seen
    ensures p[|p| - 1] in seen
    decreases |p|
  {
    if |p| > 1 {
      assert Adjacent(list, p[0], p[1]);
      assert forall i | 0 <= i < |p[1..]| - 1 :: Adjacent(list, p[1..][i], p[1..][i + 1]) by {
        forall i | 0 <= i < |p[1..]| - 1
          ensures Adjacent(list, p[1..][i], p[1..][i + 1])
        {
          assert Adjacent(list, p[i + 1], p[i + 2]);
        }
      }
      ClosedUnderEdges(list, seen, p[1..]);
    }
  }

  /** Edges of the list are exactly the pairs of a writer and a reader of one channel. */
  lemma AdjacentIffChannel(list: Adjacency, ts: set<Triple>, v: string, w: string)
    requires Represents(list, ts)
    ensures Adjacent(list, v, w) <==> exists t :: t in ts && t.src == v && t.dst == w
  {
    if Adjacent(list, v, w) {
      var key :| key in list[v] && list[v][key] == w;
      assert Justified(ts, v, key);
      var t :| t in ts && t.src == v && Key(t) == key;
      assert Has(list, t);
    }
    if t :| t in ts && t.src == v && t.dst == w {
      assert Has(list, t);
    }
  }

  /** Every vertex an edge leads to is a vertex of the list, and none is the dummy. */
  predicate TargetsKnown(list: Adjacency) {
    && "" !in list
    && forall v, key | v in list && key in list[v] :: list[v][key] in list
  }

  lemma ReachableKnown(list: Adjacency, v: string, w: string)
    requires TargetsKnown(list) && v != w && Reachable(list, v, w)
    ensures v in list && w in list
  {
    var p :| IsPath(list, p) && p[0] == v && p[|p| - 1] == w;
    assert Adjacent(list, p[0], p[1]);
    assert Adjacent(list, p[|p| - 2], p[|p| - 2 + 1]);
  }

  /** Some channel is written by `v` and read by `w`. */
  predicate Feeds(edges: EdgeInfo, v: string, w: string) {
    exists c :: c in edges && v in edges[c].src && w in edges[c].dst
  }

  predicate IsFlow(edges: EdgeInfo, p: seq<string>) {
    p != [] && forall i | 0 <= i < |p| - 1 :: Feeds(edges, p[i], p[i + 1])
  }

  /** Data of `v` can flow to `w` over some channels. */
  ghost predicate Flows(edges: EdgeInfo, v: string, w: string) {
    exists p :: IsFlow(edges, p) && p[0] == v && p[|p| - 1] == w
  }

  lemma FeedsIffAdjacent(list: Adjacency, edges: EdgeInfo, v: string, w: string)
    requires Represents(list, Triples(edges))
    ensures Feeds(edges, v, w) <==> Adjacent(list, v, w)
  {
    AdjacentIffChannel(list, Triples(edges), v, w);
    if c :| c in edges && v in edges[c].src && w in edges[c].dst {
      assert IsTriple(edges, Triple(v, c, w));
      assert Triple(v, c, w) in Triples(edges);
    }
  }

  /** Reachability in an exact list is the flow over channels. */
  lemma FlowsIffReachable(list: Adjacency, edges: EdgeInfo, v: string, w: string)
    requires Represents(list, Triples(edges))
    ensures Flows(edges, v, w) <==> Reachable(list, v, w)
  {
    forall p
      ensures IsFlow(edges, p) <==> IsPath(list, p)
    {
      forall x, y ensures Feeds(edges, x, y) <==> Adjacent(list, x, y) { FeedsIffAdjacent(list, edges, x, y); }
    }
  }

  function Seen(visited: map<string, bool>): set<string> {
    set v | v in visited && visited[v]
  }

  method PushAll(items: map<string, string>, queue: seq<string>) returns (r: seq<string>)
    ensures queue <= r
    ensures forall v :: v in r <==> v in queue || exists key :: key in items && items[key] == v
  {
    r := queue;
    var todo := items.Keys;
    while todo != {}
      invariant todo <= items.Keys && queue <= r
      invariant forall v :: v in r <==> v in queue || exists key :: key in items && key !in todo && items[key] == v
      decreases todo
    {
      ghost var before, todo0 := r, todo;
      var key :| key in todo;
      r := r + [items[key]];
      todo := todo - {key};
      forall v
        ensures v in r <==> v in queue || exists k :: k in items && k !in todo && items[k] == v
      {
        if v == items[key] { assert r[|r| - 1] == v; }
        assert v in r <==> v in before || v == items[key];
        assert (exists k :: k in items && k !in todo && items[k] == v)
            <==> v == items[key] || (exists k :: k in items && k !in todo0 && items[k] == v);
      }
    }
  }

  /** What the search knows: everything seen or queued can be reached, and the successors of everything
      seen are seen or queued. */
  ghost predicate Searching(list: Adjacency, start: string, seen: set<string>, queue: seq<string>) {
    && (start in seen || start in queue)
    && (forall v | v in seen || v in queue :: v in list && Reachable(list, start, v))
    && (forall v, w | v in seen && Adjacent(list, v, w) :: w in seen || w in queue)
  }

  lemma SearchSkips(list: Adjacency, start: string, seen: set<string>, queue: seq<string>)
    requires Searching(list, start, seen, queue) && queue != [] && queue[0] in seen
    ensures Searching(list, start, seen, queue[1..])
  {
    assert queue == [queue[0]] + queue[1..];
  }

  lemma SearchVisits(list: Adjacency, start: string, seen: set<string>, queue: seq<string>, r: seq<string>)
    requires Searching(list, start, seen, queue) && TargetsKnown(list) && queue != [] && queue[0] in list
    requires forall v :: v in r <==> v in queue[1..] || exists key :: key in list[queue[0]] && list[queue[0]][key] == v
    ensures Searching(list, start, seen + {queue[0]}, r)
  {
    var curr := queue[0];
    assert queue == [curr] + queue[1..];
    forall v | v in seen + {curr} || v in r
      ensures v in list && Reachable(list, start, v)
    {
      if v !in seen && v !in queue {
        assert Adjacent(list, curr, v);
        ReachableStep(list, start, curr, v);
      }
    }
  }

  /** An exhausted search has seen everything that can be reached. */
  lemma SearchEnds(list: Adjacency, start: string, seen: set<string>, end: string)
    requires Searching(list, start, seen, [])
    ensures Reachable(list, start, end) ==> end in seen
  {
    if Reachable(list, start, end) {
      var p :| IsPath(list, p) && p[0] == start && p[|p| - 1] == end;
      ClosedUnderEdges(list, seen, p);
    }
  }

  datatype FlowDirection = UNREACHABLE | UPSTREAM | DOWNSTREAM

  /** Breadth-first search; a vertex may be queued many times. True exactly when `end` can be reached. */
  method LevelTraverse(list: Adjacency, start: string, end: string) returns (r: bool)
    requires TargetsKnown(list) && start in list
    ensures r <==> Reachable(list, start, end)
  {
    var visited: map<string, bool> := map[end := false];
    var unvisited := [start];
    ReachableSelf(list, start);
    while unvisited != []
      invariant end in visited && !visited[end]
      invariant Searching(list, start, Seen(visited), unvisited)
      decreases list.Keys - Seen(visited), |unvisited|
    {
      ghost var seen, queue := Seen(visited), unvisited;
      var curr := unvisited[0];
      unvisited := unvisited[1..];
      if curr in visited && visited[curr] {
        SearchSkips(list, start, seen, queue);
        continue;
      }
      visited := visited[curr := true];
      assert Seen(visited) == seen + {curr};
      if curr == end {
        break;
      }
      unvisited := PushAll(list[curr], unvisited);
      SearchVisits(list, start, seen, queue, unvisited);
    }
    if !visited[end] { SearchEnds(list, start, Seen(visited), end); }
    return visited[end];
  }

  // ---------------------------------------------------------------- the graph object

  ghost predicate NoDummies(edges: EdgeInfo) {
    forall c | c in edges :: "" !in edges[c].src && "" !in edges[c].dst
  }

  predicate NoDummyEnds(ts: set<Triple>) {
    forall t | t in ts :: !IsDummy(t.src) && !IsDummy(t.dst)
  }

  lemma AddKeepsTargets(list: Adjacency, t: Triple)
    requires TargetsKnown(list) && !IsDummy(t.src) && !IsDummy(t.dst)
    ensures TargetsKnown(AddComplete(list, t)) && list.Keys <= AddComplete(list, t).Keys
  {
  }

  lemma RemoveKeepsTargets(list: Adjacency, t: Triple)
    requires TargetsKnown(list) && !IsDummy(t.src)
    ensures TargetsKnown(RemoveComplete(list, t))
  {
  }

  lemma RemoveNext(list: Adjacency, ts: set<Triple>, batch: set<Triple>, todo: set<Triple>, t: Triple)
    requires Represents(list, ts - (batch - todo)) && t in todo && todo <= batch <= ts
    ensures Represents(RemoveComplete(list, t), ts - (batch - (todo - {t})))
  {
    var before := ts - (batch - todo);
    RepresentedMeansNoClash(list, before);
    assert before + {t} == before;
    RemoveRepresents(list, before, t);
    assert before - {t} == ts - (batch - (todo - {t}));
  }

  /** The complete edges of one writer, or of one reader, of a channel. */
  function Outgoing(src: string, channel: string, dsts: set<string>): (r: set<Triple>)
    ensures forall t :: t in r <==> t.src == src && t.channel == channel && t.dst in dsts
  {
    set d | d in dsts :: Triple(src, channel, d)
  }

  function Incoming(srcs: set<string>, channel: string, dst: string): (r: set<Triple>)
    ensures forall t :: t in r <==> t.src in srcs && t.channel == channel && t.dst == dst
  {
    set s | s in srcs :: Triple(s, channel, dst)
  }

  lemma NewWriter(edges: EdgeInfo, c: string, src: string)
    requires c in edges
    ensures Triples(edges[c := edges[c].(src := edges[c].src + {src})])
            == Triples(edges) + Outgoing(src, c, edges[c].dst)
  {
  }

  lemma NewReader(edges: EdgeInfo, c: string, dst: string)
    requires c in edges
    ensures Triples(edges[c := edges[c].(dst := edges[c].dst + {dst})])
            == Triples(edges) + Incoming(edges[c].src, c, dst)
  {
  }

  lemma OldWriter(edges: EdgeInfo, c: string, src: string)
    requires c in edges
    ensures Triples(edges[c := edges[c].(src := edges[c].src - {src})])
            == Triples(edges) - Outgoing(src, c, edges[c].dst)
  {
  }

  lemma OldReader(edges: EdgeInfo, c: string, dst: string)
    requires c in edges
    ensures Triples(edges[c := edges[c].(dst := edges[c].dst - {dst})])
            == Triples(edges) - Incoming(edges[c].src, c, dst)
  {
  }

  /** The channel, then the writer, then the reader. */
  lemma InsertedInSteps(edges: EdgeInfo, middle: EdgeInfo, edges': EdgeInfo, e: Edge)
    requires IsValid(e)
    requires
      var c := e.value;
      var r := if c in edges then edges[c] else Related({}, {});
      && middle == edges[c := if IsDummy(e.src) then r else r.(src := r.src + {e.src})]
      && edges' == edges[c := if IsDummy(e.dst) then middle[c] else middle[c].(dst := middle[c].dst + {e.dst})]
    ensures edges' == Inserted(edges, e)
  {
    var r := if e.value in edges then edges[e.value] else Related({}, {});
    assert r.src + {} == r.src && r.dst + {} == r.dst;
  }

  /** Another reader makes no edge disappear, so a clash stays one. */
  lemma MoreReaders(edges: EdgeInfo, edges': EdgeInfo, c: string)
    requires c in edges && c in edges' && edges' == edges[c := edges'[c]]
    requires edges[c].src <= edges'[c].src && edges[c].dst <= edges'[c].dst
    ensures Triples(edges) <= Triples(edges')
    ensures NoClash(Triples(edges')) ==> NoClash(Triples(edges))
  {
  }

  class TopologyGraph {
    var edges: EdgeInfo
    var list: Adjacency
    /** History: whether the list was exact at the start and after each operation. */
    ghost var wasExact: seq<bool>

    /** Holds after every sequence of operations, clashing keys or not. */
    ghost predicate Valid()
      reads this
    {
      TargetsKnown(list) && NoDummies(edges)
    }

    /** The list holds exactly the product of writers and readers of every channel. */
    ghost predicate Exact()
      reads this
    {
      Represents(list, Triples(edges))
    }

    constructor ()
      ensures Valid() && Exact() && edges == map[] && list == map[] && wasExact == [true]
    {
      edges, list, wasExact := map[], map[], [true];
    }

    method AddAll(batch: set<Triple>, ghost ts: set<Triple>)
      requires TargetsKnown(list) && NoDummyEnds(batch)
      modifies this`list
      ensures TargetsKnown(list)
      ensures old(Represents(list, ts)) && NoClash(ts + batch) ==> Represents(list, ts + batch)
    {
      var todo := batch;
      while todo != {}
        invariant todo <= batch && TargetsKnown(list)
        invariant old(Represents(list, ts)) && NoClash(ts + batch) ==> Represents(list, ts + (batch - todo))
        decreases todo
      {
        var t :| t in todo;
        ghost var before := ts + (batch - todo);
        AddKeepsTargets(list, t);
        if old(Represents(list, ts)) && NoClash(ts + batch) { AddRepresents(list, before, t); }
        list := AddComplete(list, t);
        todo := todo - {t};
        assert before + {t} == ts + (batch - todo);
      }
      assert batch - todo == batch;
    }

    method RemoveAll(batch: set<Triple>, ghost ts: set<Triple>)
      requires TargetsKnown(list) && NoDummyEnds(batch) && batch <= ts
      modifies this`list
      ensures TargetsKnown(list)
      ensures old(Represents(list, ts)) ==> Represents(list, ts - batch)
    {
      var todo := batch;
      assert ts - (batch - todo) == ts;
      while todo != {}
        invariant todo <= batch && TargetsKnown(list)
        invariant old(Represents(list, ts)) ==> Represents(list, ts - (batch - todo))
        decreases todo
      {
        var t :| t in todo;
        RemoveKeepsTargets(list, t);
        if old(Represents(list, ts)) { RemoveNext(list, ts, batch, todo, t); }
        list := RemoveComplete(list, t);
        todo := todo - {t};
      }
      assert batch - todo == batch;
    }

    method InsertOutgoingEdge(src: string, c: string)
      requires Valid() && c in edges && !IsDummy(src)
      modifies this`edges, this`list
      ensures Valid() && edges == old(edges)[c := old(edges)[c].(src := old(edges)[c].src + {src})]
      ensures old(Exact()) && NoClash(Triples(edges)) ==> Exact()
    {
      ghost var ts := Triples(edges);
      NewWriter(edges, c, src);
      if src in edges[c].src {
        assert edges[c].src + {src} == edges[c].src;
        return;
      }
      edges := edges[c := edges[c].(src := edges[c].src + {src})];
      AddAll(Outgoing(src, c, edges[c].dst), ts);
    }

    method InsertIncomingEdge(c: string, dst: string)
      requires Valid() && c in edges && !IsDummy(dst)
      modifies this`edges, this`list
      ensures Valid() && edges == old(edges)[c := old(edges)[c].(dst := old(edges)[c].dst + {dst})]
      ensures old(Exact()) && NoClash(Triples(edges)) ==> Exact()
    {
      ghost var ts := Triples(edges);
      NewReader(edges, c, dst);
      if dst in edges[c].dst {
        assert edges[c].dst + {dst} == edges[c].dst;
        return;
      }
      edges := edges[c := edges[c].(dst := edges[c].dst + {dst})];
      AddAll(Incoming(edges[c].src, c, dst), ts);
    }

    method DeleteOutgoingEdge(src: string, c: string)
      requires Valid() && c in edges
      modifies this`edges, this`list
      ensures Valid() && edges == old(edges)[c := old(edges)[c].(src := old(edges)[c].src - {src})]
      ensures old(Exact()) ==> Exact()
    {
      ghost var ts := Triples(edges);
      OldWriter(edges, c, src);
      if src !in edges[c].src {
        assert edges[c].src - {src} == edges[c].src;
        return;
      }
      var batch := Outgoing(src, c, edges[c].dst);
      assert batch <= ts;
      edges := edges[c := edges[c].(src := edges[c].src - {src})];
      RemoveAll(batch, ts);
    }

    method DeleteIncomingEdge(c: string, dst: string)
      requires Valid() && c in edges
      modifies this`edges, this`list
      ensures Valid() && edges == old(edges)[c := old(edges)[c].(dst := old(edges)[c].dst - {dst})]
      ensures old(Exact()) ==> Exact()
    {
      ghost var ts := Triples(edges);
      OldReader(edges, c, dst);
      if dst !in edges[c].dst {
        assert edges[c].dst - {dst} == edges[c].dst;
        return;
      }
      var batch := Incoming(edges[c].src, c, dst);
      assert batch <= ts;
      edges := edges[c := edges[c].(dst := edges[c].dst - {dst})];
      RemoveAll(batch, ts);
    }

    /** An insertion keeps the list exact if and only if it makes no two keys clash. */
    method Insert(e: Edge)
      requires Valid()
      modifies this
      ensures Valid() && edges == Inserted(old(edges), e) && wasExact == old(wasExact) + [Exact()]
      ensures Joins(old(edges), edges, e)
      ensures old(Exact()) ==> (Exact() <==> NoClash(Triples(edges)))
    {
      InsertedJoins(edges, e);
      InsertEdge(e);
      wasExact := wasExact + [Exact()];
    }

    method InsertEdge(e: Edge)
      requires Valid()
      modifies this`edges, this`list
      ensures Valid() && edges == Inserted(old(edges), e)
      ensures old(Exact()) ==> (Exact() <==> NoClash(Triples(edges)))
    {
      if IsValid(e) { InsertEnds(e); }
      if Exact() { RepresentedMeansNoClash(list, Triples(edges)); }
    }

    /** The writer and the reader of the edge, whichever it has. */
    method InsertEnds(e: Edge)
      requires Valid() && IsValid(e)
      modifies this`edges, this`list
      ensures Valid() && edges == Inserted(old(edges), e)
      ensures old(Exact()) && NoClash(Triples(edges)) ==> Exact()
    {
      ghost var before := edges;
      AddChannel(e.value);
      if !IsDummy(e.src) { InsertOutgoingEdge(e.src, e.value); }
      ghost var middle := edges;
      if !IsDummy(e.dst) { InsertIncomingEdge(e.value, e.dst); }
      InsertedInSteps(before, middle, edges, e);
      MoreReaders(middle, edges, e.value);
    }

    /** A channel without writers and readers, if there is none of that name. */
    method AddChannel(c: string)
      requires Valid()
      modifies this`edges
      ensures Valid() && c in edges && (old(Exact()) ==> Exact())
      ensures edges == old(edges)[c := if c in old(edges) then old(edges)[c] else Related({}, {})]
    {
      if c !in edges {
        assert Triples(edges[c := Related({}, {})]) == Triples(edges);
        edges := edges[c := Related({}, {})];
      }
    }

    /** A deletion keeps the list exact. */
    method Delete(e: Edge)
      requires Valid()
      modifies this
      ensures Valid() && edges == Deleted(old(edges), e) && wasExact == old(wasExact) + [Exact()]
      ensures Leaves(old(edges), edges, e)
      ensures old(Exact()) ==> Exact()
    {
      DeletedLeaves(edges, e);
      DeleteEdge(e);
      wasExact := wasExact + [Exact()];
    }

    method DeleteEdge(e: Edge)
      requires Valid()
      modifies this`edges, this`list
      ensures Valid() && edges == Deleted(old(edges), e)
      ensures old(Exact()) ==> Exact()
    {
      if !IsValid(e) { return; }
      if e.value !in edges { return; }
      assert edges[e.value].src - {} == edges[e.value].src && edges[e.value].dst - {} == edges[e.value].dst;
      if !IsDummy(e.src) { DeleteOutgoingEdge(e.src, e.value); }
      if !IsDummy(e.dst) { DeleteIncomingEdge(e.value, e.dst); }
    }

    /** Which way data flows between two vertices. */
    method GetDirectionOf(lhs: string, rhs: string) returns (r: FlowDirection)
      requires Valid()
      ensures lhs == rhs ==> r == if lhs in list then UPSTREAM else UNREACHABLE
      ensures lhs != rhs ==> r == if Reachable(list, lhs, rhs) then UPSTREAM
                                  else if Reachable(list, rhs, lhs) then DOWNSTREAM else UNREACHABLE
      ensures Exact() && lhs != rhs ==> r == if Flows(edges, lhs, rhs) then UPSTREAM
                                             else if Flows(edges, rhs, lhs) then DOWNSTREAM else UNREACHABLE
    {
      ReachableSelf(list, lhs);
      if lhs != rhs {
        if Reachable(list, lhs, rhs) { ReachableKnown(list, lhs, rhs); }
        if Reachable(list, rhs, lhs) { ReachableKnown(list, rhs, lhs); }
      }
      if Exact() {
        FlowsIffReachable(list, edges, lhs, rhs);
        FlowsIffReachable(list, edges, rhs, lhs);
      }
      if IsDummy(lhs) || IsDummy(rhs) { return UNREACHABLE; }
      if lhs !in list || rhs !in list { return UNREACHABLE; }
      var down := LevelTraverse(list, lhs, rhs);
      if down { return UPSTREAM; }
      var up := LevelTraverse(list, rhs, lhs);
      if up { return DOWNSTREAM; }
      return UNREACHABLE;
    }

    /** The number of entries, in 32 bits: for an exact list the sum over the channels of writers times
        readers. */
    method GetNumOfEdge() returns (num: nat)
      ensures num == |Entries(list, list.Keys)| % 0x1_0000_0000
      ensures Exact() ==> num == Products(edges) % 0x1_0000_0000
    {
      num := 0;
      var todo := list.Keys;
      assert Entries(list, {}) == {};
      while todo != {}
        invariant todo <= list.Keys
        invariant num == |Entries(list, list.Keys - todo)| % 0x1_0000_0000
        decreases todo
      {
        var v :| v in todo;
        EntriesOfOne(list, list.Keys - todo, v);
        assert list.Keys - (todo - {v}) == (list.Keys - todo) + {v};
        num := (num + |list[v]|) % 0x1_0000_0000;
        todo := todo - {v};
      }
      assert list.Keys - todo == list.Keys;
      if Exact() {
        EntriesAreTriples(list, Triples(edges));
        TriplesCount(edges);
      }
    }
  }

  // ---------------------------------------------------------------- counting

  ghost function Pick(edges: EdgeInfo): (c: string)
    requires edges.Keys != {}
    ensures c in edges
  {
    var c :| c in edges.Keys;
    c
  }

  /** The sum over the channels of writers times readers. */
  ghost function Products(edges: EdgeInfo): nat
    decreases edges.Keys
  {
    if edges.Keys == {} then 0
    else
      var c := Pick(edges);
      |edges[c].src| * |edges[c].dst| + Products(edges - {c})
  }

  ghost function Entries(list: Adjacency, vs: set<string>): set<(string, string)> {
    set v, key | v in vs && v in list && key in list[v] :: (v, key)
  }

  lemma {:induction false} KeysOfOne(v: string, keys: set<string>)
    ensures |set key | key in keys :: (v, key)| == |keys|
  {
    if keys != {} {
      var k :| k in keys;
      KeysOfOne(v, keys - {k});
      assert (set key | key in keys :: (v, key)) == (set key | key in keys - {k} :: (v, key)) + {(v, k)};
    }
  }

  lemma EntriesOfOne(list: Adjacency, vs: set<string>, v: string)
    requires v in list && v !in vs
    ensures |Entries(list, vs + {v})| == |Entries(list, vs)| + |list[v]|
  {
    var more := set key | key in list[v].Keys :: (v, key);
    KeysOfOne(v, list[v].Keys);
    assert Entries(list, vs) !! more;
    assert |Entries(list, vs) + more| == |Entries(list, vs)| + |more|;
    assert Entries(list, vs + {v}) == Entries(list, vs) + more;
  }

  lemma {:induction false} KeysOfTriples(ts: set<Triple>)
    requires NoClash(ts)
    ensures |set t | t in ts :: (t.src, Key(t))| == |ts|
  {
    if ts != {} {
      var t :| t in ts;
      KeysOfTriples(ts - {t});
      var rest := set u | u in ts - {t} :: (u.src, Key(u));
      assert (set u | u in ts :: (u.src, Key(u))) == rest + {(t.src, Key(t))};
      assert (t.src, Key(t)) !in rest;
    }
  }

  /** An exact list has one entry per complete edge. */
  lemma EntriesAreTriples(list: Adjacency, ts: set<Triple>)
    requires Represents(list, ts)
    ensures |Entries(list, list.Keys)| == |ts|
  {
    RepresentedMeansNoClash(list, ts);
    KeysOfTriples(ts);
    var keys := set t | t in ts :: (t.src, Key(t));
    forall v, key | (v, key) in Entries(list, list.Keys)
      ensures (v, key) in keys
    {
      assert Justified(ts, v, key);
      var t :| t in ts && t.src == v && Key(t) == key;
      assert (t.src, Key(t)) in keys;
    }
    forall t | t in ts
      ensures (t.src, Key(t)) in Entries(list, list.Keys)
    {
      assert Has(list, t);
    }
    assert keys == Entries(list, list.Keys);
  }

  ghost function Block(srcs: set<string>, c: string, dsts: set<string>): (r: set<Triple>)
    ensures forall t :: t in r <==> t.src in srcs && t.channel == c && t.dst in dsts
  {
    set s, d | s in srcs && d in dsts :: Triple(s, c, d)
  }

  lemma {:induction false} OutgoingCount(src: string, c: string, dsts: set<string>)
    ensures |Outgoing(src, c, dsts)| == |dsts|
  {
    if dsts != {} {
      var d :| d in dsts;
      OutgoingCount(src, c, dsts - {d});
      assert Outgoing(src, c, dsts) == Outgoing(src, c, dsts - {d}) + {Triple(src, c, d)};
    } else {
      assert Outgoing(src, c, dsts) == {};
    }
  }

  lemma {:induction false} BlockCount(srcs: set<string>, c: string, dsts: set<string>)
    ensures |Block(srcs, c, dsts)| == |srcs| * |dsts|
  {
    if srcs == {} {
      assert Block(srcs, c, dsts) == {};
    } else {
      var s :| s in srcs;
      BlockCount(srcs - {s}, c, dsts);
      OutgoingCount(s, c, dsts);
      assert Block(srcs, c, dsts) == Block(srcs - {s}, c, dsts) + Outgoing(s, c, dsts);
      assert Block(srcs - {s}, c, dsts) !! Outgoing(s, c, dsts);
      OneMore(|srcs - {s}|, |dsts|);
      assert |srcs| == |srcs - {s}| + 1;
    }
  }

  lemma OneMore(n: nat, m: nat)
    ensures (n + 1) * m == n * m + m
  {
  }

  lemma {:induction false} TriplesCount(edges: EdgeInfo)
    ensures |Triples(edges)| == Products(edges)
    decreases edges.Keys
  {
    if edges.Keys == {} {
      assert Triples(edges) == {};
    } else {
      var c := Pick(edges);
      TriplesCount(edges - {c});
      BlockCount(edges[c].src, c, edges[c].dst);
      assert Triples(edges) == Triples(edges - {c}) + Block(edges[c].src, c, edges[c].dst);
      assert Triples(edges - {c}) !! Block(edges[c].src, c, edges[c].dst);
    }
  }

  // ---------------------------------------------------------------- whole histories

  datatype Op = InsertOp(e: Edge) | DeleteOp(e: Edge)

  function EdgesAfter(ops: seq<Op>): EdgeInfo {
    if ops == [] then map[]
    else Applied(EdgesAfter(ops[..|ops| - 1]), ops[|ops| - 1])
  }

  /** No two keys clash after the first k operations. */
  ghost predicate ClearAt(ops: seq<Op>, k: nat)
    requires k <= |ops|
  {
    NoClash(Triples(EdgesAfter(ops[..k])))
  }

  /** At no point of the history two keys clash. */
  ghost predicate NeverClashes(ops: seq<Op>) {
    forall k | 0 <= k <= |ops| :: ClearAt(ops, k)
  }

  /** Any history of insertions and deletions, with dummy ends or not: the list is the product of writers
      and readers at the start and after every operation if and only if no two keys ever clash. */
  method Replay(ops: seq<Op>) returns (g: TopologyGraph)
    ensures fresh(g) && g.Valid() && g.edges == EdgesAfter(ops) && |g.wasExact| == |ops| + 1
    ensures g.wasExact[|ops|] == g.Exact()
    ensures (forall k | 0 <= k <= |ops| :: g.wasExact[k]) <==> NeverClashes(ops)
  {
    g := new TopologyGraph();
    assert EdgesAfter(ops[..0]) == map[] && Triples(map[]) == {};
    for i := 0 to |ops|
      invariant fresh(g) && g.Valid() && g.edges == EdgesAfter(ops[..i])
      invariant |g.wasExact| == i + 1 && g.wasExact[i] == g.Exact()
      invariant ExactUntil(g.wasExact, i) <==> ClearUntil(ops, i)
    {
      ReplayOne(g, ops, i);
    }
    assert ops[..|ops|] == ops;
  }

  method ReplayOne(g: TopologyGraph, ops: seq<Op>, i: nat)
    requires i < |ops| && g.Valid() && g.edges == EdgesAfter(ops[..i])
    requires |g.wasExact| == i + 1 && g.wasExact[i] == g.Exact()
    requires ExactUntil(g.wasExact, i) <==> ClearUntil(ops, i)
    modifies g
    ensures g.Valid() && g.edges == EdgesAfter(ops[..i + 1])
    ensures |g.wasExact| == i + 2 && g.wasExact[i + 1] == g.Exact()
    ensures ExactUntil(g.wasExact, i + 1) <==> ClearUntil(ops, i + 1)
  {
    ghost var before := g.wasExact;
    assert ops[..i + 1][..i] == ops[..i];
    Apply(g, ops[i]);
    UntilNext(before, g.wasExact, ops, i);
  }

  predicate ExactUntil(wasExact: seq<bool>, n: int) {
    forall k | 0 <= k <= n && k < |wasExact| :: wasExact[k]
  }

  ghost predicate ClearUntil(ops: seq<Op>, n: int) {
    forall k | 0 <= k <= n && k <= |ops| :: ClearAt(ops, k)
  }

  lemma UntilNext(before: seq<bool>, after: seq<bool>, ops: seq<Op>, i: nat)
    requires i < |ops| && |before| == i + 1 && |after| == i + 2 && before <= after
    requires ExactUntil(before, i) <==> ClearUntil(ops, i)
    requires before[i] ==> (after[i + 1] <==> ClearAt(ops, i + 1))
    ensures ExactUntil(after, i + 1) <==> ClearUntil(ops, i + 1)
  {
    assert ExactUntil(after, i + 1) <==> ExactUntil(before, i) && after[i + 1] by {
      assert forall k | 0 <= k <= i :: after[k] == before[k];
    }
    assert ClearUntil(ops, i + 1) <==> ClearUntil(ops, i) && ClearAt(ops, i + 1);
    assert ExactUntil(before, i) ==> before[i];
  }

  function Applied(edges: EdgeInfo, op: Op): EdgeInfo {
    match op
    case InsertOp(e) => Inserted(edges, e)
    case DeleteOp(e) => Deleted(edges, e)
  }

  method Apply(g: TopologyGraph, op: Op)
    requires g.Valid()
    modifies g
    ensures g.Valid() && g.edges == Applied(old(g.edges), op) && g.wasExact == old(g.wasExact) + [g.Exact()]
    ensures old(g.Exact()) ==> (g.Exact() <==> NoClash(Triples(g.edges)))
  {
    match op {
      case InsertOp(e) => g.Insert(e);
      case DeleteOp(e) => g.Delete(e);
    }
    if g.Exact() { RepresentedMeansNoClash(g.list, Triples(g.edges)); }
  }

  predicate NamesReader(op: Op, c: string, v: string) {
    op.e.value == c && op.e.dst == v
  }

  predicate NamesWriter(op: Op, c: string, v: string) {
    op.e.value == c && op.e.src == v
  }

  /** Of the operations that name v as a reader, or a writer, of channel c, the last one is an insertion. */
  predicate LastInserted(ops: seq<Op>, reader: bool, c: string, v: string) {
    exists i :: 0 <= i < |ops| && LastAt(ops, i, reader, c, v) && ops[i].InsertOp?
  }

  predicate LastAt(ops: seq<Op>, i: nat, reader: bool, c: string, v: string)
    requires i < |ops|
  {
    Names(ops[i], reader, c, v) && forall j | i < j < |ops| :: !Names(ops[j], reader, c, v)
  }

  predicate Names(op: Op, reader: bool, c: string, v: string) {
    if reader then NamesReader(op, c, v) else NamesWriter(op, c, v)
  }

  lemma LastInsertedNext(ops: seq<Op>, reader: bool, c: string, v: string)
    requires ops != []
    ensures
      var before, last := ops[..|ops| - 1], ops[|ops| - 1];
      LastInserted(ops, reader, c, v) <==>
        if Names(last, reader, c, v) then last.InsertOp? else LastInserted(before, reader, c, v)
  {
    var k := |ops| - 1;
    var before := ops[..k];
    if Names(ops[k], reader, c, v) {
      assert LastAt(ops, k, reader, c, v);
    } else {
      if i :| 0 <= i < |ops| && LastAt(ops, i, reader, c, v) && ops[i].InsertOp? {
        assert before[i] == ops[i] && LastAt(before, i, reader, c, v);
      }
      if i :| 0 <= i < |before| && LastAt(before, i, reader, c, v) && before[i].InsertOp? {
        assert before[i] == ops[i] && LastAt(ops, i, reader, c, v);
      }
    }
  }

  /** Over any history, v reads channel c if and only if the last operation that names it as a reader of c was
      an insertion, whatever writers these operations name; and the same for writing. */
  lemma {:induction false} JoinedIffLastInserted(ops: seq<Op>, c: string, v: string)
    requires c != "" && v != ""
    ensures v in Readers(EdgesAfter(ops), c) <==> LastInserted(ops, true, c, v)
    ensures v in Writers(EdgesAfter(ops), c) <==> LastInserted(ops, false, c, v)
  {
    if ops != [] {
      var before, last := ops[..|ops| - 1], ops[|ops| - 1];
      JoinedIffLastInserted(before, c, v);
      LastInsertedNext(ops, true, c, v);
      LastInsertedNext(ops, false, c, v);
      if last.InsertOp? { InsertedJoins(EdgesAfter(before), last.e); } else { DeletedLeaves(EdgesAfter(before), last.e); }
    }
  }

  lemma InsertedFirst(edges: EdgeInfo, e: Edge)
    requires e.value != "" && e.value !in edges && !IsDummy(e.src) && !IsDummy(e.dst)
    ensures Inserted(edges, e) == edges[e.value := Related({e.src}, {e.dst})]
  {
    assert {} + {e.src} == {e.src} && {} + {e.dst} == {e.dst};
  }

  /** A clash needs two insertions: channel "a" to reader "b_c" and channel "a_b" to reader "c". */
  lemma ClashHappens()
    ensures
      var ops := [InsertOp(Edge("w", "b_c", "a")), InsertOp(Edge("w", "c", "a_b"))];
      var t, t' := Triple("w", "a", "b_c"), Triple("w", "a_b", "c");
      && t != t' && Key(t) == Key(t') && Triples(EdgesAfter(ops)) == {t, t'} && !NeverClashes(ops)
  {
    var first, second := InsertOp(Edge("w", "b_c", "a")), InsertOp(Edge("w", "c", "a_b"));
    var ops := [first, second];
    var t, t' := Triple("w", "a", "b_c"), Triple("w", "a_b", "c");
    assert ops[..1] == [first] && ops[..2] == ops && [first][..0] == [];
    InsertedFirst(map[], first.e);
    assert EdgesAfter([first]) == Inserted(map[], first.e);
    InsertedFirst(EdgesAfter([first]), second.e);
    assert EdgesAfter(ops) == Inserted(EdgesAfter([first]), second.e);
    assert forall u :: u in Triples(EdgesAfter(ops)) <==> u == t || u == t';
    assert Key(t) == "a_b_c" == Key(t');
    assert !ClearAt(ops, 2) by {
      assert t in Triples(EdgesAfter(ops)) && t' in Triples(EdgesAfter(ops));
    }
  }
}
