/** The stream table as the packet thread uses it: bucket chains with reusable slots, which
    together behave as a map from streams to their two segment lists. */
module StreamTable {
  import opened Common

  type Stream = nat
  type Segment = nat

  datatype Lists = Lists(up: seq<Segment>, down: seq<Segment>)

  /** A slot of a chain; buffers tells whether its token buffers are allocated, without
      which process_gzip_data (copeungz.c:1499) does nothing. */
  datatype Slot = Slot(owner: Option<Stream>, lists: Lists, buffers: bool)

  type Chain = seq<Slot>

  const EMPTY := Lists([], [])

  function Append(l: Lists, segment: Segment, fromClient: bool): Lists {
    if fromClient then l.(up := l.up + [segment]) else l.(down := l.down + [segment])
  }

  /** The stream owns slot k of the chain. */
  predicate Owns(chain: Chain, k: nat, stream: Stream) {
    k < |chain| && chain[k].owner == Some(stream)
  }

  /** What the map should say: the segments of every stream since it was last freed. */
  function AfterInsert(m: map<Stream, Lists>, stream: Stream, segment: Segment, fromClient: bool): map<Stream, Lists> {
    m[stream := Append(if stream in m then m[stream] else EMPTY, segment, fromClient)]
  }

  type Buckets = seq<Chain>

  // ---------- The three ways of storing a segment ----------

  /** Where the search along the chain stops: at the stream's slot or at the last one. */
  function Stop(chain: Chain, stream: Stream, k: nat): (j: nat)
    requires k < |chain|
    ensures k <= j < |chain| && (chain[j].owner == Some(stream) || j == |chain| - 1)
    ensures forall i :: k <= i < j ==> chain[i].owner != Some(stream)
    decreases |chain| - k
  {
    if k + 1 == |chain| || chain[k].owner == Some(stream) then k else Stop(chain, stream, k + 1)
  }

  /** The last free slot before slot n. */
  function LastFree(chain: Chain, n: nat): (free: Option<nat>)
    requires n <= |chain|
    ensures free.Some? ==> free.value < n && chain[free.value].owner == None
    ensures free.None? ==> forall j :: 0 <= j < n ==> chain[j].owner != None
  {
    if n == 0 then None else if chain[n - 1].owner == None then Some(n - 1) else LastFree(chain, n - 1)
  }

  /** The slot that find_stream returns. */
  function FoundAt(chain: Chain, stream: Stream): (k: nat)
    requires chain != []
    ensures k < |chain|
  {
    var j := Stop(chain, stream, 0);
    var free := LastFree(chain, j);
    if chain[j].owner != Some(stream) && free.Some? then free.value else j
  }

  /** The chain after a segment was stored: in the stream's slot, in a free one, which gets
      buffers, or in a new one, for which the slot before it gets buffers. */
  function Stored(chain: Chain, stream: Stream, segment: Segment, fromClient: bool): (r: Chain)
    requires chain != []
    ensures r != []
  {
    var k := FoundAt(chain, stream);
    match chain[k].owner
    case Some(s) =>
      if s == stream then chain[k := chain[k].(lists := Append(chain[k].lists, segment, fromClient))]
      else chain[k := chain[k].(buffers := true)] + [Slot(Some(stream), Append(EMPTY, segment, fromClient), false)]
    case None => chain[k := Slot(Some(stream), Started(chain[k].lists, segment, fromClient), true)]
  }

  /** Taking over a slot sets one list and leaves the other. */
  function Started(l: Lists, segment: Segment, fromClient: bool): Lists {
    if fromClient then l.(up := [segment]) else l.(down := [segment])
  }

  function Freed(chain: Chain, stream: Stream): (r: Chain)
    requires chain != []
    ensures r != []
  {
    var k := FoundAt(chain, stream);
    if chain[k].owner == Some(stream) then chain[k := Slot(None, EMPTY, chain[k].buffers)] else chain
  }

  // ---------- The chains as a map ----------

  /** A slot of an owned stream holds that stream's lists and is its only one; others are
      empty. */
  ghost predicate SlotOk(buckets: Buckets, hash: Stream -> nat, m: map<Stream, Lists>, b: nat, k: nat)
    requires b < |buckets| && k < |buckets[b]|
  {
    var slot := buckets[b][k];
    match slot.owner
    case None => slot.lists == EMPTY
    case Some(s) =>
      s in m && hash(s) == b && slot.lists == m[s] && forall j: nat :: Owns(buckets[b], j, s) ==> j == k
  }

  ghost predicate HasSlot(buckets: Buckets, hash: Stream -> nat, s: Stream) {
    hash(s) < |buckets| && exists k: nat :: Owns(buckets[hash(s)], k, s)
  }

  /** Every stream of the map owns exactly one slot, in its own bucket, with its lists. */
  ghost predicate TableOk(buckets: Buckets, hash: Stream -> nat, m: map<Stream, Lists>) {
    && (forall s :: hash(s) < |buckets|)
    && (forall b :: 0 <= b < |buckets| ==> buckets[b] != [])
    && (forall b: nat, k: nat :: b < |buckets| && k < |buckets[b]| ==> SlotOk(buckets, hash, m, b, k))
    && (forall s :: s in m ==> HasSlot(buckets, hash, s))
  }

  lemma OwnsSlot(chain: Chain, k: nat)
    requires k < |chain|
    ensures forall s: Stream :: chain[k].owner == Some(s) ==> Owns(chain, k, s)
  {
  }

  /** Storing a stream's new lists: in its slot, or in a free or a new one. */
  lemma {:induction false} StoreOk(buckets: Buckets, hash: Stream -> nat, m: map<Stream, Lists>, stream: Stream, lists: Lists, k: nat, chain: Chain)
    requires TableOk(buckets, hash, m)
    requires var before := buckets[hash(stream)];
             && |chain| == (if k < |before| then |before| else k + 1) && k <= |before| && Owns(chain, k, stream) && chain[k].lists == lists
             && (forall i :: 0 <= i < |before| && i != k ==> chain[i].owner == before[i].owner && chain[i].lists == before[i].lists)
             && (stream !in m || Owns(before, k, stream)) && (k < |before| ==> before[k].owner == Some(stream) || before[k].owner == None)
    ensures TableOk(buckets[hash(stream) := chain], hash, m[stream := lists])
  {
    var b := hash(stream);
    var buckets', m' := buckets[b := chain], m[stream := lists];
    forall c: nat, i: nat | c < |buckets'| && i < |buckets'[c]|
      ensures SlotOk(buckets', hash, m', c, i)
    {
      if c != b || i < |buckets[b]| {
        assert SlotOk(buckets, hash, m, c, i);
        OwnsSlot(buckets[c], i);
      }
      if c == b && k < |buckets[b]| {
        assert SlotOk(buckets, hash, m, b, k);
        OwnsSlot(buckets[b], k);
      }
      forall j: nat, s: Stream | c == b && Owns(chain, j, s) && Owns(chain, i, s)
        ensures j == i
      {
        if j < |buckets[b]| { assert SlotOk(buckets, hash, m, b, j); }
        if k < |buckets[b]| { assert SlotOk(buckets, hash, m, b, k); }
      }
    }
    forall s | s in m'
      ensures HasSlot(buckets', hash, s)
    {
      if s == stream {
        assert Owns(buckets'[hash(s)], k, s);
      } else {
        assert HasSlot(buckets, hash, s);
        var j: nat :| Owns(buckets[hash(s)], j, s);
        assert Owns(buckets'[hash(s)], j, s);
      }
    }
  }

  /** Emptying a stream's slot. */
  lemma {:induction false} DropOk(buckets: Buckets, hash: Stream -> nat, m: map<Stream, Lists>, stream: Stream, k: nat)
    requires TableOk(buckets, hash, m) && Owns(buckets[hash(stream)], k, stream)
    ensures var chain := buckets[hash(stream)];
            TableOk(buckets[hash(stream) := chain[k := Slot(None, EMPTY, chain[k].buffers)]], hash, m - {stream})
  {
    var b := hash(stream);
    var chain := buckets[b][k := Slot(None, EMPTY, buckets[b][k].buffers)];
    var buckets', m' := buckets[b := chain], m - {stream};
    assert SlotOk(buckets, hash, m, b, k);
    forall c: nat, i: nat | c < |buckets'| && i < |buckets'[c]|
      ensures SlotOk(buckets', hash, m', c, i)
    {
      assert SlotOk(buckets, hash, m, c, i);
      forall j: nat, s: Stream | c == b && Owns(chain, j, s)
        ensures Owns(buckets[b], j, s)
      {
      }
    }
    forall s | s in m'
      ensures HasSlot(buckets', hash, s)
    {
      assert HasSlot(buckets, hash, s);
      var j: nat :| Owns(buckets[hash(s)], j, s);
      assert Owns(buckets'[hash(s)], j, s);
    }
  }

  /** What find_stream finds, in terms of the map. */
  lemma {:induction false} FoundIs(buckets: Buckets, hash: Stream -> nat, m: map<Stream, Lists>, stream: Stream)
    requires TableOk(buckets, hash, m)
    ensures var chain := buckets[hash(stream)]; var k := FoundAt(chain, stream);
            if stream in m then Owns(chain, k, stream)
            else chain[k].owner == None || (k == |chain| - 1 && forall j :: 0 <= j < |chain| ==> chain[j].owner != None && chain[j].owner != Some(stream))
  {
    var chain := buckets[hash(stream)];
    if stream in m {
      assert HasSlot(buckets, hash, stream);
      var j: nat :| Owns(chain, j, stream);
    } else {
      forall j: nat | j < |chain|
        ensures chain[j].owner != Some(stream)
      {
        assert SlotOk(buckets, hash, m, hash(stream), j);
      }
    }
  }

  class Table {
    var buckets: seq<Chain>
    const hash: Stream -> nat
    ghost var streams: map<Stream, Lists>

    constructor (size: nat, hash: Stream -> nat)
      requires forall s :: hash(s) < size
      ensures Valid() && streams == map[] && this.hash == hash
      ensures forall b :: 0 <= b < |buckets| ==> buckets[b] == [Slot(None, EMPTY, false)]
    {
      this.hash := hash;
      buckets := seq(size, i => [Slot(None, EMPTY, false)]);
      streams := map[];
    }

    ghost predicate Valid()
      reads this
    {
      TableOk(buckets, hash, streams)
    }

    /** find_stream: the stream's slot, or a free one, or the last of its chain. */
    method Find(stream: Stream) returns (k: nat)
      requires Valid()
      ensures var chain := buckets[hash(stream)];
              k == FoundAt(chain, stream) < |chain|
              && if stream in streams then Owns(chain, k, stream)
                 else chain[k].owner == None || (k == |chain| - 1 && forall j :: 0 <= j < |chain| ==> chain[j].owner != None && chain[j].owner != Some(stream))
    {
      var chain := buckets[hash(stream)];
      var free: Option<nat> := None;
      k := 0;
      while k + 1 < |chain|
        invariant k < |chain| && free == LastFree(chain, k) && Stop(chain, stream, 0) == Stop(chain, stream, k)
      {
        if chain[k].owner == Some(stream) {
          break;
        } else if chain[k].owner == None {
          free := Some(k);
        }
        k := k + 1;
      }
      if chain[k].owner != Some(stream) && free.Some? {
        k := free.value;
      }
      FoundIs(buckets, hash, streams, stream);
    }

    /** insert_new_data_segment.  A server segment makes process_gzip_data look at the slot
        that was found, which is not the stream's own if a new one had to be chained. */
    method Insert(stream: Stream, segment: Segment, fromClient: bool) returns (unzip: Option<nat>)
      requires Valid()
      modifies `buckets, `streams
      ensures Valid() && streams == AfterInsert(old(streams), stream, segment, fromClient)
      ensures buckets == old(buckets)[hash(stream) := Stored(old(buckets[hash(stream)]), stream, segment, fromClient)]
      ensures unzip == if fromClient then None else Some(FoundAt(old(buckets[hash(stream)]), stream))
      ensures unzip.Some? ==>
                (Owns(buckets[hash(stream)], unzip.value, stream) <==>
                 stream in old(streams) || exists j :: 0 <= j < |old(buckets[hash(stream)])| && old(buckets[hash(stream)])[j].owner == None)
    {
      var k := Find(stream);
      var b := hash(stream);
      var chain := buckets[b];
      assert SlotOk(buckets, hash, streams, b, k);
      unzip := if fromClient then None else Some(k);
      if chain[k].owner == Some(stream) {
        chain := chain[k := chain[k].(lists := Append(chain[k].lists, segment, fromClient))];
      } else if chain[k].owner == None {
        chain := chain[k := Slot(Some(stream), Started(chain[k].lists, segment, fromClient), true)];
      } else {
        chain := chain[k := chain[k].(buffers := true)] + [Slot(Some(stream), Append(EMPTY, segment, fromClient), false)];
        k := k + 1;
      }
      assert Started(EMPTY, segment, fromClient) == Append(EMPTY, segment, fromClient);
      StoreOk(buckets, hash, streams, stream, chain[k].lists, k, chain);
      buckets := buckets[b := chain];
      streams := AfterInsert(streams, stream, segment, fromClient);
    }

    /** free_data_stream.  The slot keeps its buffers. */
    method Free(stream: Stream)
      requires Valid()
      modifies `buckets, `streams
      ensures Valid() && streams == old(streams) - {stream}
      ensures buckets == old(buckets)[hash(stream) := Freed(old(buckets[hash(stream)]), stream)]
    {
      var k := Find(stream);
      var b := hash(stream);
      if buckets[b][k].owner == Some(stream) {
        DropOk(buckets, hash, streams, stream, k);
        buckets := buckets[b := buckets[b][k := Slot(None, EMPTY, buckets[b][k].buffers)]];
        streams := streams - {stream};
      } else {
        assert streams - {stream} == streams;
      }
    }
  }

  // ---------- Histories ----------

  datatype Operation = Insert(stream: Stream, segment: Segment, fromClient: bool) | Free(stream: Stream)

  /** The map after a history of operations, which the table follows. */
  function After(ops: seq<Operation>): map<Stream, Lists> {
    if ops == [] then map[]
    else
      var m := After(ops[..|ops| - 1]);
      match ops[|ops| - 1]
      case Insert(s, x, c) => AfterInsert(m, s, x, c)
      case Free(s) => m - {s}
  }

  /** The segments inserted for a stream since it was last freed, in arrival order. */
  function Arrivals(ops: seq<Operation>, stream: Stream): Lists {
    if ops == [] then EMPTY
    else
      var l := Arrivals(ops[..|ops| - 1], stream);
      match ops[|ops| - 1]
      case Insert(s, x, c) => if s == stream then Append(l, x, c) else l
      case Free(s) => if s == stream then EMPTY else l
  }

  /** After any history, a stream's lists are exactly what arrived for it since its last
      free; a stream without arrivals has no slot. */
  lemma {:induction false} ListsAreArrivals(ops: seq<Operation>, stream: Stream)
    ensures stream in After(ops) ==> After(ops)[stream] == Arrivals(ops, stream) != EMPTY
    ensures stream !in After(ops) ==> Arrivals(ops, stream) == EMPTY
  {
    if ops != [] { ListsAreArrivals(ops[..|ops| - 1], stream); }
  }

  /** Operation i brought a segment of the stream, from this side, and the stream was not freed
      since. */
  ghost predicate Arrived(ops: seq<Operation>, stream: Stream, fromClient: bool, i: nat) {
    && i < |ops| && ops[i].Insert? && ops[i].stream == stream && ops[i].fromClient == fromClient
    && forall j :: i < j < |ops| ==> ops[j] != Free(stream)
  }

  /** A stream's list of one side; nothing for a stream that the map does not have. */
  function ListOf(m: map<Stream, Lists>, stream: Stream, fromClient: bool): seq<Segment> {
    if stream !in m then [] else if fromClient then m[stream].up else m[stream].down
  }

  /** The places are those of all arrivals, in order. */
  ghost predicate PlacesOf(ops: seq<Operation>, stream: Stream, fromClient: bool, at: seq<nat>) {
    && (forall k, l :: 0 <= k < l < |at| ==> at[k] < at[l])
    && (forall k :: 0 <= k < |at| ==> Arrived(ops, stream, fromClient, at[k]))
    && (forall i: nat :: Arrived(ops, stream, fromClient, i) ==> i in at)
  }

  lemma ArrivedNext(ops: seq<Operation>, stream: Stream, fromClient: bool, i: nat)
    requires ops != []
    ensures var front, last := ops[..|ops| - 1], ops[|ops| - 1];
            Arrived(ops, stream, fromClient, i) <==>
            if i == |ops| - 1 then last.Insert? && last.stream == stream && last.fromClient == fromClient
            else Arrived(front, stream, fromClient, i) && last != Free(stream)
  {
  }

  lemma PlacesNext(ops: seq<Operation>, stream: Stream, fromClient: bool, at: seq<nat>) returns (at': seq<nat>)
    requires ops != [] && PlacesOf(ops[..|ops| - 1], stream, fromClient, at)
    ensures var last := ops[|ops| - 1];
            at' == if last == Free(stream) then []
                   else if last.Insert? && last.stream == stream && last.fromClient == fromClient then at + [|ops| - 1] else at
    ensures PlacesOf(ops, stream, fromClient, at')
  {
    hide Arrived;
    var front, last, n := ops[..|ops| - 1], ops[|ops| - 1], |ops| - 1;
    forall i: nat
      ensures Arrived(ops, stream, fromClient, i) <==>
              if i == n then last.Insert? && last.stream == stream && last.fromClient == fromClient
              else Arrived(front, stream, fromClient, i) && last != Free(stream)
      ensures Arrived(front, stream, fromClient, i) ==> i < n
    {
      ArrivedNext(ops, stream, fromClient, i);
      if Arrived(front, stream, fromClient, i) { ArrivedInTime(front, stream, fromClient, i); }
    }
    if last == Free(stream) {
      at' := [];
    } else if last.Insert? && last.stream == stream && last.fromClient == fromClient {
      at' := at + [n];
      assert at'[|at|] == n;
      forall i: nat | Arrived(ops, stream, fromClient, i)
        ensures i in at'
      {
      }
    } else {
      at' := at;
    }
  }

  lemma ArrivedInTime(ops: seq<Operation>, stream: Stream, fromClient: bool, i: nat)
    requires Arrived(ops, stream, fromClient, i)
    ensures i < |ops|
  {
  }

  /** Said of the history alone: the up list of a stream is the segments of its client's
      arrivals since it was last freed, at increasing places of the history, and the down list
      those of its server's; and the map has the stream if and only if there are any. */
  lemma {:induction false} ListsInOrder(ops: seq<Operation>, stream: Stream, fromClient: bool) returns (at: seq<nat>)
    ensures PlacesOf(ops, stream, fromClient, at)
    ensures |ListOf(After(ops), stream, fromClient)| == |at|
    ensures forall k :: 0 <= k < |at| ==> at[k] < |ops| && ops[at[k]].Insert? && ListOf(After(ops), stream, fromClient)[k] == ops[at[k]].segment
  {
    if ops == [] {
      at := [];
    } else {
      hide PlacesOf, After, ListOf;
      var before := ListsInOrder(ops[..|ops| - 1], stream, fromClient);
      at := PlacesNext(ops, stream, fromClient, before);
      ListNext(ops, stream, fromClient);
    }
  }

  lemma ListNext(ops: seq<Operation>, stream: Stream, fromClient: bool)
    requires ops != []
    ensures var last, before := ops[|ops| - 1], ListOf(After(ops[..|ops| - 1]), stream, fromClient);
            ListOf(After(ops), stream, fromClient) ==
            if last == Free(stream) then []
            else if last.Insert? && last.stream == stream && last.fromClient == fromClient then before + [last.segment] else before
  {
    var m := After(ops[..|ops| - 1]);
    assert After(ops) == match ops[|ops| - 1] case Insert(s, x, c) => AfterInsert(m, s, x, c) case Free(s) => m - {s};
    hide After;
  }

  lemma {:induction false} InMapIff(ops: seq<Operation>, stream: Stream)
    ensures stream in After(ops) <==> exists i: nat, c: bool :: Arrived(ops, stream, c, i)
  {
    var up := ListsInOrder(ops, stream, true);
    var down := ListsInOrder(ops, stream, false);
    ListsAreArrivals(ops, stream);
    hide After, Arrivals, Arrived;
    if stream in After(ops) {
      if up != [] { assert Arrived(ops, stream, true, up[0]); } else { assert Arrived(ops, stream, false, down[0]); }
    }
  }

  /** The chain of bucket b after a history. */
  function ChainAfter(ops: seq<Operation>, hash: Stream -> nat, b: nat): (chain: Chain)
    ensures chain != []
  {
    if ops == [] then [Slot(None, EMPTY, false)]
    else
      var chain := ChainAfter(ops[..|ops| - 1], hash, b);
      var op := ops[|ops| - 1];
      if hash(op.stream) != b then chain
      else if op.Insert? then Stored(chain, op.stream, op.segment, op.fromClient) else Freed(chain, op.stream)
  }

  /** The table run over a history. */
  method Replay(table: Table, ops: seq<Operation>)
    requires table.Valid() && table.streams == map[]
    requires forall b :: 0 <= b < |table.buckets| ==> table.buckets[b] == [Slot(None, EMPTY, false)]
    modifies table
    ensures table.Valid() && table.streams == After(ops)
    ensures |table.buckets| == old(|table.buckets|) && forall b :: 0 <= b < |table.buckets| ==> table.buckets[b] == ChainAfter(ops, table.hash, b)
  {
    hide Stored, Freed, TableOk;
    for i := 0 to |ops|
      invariant table.Valid() && table.streams == After(ops[..i]) && |table.buckets| == old(|table.buckets|)
      invariant forall b :: 0 <= b < |table.buckets| ==> table.buckets[b] == ChainAfter(ops[..i], table.hash, b)
    {
      assert ops[..i + 1][..i] == ops[..i];
      HashFits(table.buckets, table.hash, table.streams, ops[i].stream);
      match ops[i]
      case Insert(s, x, c) => var unzip := table.Insert(s, x, c);
      case Free(s) => table.Free(s);
    }
    assert ops[..|ops|] == ops;
  }

  lemma HashFits(buckets: Buckets, hash: Stream -> nat, m: map<Stream, Lists>, s: Stream)
    requires TableOk(buckets, hash, m)
    ensures hash(s) < |buckets|
  {
  }

  // ---------- Which slots have buffers ----------

  /** Operation i of the history puts a stream into slot k of bucket b, which is free. */
  predicate TakesOver(ops: seq<Operation>, hash: Stream -> nat, b: nat, k: nat, i: nat) {
    i < |ops| && ops[i].Insert? && hash(ops[i].stream) == b
    && var chain := ChainAfter(ops[..i], hash, b);
       FoundAt(chain, ops[i].stream) == k && chain[k].owner == None
  }

  lemma TakesOverEarlier(ops: seq<Operation>, hash: Stream -> nat, b: nat, k: nat, i: nat)
    requires i < |ops| - 1
    ensures TakesOver(ops, hash, b, k, i) <==> TakesOver(ops[..|ops| - 1], hash, b, k, i)
  {
    assert ops[..|ops| - 1][..i] == ops[..i];
  }

  /** What one operation does to the buffers. */
  lemma BuffersStep(ops: seq<Operation>, hash: Stream -> nat, b: nat, k: nat)
    requires ops != [] && k < |ChainAfter(ops, hash, b)|
    ensures var before, after := ChainAfter(ops[..|ops| - 1], hash, b), ChainAfter(ops, hash, b);
            && |before| <= |after| <= |before| + 1
            && (k == |before| ==> !after[k].buffers)
            && (k < |before| ==> (after[k].buffers <==> before[k].buffers || TakesOver(ops, hash, b, k, |ops| - 1) || (k + 1 == |before| < |after|)))
            && (k == |before| ==> !TakesOver(ops, hash, b, k, |ops| - 1))
  {
    hide Stop, LastFree;
    var before := ChainAfter(ops[..|ops| - 1], hash, b);
    if hash(ops[|ops| - 1].stream) == b {
      FullOrFree(before, ops[|ops| - 1].stream);
    }
  }

  /** A new slot is chained only behind the last one. */
  lemma FullOrFree(chain: Chain, stream: Stream)
    requires chain != []
    ensures var k := FoundAt(chain, stream); chain[k].owner == None || chain[k].owner == Some(stream) || k == |chain| - 1
  {
  }

  lemma {:induction false} NoneTaken(ops: seq<Operation>, hash: Stream -> nat, b: nat, k: nat)
    requires k >= |ChainAfter(ops, hash, b)|
    ensures forall i: nat :: !TakesOver(ops, hash, b, k, i)
  {
    if ops != [] {
      LongerChain(ops, hash, b);
      NoneTaken(ops[..|ops| - 1], hash, b, k);
      hide Stop, LastFree, Stored, Freed;
      forall i: nat
        ensures !TakesOver(ops, hash, b, k, i)
      {
        if i < |ops| - 1 { TakesOverEarlier(ops, hash, b, k, i); }
      }
    }
  }

  lemma LongerChain(ops: seq<Operation>, hash: Stream -> nat, b: nat)
    requires ops != []
    ensures |ChainAfter(ops[..|ops| - 1], hash, b)| <= |ChainAfter(ops, hash, b)|
  {
    BuffersStep(ops, hash, b, 0);
  }

  /** After any history, a slot has buffers if and only if it was once taken over while free,
      or another slot was chained behind it. */
  lemma {:induction false} BuffersIff(ops: seq<Operation>, hash: Stream -> nat, b: nat, k: nat)
    requires k < |ChainAfter(ops, hash, b)|
    ensures ChainAfter(ops, hash, b)[k].buffers <==>
            k + 1 < |ChainAfter(ops, hash, b)| || exists i: nat :: TakesOver(ops, hash, b, k, i)
  {
    if ops != [] {
      var front := ops[..|ops| - 1];
      BuffersStep(ops, hash, b, k);
      if k < |ChainAfter(front, hash, b)| {
        BuffersIff(front, hash, b, k);
      } else {
        NoneTaken(front, hash, b, k);
      }
      hide FoundAt, Stored, Freed, ChainAfter, TakesOver;
      forall i: nat | i < |ops| - 1
        ensures TakesOver(ops, hash, b, k, i) <==> TakesOver(front, hash, b, k, i)
      {
        TakesOverEarlier(ops, hash, b, k, i);
      }
      TakenInTime(ops, hash, b, k);
      TakenInTime(front, hash, b, k);
    }
  }

  lemma TakenInTime(ops: seq<Operation>, hash: Stream -> nat, b: nat, k: nat)
    ensures forall i: nat :: TakesOver(ops, hash, b, k, i) ==> i < |ops|
  {
  }

  /** So a stream can be left without: one stream takes the head slot, a second one of the
      same bucket is chained by its first server segment.  The first one's data is looked
      at, and the second one's slot, which further server segments lead to, has no buffers. */
  lemma ChainedWithoutBuffers(hash: Stream -> nat, a: Stream, b: Stream, x: Segment, y: Segment, fromClient: bool)
    requires a != b && hash(a) == hash(b)
    ensures var ops := [Insert(a, x, fromClient), Insert(b, y, false)];
            var chain := ChainAfter(ops, hash, hash(b));
            && FoundAt(ChainAfter(ops[..1], hash, hash(b)), b) == 0 && Owns(chain, 0, a)
            && Owns(chain, 1, b) && FoundAt(chain, b) == 1 && !chain[1].buffers && chain[1].lists == Lists([], [y])
  {
    var ops := [Insert(a, x, fromClient), Insert(b, y, false)];
    assert ops[..1] == [Insert(a, x, fromClient)] && ops[..1][..0] == [];
    assert ChainAfter(ops[..1][..0], hash, hash(b)) == [Slot(None, EMPTY, false)];
    assert ChainAfter(ops[..1], hash, hash(b)) == [Slot(Some(a), Started(EMPTY, x, fromClient), true)];
  }
}
