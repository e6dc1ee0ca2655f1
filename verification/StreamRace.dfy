/** One slot of the stream table, shared by the packet thread, which appends segments
    without the lock and frees them, and a scanner, which reads them under the lock.  A step
    is one store of the packet thread or one hop of the scanner; steps of the two interleave
    in any order.  A step that would follow a null or freed pointer, or write beyond the
    scanner's buffer, is a fault. */
module StreamRace {
  import opened Common

  /** The address of a segment; addresses of freed segments may come back. */
  type Segment = nat

  type Stream = nat

  type Pointer = Option<Segment>

  datatype Memory = Memory(live: set<Segment>, next: map<Segment, Pointer>, data: map<Segment, seq<Byte>>)

  datatype Slot = Slot(owner: Option<Stream>, first: Pointer, last: Pointer, temp: Pointer, offset: nat)

  /** What the packet thread does next.  Fresh segments wait to be stored; a slot is taken
      over, and a stream given up, store by store. */
  datatype Packet =
    | Ready
    | StoreFirst(segment: Segment) | LinkNext(segment: Segment) | StoreLast(segment: Segment)
    | ResetTemp(stream: Stream, arrived: Pointer) | ResetOffset(stream: Stream, arrived: Pointer) | TakeSlot(stream: Stream, arrived: Pointer)
    | WantLock | DropOwner | Unlock
    | ClearLast(rest: Pointer) | ClearFirst(rest: Pointer) | ClearOffset(rest: Pointer) | FreeAll(rest: Pointer)

  /** What the scanner does next: check_gk, update_dh or get_buffer.  Out means that it does
      not hold the lock. */
  datatype Scan =
    | Out | Release
    | CheckOwner | CheckFirst | CheckTemp | CheckSet
    | UpdateOwner(want: nat) | UpdateWalk(want: nat, sum: nat, at: Pointer) | UpdateStore(want: nat, at: Pointer) | UpdateOffset
    | GetOwner | GetStart | Measure(at: Pointer, total: nat) | CopyStart(total: nat) | Copy(at: Pointer, total: nat, buffer: seq<Byte>)
    | GotBuffer(buffer: seq<Byte>, total: nat)

  datatype Holder = Nobody | PacketThread | Scanner

  /** What update_dh did to temp_up: where it stood in the list, how many bytes were done with,
      how far the walk got, whether it met the end there, and where temp_up was put. */
  datatype Move = Move(start: Option<nat>, want: nat, seen: nat, ended: bool, to: Option<nat>)

  /** The fields from up on are history: the stream's up list, and where in it the scanner's
      buffer starts, how far it has walked and how far it has measured; what the updates did
      since the slot was taken; and where the current update began and how far it got. */
  datatype State = State(slot: Slot, mem: Memory, lock: Holder, packet: Packet, scan: Scan,
                         up: seq<Segment>, from: nat, walked: nat, measured: nat,
                         moves: seq<Move>, start: Option<nat>, seen: nat)

  datatype Event =
    | FromClient(stream: Stream, segment: Segment, bytes: seq<Byte>) | FromServer(stream: Stream) | Closed(stream: Stream) | PacketStep
    | TryCheck | TryUpdate(len: nat) | TryGet | ScanStep | ScanStop

  datatype Result = Blocked | Fault | Moved(s: State)

  function Init(): State {
    State(Slot(None, None, None, None, 0), Memory({}, map[], map[]), Nobody, Ready, Out, [], 0, 0, 0, [], None, 0)
  }

  predicate Valid(m: Memory, p: Pointer) {
    p.Some? && p.value in m.live && p.value in m.next && p.value in m.data
  }

  function NextOf(m: Memory, p: Pointer): Pointer
    requires Valid(m, p)
  {
    m.next[p.value]
  }

  function DataOf(m: Memory, p: Pointer): seq<Byte>
    requires Valid(m, p)
  {
    m.data[p.value]
  }

  // ---------- The packet thread ----------

  /** A segment from the client: appended to its stream's slot, or the free slot is taken. */
  function Arrive(s: State, stream: Stream, segment: Segment, bytes: seq<Byte>): Result {
    if s.packet != Ready || segment in s.mem.live || (s.slot.owner != None && s.slot.owner != Some(stream)) then Blocked
    else
      var mem := Memory(s.mem.live + {segment}, s.mem.next[segment := None], s.mem.data[segment := bytes]);
      Moved(s.(mem := mem,
               packet := if s.slot.owner == None then ResetTemp(stream, Some(segment))
                         else if s.slot.last == None then StoreFirst(segment)
                         else LinkNext(segment)))
  }

  function PacketGo(s: State): Result {
    match s.packet
    case Ready => Blocked
    case StoreFirst(x) => Moved(s.(slot := s.slot.(first := Some(x)), up := s.up + [x], packet := StoreLast(x)))
    case LinkNext(x) =>
      if !Valid(s.mem, s.slot.last) then Fault
      else Moved(s.(mem := s.mem.(next := s.mem.next[s.slot.last.value := Some(x)]), up := s.up + [x], packet := StoreLast(x)))
    case StoreLast(x) => Moved(s.(slot := s.slot.(last := Some(x)), packet := Ready))
    case ResetTemp(st, x) => Moved(s.(slot := s.slot.(temp := None), packet := ResetOffset(st, x)))
    case ResetOffset(st, x) => Moved(s.(slot := s.slot.(offset := 0), packet := TakeSlot(st, x)))
    case TakeSlot(st, x) =>
      Moved(s.(slot := s.slot.(owner := Some(st)), packet := if x.Some? then StoreFirst(x.value) else Ready, moves := []))
    case WantLock => if s.lock != Nobody then Blocked else Moved(s.(lock := PacketThread, packet := DropOwner))
    case DropOwner => Moved(s.(slot := s.slot.(owner := None), packet := Unlock))
    case Unlock => Moved(s.(lock := Nobody, packet := ClearLast(s.slot.first)))
    case ClearLast(p) => Moved(s.(slot := s.slot.(last := None), packet := ClearFirst(p)))
    case ClearFirst(p) => Moved(s.(slot := s.slot.(first := None), packet := ClearOffset(p)))
    case ClearOffset(p) => Moved(s.(slot := s.slot.(offset := 0), packet := FreeAll(p)))
    case FreeAll(None) => Moved(s.(packet := Ready))
    case FreeAll(Some(x)) =>
      if !Valid(s.mem, Some(x)) then Fault
      else Moved(s.(mem := s.mem.(live := s.mem.live - {x}), up := if s.up == [] then [] else s.up[1..], packet := FreeAll(s.mem.next[x])))
  }

  // ---------- The scanner ----------

  function TryLock(s: State, scan: Scan): Result {
    if s.scan != Out || s.lock != Nobody then Blocked else Moved(s.(lock := Scanner, scan := scan))
  }

  function IfOwned(s: State, scan: Scan): Result {
    Moved(s.(scan := if s.slot.owner == None then Release else scan))
  }

  function ScanGo(s: State): Result {
    match s.scan
    case Out => Blocked
    case Release => Moved(s.(lock := Nobody, scan := Out))
    case CheckOwner => IfOwned(s, CheckFirst)
    case CheckFirst => Moved(s.(scan := if s.slot.first == None then Release else CheckTemp))
    case CheckTemp => Moved(s.(scan := if s.slot.temp == None then CheckSet else Release))
    case CheckSet => Moved(s.(slot := s.slot.(temp := s.slot.first), scan := Release))
    case UpdateOwner(_) => UpdateGo(s)
    case UpdateWalk(_, _, _) => UpdateGo(s)
    case UpdateStore(_, _) => UpdateGo(s)
    case UpdateOffset => Moved(s.(slot := s.slot.(offset := 0), scan := Release))
    case GetOwner => IfOwned(s, GetStart)
    case _ => BufferGo(s)
  }

  /** update_dh: walks on from temp as long as fewer bytes were passed than are done with, and
      puts temp there, or on the last segment. */
  function UpdateGo(s: State): Result {
    match s.scan
    case UpdateOwner(n) =>
      if s.slot.owner == None then Moved(s.(scan := Release))
      else Moved(s.(scan := UpdateWalk(n, 0, s.slot.temp), start := PlaceOf(s.up, s.slot.temp), seen := IndexOf(s.up, s.slot.temp)))
    case UpdateWalk(n, sum, p) =>
      if p == None || n <= sum then Moved(s.(scan := UpdateStore(n, p)))
      else if !Valid(s.mem, p) then Fault
      else Moved(s.(scan := UpdateWalk(n, sum + |DataOf(s.mem, p)|, NextOf(s.mem, p)), seen := s.seen + 1))
    case UpdateStore(n, p) =>
      var temp := if p == None then s.slot.last else p;
      Moved(s.(slot := s.slot.(temp := temp), scan := UpdateOffset,
               moves := s.moves + [Move(s.start, n, s.seen, p == None, PlaceOf(s.up, temp))]))
    case _ => Blocked
  }

  /** get_buffer: measures the segments from temp up to the last one, then copies them. */
  function BufferGo(s: State): Result {
    match s.scan
    case GetStart =>
      if s.slot.temp == None then Moved(s.(scan := GotBuffer([], 0), from := 0, walked := 0, measured := 0))
      else if !Valid(s.mem, s.slot.temp) || s.slot.offset > |DataOf(s.mem, s.slot.temp)| then Fault
      else Moved(s.(scan := Measure(NextOf(s.mem, s.slot.temp), |DataOf(s.mem, s.slot.temp)| - s.slot.offset),
                    from := IndexOf(s.up, s.slot.temp), walked := IndexOf(s.up, s.slot.temp) + 1))
    case Measure(p, total) =>
      if p == None then Moved(s.(scan := CopyStart(total), measured := s.walked))
      else if !Valid(s.mem, s.slot.last) then Fault
      else if p == NextOf(s.mem, s.slot.last) then Moved(s.(scan := CopyStart(total), measured := s.walked))
      else if !Valid(s.mem, p) then Fault
      else Moved(s.(scan := Measure(NextOf(s.mem, p), total + |DataOf(s.mem, p)|), walked := s.walked + 1))
    case CopyStart(total) =>
      if !Valid(s.mem, s.slot.temp) || s.slot.offset > |DataOf(s.mem, s.slot.temp)|
         || |DataOf(s.mem, s.slot.temp)| - s.slot.offset > total then Fault
      else Moved(s.(scan := Copy(NextOf(s.mem, s.slot.temp), total, DataOf(s.mem, s.slot.temp)[s.slot.offset..]),
                    walked := s.from + 1))
    case Copy(p, total, buffer) =>
      if p == None then Moved(s.(scan := GotBuffer(buffer, total)))
      else if !Valid(s.mem, s.slot.last) then Fault
      else if p == NextOf(s.mem, s.slot.last) || |buffer| >= total then Moved(s.(scan := GotBuffer(buffer, total)))
      else if !Valid(s.mem, p) || |buffer| + |DataOf(s.mem, p)| > total then Fault
      else Moved(s.(scan := Copy(NextOf(s.mem, p), total, buffer + DataOf(s.mem, p)), walked := s.walked + 1))
    case GotBuffer(_, _) => Moved(s.(scan := Release))
    case _ => Blocked
  }

  function IndexOf(up: seq<Segment>, p: Pointer): nat
    decreases |up|
  {
    if up == [] || p == None || up[0] == p.value then 0 else 1 + IndexOf(up[1..], p)
  }

  function PlaceOf(up: seq<Segment>, p: Pointer): Option<nat> {
    if p == None then None else Some(IndexOf(up, p))
  }

  function Step(s: State, e: Event): Result {
    match e
    case FromClient(st, x, bytes) => Arrive(s, st, x, bytes)
    case FromServer(st) =>
      if s.packet != Ready || (s.slot.owner != None && s.slot.owner != Some(st)) then Blocked
      else Moved(s.(packet := if s.slot.owner == None then ResetTemp(st, None) else Ready))
    case Closed(st) =>
      if s.packet != Ready || s.slot.owner != Some(st) then Blocked else Moved(s.(packet := WantLock))
    case PacketStep => PacketGo(s)
    case TryCheck => TryLock(s, CheckOwner)
    case TryUpdate(n) => TryLock(s, UpdateOwner(n))
    case TryGet => TryLock(s, GetOwner)
    case ScanStep => ScanGo(s)
    case ScanStop => if s.scan == CheckFirst then Moved(s.(scan := Release)) else Blocked
  }

  /** Events one after the other; blocked ones change nothing. */
  function Run(events: seq<Event>): Result {
    if events == [] then Moved(Init())
    else
      match Run(events[..|events| - 1])
      case Moved(s) =>
        (match Step(s, events[|events| - 1])
         case Blocked => Moved(s)
         case r => r)
      case r => r
  }

  // ---------- The invariant ----------

  function PointerAt(up: seq<Segment>, i: nat): Pointer {
    if i < |up| then Some(up[i]) else None
  }

  /** The list is linked in order, without repetition, in allocated memory. */
  ghost predicate Linked(m: Memory, up: seq<Segment>) {
    && (forall i :: 0 <= i < |up| ==> up[i] in m.live && up[i] in m.next && up[i] in m.data)
    && (forall i, j :: 0 <= i < j < |up| ==> up[i] != up[j])
    && (forall i :: 0 <= i < |up| ==> m.next[up[i]] == PointerAt(up, i + 1))
  }

  /** A segment that has arrived and is not linked yet. */
  function Arrived(p: Packet): Pointer {
    match p
    case StoreFirst(x) => Some(x)
    case LinkNext(x) => Some(x)
    case ResetTemp(_, x) => x
    case ResetOffset(_, x) => x
    case TakeSlot(_, x) => x
    case _ => None
  }

  /** Allocated are the segments of the up list, and one on its way in: none is lost. */
  ghost predicate MemOk(s: State) {
    && Linked(s.mem, s.up)
    && (forall x :: x in s.mem.live <==> x in s.up || Arrived(s.packet) == Some(x))
    && (Arrived(s.packet).Some? ==>
          var x := Arrived(s.packet).value;
          Valid(s.mem, Some(x)) && s.mem.next[x] == None && x !in s.up)
  }

  /** The slot is being taken over. */
  predicate Taking(p: Packet) { p.ResetTemp? || p.ResetOffset? || p.TakeSlot? }

  /** The old stream's segments are being freed. */
  predicate Freeing(p: Packet) { p.ClearLast? || p.ClearFirst? || p.ClearOffset? || p.FreeAll? }

  function Rest(p: Packet): Pointer
    requires Freeing(p)
  {
    match p case ClearLast(r) => r case ClearFirst(r) => r case ClearOffset(r) => r case FreeAll(r) => r
  }

  /** How many segments there are up to last_up. */
  function Visible(s: State): nat {
    if s.packet.StoreLast? && s.up != [] then |s.up| - 1 else |s.up|
  }

  ghost predicate SlotOk(s: State) {
    var slot, p, up := s.slot, s.packet, s.up;
    && slot.first == (if p.ClearOffset? || p.FreeAll? then None else PointerAt(up, 0))
    && slot.last == (if p.ClearFirst? || p.ClearOffset? || p.FreeAll? || Visible(s) == 0 then None else Some(up[Visible(s) - 1]))
    && slot.offset == 0
    && (p.StoreLast? ==> up != [] && up[|up| - 1] == p.segment)
    && (p.StoreFirst? ==> up == []) && (p.LinkNext? ==> up != [])
    && (slot.owner == None && !Freeing(p) && p != Unlock ==> up == [])
    && (slot.owner == None <==> p == Unlock || Freeing(p) || Taking(p) || (p == Ready && slot.owner == None))
    && (Freeing(p) ==> Rest(p) == PointerAt(up, 0))
    && (p.ResetOffset? || p.TakeSlot? ==> slot.temp == None)
    && (slot.owner != None ==> slot.temp == None || slot.temp.value in up)
  }

  /** The scanner holds the lock and has seen that the slot is owned. */
  predicate Inside(scan: Scan) {
    !(scan.Out? || scan.Release? || scan.CheckOwner? || scan.UpdateOwner? || scan.GetOwner?)
  }

  ghost predicate LockOk(s: State) {
    && (s.lock == PacketThread <==> s.packet == DropOwner || s.packet == Unlock)
    && (s.lock == Scanner <==> s.scan != Out)
    && (Inside(s.scan) ==> s.slot.owner != None)
  }

  /** The data of a part of the list. */
  function Flatten(m: Memory, up: seq<Segment>): seq<Byte> {
    if up == [] then []
    else Flatten(m, up[..|up| - 1]) + (if up[|up| - 1] in m.data then m.data[up[|up| - 1]] else [])
  }

  function Part(s: State, to: nat): seq<Byte> {
    if s.from <= to <= |s.up| then Flatten(s.mem, s.up[s.from..to]) else []
  }

  /** The scanner is at position `walked` of the list, or found no next segment there. */
  ghost predicate AtWalked(s: State, p: Pointer) {
    && s.from < |s.up| && s.slot.temp == Some(s.up[s.from]) && s.from + 1 <= s.walked <= |s.up|
    && (p.Some? ==> s.walked < |s.up| && p.value == s.up[s.walked])
  }

  ghost predicate Measured(s: State, total: nat) {
    && s.from < s.measured <= |s.up| && (s.measured <= Visible(s) || s.measured == s.from + 1)
    && total == |Part(s, s.measured)|
  }

  ghost predicate ScanOk(s: State) {
    match s.scan
    case UpdateWalk(n, sum, p) =>
      WalkedTo(s, n, p) && (s.start.Some? && s.start.value <= s.seen <= |s.up| ==> sum == |Between(s.mem, s.up, s.start.value, s.seen)|)
    case CheckSet => s.slot.temp == None
    case UpdateStore(n, p) =>
      WalkedTo(s, n, p) && (p.Some? && s.start.Some? && s.start.value <= s.seen <= |s.up| ==> n <= |Between(s.mem, s.up, s.start.value, s.seen)|)
    case Measure(p, total) =>
      AtWalked(s, p) && (s.walked <= Visible(s) || s.walked == s.from + 1) && total == |Part(s, s.walked)|
    case CopyStart(total) => s.from < |s.up| && s.slot.temp == Some(s.up[s.from]) && Measured(s, total)
    case Copy(p, total, buffer) =>
      AtWalked(s, p) && Measured(s, total) && buffer == Part(s, s.walked) && |buffer| <= total && (p == None ==> s.walked >= s.measured)
    case GotBuffer(buffer, total) =>
      && s.from <= s.measured <= |s.up| && buffer == Part(s, s.measured) && |buffer| == total
      && (if s.slot.temp == None then s.from == s.measured == 0 else s.from < s.measured && s.slot.temp == Some(s.up[s.from]))
    case _ => true
  }

  /** The data of the segments from i to k. */
  function Between(m: Memory, up: seq<Segment>, i: nat, k: nat): seq<Byte>
    requires i <= k <= |up|
  {
    Flatten(m, up[i..k])
  }

  /** All segments from i up to n begin within the first `want` bytes. */
  ghost predicate BeginWithin(m: Memory, up: seq<Segment>, i: nat, n: nat, want: nat)
    requires i <= n <= |up|
  {
    forall k :: i <= k < n ==> |Between(m, up, i, k)| < want
  }

  /** The walk of an update is at position `seen` of the list, or met the end there. */
  ghost predicate WalkedTo(s: State, want: nat, p: Pointer) {
    match s.start
    case None => s.slot.temp == None && p == None && s.seen == 0
    case Some(i) =>
      && i <= s.seen <= |s.up| && i < |s.up| && s.slot.temp == Some(s.up[i]) && BeginWithin(s.mem, s.up, i, s.seen, want)
      && (p.Some? ==> s.seen < |s.up| && p.value == s.up[s.seen])
      && (p.None? ==> i < s.seen <= Visible(s) + 1)
  }

  /** What an update did: the segments walked over begin within the bytes that are done with;
      temp_up is put on the first segment behind these bytes, or, if the walk met the end of
      the list, on what was the last segment then, which may be the one before the end, or one
      that arrived since. */
  ghost predicate MoveOk(v: Move, m: Memory, up: seq<Segment>) {
    && (v.to.Some? ==> v.to.value < |up|)
    && match v.start
       case None => v.seen == 0 && v.ended
       case Some(i) =>
         && i <= v.seen <= |up| && BeginWithin(m, up, i, v.seen, v.want)
         && (!v.ended ==> v.to == Some(v.seen) && v.want <= |Between(m, up, i, v.seen)|)
         && (v.ended ==> i < v.seen && (if v.to.None? then v.seen <= 1 else v.seen <= v.to.value + 2))
  }

  /** Where the updates so far left temp_up. */
  function LastTo(moves: seq<Move>): Option<nat> {
    if moves == [] then None else moves[|moves| - 1].to
  }

  /** From one update to the next, only check_gk moves temp_up: from null to the first segment. */
  predicate Follows(before: Option<nat>, after: Option<nat>) {
    after == before || (before == None && after == Some(0))
  }

  ghost predicate MovesOk(moves: seq<Move>, m: Memory, up: seq<Segment>) {
    forall n :: 0 <= n < |moves| ==> MoveOk(moves[n], m, up) && Follows(LastTo(moves[..n]), moves[n].start)
  }

  /** The history explains where temp_up stands. */
  ghost predicate HistoryOk(s: State) {
    s.slot.owner != None ==>
      && MovesOk(s.moves, s.mem, s.up)
      && match LastTo(s.moves)
         case None => s.slot.temp == None || s.slot.temp == PointerAt(s.up, 0)
         case Some(j) => j < |s.up| && s.slot.temp == Some(s.up[j])
  }

  ghost predicate Inv(s: State) {
    MemOk(s) && SlotOk(s) && LockOk(s) && ScanOk(s) && HistoryOk(s)
  }

  ghost predicate Keeps(s: State, r: Result) {
    match r
    case Blocked => true
    case Fault => false
    case Moved(s') => Inv(s')
  }

  // ---------- Steps of the packet thread ----------

  /** The scanner's view only depends on the list so far, its data and temp_up. */
  lemma {:induction false} FlattenSame(m: Memory, m': Memory, up: seq<Segment>)
    requires forall i :: 0 <= i < |up| ==> up[i] in m.data && up[i] in m'.data && m.data[up[i]] == m'.data[up[i]]
    ensures Flatten(m, up) == Flatten(m', up)
  {
    if up != [] { FlattenSame(m, m', up[..|up| - 1]); }
  }

  /** The list may have grown, and last_up moved on; what was there is as it was. */
  ghost predicate Grown(s: State, s': State) {
    && |s.up| <= |s'.up| && s'.up[..|s.up|] == s.up
    && (forall i :: 0 <= i < |s.up| ==> s.up[i] in s.mem.data && s.up[i] in s'.mem.data && s'.mem.data[s.up[i]] == s.mem.data[s.up[i]])
    && s'.scan == s.scan && s'.from == s.from && s'.walked == s.walked && s'.measured == s.measured
    && s'.start == s.start && s'.seen == s.seen && s'.moves == s.moves
    && s'.slot.temp == s.slot.temp && s'.slot.owner == s.slot.owner && Visible(s) <= Visible(s')
  }

  lemma {:induction false} BetweenGrown(s: State, s': State, i: nat, k: nat)
    requires Grown(s, s') && i <= k <= |s.up|
    ensures Between(s'.mem, s'.up, i, k) == Between(s.mem, s.up, i, k)
  {
    assert s'.up[i..k] == s.up[i..k];
    FlattenSame(s.mem, s'.mem, s.up[i..k]);
  }

  lemma LongerUp(s: State, s': State)
    requires Grown(s, s')
    ensures |s.up| <= |s'.up| && (forall i :: 0 <= i < |s.up| ==> s'.up[i] == s.up[i])
  {
  }

  lemma BeginGrown(s: State, s': State, i: nat, n: nat, want: nat)
    requires Grown(s, s') && i <= n <= |s.up| && BeginWithin(s.mem, s.up, i, n, want)
    ensures BeginWithin(s'.mem, s'.up, i, n, want)
  {
    hide Grown, Between;
    LongerUp(s, s');
    forall k | i <= k < n
      ensures |Between(s'.mem, s'.up, i, k)| < want
    {
      BetweenGrown(s, s', i, k);
    }
  }

  lemma WalkGrown(s: State, s': State, want: nat, p: Pointer)
    requires WalkedTo(s, want, p) && Grown(s, s')
    ensures WalkedTo(s', want, p)
  {
    LongerUp(s, s');
    if s.start.Some? { BeginGrown(s, s', s.start.value, s.seen, want); }
    hide BeginWithin;
  }

  lemma MoveGrown(s: State, s': State, v: Move)
    requires MoveOk(v, s.mem, s.up) && Grown(s, s')
    ensures MoveOk(v, s'.mem, s'.up)
  {
    hide BeginWithin, Between;
    LongerUp(s, s');
    if v.start.Some? {
      BeginGrown(s, s', v.start.value, v.seen, v.want);
      BetweenGrown(s, s', v.start.value, v.seen);
    }
    hide Grown;
  }

  lemma HistoryGrown(s: State, s': State)
    requires HistoryOk(s) && Grown(s, s')
    ensures HistoryOk(s')
  {
    hide MoveOk;
    LongerUp(s, s');
    if s.slot.owner != None {
      forall n | 0 <= n < |s.moves|
        ensures MoveOk(s.moves[n], s'.mem, s'.up)
      {
        MoveGrown(s, s', s.moves[n]);
      }
    }
  }

  lemma {:induction false} PartGrown(s: State, s': State, to: nat)
    requires Grown(s, s') && to <= |s.up|
    ensures Part(s', to) == Part(s, to)
  {
    if s.from <= to {
      assert s'.up[s.from..to] == s.up[s.from..to];
      FlattenSame(s.mem, s'.mem, s.up[s.from..to]);
    }
  }

  lemma {:induction false} ScanGrown(s: State, s': State)
    requires ScanOk(s) && Grown(s, s')
    ensures ScanOk(s')
  {
    if s.scan.UpdateWalk? || s.scan.UpdateStore? {
      UpdateGrown(s, s');
    } else {
      BufferGrown(s, s');
    }
    hide ScanOk, Grown;
  }

  lemma UpdateGrown(s: State, s': State)
    requires ScanOk(s) && Grown(s, s') && (s.scan.UpdateWalk? || s.scan.UpdateStore?)
    ensures ScanOk(s')
  {
    hide Between, BeginWithin, Visible;
    WalkGrown(s, s', s.scan.want, s.scan.at);
    if s.start.Some? && s.start.value <= s.seen <= |s.up| { BetweenGrown(s, s', s.start.value, s.seen); }
  }

  lemma {:induction false} BufferGrown(s: State, s': State)
    requires ScanOk(s) && Grown(s, s') && !s.scan.UpdateWalk? && !s.scan.UpdateStore?
    ensures ScanOk(s')
  {
    hide Part, Visible, WalkedTo;
    LongerUp(s, s');
    if s.walked <= |s.up| { PartGrown(s, s', s.walked); }
    if s.measured <= |s.up| { PartGrown(s, s', s.measured); }
  }

  /** Steps at which the scanner is not inside do not concern it. */
  lemma ScanOutside(s: State)
    requires !Inside(s.scan)
    ensures ScanOk(s)
  {
  }

  lemma OnArriveMem(s: State, stream: Stream, segment: Segment, bytes: seq<Byte>)
    requires Inv(s)
    ensures var r := Arrive(s, stream, segment, bytes); r != Fault && (r.Moved? ==> MemOk(r.s))
  {
    hide SlotOk, LockOk, ScanOk;
  }

  lemma OnArriveSlot(s: State, stream: Stream, segment: Segment, bytes: seq<Byte>)
    requires Inv(s)
    ensures var r := Arrive(s, stream, segment, bytes); r.Moved? ==> SlotOk(r.s)
  {
    hide ScanOk, LockOk;
  }

  lemma OnArriveLock(s: State, stream: Stream, segment: Segment, bytes: seq<Byte>)
    requires Inv(s)
    ensures var r := Arrive(s, stream, segment, bytes); r.Moved? ==> LockOk(r.s)
  {
    hide MemOk, ScanOk;
  }

  lemma OnArriveScan(s: State, stream: Stream, segment: Segment, bytes: seq<Byte>)
    requires Inv(s)
    ensures var r := Arrive(s, stream, segment, bytes); r.Moved? ==> ScanOk(r.s) && HistoryOk(r.s)
  {
    hide LockOk, ScanOk, HistoryOk;
    var r := Arrive(s, stream, segment, bytes);
    if r.Moved? {
      assert Grown(s, r.s);
      ScanGrown(s, r.s);
      HistoryGrown(s, r.s);
    }
  }

  lemma OnArriveKeeps(s: State, stream: Stream, segment: Segment, bytes: seq<Byte>)
    requires Inv(s)
    ensures Keeps(s, Arrive(s, stream, segment, bytes))
  {
    hide MemOk, SlotOk, LockOk, ScanOk, HistoryOk;
    OnArriveMem(s, stream, segment, bytes);
    OnArriveSlot(s, stream, segment, bytes);
    OnArriveLock(s, stream, segment, bytes);
    OnArriveScan(s, stream, segment, bytes);
  }

  /** Linking a segment behind the last one. */
  lemma AppendLinked(m: Memory, up: seq<Segment>, x: Segment)
    requires Linked(m, up) && Valid(m, Some(x)) && m.next[x] == None && x !in up
    ensures up == [] ==> Linked(m, up + [x])
    ensures up != [] ==> Linked(m.(next := m.next[up[|up| - 1] := Some(x)]), up + [x])
  {
  }

  lemma OnLinkMem(s: State)
    requires Inv(s) && (s.packet.StoreFirst? || s.packet.LinkNext? || s.packet.StoreLast?)
    ensures var r := PacketGo(s); r != Fault && (r.Moved? ==> MemOk(r.s))
  {
    hide LockOk, ScanOk, Linked;
    LastIsLive(s);
    if !s.packet.StoreLast? { AppendLinked(s.mem, s.up, s.packet.segment); }
    hide SlotOk;
  }

  lemma LastIsLive(s: State)
    requires MemOk(s) && SlotOk(s)
    ensures s.slot.last.Some? ==> Visible(s) > 0 && s.slot.last.value == s.up[Visible(s) - 1] && Valid(s.mem, s.slot.last)
  {
  }

  lemma OnLinkSlot(s: State)
    requires Inv(s) && (s.packet.StoreFirst? || s.packet.LinkNext? || s.packet.StoreLast?)
    ensures var r := PacketGo(s); r.Moved? ==> SlotOk(r.s)
  {
    hide ScanOk, LockOk, MemOk;
  }

  lemma OnLinkLock(s: State)
    requires Inv(s) && (s.packet.StoreFirst? || s.packet.LinkNext? || s.packet.StoreLast?)
    ensures var r := PacketGo(s); r.Moved? ==> LockOk(r.s)
  {
    hide MemOk, ScanOk;
  }

  lemma OnLinkScan(s: State)
    requires Inv(s) && (s.packet.StoreFirst? || s.packet.LinkNext? || s.packet.StoreLast?)
    ensures var r := PacketGo(s); r.Moved? ==> ScanOk(r.s) && HistoryOk(r.s)
  {
    hide MemOk, SlotOk, LockOk, ScanOk, HistoryOk, Part, PacketGo, Grown;
    var r := PacketGo(s);
    if r.Moved? {
      LinkGrows(s);
      ScanGrown(s, r.s);
      HistoryGrown(s, r.s);
    }
  }

  lemma LinkGrows(s: State)
    requires MemOk(s) && SlotOk(s) && (s.packet.StoreFirst? || s.packet.LinkNext? || s.packet.StoreLast?)
    ensures var r := PacketGo(s); r.Moved? ==> Grown(s, r.s)
  {
    hide PacketGo, Grown;
    match s.packet
    case StoreFirst(_) => FirstGrows(s);
    case LinkNext(_) => NextGrows(s);
    case _ => LastGrows(s);
  }

  lemma FirstGrows(s: State)
    requires MemOk(s) && SlotOk(s) && s.packet.StoreFirst?
    ensures var r := PacketGo(s); r.Moved? ==> Grown(s, r.s)
  {
  }

  lemma NextGrows(s: State)
    requires MemOk(s) && SlotOk(s) && s.packet.LinkNext?
    ensures var r := PacketGo(s); r.Moved? ==> Grown(s, r.s)
  {
  }

  lemma LastGrows(s: State)
    requires MemOk(s) && SlotOk(s) && s.packet.StoreLast?
    ensures var r := PacketGo(s); r.Moved? ==> Grown(s, r.s)
  {
  }

  lemma OnLinkKeeps(s: State)
    requires Inv(s) && (s.packet.StoreFirst? || s.packet.LinkNext? || s.packet.StoreLast?)
    ensures Keeps(s, PacketGo(s))
  {
    hide MemOk, SlotOk, LockOk, ScanOk, HistoryOk;
    OnLinkMem(s);
    OnLinkSlot(s);
    OnLinkLock(s);
    OnLinkScan(s);
  }

  lemma OnTakeMem(s: State)
    requires Inv(s) && Taking(s.packet)
    ensures var r := PacketGo(s); r != Fault && (r.Moved? ==> MemOk(r.s))
  {
    hide SlotOk, LockOk, ScanOk;
  }

  lemma OnTakeSlot(s: State)
    requires Inv(s) && Taking(s.packet)
    ensures var r := PacketGo(s); r.Moved? ==> SlotOk(r.s)
  {
    hide ScanOk, LockOk;
  }

  lemma OnTakeLock(s: State)
    requires Inv(s) && Taking(s.packet)
    ensures var r := PacketGo(s); r.Moved? ==> LockOk(r.s)
  {
    hide MemOk, ScanOk;
  }

  lemma OnTakeScan(s: State)
    requires Inv(s) && Taking(s.packet)
    ensures var r := PacketGo(s); r.Moved? ==> ScanOk(r.s) && HistoryOk(r.s)
  {
    hide MemOk;
    ScanOutside(PacketGo(s).s);
  }

  lemma OnTakeKeeps(s: State)
    requires Inv(s) && Taking(s.packet)
    ensures Keeps(s, PacketGo(s))
  {
    hide MemOk, SlotOk, LockOk, ScanOk, HistoryOk;
    OnTakeMem(s);
    OnTakeSlot(s);
    OnTakeLock(s);
    OnTakeScan(s);
  }

  lemma OnCloseMem(s: State)
    requires Inv(s) && (s.packet == WantLock || s.packet == DropOwner || s.packet == Unlock)
    ensures var r := PacketGo(s); r != Fault && (r.Moved? ==> MemOk(r.s))
  {
    hide SlotOk, LockOk, ScanOk;
  }

  lemma OnCloseSlot(s: State)
    requires Inv(s) && (s.packet == WantLock || s.packet == DropOwner || s.packet == Unlock)
    ensures var r := PacketGo(s); r.Moved? ==> SlotOk(r.s)
  {
    hide ScanOk, LockOk, MemOk;
  }

  lemma OnCloseLock(s: State)
    requires Inv(s) && (s.packet == WantLock || s.packet == DropOwner || s.packet == Unlock)
    ensures var r := PacketGo(s); r.Moved? ==> LockOk(r.s)
  {
    hide MemOk, ScanOk;
  }

  lemma OnCloseScan(s: State)
    requires Inv(s) && (s.packet == WantLock || s.packet == DropOwner || s.packet == Unlock)
    ensures var r := PacketGo(s); r.Moved? ==> ScanOk(r.s) && HistoryOk(r.s)
  {
    hide MemOk;
    var r := PacketGo(s);
    if r.Moved? { ScanOutside(r.s); }
  }

  lemma OnCloseKeeps(s: State)
    requires Inv(s) && (s.packet == WantLock || s.packet == DropOwner || s.packet == Unlock)
    ensures Keeps(s, PacketGo(s))
  {
    hide MemOk, SlotOk, LockOk, ScanOk, HistoryOk;
    OnCloseMem(s);
    OnCloseSlot(s);
    OnCloseLock(s);
    OnCloseScan(s);
  }

  /** Freeing the head of the list leaves the rest linked. */
  lemma TailLinked(m: Memory, up: seq<Segment>)
    requires Linked(m, up) && up != []
    ensures Linked(m.(live := m.live - {up[0]}), up[1..]) && m.next[up[0]] == PointerAt(up[1..], 0)
  {
    var rest := up[1..];
    assert forall i :: 0 <= i < |rest| ==> rest[i] == up[i + 1];
    assert forall i: nat :: PointerAt(rest, i) == PointerAt(up, i + 1);
  }

  lemma OnFreeMem(s: State)
    requires Inv(s) && Freeing(s.packet)
    ensures var r := PacketGo(s); r != Fault && (r.Moved? ==> MemOk(r.s))
  {
    hide LockOk, ScanOk, Linked;
    if s.packet.FreeAll? && s.up != [] {
      TailLinked(s.mem, s.up);
      HeadIsLive(s.mem, s.up);
    }
  }

  lemma HeadIsLive(m: Memory, up: seq<Segment>)
    requires Linked(m, up) && up != []
    ensures Valid(m, Some(up[0]))
    ensures forall x :: x in up <==> x == up[0] || x in up[1..]
    ensures up[0] !in up[1..]
  {
  }

  lemma OnFreeSlot(s: State)
    requires Inv(s) && Freeing(s.packet)
    ensures var r := PacketGo(s); r.Moved? ==> SlotOk(r.s)
  {
    hide ScanOk, LockOk, Linked;
    if s.packet.FreeAll? && s.up != [] {
      TailLinked(s.mem, s.up);
    }
  }

  lemma OnFreeLock(s: State)
    requires Inv(s) && Freeing(s.packet)
    ensures var r := PacketGo(s); r.Moved? ==> LockOk(r.s)
  {
    hide MemOk, ScanOk;
  }

  lemma OnFreeScan(s: State)
    requires Inv(s) && Freeing(s.packet)
    ensures var r := PacketGo(s); r.Moved? ==> ScanOk(r.s) && HistoryOk(r.s)
  {
    hide MemOk;
    var r := PacketGo(s);
    if r.Moved? { ScanOutside(r.s); }
  }

  lemma OnFreeKeeps(s: State)
    requires Inv(s) && Freeing(s.packet)
    ensures Keeps(s, PacketGo(s))
  {
    hide MemOk, SlotOk, LockOk, ScanOk, HistoryOk;
    OnFreeMem(s);
    OnFreeSlot(s);
    OnFreeLock(s);
    OnFreeScan(s);
  }

  // ---------- Steps of the scanner ----------

  /** A scanner step changes no more than temp_up and its own place. */
  ghost predicate OnlyScans(s: State, s': State) {
    && s'.mem == s.mem && s'.up == s.up && s'.packet == s.packet && s'.slot == s.slot.(temp := s'.slot.temp)
    && (s'.slot.temp == s.slot.temp || (s.slot.owner != None && (s'.slot.temp == None || s'.slot.temp.value in s.up)))
  }

  lemma ScannerLeaves(s: State, s': State)
    requires MemOk(s) && SlotOk(s) && OnlyScans(s, s')
    ensures MemOk(s') && SlotOk(s')
  {
  }

  /** The history goes on as it is where temp_up does. */
  lemma HistoryStays(s: State, s': State)
    requires HistoryOk(s) && s'.slot == s.slot && s'.mem == s.mem && s'.up == s.up && s'.moves == s.moves
    ensures HistoryOk(s')
  {
    hide MovesOk;
  }

  lemma OnScan(s: State)
    requires Inv(s) && (s.scan.Out? || s.scan.Release? || s.scan.CheckOwner? || s.scan.CheckFirst? || s.scan.CheckTemp? || s.scan.CheckSet?
                        || s.scan.UpdateOffset? || s.scan.GetOwner?)
    ensures Keeps(s, ScanGo(s))
  {
    hide MemOk, Part, HistoryOk;
    var r := ScanGo(s);
    if r.Moved? {
      ScannerLeaves(s, r.s);
      if s.scan.CheckSet? { OnCheckSet(s, r.s); } else if s.scan.UpdateOffset? { NoOffset(s); HistoryStays(s, r.s); } else { HistoryStays(s, r.s); }
    }
  }

  /** check_gk puts temp_up on the first segment. */
  lemma OnCheckSet(s: State, s': State)
    requires SlotOk(s) && HistoryOk(s) && s.slot.temp == None && s'.slot == s.slot.(temp := s.slot.first)
    requires s'.mem == s.mem && s'.up == s.up && s'.moves == s.moves
    ensures HistoryOk(s')
  {
    hide MovesOk;
  }

  lemma NextInList(s: State, p: Pointer)
    requires MemOk(s) && p.Some? && p.value in s.up
    ensures Valid(s.mem, p) && (NextOf(s.mem, p) == None || NextOf(s.mem, p).value in s.up)
  {
    var i :| 0 <= i < |s.up| && s.up[i] == p.value;
  }

  lemma OnUpdateOwner(s: State)
    requires Inv(s) && s.scan.UpdateOwner?
    ensures Keeps(s, ScanGo(s))
  {
    hide MemOk, HistoryOk, BeginWithin, IndexOf, Visible;
    var r := ScanGo(s);
    ScannerLeaves(s, r.s);
    HistoryStays(s, r.s);
    NowhereIs(s.up);
    if s.slot.owner != None && s.slot.temp.Some? {
      IndexIs(s.up, s.slot.temp);
      NoneBetween(s.mem, s.up, r.s.seen, s.scan.want);
    }
  }

  lemma NowhereIs(up: seq<Segment>)
    ensures PlaceOf(up, None) == None && IndexOf(up, None) == 0
  {
  }

  lemma NoneBetween(m: Memory, up: seq<Segment>, i: nat, want: nat)
    requires i < |up|
    ensures Between(m, up, i, i) == [] && BeginWithin(m, up, i, i, want)
  {
  }

  lemma OnWalk(s: State)
    requires Inv(s) && s.scan.UpdateWalk?
    ensures Keeps(s, ScanGo(s))
  {
    hide MemOk, LockOk, SlotOk, HistoryOk, BeginWithin, IndexOf, Visible, Between;
    var r := ScanGo(s);
    var k := s.seen;
    if s.scan.at.Some? {
      AtIndex(s, k);
      WalkOn(s, s.start.value, k, s.scan.want);
    }
    WalkEnds(s, k);
    assert r.Moved?;
    ScannerLeaves(s, r.s);
    HistoryStays(s, r.s);
    SameVisible(s, r.s);
    LockStays(s, r);
  }

  /** The place of a segment of the list. */
  lemma PlaceIs(s: State, k: nat)
    requires MemOk(s) && k < |s.up|
    ensures PlaceOf(s.up, Some(s.up[k])) == Some(k) && Some(s.up[k]).value in s.up
  {
    hide IndexOf, MemOk;
    forall i: nat | i < |s.up| ensures s.up[i] == s.up[k] ==> i == k { Distinct(s, i, k); }
    IndexIs(s.up, Some(s.up[k]));
  }

  /** Where update_dh puts temp_up. */
  lemma StoredAt(s: State)
    requires MemOk(s) && SlotOk(s) && s.slot.owner != None && s.scan.UpdateStore? && WalkedTo(s, s.scan.want, s.scan.at)
    ensures var p := if s.scan.at == None then s.slot.last else s.scan.at;
            && (s.scan.at.Some? ==> PlaceOf(s.up, p) == Some(s.seen))
            && (s.scan.at.None? ==> PlaceOf(s.up, p) == if Visible(s) == 0 then None else Some(Visible(s) - 1))
            && Visible(s) <= |s.up| && (p.Some? ==> p.value in s.up && PlaceOf(s.up, p).value < |s.up| && p == Some(s.up[PlaceOf(s.up, p).value]))
  {
    hide IndexOf, Linked, BeginWithin, PlaceOf;
    if s.scan.at.Some? { PlaceIs(s, s.seen); }
    if Visible(s) > 0 { PlaceIs(s, Visible(s) - 1); }
    NowhereIs(s.up);
  }

  /** The move that is made is as it should be. */
  lemma MoveMade(s: State)
    requires MemOk(s) && SlotOk(s) && s.slot.owner != None && s.scan.UpdateStore? && ScanOk(s)
    ensures var p := if s.scan.at == None then s.slot.last else s.scan.at;
            MoveOk(Move(s.start, s.scan.want, s.seen, s.scan.at == None, PlaceOf(s.up, p)), s.mem, s.up)
  {
    StoredAt(s);
    hide MemOk, SlotOk, BeginWithin, PlaceOf, Visible, Between;
  }

  lemma OnUpdateStore(s: State)
    requires Inv(s) && s.scan.UpdateStore?
    ensures Keeps(s, ScanGo(s))
  {
    hide MemOk, LockOk, SlotOk, BeginWithin, IndexOf, Visible, Between, MoveOk, MovesOk, WalkedTo, Follows;
    InsideOwned(s);
    StoredAt(s);
    MoveMade(s);
    TempMatches(s);
    var r := ScanGo(s);
    ScannerLeaves(s, r.s);
    LockStays(s, r);
    var v := r.s.moves[|s.moves|];
    assert r.s.moves == s.moves + [v];
    MovesGrow(s.moves, v, s.mem, s.up);
  }

  lemma MovesGrow(moves: seq<Move>, v: Move, m: Memory, up: seq<Segment>)
    requires MovesOk(moves, m, up) && MoveOk(v, m, up) && Follows(LastTo(moves), v.start)
    ensures MovesOk(moves + [v], m, up)
  {
    hide MoveOk;
    var more := moves + [v];
    forall n | 0 <= n < |more|
      ensures MoveOk(more[n], m, up) && Follows(LastTo(more[..n]), more[n].start)
    {
      assert more[..n] == moves[..n];
      assert moves[..|moves|] == moves;
    }
  }

  /** An update starts where the last one ended, or where check_gk began. */
  lemma TempMatches(s: State)
    requires MemOk(s) && HistoryOk(s) && s.slot.owner != None && s.scan.UpdateStore? && WalkedTo(s, s.scan.want, s.scan.at)
    ensures Follows(LastTo(s.moves), s.start)
  {
    hide MemOk, MovesOk, BeginWithin, Visible;
    var j := match LastTo(s.moves) case None => 0 case Some(k) => k;
    if s.start.Some? && j < |s.up| { Distinct(s, s.start.value, j); }
  }

  lemma Distinct(s: State, i: nat, j: nat)
    requires MemOk(s) && i < |s.up| && j < |s.up|
    ensures s.up[i] == s.up[j] ==> i == j
  {
  }

  /** One hop of the walk. */
  lemma WalkOn(s: State, i: nat, k: nat, want: nat)
    requires MemOk(s) && i <= k < |s.up| && BeginWithin(s.mem, s.up, i, k, want)
    ensures Between(s.mem, s.up, i, k + 1) == Between(s.mem, s.up, i, k) + DataOf(s.mem, Some(s.up[k]))
    ensures |Between(s.mem, s.up, i, k)| < want ==> BeginWithin(s.mem, s.up, i, k + 1, want)
  {
    FlattenNext(s.mem, s.up, i, k);
    hide Flatten;
  }

  lemma WalkEnds(s: State, k: nat)
    ensures PointerAt(s.up, k + 1) == None ==> |s.up| <= Visible(s) + 1 && |s.up| <= k + 1
  {
  }

  lemma {:induction false} IndexIs(up: seq<Segment>, p: Pointer)
    requires p.Some? && p.value in up
    ensures IndexOf(up, p) < |up| && up[IndexOf(up, p)] == p.value
  {
    if up[0] != p.value { IndexIs(up[1..], p); }
  }

  lemma {:induction false} FlattenNext(m: Memory, up: seq<Segment>, from: nat, i: nat)
    requires from <= i < |up| && up[i] in m.data
    ensures Flatten(m, up[from..i + 1]) == Flatten(m, up[from..i]) + m.data[up[i]]
    ensures Flatten(m, up[from..from]) == []
  {
    var part := up[from..i + 1];
    assert part[..|part| - 1] == up[from..i];
  }

  /** The i-th segment: its data extends the part, and its link leads to the next. */
  lemma {:induction false} AtIndex(s: State, i: nat)
    requires MemOk(s) && i < |s.up|
    ensures Valid(s.mem, Some(s.up[i])) && NextOf(s.mem, Some(s.up[i])) == PointerAt(s.up, i + 1)
    ensures s.from <= i ==> Part(s, i + 1) == Part(s, i) + DataOf(s.mem, Some(s.up[i])) && Part(s, s.from) == []
    ensures i + 1 < |s.up| ==> s.up[i + 1] in s.up
  {
    hide Flatten;
    if s.from <= i { FlattenNext(s.mem, s.up, s.from, i); }
  }

  lemma OnStart(s: State)
    requires Inv(s) && s.scan.GetStart?
    ensures Keeps(s, ScanGo(s))
  {
    hide MemOk, SlotOk, LockOk, Part, IndexOf, Visible, HistoryOk;
    InsideOwned(s);
    NoOffset(s);
    var r := ScanGo(s);
    if s.slot.temp.Some? {
      TempInList(s);
      var i := IndexOf(s.up, s.slot.temp);
      var t := s.(from := i);
      IndexIs(s.up, s.slot.temp);
      SameMem(s, t);
      AtIndex(t, i);
      assert r.Moved?;
      ScannerLeaves(s, r.s);
      SamePart(t, r.s, i + 1);
      assert [] + DataOf(s.mem, s.slot.temp) == DataOf(s.mem, s.slot.temp);
    } else {
      ScannerLeaves(s, r.s);
      NoPart(r.s);
    }
    HistoryStays(s, r.s);
    LockStays(s, r);
  }

  lemma SameMem(s: State, t: State)
    requires MemOk(s) && t == s.(from := t.from)
    ensures MemOk(t)
  {
  }

  lemma TempInList(s: State)
    requires SlotOk(s) && s.slot.owner != None && s.slot.temp != None
    ensures s.slot.temp.value in s.up
  {
  }

  lemma NoPart(s: State)
    requires s.from == 0
    ensures Part(s, 0) == []
  {
  }

  lemma SamePart(s: State, s': State, to: nat)
    requires s'.mem == s.mem && s'.up == s.up && s'.from == s.from
    ensures Part(s', to) == Part(s, to)
  {
  }

  /** The link of last_up leads just behind the visible part. */
  lemma LastLink(s: State, i: nat)
    requires MemOk(s) && SlotOk(s) && i < |s.up| && s.slot.owner != None
    ensures Visible(s) > 0 ==> Valid(s.mem, s.slot.last) && (NextOf(s.mem, s.slot.last) == Some(s.up[i]) <==> i == Visible(s))
    ensures (i > 0 ==> Visible(s) > 0) && |s.up| <= Visible(s) + 1
  {
    if Visible(s) > 0 { AtIndex(s, Visible(s) - 1); }
    hide Part;
  }

  lemma OnMeasure(s: State)
    requires Inv(s) && s.scan.Measure?
    ensures Keeps(s, ScanGo(s))
  {
    hide MemOk, Part, LockOk, SlotOk, IndexOf, Visible, HistoryOk;
    InsideOwned(s);
    var i := s.walked;
    if s.scan.at.Some? {
      AtIndex(s, i);
      LastLink(s, i);
    }
    var r := ScanGo(s);
    if r.Moved? {
      ScannerLeaves(s, r.s);
      HistoryStays(s, r.s);
      SamePart(s, r.s, i);
      SamePart(s, r.s, i + 1);
      SameVisible(s, r.s);
    }
    LockStays(s, r);
  }

  lemma LockStays(s: State, r: Result)
    requires LockOk(s) && Inside(s.scan) && (r.Moved? ==> r.s.lock == s.lock && r.s.packet == s.packet && r.s.slot.owner == s.slot.owner && Inside(r.s.scan))
    ensures r.Moved? ==> LockOk(r.s)
  {
  }

  lemma OnCopyStart(s: State)
    requires Inv(s) && s.scan.CopyStart?
    ensures Keeps(s, ScanGo(s))
  {
    hide MemOk, Part, LockOk, SlotOk, Visible, HistoryOk;
    AtIndex(s, s.from);
    PartPrefix(s, s.from + 1, s.measured);
    NoOffset(s);
    var r := ScanGo(s);
    assert [] + DataOf(s.mem, s.slot.temp) == DataOf(s.mem, s.slot.temp);
    assert r.Moved?;
    ScannerLeaves(s, r.s);
    HistoryStays(s, r.s);
    SamePart(s, r.s, s.from + 1);
    SamePart(s, r.s, s.measured);
    SameVisible(s, r.s);
    LockStays(s, r);
  }

  /** Longer parts extend shorter ones. */
  lemma {:induction false} PartPrefix(s: State, a: nat, b: nat)
    requires MemOk(s) && s.from <= a <= b <= |s.up|
    ensures Part(s, a) <= Part(s, b)
    decreases b
  {
    hide MemOk, Part;
    if a < b {
      PartPrefix(s, a, b - 1);
      AtIndex(s, b - 1);
    }
  }

  lemma OnCopy(s: State)
    requires Inv(s) && s.scan.Copy?
    ensures Keeps(s, ScanGo(s))
  {
    hide MemOk, LockOk, SlotOk, ScanOk, ScanGo, HistoryOk;
    OnCopyScan(s);
    var r := ScanGo(s);
    if r.Moved? { CopyLeaves(s); }
  }

  lemma CopyLeaves(s: State)
    requires Inv(s) && s.scan.Copy? && ScanGo(s).Moved?
    ensures MemOk(ScanGo(s).s) && SlotOk(ScanGo(s).s) && LockOk(ScanGo(s).s) && HistoryOk(ScanGo(s).s)
  {
    hide MemOk, LockOk, SlotOk, ScanOk, HistoryOk;
    HistoryStays(s, ScanGo(s).s);
    ScannerLeaves(s, ScanGo(s).s);
    LockStays(s, ScanGo(s));
  }

  lemma OnCopyScan(s: State)
    requires Inv(s) && s.scan.Copy?
    ensures var r := ScanGo(s); r != Fault && (r.Moved? ==> ScanOk(r.s))
  {
    hide MemOk, Part, LockOk, SlotOk, IndexOf, Visible, HistoryOk;
    InsideOwned(s);
    var i, total := s.walked, s.scan.total;
    if i <= s.measured { PartPrefix(s, i, s.measured); } else { PartPrefix(s, s.measured, i); }
    if s.scan.at.Some? {
      AtIndex(s, i);
      LastLink(s, i);
      if i < s.measured { PartPrefix(s, i + 1, s.measured); }
    }
    var r := ScanGo(s);
    if r.Moved? {
      ScannerLeaves(s, r.s);
      SamePart(s, r.s, i);
      SamePart(s, r.s, i + 1);
      SamePart(s, r.s, s.measured);
      SameVisible(s, r.s);
    }
  }

  lemma NoOffset(s: State)
    requires SlotOk(s)
    ensures s.slot.offset == 0
  {
  }

  lemma InsideOwned(s: State)
    requires LockOk(s) && Inside(s.scan)
    ensures s.slot.owner != None && s.lock == Scanner
  {
  }

  lemma SameVisible(s: State, s': State)
    requires s'.up == s.up && s'.packet == s.packet
    ensures Visible(s') == Visible(s)
  {
  }

  lemma OnRest(s: State)
    requires Inv(s)
    ensures Keeps(s, ScanGo(s))
  {
    hide MemOk, SlotOk, LockOk, ScanOk, HistoryOk;
    match s.scan
    case UpdateOwner(_) => OnUpdateOwner(s);
    case UpdateWalk(_, _, _) => OnWalk(s);
    case UpdateStore(_, _) => OnUpdateStore(s);
    case GetStart => OnStart(s);
    case Measure(_, _) => OnMeasure(s);
    case CopyStart(_) => OnCopyStart(s);
    case Copy(_, _, _) => OnCopy(s);
    case GotBuffer(_, _) => OnGot(s);
    case _ => OnScan(s);
  }

  lemma OnGot(s: State)
    requires Inv(s) && s.scan.GotBuffer?
    ensures Keeps(s, ScanGo(s))
  {
    hide MemOk, HistoryOk;
    ScannerLeaves(s, ScanGo(s).s);
    HistoryStays(s, ScanGo(s).s);
  }

  lemma OnPacket(s: State)
    requires Inv(s)
    ensures Keeps(s, PacketGo(s))
  {
    hide MemOk, SlotOk, LockOk, ScanOk, HistoryOk;
    if s.packet.StoreFirst? || s.packet.LinkNext? || s.packet.StoreLast? { OnLinkKeeps(s); }
    else if Taking(s.packet) { OnTakeKeeps(s); }
    else if Freeing(s.packet) { OnFreeKeeps(s); }
    else if s.packet != Ready { OnCloseKeeps(s); }
  }

  /** Taking or leaving the lock. */
  lemma OnTry(s: State, e: Event)
    requires Inv(s) && (e.TryCheck? || e.TryUpdate? || e.TryGet? || e.ScanStop?)
    ensures Keeps(s, Step(s, e))
  {
    hide MemOk, SlotOk, HistoryOk;
    var r := Step(s, e);
    if r.Moved? {
      ScannerLeaves(s, r.s);
      ScanOutside(r.s);
      HistoryStays(s, r.s);
    }
    hide ScanOk;
  }

  /** Events that only set the packet thread going. */
  lemma OnNoticeSlot(s: State, e: Event)
    requires Inv(s) && (e.FromServer? || e.Closed?)
    ensures var r := Step(s, e); r != Fault && (r.Moved? ==> SlotOk(r.s))
  {
    hide MemOk, LockOk, ScanOk;
  }

  lemma OnNoticeScan(s: State, e: Event)
    requires Inv(s) && (e.FromServer? || e.Closed?)
    ensures var r := Step(s, e); r != Fault && (r.Moved? ==> ScanOk(r.s) && HistoryOk(r.s))
  {
    hide LockOk, ScanOk, HistoryOk, Grown;
    var r := Step(s, e);
    if r.Moved? {
      NoticeGrows(s, r.s);
      ScanGrown(s, r.s);
      HistoryGrown(s, r.s);
    }
  }

  lemma NoticeGrows(s: State, s': State)
    requires MemOk(s) && s' == s.(packet := s'.packet) && s.packet == Ready && !s'.packet.StoreLast?
    ensures Grown(s, s')
  {
    assert s.up[..|s.up|] == s.up;
  }

  lemma OnNoticeMem(s: State, e: Event)
    requires Inv(s) && (e.FromServer? || e.Closed?)
    ensures var r := Step(s, e); r != Fault && (r.Moved? ==> MemOk(r.s))
  {
    hide SlotOk, LockOk, ScanOk;
  }

  lemma OnNotice(s: State, e: Event)
    requires Inv(s) && (e.FromServer? || e.Closed?)
    ensures Keeps(s, Step(s, e))
  {
    hide MemOk, SlotOk, ScanOk, HistoryOk;
    OnNoticeMem(s, e);
    OnNoticeSlot(s, e);
    OnNoticeScan(s, e);
  }

  // ---------- All runs ----------

  /** In every state reachable by any interleaving, every event is harmless, and the
      invariant goes on. */
  lemma {:induction false} NoFault(events: seq<Event>)
    ensures Run(events).Moved? && Inv(Run(events).s)
    ensures forall e :: Step(Run(events).s, e) != Fault
  {
    if events != [] {
      NoFault(events[..|events| - 1]);
      StepKeeps(Run(events[..|events| - 1]).s, events[|events| - 1]);
    }
    var s := Run(events).s;
    forall e
      ensures Step(s, e) != Fault
    {
      StepKeeps(s, e);
    }
  }

  lemma StepKeeps(s: State, e: Event)
    requires Inv(s)
    ensures Keeps(s, Step(s, e))
  {
    hide MemOk, SlotOk, LockOk, ScanOk, HistoryOk;
    match e
    case FromClient(st, x, bytes) => OnArriveKeeps(s, st, x, bytes);
    case PacketStep => OnPacket(s);
    case ScanStep => OnRest(s);
    case FromServer(_) => OnNotice(s, e);
    case Closed(_) => OnNotice(s, e);
    case _ => OnTry(s, e);
  }

  /** What a scanner finds under the lock once it has seen an owner: a list of allocated
      segments, and temp_up null or in the list, also across reuse of the slot. */
  lemma {:induction false} ScannerIsSafe(events: seq<Event>)
    ensures Run(events).Moved?
    ensures var s := Run(events).s;
            Inside(s.scan) ==> s.slot.owner != None && Linked(s.mem, s.up) && (s.slot.temp == None || s.slot.temp.value in s.up)
  {
    hide Run, Flatten, Step;
    NoFault(events);
  }

  /** Where get_buffer starts: at the first segment, or where the last update ended. */
  function StartOf(moves: seq<Move>): nat {
    match LastTo(moves) case None => 0 case Some(j) => j
  }

  /** get_buffer returns exactly the data of consecutive segments, from where the updates since
      the slot was taken left temp_up, or from the first one, to a segment that had arrived
      when it finished measuring; and it fills its buffer exactly. */
  lemma {:induction false} BufferIsExact(events: seq<Event>)
    ensures Run(events).Moved?
    ensures var s := Run(events).s;
            s.scan.GotBuffer? ==> |s.scan.buffer| == s.scan.total && s.from <= s.measured <= |s.up|
                                  && s.scan.buffer == Flatten(s.mem, s.up[s.from..s.measured])
                                  && MovesOk(s.moves, s.mem, s.up) && s.from == StartOf(s.moves)
                                  && (s.slot.temp == None ==> s.moves == [] || LastTo(s.moves) == None)
  {
    hide Run, Flatten, Step, SlotOk, MovesOk, Linked;
    NoFault(events);
    var s := Run(events).s;
    if s.scan.GotBuffer? { BufferStarts(s); }
  }

  lemma BufferStarts(s: State)
    requires Inv(s) && s.scan.GotBuffer?
    ensures MovesOk(s.moves, s.mem, s.up) && s.from == StartOf(s.moves)
  {
    hide MovesOk, SlotOk, Part, MemOk;
    if s.slot.temp.Some? && StartOf(s.moves) < |s.up| { Distinct(s, s.from, StartOf(s.moves)); }
  }

  /** check_gk puts temp_up on the first segment. */
  lemma {:induction false} CheckIsFirst(events: seq<Event>)
    ensures Run(events).Moved?
    ensures var s := Run(events).s;
            s.scan.CheckSet? ==> s.slot.temp == None && Step(s, ScanStep).Moved? && Step(s, ScanStep).s.slot.temp == PointerAt(s.up, 0)
  {
    hide Run, Flatten, MemOk, HistoryOk;
    NoFault(events);
    hide PacketGo, BufferGo, UpdateGo;
  }

  /** update_dh(want) puts temp_up on the first segment behind that many bytes, counted from
      the old temp_up, or on the last segment if the walk met the end of the list. */
  lemma {:induction false} UpdateIsExact(events: seq<Event>)
    ensures Run(events).Moved?
    ensures var s := Run(events).s;
            s.scan.UpdateStore? ==>
              && Step(s, ScanStep).Moved?
              && var temp, i := Step(s, ScanStep).s.slot.temp, IndexOf(s.up, s.slot.temp);
                 (s.slot.temp.Some? ==> i <= s.seen <= |s.up| && i < |s.up| && s.slot.temp == Some(s.up[i]) && BeginWithin(s.mem, s.up, i, s.seen, s.scan.want))
                 && (s.scan.at.Some? ==> s.slot.temp.Some? && temp == PointerAt(s.up, s.seen) && s.scan.want <= |Between(s.mem, s.up, i, s.seen)|)
                 && (s.scan.at.None? ==> temp == (if Visible(s) == 0 then None else PointerAt(s.up, Visible(s) - 1)))
  {
    hide Run, Flatten, Step, HistoryOk, Visible, IndexOf, Between, BeginWithin, PointerAt, Inv;
    NoFault(events);
    var s := Run(events).s;
    if s.scan.UpdateStore? { UpdateStored(s); }
  }

  lemma UpdateStored(s: State)
    requires Inv(s) && s.scan.UpdateStore?
    ensures Step(s, ScanStep).Moved?
    ensures var temp, i := Step(s, ScanStep).s.slot.temp, IndexOf(s.up, s.slot.temp);
            (s.slot.temp.Some? ==> i <= s.seen <= |s.up| && i < |s.up| && s.slot.temp == Some(s.up[i]) && BeginWithin(s.mem, s.up, i, s.seen, s.scan.want))
            && (s.scan.at.Some? ==> s.slot.temp.Some? && temp == PointerAt(s.up, s.seen) && s.scan.want <= |Between(s.mem, s.up, i, s.seen)|)
            && (s.scan.at.None? ==> temp == (if Visible(s) == 0 then None else PointerAt(s.up, Visible(s) - 1)))
  {
    hide MemOk, HistoryOk, BeginWithin, Between, IndexOf, PacketGo, BufferGo;
    InsideOwned(s);
    StoredAt(s);
    if s.start.Some? { PlaceIs(s, s.start.value); }
    hide Visible;
  }

  /** An update takes temp_up across segment k. */
  predicate Passes(v: Move, k: nat) {
    v.to.Some? && k < v.to.value && (v.start.None? || v.start.value <= k)
  }

  /** Segment k begins within the bytes that the update was told are done with, counted from
      where temp_up stood. */
  ghost predicate IsDone(v: Move, k: nat, m: Memory, up: seq<Segment>) {
    v.start.Some? && v.start.value <= k < |up| && |Between(m, up, v.start.value, k)| < v.want
  }

  lemma {:induction false} AllPassed(moves: seq<Move>, m: Memory, up: seq<Segment>, k: nat)
    requires MovesOk(moves, m, up) && k < StartOf(moves)
    ensures exists n :: 0 <= n < |moves| && Passes(moves[n], k)
  {
    hide MoveOk;
    var v, front := moves[|moves| - 1], moves[..|moves| - 1];
    assert Follows(LastTo(front), v.start);
    if !Passes(v, k) {
      assert forall n :: 0 <= n < |front| ==> front[..n] == moves[..n];
      AllPassed(front, m, up, k);
      var n :| 0 <= n < |front| && Passes(front[n], k);
      assert Passes(moves[n], k);
    }
  }

  /** No other segment is passed over: one in front of the scanner's buffer was passed by an
      update that was told that its beginning is done with, unless the update found temp_up
      null, or the segment arrived after the update's walk had met the end of the list. */
  lemma {:induction false} PassedByUpdates(events: seq<Event>, k: nat)
    requires Run(events).Moved? && Run(events).s.scan.GotBuffer? && k < Run(events).s.from
    ensures var s := Run(events).s;
            exists n :: 0 <= n < |s.moves| && Passes(s.moves[n], k)
                        && (IsDone(s.moves[n], k, s.mem, s.up) || s.moves[n].start == None || (s.moves[n].ended && k >= s.moves[n].seen))
  {
    hide Run, Flatten, MemOk, SlotOk, LockOk, ScanOk, MovesOk, MoveOk, Between, Linked, IsDone;
    BufferIsExact(events);
    var s := Run(events).s;
    AllPassed(s.moves, s.mem, s.up, k);
    var n :| 0 <= n < |s.moves| && Passes(s.moves[n], k);
    OneMove(s.moves, s.mem, s.up, n);
    PassedIsDone(s.moves[n], k, s.mem, s.up);
  }

  lemma OneMove(moves: seq<Move>, m: Memory, up: seq<Segment>, n: nat)
    requires MovesOk(moves, m, up) && n < |moves|
    ensures MoveOk(moves[n], m, up)
  {
    hide MoveOk;
  }

  lemma PassedIsDone(v: Move, k: nat, m: Memory, up: seq<Segment>)
    requires MoveOk(v, m, up) && Passes(v, k)
    ensures IsDone(v, k, m, up) || v.start == None || (v.ended && k >= v.seen)
  {
    hide Between;
  }

  /** Segment k is behind what the walk has seen, and in front of where temp_up goes. */
  predicate Unseen(seen: nat, to: Option<nat>, k: nat) { seen <= k && to.Some? && k < to.value }

  /** Exactly then an update passes over a segment that its walk has not seen: if the walk met
      the end of the list, and the last segment is by now at least two behind what it saw. */
  lemma {:induction false} PassesUnseenIff(events: seq<Event>)
    ensures Run(events).Moved?
    ensures var s := Run(events).s;
            s.scan.UpdateStore? ==>
              var to := PlaceOf(s.up, UpdateGo(s).s.slot.temp);
              ((exists k: nat :: Unseen(s.seen, to, k)) <==> s.scan.at == None && Visible(s) >= s.seen + 2)
  {
    hide Run, Flatten, Step, HistoryOk;
    NoFault(events);
    var s := Run(events).s;
    if s.scan.UpdateStore? { UnseenIff(s); }
  }

  lemma UnseenIff(s: State)
    requires Inv(s) && s.scan.UpdateStore?
    ensures var to := PlaceOf(s.up, UpdateGo(s).s.slot.temp);
            (exists k: nat :: Unseen(s.seen, to, k)) <==> s.scan.at == None && Visible(s) >= s.seen + 2
  {
    hide MemOk, HistoryOk, BeginWithin, Between, IndexOf, PlaceOf;
    InsideOwned(s);
    StoredAt(s);
    var to := PlaceOf(s.up, UpdateGo(s).s.slot.temp);
    if s.scan.at == None && Visible(s) >= s.seen + 2 {
      assert Unseen(s.seen, to, s.seen);
    }
  }

  /** No segment is lost or leaked: between operations, allocated is exactly the list. */
  lemma {:induction false} NothingLeaks(events: seq<Event>)
    ensures Run(events).Moved?
    ensures var s := Run(events).s;
            s.packet == Ready ==> (forall x :: x in s.mem.live <==> x in s.up) && (s.slot.owner == None ==> s.mem.live == {})
  {
    hide Run, Flatten, Step, ScanOk;
    NoFault(events);
  }

  // ---------- An update that skips a segment ----------

  lemma RunOn(events: seq<Event>, e: Event, s: State, s': State)
    requires Run(events) == Moved(s) && Step(s, e) == Moved(s')
    ensures Run(events + [e]) == Moved(s')
  {
    hide Step;
    assert (events + [e])[..|events|] == events;
  }

  /** A client segment that a stream's slot appends: three steps of the packet thread. */
  function Appended(s: State, x: Segment, bytes: seq<Byte>): State
    requires s.slot.last.Some?
  {
    s.(mem := Memory(s.mem.live + {x}, s.mem.next[x := None][s.slot.last.value := Some(x)], s.mem.data[x := bytes]),
       slot := s.slot.(last := Some(x)), up := s.up + [x])
  }

  lemma Appends(events: seq<Event>, s: State, stream: Stream, x: Segment, bytes: seq<Byte>)
    requires Run(events) == Moved(s) && s.packet == Ready && s.slot.owner == Some(stream) && x !in s.mem.live && Valid(s.mem, s.slot.last)
    ensures Run(events + [FromClient(stream, x, bytes)] + [PacketStep] + [PacketStep]) == Moved(Appended(s, x, bytes))
  {
    hide Run, ScanGo;
    var s1 := s.(mem := Memory(s.mem.live + {x}, s.mem.next[x := None], s.mem.data[x := bytes]), packet := LinkNext(x));
    RunOn(events, FromClient(stream, x, bytes), s, s1);
    var s2 := s1.(mem := s1.mem.(next := s1.mem.next[s.slot.last.value := Some(x)]), up := s.up + [x], packet := StoreLast(x));
    RunOn(events + [FromClient(stream, x, bytes)], PacketStep, s1, s2);
    RunOn(events + [FromClient(stream, x, bytes)] + [PacketStep], PacketStep, s2, Appended(s, x, bytes));
  }

  /** A fresh slot takes its first segment. */
  function FirstTaken(bytes: seq<Byte>): State {
    State(Slot(Some(7), Some(0), Some(0), None, 0), Memory({0}, map[0 := None], map[0 := bytes]), Nobody, Ready, Out, [0], 0, 0, 0, [], None, 0)
  }

  function Taking7(bytes: seq<Byte>): seq<Event> {
    [FromClient(7, 0, bytes)] + [PacketStep] + [PacketStep] + [PacketStep] + [PacketStep] + [PacketStep]
  }

  lemma TakesFirst(bytes: seq<Byte>)
    ensures Run(Taking7(bytes)) == Moved(FirstTaken(bytes))
  {
    var s0 := Init();
    var s1 := s0.(mem := Memory({0}, map[0 := None], map[0 := bytes]), packet := ResetTemp(7, Some(0)));
    assert Run([]) == Moved(s0) && [] + [FromClient(7, 0, bytes)] == [FromClient(7, 0, bytes)];
    hide Run, ScanGo;
    RunOn([], FromClient(7, 0, bytes), s0, s1);
    var e := [FromClient(7, 0, bytes)];
    RunOn(e, PacketStep, s1, s1.(packet := ResetOffset(7, Some(0))));
    RunOn(e + [PacketStep], PacketStep, s1.(packet := ResetOffset(7, Some(0))), s1.(packet := TakeSlot(7, Some(0))));
    var s4 := s1.(slot := s1.slot.(owner := Some(7)), packet := StoreFirst(0));
    RunOn(e + [PacketStep] + [PacketStep], PacketStep, s1.(packet := TakeSlot(7, Some(0))), s4);
    var s5 := s4.(slot := s4.slot.(first := Some(0)), up := [0], packet := StoreLast(0));
    RunOn(e + [PacketStep] + [PacketStep] + [PacketStep], PacketStep, s4, s5);
    RunOn(e + [PacketStep] + [PacketStep] + [PacketStep] + [PacketStep], PacketStep, s5, FirstTaken(bytes));
  }

  /** The scanner's check of the stream. */
  function Checking(bytes: seq<Byte>): seq<Event> {
    Taking7(bytes) + [TryCheck] + [ScanStep] + [ScanStep] + [ScanStep] + [ScanStep] + [ScanStep]
  }

  lemma Checks(bytes: seq<Byte>)
    ensures Run(Checking(bytes)) == Moved(FirstTaken(bytes).(slot := Slot(Some(7), Some(0), Some(0), Some(0), 0)))
  {
    hide Run, PacketGo, BufferGo, UpdateGo;
    TakesFirst(bytes);
    var e, s := Taking7(bytes), FirstTaken(bytes).(lock := Scanner);
    RunOn(e, TryCheck, FirstTaken(bytes), s.(scan := CheckOwner));
    RunOn(e + [TryCheck], ScanStep, s.(scan := CheckOwner), s.(scan := CheckFirst));
    RunOn(e + [TryCheck] + [ScanStep], ScanStep, s.(scan := CheckFirst), s.(scan := CheckTemp));
    RunOn(e + [TryCheck] + [ScanStep] + [ScanStep], ScanStep, s.(scan := CheckTemp), s.(scan := CheckSet));
    var t := s.(slot := Slot(Some(7), Some(0), Some(0), Some(0), 0), scan := Release);
    RunOn(e + [TryCheck] + [ScanStep] + [ScanStep] + [ScanStep], ScanStep, s.(scan := CheckSet), t);
    RunOn(e + [TryCheck] + [ScanStep] + [ScanStep] + [ScanStep] + [ScanStep], ScanStep, t, t.(lock := Nobody, scan := Out));
  }

  /** The scanner is done with the first segment: its walk meets the end of the list. */
  function Walking(bytes: seq<Byte>): seq<Event> {
    Checking(bytes) + [TryUpdate(|bytes|)] + [ScanStep] + [ScanStep] + [ScanStep]
  }

  function WalkedState(bytes: seq<Byte>): State {
    FirstTaken(bytes).(slot := Slot(Some(7), Some(0), Some(0), Some(0), 0), lock := Scanner, scan := UpdateStore(|bytes|, None), start := Some(0), seen := 1)
  }

  lemma Walks(bytes: seq<Byte>)
    requires bytes != []
    ensures Run(Walking(bytes)) == Moved(WalkedState(bytes))
  {
    hide Run, PacketGo, BufferGo;
    Checks(bytes);
    var e, n := Checking(bytes), |bytes|;
    var s := FirstTaken(bytes).(slot := Slot(Some(7), Some(0), Some(0), Some(0), 0));
    var t := s.(lock := Scanner, scan := UpdateOwner(n));
    RunOn(e, TryUpdate(n), s, t);
    assert IndexOf([0], Some(0)) == 0;
    var u := t.(scan := UpdateWalk(n, 0, Some(0)), start := Some(0), seen := 0);
    RunOn(e + [TryUpdate(n)], ScanStep, t, u);
    var v := u.(scan := UpdateWalk(n, n, None), seen := 1);
    RunOn(e + [TryUpdate(n)] + [ScanStep], ScanStep, u, v);
    RunOn(e + [TryUpdate(n)] + [ScanStep] + [ScanStep], ScanStep, v, WalkedState(bytes));
  }

  /** Two segments arrive before the scanner stores its new place. */
  function Skipping(a: seq<Byte>, b: seq<Byte>, c: seq<Byte>): seq<Event> {
    Walking(a) + [FromClient(7, 1, b)] + [PacketStep] + [PacketStep] + [FromClient(7, 2, c)] + [PacketStep] + [PacketStep] + [ScanStep]
  }

  /** So a segment may be skipped unseen: the scanner is done with the first of three
      segments, and goes on with the third, whatever the second one holds. */
  lemma SkipsUnseen(a: seq<Byte>, b: seq<Byte>, c: seq<Byte>)
    requires a != []
    ensures Run(Skipping(a, b, c)).Moved?
    ensures var s := Run(Skipping(a, b, c)).s;
            && s.up == [0, 1, 2] && s.slot.owner == Some(7) && s.slot.temp == Some(2)
            && s.moves == [Move(Some(0), |a|, 1, true, Some(2))] && 0 in s.mem.data && s.mem.data[0] == a && 1 in s.mem.data && s.mem.data[1] == b
  {
    hide Run, PacketGo, BufferGo, WalkedState;
    Walks(a);
    var e, s0 := Walking(a), WalkedState(a);
    assert s0 == FirstTaken(a).(slot := Slot(Some(7), Some(0), Some(0), Some(0), 0), lock := Scanner, scan := UpdateStore(|a|, None), start := Some(0), seen := 1) by { WalkedIs(a); }
    Appends(e, s0, 7, 1, b);
    var s1 := Appended(s0, 1, b);
    Appends(e + [FromClient(7, 1, b)] + [PacketStep] + [PacketStep], s1, 7, 2, c);
    var s2 := Appended(s1, 2, c);
    assert s2.up == [0, 1, 2];
    ThirdPlace();
    var s3 := s2.(slot := s2.slot.(temp := Some(2)), scan := UpdateOffset, moves := [Move(Some(0), |a|, 1, true, Some(2))]);
    assert [] + s3.moves == s3.moves;
    RunOn(e + [FromClient(7, 1, b)] + [PacketStep] + [PacketStep] + [FromClient(7, 2, c)] + [PacketStep] + [PacketStep], ScanStep, s2, s3);
  }

  lemma WalkedIs(bytes: seq<Byte>)
    ensures WalkedState(bytes) ==
            FirstTaken(bytes).(slot := Slot(Some(7), Some(0), Some(0), Some(0), 0), lock := Scanner, scan := UpdateStore(|bytes|, None), start := Some(0), seen := 1)
  {
  }

  lemma ThirdPlace()
    ensures IndexOf([0, 1, 2], Some(2)) == 2
  {
    assert [0, 1, 2][1..] == [1, 2] && [1, 2][1..] == [2];
  }

  /** An update that finds temp_up null puts it on the last segment, however many bytes it was
      told; as the scanner checks before it updates, the slot has changed hands in between. */
  lemma UpdatesBlindly(events: seq<Event>, n: nat)
    requires Run(events).Moved?
    requires var s := Run(events).s; s.lock == Nobody && s.scan == Out && s.slot.owner != None && s.slot.temp == None
    ensures var s, r := Run(events).s, Run(events + [TryUpdate(n)] + [ScanStep] + [ScanStep] + [ScanStep]);
            r.Moved? && r.s.slot == s.slot.(temp := s.slot.last) && r.s.up == s.up && r.s.mem == s.mem
  {
    hide Run, PacketGo, BufferGo;
    var s := Run(events).s;
    NowhereIs(s.up);
    var t := s.(lock := Scanner, scan := UpdateOwner(n));
    RunOn(events, TryUpdate(n), s, t);
    var u := t.(scan := UpdateWalk(n, 0, None), start := None, seen := 0);
    RunOn(events + [TryUpdate(n)], ScanStep, t, u);
    var v := u.(scan := UpdateStore(n, None));
    RunOn(events + [TryUpdate(n)] + [ScanStep], ScanStep, u, v);
    RunOn(events + [TryUpdate(n)] + [ScanStep] + [ScanStep], ScanStep, v, UpdateGo(v).s);
  }
}
