/** What the race does to the data: the list holds what the client sent, and the scanner's
    buffer is a stretch of it. */
module StreamData {
  import opened Common
  import opened StreamRace

  /** A segment of the client, and what it carried. */
  type Sent = (Segment, seq<Byte>)

  /** The packet thread is free, the segment is fresh, and the slot is free or its stream's. */
  predicate LetIn(s: State, e: Event) {
    e.FromClient? && s.packet == Ready && e.segment !in s.mem.live && (s.slot.owner == None || s.slot.owner == Some(e.stream))
  }

  /** The client's segments that were let in since the slot was last given up. */
  function Received(events: seq<Event>): seq<Sent> {
    if events == [] then []
    else
      var front, e := events[..|events| - 1], events[|events| - 1];
      match Run(front)
      case Moved(s) => ReceivedNext(Received(front), s, e)
      case _ => Received(front)
  }

  function ReceivedNext(got: seq<Sent>, s: State, e: Event): seq<Sent> {
    if LetIn(s, e) then got + [(e.segment, e.bytes)]
    else if e == PacketStep && s.packet == Unlock then []
    else got
  }

  /** The list and what is on its way in are what was received. */
  ghost predicate Holds(s: State, got: seq<Sent>) {
    if Freeing(s.packet) then got == []
    else
      && |got| == |s.up| + (if Arrived(s.packet).Some? then 1 else 0)
      && (forall i :: 0 <= i < |s.up| ==> IsAt(s.mem, s.up[i], got[i]))
      && (Arrived(s.packet).Some? ==> IsAt(s.mem, Arrived(s.packet).value, got[|s.up|]))
  }

  predicate IsAt(m: Memory, x: Segment, sent: Sent) {
    x in m.data && sent == (x, m.data[x])
  }

  lemma ArriveHolds(s: State, stream: Stream, x: Segment, bytes: seq<Byte>, got: seq<Sent>)
    requires Inv(s) && Holds(s, got) && LetIn(s, FromClient(stream, x, bytes))
    ensures var r := Arrive(s, stream, x, bytes); r.Moved? && Holds(r.s, got + [(x, bytes)])
  {
    hide SlotOk, ScanOk, HistoryOk, LockOk;
    assert x !in s.up;
  }

  lemma FreeingEnds(s: State)
    requires Inv(s) && s.packet == FreeAll(None)
    ensures s.up == []
  {
    hide ScanOk, HistoryOk, LockOk, MemOk;
  }

  lemma PacketHolds(s: State, got: seq<Sent>)
    requires Inv(s) && Holds(s, got) && PacketGo(s).Moved?
    ensures Holds(PacketGo(s).s, if s.packet == Unlock then [] else got)
  {
    hide Inv, IsAt;
    if s.packet == FreeAll(None) { FreeingEnds(s); }
    var r := PacketGo(s).s;
    SameData(s, got);
  }

  /** Linking leaves the data alone. */
  lemma SameData(s: State, got: seq<Sent>)
    requires PacketGo(s).Moved?
    ensures forall x, sent :: IsAt(s.mem, x, sent) <==> IsAt(PacketGo(s).s.mem, x, sent)
  {
  }

  lemma ScanHolds(s: State, e: Event, got: seq<Sent>)
    requires Holds(s, got) && !e.FromClient? && e != PacketStep && Step(s, e).Moved?
    ensures Holds(Step(s, e).s, got)
  {
    hide IsAt, IndexOf, PlaceOf;
  }

  lemma StepHolds(s: State, e: Event, got: seq<Sent>)
    requires Inv(s) && Holds(s, got)
    ensures match Step(s, e)
            case Moved(r) => Holds(r, ReceivedNext(got, s, e))
            case _ => ReceivedNext(got, s, e) == got
  {
    hide Inv, Holds, ScanGo, IfOwned, PacketGo;
    match e
    case FromClient(st, x, bytes) =>
      if LetIn(s, e) { ArriveHolds(s, st, x, bytes, got); }
    case PacketStep =>
      UnlockMoves(s);
      if PacketGo(s).Moved? { PacketHolds(s, got); }
    case _ =>
      if Step(s, e).Moved? { ScanHolds(s, e, got); }
  }

  lemma UnlockMoves(s: State)
    ensures s.packet == Unlock ==> PacketGo(s).Moved?
  {
  }

  /** Over every run, the list holds exactly what was received, segment by segment, with the
      data that each carried. */
  lemma {:induction false} ListIsReceived(events: seq<Event>)
    ensures Run(events).Moved? && Holds(Run(events).s, Received(events))
  {
    hide Inv, Step;
    if events != [] {
      var front, e := events[..|events| - 1], events[|events| - 1];
      NoFault(front);
      ListIsReceived(front);
      var s, got := Run(front).s, Received(front);
      StepHolds(s, e, got);
      NoFault(events);
      hide Holds;
    }
  }

  /** The data of segments, one after the other. */
  function Joined(sent: seq<Sent>): seq<Byte> {
    if sent == [] then [] else Joined(sent[..|sent| - 1]) + sent[|sent| - 1].1
  }

  lemma {:induction false} FlattenIsJoined(m: Memory, up: seq<Segment>, sent: seq<Sent>)
    requires |up| == |sent| && forall i :: 0 <= i < |up| ==> IsAt(m, up[i], sent[i])
    ensures Flatten(m, up) == Joined(sent)
  {
    if up != [] { FlattenIsJoined(m, up[..|up| - 1], sent[..|sent| - 1]); }
  }

  /** get_buffer returns what the client sent: the data of consecutive segments, in the order
      in which they came. */
  lemma BufferIsReceived(events: seq<Event>)
    ensures Run(events).Moved?
    ensures var s, got := Run(events).s, Received(events);
            s.scan.GotBuffer? ==> s.from <= s.measured <= |got| && s.scan.buffer == Joined(got[s.from..s.measured])
  {
    hide Run, Received, Flatten, Joined, IsAt, MemOk, ScanOk, HistoryOk, Linked;
    NoFault(events);
    ListIsReceived(events);
    BufferIsExact(events);
    var s, got := Run(events).s, Received(events);
    if s.scan.GotBuffer? {
      assert !Freeing(s.packet);
      FlattenIsJoined(s.mem, s.up[s.from..s.measured], got[s.from..s.measured]);
    }
  }

  // ---------- Nothing that was there is left out ----------

  /** How many segments there were, up to last_up, when the scanner last began to measure. */
  function Asked(events: seq<Event>): nat {
    if events == [] then 0
    else
      var front, e := events[..|events| - 1], events[|events| - 1];
      match Run(front)
      case Moved(s) => AskedNext(Asked(front), s, e)
      case _ => Asked(front)
  }

  function AskedNext(n: nat, s: State, e: Event): nat {
    if e == ScanStep && s.scan == GetStart then Visible(s) else n
  }

  /** What is measured, or is going to be, covers the first n segments. */
  predicate Covers(s: State, n: nat) {
    match s.scan
    case Measure(p, _) => if p == None then n <= s.walked else n <= Visible(s)
    case CopyStart(_) => n <= s.measured
    case Copy(_, _, _) => n <= s.measured
    case GotBuffer(_, _) => s.slot.temp == None || n <= s.measured
    case _ => true
  }

  lemma PacketCovers(s: State, n: nat)
    requires Inv(s) && Covers(s, n) && PacketGo(s).Moved?
    ensures Covers(PacketGo(s).s, n)
  {
    hide MemOk, ScanOk, HistoryOk;
  }

  lemma StartCovers(s: State)
    requires Inv(s) && s.scan == GetStart && BufferGo(s).Moved?
    ensures Covers(BufferGo(s).s, Visible(s))
  {
    hide HistoryOk, ScanOk, Flatten, IndexOf, BufferGo;
    StartGoes(s);
    if s.slot.temp.Some? {
      IndexIs(s.up, s.slot.temp);
      NextInList(s, IndexOf(s.up, s.slot.temp));
    }
  }

  lemma StartGoes(s: State)
    requires s.scan == GetStart && BufferGo(s).Moved?
    ensures var r := BufferGo(s).s;
            r.slot == s.slot && r.up == s.up && r.packet == s.packet
            && if s.slot.temp == None then r.scan.GotBuffer?
               else Valid(s.mem, s.slot.temp) && r.scan.Measure? && r.scan.at == NextOf(s.mem, s.slot.temp) && r.walked == IndexOf(s.up, s.slot.temp) + 1
  {
    hide IndexOf;
  }

  lemma NextInList(s: State, i: nat)
    requires Inv(s) && i < |s.up|
    ensures Valid(s.mem, Some(s.up[i])) && NextOf(s.mem, Some(s.up[i])) == PointerAt(s.up, i + 1)
  {
    hide HistoryOk, ScanOk, SlotOk, LockOk;
  }

  lemma MeasureCovers(s: State, n: nat)
    requires Inv(s) && Covers(s, n) && s.scan.Measure? && BufferGo(s).Moved?
    ensures Covers(BufferGo(s).s, n)
  {
    hide HistoryOk, LockOk, SlotOk, MemOk, ScanOk, Flatten, Part, IndexOf, BufferGo;
    MeasureGoes(s);
    if s.scan.at.Some? {
      Walked(s);
      NextInList(s, s.walked);
      LastIs(s);
      if Visible(s) > 0 { NextInList(s, Visible(s) - 1); }
    }
  }

  lemma MeasureGoes(s: State)
    requires s.scan.Measure? && BufferGo(s).Moved?
    ensures var r, p := BufferGo(s).s, s.scan.at;
            && r.slot == s.slot && r.up == s.up && r.packet == s.packet
            && (p == None ==> r.scan.CopyStart? && r.measured == s.walked)
            && (p.Some? ==> Valid(s.mem, s.slot.last))
            && (p.Some? && p == NextOf(s.mem, s.slot.last) ==> r.scan.CopyStart? && r.measured == s.walked)
            && (p.Some? && p != NextOf(s.mem, s.slot.last) ==> Valid(s.mem, p) && r.scan.Measure? && r.scan.at == NextOf(s.mem, p) && r.walked == s.walked + 1)
  {
  }

  lemma Walked(s: State)
    requires Inv(s) && s.scan.Measure? && s.scan.at.Some?
    ensures s.walked < |s.up| && s.scan.at == Some(s.up[s.walked])
  {
    hide HistoryOk, LockOk, SlotOk, MemOk, Part;
  }

  /** Under the lock, last_up is the last segment that is visible; and no two are the same. */
  lemma LastIs(s: State)
    requires Inv(s) && s.scan.Measure?
    ensures s.slot.last == if Visible(s) == 0 then None else Some(s.up[Visible(s) - 1])
    ensures forall i, j :: 0 <= i < j < |s.up| ==> s.up[i] != s.up[j]
  {
    hide HistoryOk, ScanOk;
  }

  lemma CopyCovers(s: State, n: nat)
    requires Covers(s, n) && !s.scan.Measure? && s.scan != GetStart && ScanGo(s).Moved?
    ensures Covers(ScanGo(s).s, n)
  {
    hide IndexOf, PlaceOf;
  }

  lemma StepCovers(s: State, e: Event, n: nat)
    requires Inv(s) && Covers(s, n) && Step(s, e).Moved?
    ensures Covers(Step(s, e).s, AskedNext(n, s, e))
  {
    hide Inv, ScanGo, PacketGo, BufferGo;
    match e
    case PacketStep => PacketCovers(s, n);
    case ScanStep =>
      if s.scan == GetStart {
        BufferGoes(s);
        StartCovers(s);
      } else if s.scan.Measure? {
        BufferGoes(s);
        MeasureCovers(s, n);
      } else {
        CopyCovers(s, n);
      }
    case FromClient(_, _, _) => ArriveCovers(s, e, n);
    case _ =>
  }

  lemma BufferGoes(s: State)
    requires s.scan.Measure? || s.scan == GetStart
    ensures ScanGo(s) == BufferGo(s)
  {
    hide BufferGo;
  }

  lemma ArriveCovers(s: State, e: Event, n: nat)
    requires e.FromClient? && Covers(s, n) && Step(s, e).Moved?
    ensures Covers(Step(s, e).s, n)
  {
  }

  lemma {:induction false} RunCovers(events: seq<Event>)
    ensures Run(events).Moved? && Covers(Run(events).s, Asked(events))
  {
    hide Inv, Step, Covers;
    if events == [] {
      NothingAsked();
    } else {
      var front, e := events[..|events| - 1], events[|events| - 1];
      NoFault(front);
      RunCovers(front);
      NoFault(events);
      var s := Run(front).s;
      if Step(s, e).Moved? { StepCovers(s, e, Asked(front)); } else { BlockedAsks(s, e, Asked(front)); }
    }
  }

  lemma NothingAsked()
    ensures Covers(Init(), 0)
  {
  }

  lemma BlockedAsks(s: State, e: Event, n: nat)
    requires Step(s, e) == Blocked
    ensures AskedNext(n, s, e) == n
  {
    hide BufferGo, PacketGo, UpdateGo;
    if s.scan == GetStart { StartRuns(s); }
  }

  lemma StartRuns(s: State)
    requires s.scan == GetStart
    ensures BufferGo(s) != Blocked
  {
    hide IndexOf;
  }

  /** From where it starts, get_buffer leaves nothing out: it returns at least all segments
      that had arrived when it began to measure, unless temp_up is null. */
  lemma BufferIsAll(events: seq<Event>)
    ensures Run(events).Moved?
    ensures var s := Run(events).s;
            s.scan.GotBuffer? && s.slot.temp.Some? ==> Asked(events) <= s.measured
  {
    hide Run, Asked;
    RunCovers(events);
  }
}
