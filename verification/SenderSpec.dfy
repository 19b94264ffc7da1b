/** The sender as a state machine: what each call of server/src/dbuslog_sender.c does to its fields. */
module SenderSpec {
  import opened Channel
  import opened Sequences
  import opened Wire

  /** Why the write end of the pipe was closed. */
  datatype Exit = Running | Drained | Aborted

  datatype State = State(
    done: bool,               // no more messages are accepted
    bye: bool,                // a bye has to be sent once the queue is empty
    open: bool,               // the write channel exists
    cur: Option<Packet>,      // the packet in flight, if it is unfinished
    written: nat,             // how much of it has been written
    queue: seq<Message>,
    limit: int,               // maximum queue length, negative if unlimited
    watch: nat,               // the field write_watch_id
    live: set<nat>,           // the watches that really exist
    lastWatch: nat,
    invokes: nat,             // writes queued in the main context
    data: seq<byte>,          // everything the pipe has taken
    calls: nat,               // number of write calls made
    // history
    started: seq<Packet>,
    offered: seq<Message>,    // messages accepted for delivery, that is offered before the end
    dropped: seq<Message>,
    closedSignals: nat,
    exit: Exit)

  const DEFAULT_BACKLOG: int := 1000
  const UNLIMITED: int := -1

  function NormalizeBacklog(backlog: int): int {
    if backlog > 0 then backlog else if backlog == 0 then DEFAULT_BACKLOG else UNLIMITED
  }

  function Fresh(backlog: int): State {
    State(false, false, true, None, 0, [], NormalizeBacklog(backlog), 0, {}, 0, 0, [], 0, [], [], [], 0, Running)
  }

  /* ---------- Writing ---------- */

  datatype Progress = Failed | Waiting | Sent

  /** One write call that offers the unwritten bytes of the current packet up to `end`. */
  function WriteUpTo(s: State, end: nat, o: Writer): (State, Progress)
    requires s.cur.Some? && s.written < end <= PacketSize(s.cur.value)
  {
    match o(s.calls, end - s.written)
    case WriteError => (s.(calls := s.calls + 1), Failed)
    case Took(n) =>
      var w := s.written + Min(n, end - s.written);
      var s' := s.(calls := s.calls + 1, written := w, data := s.data + Encode(s.cur.value)[s.written..w]);
      (s', if w < end then Waiting else Sent)
  }

  /** Pushes the current packet: first its fixed part, then the message text. */
  function Transmit(s: State, o: Writer): (State, Progress) {
    if s.cur.None? then (s, Sent)
    else
      var p := s.cur.value;
      var (s1, r) := if s.written < FixedPart(p) then WriteUpTo(s, FixedPart(p), o) else (s, Sent);
      if r == Sent && s1.written < PacketSize(p) then WriteUpTo(s1, PacketSize(p), o) else (s1, r)
  }

  function Start(s: State, p: Packet): State {
    s.(cur := Some(p), written := 0, started := s.started + [p])
  }

  function Shutdown(s: State, why: Exit): State {
    s.(cur := None, written := 0, done := true, bye := false,
       live := s.live - {s.watch}, watch := 0, open := false,
       closedSignals := s.closedSignals + (if s.open then 1 else 0),
       exit := if s.open then why else s.exit)
  }

  /** GLib rejects a null channel and returns no watch for it. */
  function AddWatch(s: State): State {
    if s.open then s.(lastWatch := s.lastWatch + 1, live := s.live + {s.lastWatch + 1}, watch := s.lastWatch + 1)
    else s.(watch := 0)
  }

  function Pending(s: State): nat { |s.queue| + if s.bye then 1 else 0 }

  /** What is done once the current packet is out: pick the next one, say bye, or stop. */
  function NextPacket(s: State): State
    requires s.queue != [] || s.bye
    ensures Pending(NextPacket(s)) < Pending(s)
  {
    if s.queue != [] then Start(s, Msg(s.queue[0])).(queue := s.queue[1..])
    else Start(s, Bye).(bye := false)
  }

  function Rest(s: State): State {
    var s' := s.(watch := 0, cur := None, written := 0);
    if s.done then Shutdown(s', Drained) else s'
  }

  function Write(s: State, o: Writer): (State, bool)
    decreases Pending(s), 0
  {
    var (s1, r) := Transmit(s, o);
    match r
    case Failed => (Shutdown(s1.(watch := 0), Aborted), false)
    case Waiting => (s1, true)
    case Sent =>
      if s1.queue != [] || s1.bye then (ScheduleWrite(NextPacket(s1), o), true)
      else (Rest(s1), false)
  }

  function ScheduleWrite(s: State, o: Writer): State
    decreases Pending(s), 1
  {
    if s.open && s.watch == 0 then
      var (s1, more) := Write(s, o);
      if more then AddWatch(s1) else s1
    else s
  }

  /* ---------- Calls and callbacks ---------- */

  function CanPut(s: State): bool { s.limit < 0 || |s.queue| + 1 <= s.limit }

  /** Drops the newest half of the queue. */
  function DropHalf(s: State): State {
    var k := |s.queue| - |s.queue| / 2;
    s.(queue := s.queue[..k], dropped := s.dropped + s.queue[k..])
  }

  function Enqueue(s: State, m: Message): State {
    var s1 := if CanPut(s) then s else DropHalf(s);
    if CanPut(s1) then s1.(queue := s1.queue + [m]) else s1.(dropped := s1.dropped + [m])
  }

  function Send(s: State, m: Message): State {
    if s.done then s
    else
      var s1 := s.(offered := s.offered + [m]);
      if s.cur.None? then Start(s1, Msg(m)).(invokes := s.invokes + 1) else Enqueue(s1, m)
  }

  predicate PingAllowed(s: State) {
    !s.done && !(s.cur.Some? && s.cur.value.Msg?) && s.queue == []
  }

  /** A ping that has not been touched by a write yet is simply prepared again. */
  function PreparePing(s: State): State {
    if s.cur.Some? && s.written == 0 then s.(cur := Some(Ping)) else Start(s, Ping)
  }

  function SendPing(s: State, o: Writer): (State, bool) {
    if PingAllowed(s) then (ScheduleWrite(PreparePing(s), o), true) else (s, false)
  }

  function Close(s: State, o: Writer): State {
    if s.done then s
    else if s.cur.None? && s.queue == [] then ScheduleWrite(Start(s, Bye).(done := true, bye := false), o)
    else s.(done := true, bye := true)
  }

  /** If the queue has to shrink, `keep` says which of its messages survive. */
  function SetBacklog(s: State, backlog: int, keep: seq<bool>): State {
    var s1 := s.(limit := NormalizeBacklog(backlog));
    if s1.limit < 0 || |s.queue| <= s1.limit then s1
    else s1.(queue := Select(s.queue, keep), dropped := s.dropped + Reject(s.queue, keep))
  }

  /** The main loop runs watch `w`; `out` says that the channel is writable. */
  function Fire(s: State, w: nat, out: bool, o: Writer): State {
    if out then
      var (s1, more) := Write(s, o);
      if more then s1 else s1.(live := s1.live - {w})
    else
      var s1 := Shutdown(s.(watch := 0), Aborted);
      s1.(live := s1.live - {w})
  }

  function Invoke(s: State, o: Writer): State
    requires s.invokes > 0
  {
    ScheduleWrite(s.(invokes := s.invokes - 1), o)
  }

  datatype Event =
    | DoSend(m: Message)
    | DoPing
    | DoClose
    | DoShutdown
    | DoSetBacklog(backlog: int, keep: seq<bool>)
    | DoFire(w: nat, out: bool)
    | DoInvoke

  /** Only a live watch fires, and never as writable once the channel is closed. */
  predicate Enabled(s: State, e: Event) {
    match e
    case DoFire(w, out) => w in s.live && (out ==> s.open)
    case DoInvoke => s.invokes > 0
    case _ => true
  }

  function Step(s: State, e: Event, o: Writer): State
    requires Enabled(s, e)
  {
    match e
    case DoSend(m) => Send(s, m)
    case DoPing => SendPing(s, o).0
    case DoClose => Close(s, o)
    case DoShutdown => Shutdown(s, Aborted)
    case DoSetBacklog(b, keep) => SetBacklog(s, b, keep)
    case DoFire(w, out) => Fire(s, w, out, o)
    case DoInvoke => Invoke(s, o)
  }
}
