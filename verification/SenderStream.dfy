/** The bytes in the pipe, accounted for exactly: the encodings of the packets started, cut off in the last
    one at the point up to which it has been written. Exactly a torn ping breaks this. */
module SenderStream {
  import opened Channel
  import opened Sequences
  import opened Wire
  import opened SenderSpec
  import opened SenderControl

  ghost predicate Stream(s: State)
  {
    if s.cur.Some? then
      && s.started != [] && s.written <= PacketSize(s.cur.value)
      && s.data == EncodeAll(Init(s.started)) + Encode(s.cur.value)[..s.written]
    else if s.open then s.data == EncodeAll(s.started)
    else s.data <= EncodeAll(s.started) && (s.exit == Drained ==> s.data == EncodeAll(s.started))
  }

  lemma WriteUpToStream(s: State, end: nat, o: Writer)
    requires s.cur.Some? && s.written < end <= PacketSize(s.cur.value) && Stream(s)
    ensures Stream(WriteUpTo(s, end, o).0)
  {
    hide EncodeAll, Encode, PacketSize;
    var a := o(s.calls, end - s.written);
    if a.Took? {
      Extend(EncodeAll(Init(s.started)), Encode(s.cur.value), s.written, s.written + Min(a.n, end - s.written));
    }
  }

  lemma Extend(a: seq<byte>, b: seq<byte>, i: nat, j: nat)
    requires i <= j <= |b|
    ensures a + b[..i] + b[i..j] == a + b[..j]
  {
  }

  lemma {:induction false} TransmitStream(s: State, o: Writer)
    requires InFlight(s) && Stream(s)
    ensures Stream(Transmit(s, o).0)
  {
    hide EncodeAll, Encode, Stream, PacketSize;
    if s.cur.Some? {
      var p := s.cur.value;
      if s.written < FixedPart(p) {
        WriteUpToStream(s, FixedPart(p), o);
      }
      var (s1, r) := if s.written < FixedPart(p) then WriteUpTo(s, FixedPart(p), o) else (s, Sent);
      if r == Sent && s1.written < PacketSize(p) {
        WriteUpToStream(s1, PacketSize(p), o);
      }
    }
  }

  /** A finished packet leaves the pipe with whole packets only. */
  lemma FinishedStream(s: State)
    requires Stream(s) && s.cur.Some? && Last(s.started) == s.cur.value && s.written == PacketSize(s.cur.value)
    ensures s.data == EncodeAll(s.started)
  {
    hide EncodeAll, Encode;
    EncodeAllSnoc(Init(s.started), s.cur.value);
    assert s.started == Init(s.started) + [s.cur.value];
    assert Encode(s.cur.value)[..s.written] == Encode(s.cur.value);
  }

  lemma StartStream(s: State, p: Packet)
    requires s.data == EncodeAll(s.started)
    ensures Stream(Start(s, p))
  {
    hide EncodeAll, Encode;
    assert Init(s.started + [p]) == s.started;
  }

  /** Whatever happens to the channel, what is in the pipe is a prefix of the packets started. */
  lemma StreamPrefix(s: State)
    requires Stream(s) && InFlight(s)
    ensures s.data <= EncodeAll(s.started)
  {
    hide EncodeAll, Encode;
    if s.cur.Some? {
      EncodeAllSnoc(Init(s.started), s.cur.value);
      assert s.started == Init(s.started) + [s.cur.value];
      assert Encode(s.cur.value) == Encode(s.cur.value)[..s.written] + Encode(s.cur.value)[s.written..];
    }
  }

  lemma ShutdownStream(s: State, why: Exit)
    requires Stream(s) && InFlight(s) && why != Drained
    ensures Stream(Shutdown(s, why))
  {
    hide EncodeAll;
    StreamPrefix(s);
  }

  lemma {:induction false} WriteStream(s: State, o: Writer)
    requires Control(s) && s.open && Stream(s)
    ensures Stream(Write(s, o).0)
    decreases Pending(s), 0
  {
    hide EncodeAll, Encode, PacketSize, Transmit, Stream, ScheduleWrite;
    TransmitShape(s, o);
    TransmitStream(s, o);
    var (s1, r) := Transmit(s, o);
    match r
    case Failed =>
      ShutdownStream(s1, Aborted);
      assert Stream(s1.(watch := 0)) by { SameBytes(s1, s1.(watch := 0)); }
      ShutdownStream(s1.(watch := 0), Aborted);
    case Waiting =>
    case Sent =>
      if s1.cur.Some? { FinishedStream(s1); } else { IdleStream(s1); }
      if s1.queue != [] || s1.bye {
        NextPacketControl(s1);
        StartStream(s1, if s1.queue != [] then Msg(s1.queue[0]) else Bye);
        SameBytes(Start(s1, NextPacket(s1).cur.value), NextPacket(s1));
        ScheduleStream(NextPacket(s1), o);
      } else {
        RestStream(s1);
      }
  }

  lemma IdleStream(s: State)
    requires Stream(s) && s.cur.None? && s.open
    ensures s.data == EncodeAll(s.started)
  {
  }

  lemma RestStream(s: State)
    requires s.open && s.data == EncodeAll(s.started)
    ensures Stream(Rest(s))
  {
    hide EncodeAll;
  }

  /** The stream property looks at nothing but the packets and the bytes. */
  lemma SameBytes(s: State, t: State)
    requires Stream(s)
    requires t.cur == s.cur && t.written == s.written && t.started == s.started
    requires t.data == s.data && t.open == s.open && t.exit == s.exit
    ensures Stream(t)
  {
    hide EncodeAll, Encode, PacketSize;
  }

  lemma {:induction false} ScheduleStream(s: State, o: Writer)
    requires Control(s) && Stream(s)
    ensures Stream(ScheduleWrite(s, o))
    decreases Pending(s), 1
  {
    hide EncodeAll, Encode, PacketSize, Write, Stream;
    if s.open && s.watch == 0 {
      WriteStream(s, o);
      SameBytes(Write(s, o).0, AddWatch(Write(s, o).0));
    }
  }

  /* ---------- Pings ---------- */

  /** A ping request that restarts a packet some bytes of which are already in the pipe. */
  predicate Tears(s: State, e: Event) {
    e == DoPing && PingAllowed(s) && s.cur.Some? && s.written > 0
  }

  lemma PreparePingStream(s: State)
    requires Inv(s) && Stream(s) && PingAllowed(s) && !(s.cur.Some? && s.written > 0)
    ensures Control(PreparePing(s)) && Stream(PreparePing(s))
  {
    hide EncodeAll, Encode, PacketSize;
    PreparePingControl(s);
    if s.cur.Some? {
      assert s.cur == Some(Ping);
    } else {
      StartStream(s, Ping);
    }
  }

  /** Every step keeps the stream property, unless it tears a ping. */
  lemma StepStream(s: State, e: Event, o: Writer)
    requires Inv(s) && Enabled(s, e) && Stream(s) && !Tears(s, e)
    ensures Stream(Step(s, e, o))
  {
    hide EncodeAll, Encode, PacketSize, Write, ScheduleWrite, Stream;
    match e
    case DoSend(m) =>
      if !s.done {
        var s1 := s.(offered := s.offered + [m]);
        if s.cur.None? {
          IdleStream(s);
          StartStream(s1, Msg(m));
          SameBytes(Start(s1, Msg(m)), Send(s, m));
        } else {
          SameBytes(s, Send(s, m));
        }
      }
    case DoPing =>
      if PingAllowed(s) {
        PreparePingStream(s);
        ScheduleStream(PreparePing(s), o);
      }
    case DoClose => CloseStream(s, o);
    case DoShutdown => ShutdownStream(s, Aborted);
    case DoSetBacklog(b, keep) => SameBytes(s, SetBacklog(s, b, keep));
    case DoFire(w, out) => FireStream(s, w, out, o);
    case DoInvoke =>
      var s1 := s.(invokes := s.invokes - 1);
      SameBytes(s, s1);
      ScheduleStream(s1, o);
  }

  lemma CloseStream(s: State, o: Writer)
    requires Inv(s) && Stream(s)
    ensures Stream(Close(s, o))
  {
    hide EncodeAll, Encode, PacketSize, ScheduleWrite, Stream;
    if !s.done {
      if s.cur.None? && s.queue == [] {
        IdleStream(s);
        var t := Start(s, Bye).(done := true, bye := false);
        StartStream(s, Bye);
        SameBytes(Start(s, Bye), t);
        PrepareByeControl(s);
        ScheduleStream(t, o);
      } else {
        SameBytes(s, Close(s, o));
      }
    }
  }

  lemma FireStream(s: State, w: nat, out: bool, o: Writer)
    requires Inv(s) && Stream(s) && w in s.live && (out ==> s.open)
    ensures Stream(Fire(s, w, out, o))
  {
    hide EncodeAll, Encode, PacketSize, Write, Stream;
    if out {
      WriteStream(s, o);
      SameBytes(Write(s, o).0, Fire(s, w, out, o));
    } else {
      SameBytes(s, s.(watch := 0));
      ShutdownStream(s.(watch := 0), Aborted);
      SameBytes(Shutdown(s.(watch := 0), Aborted), Fire(s, w, out, o));
    }
  }

  /* ---------- Exactly when the stream survives ---------- */

  /** How many bytes the packets started account for. */
  ghost function Accounted(s: State): nat {
    if s.cur.Some? && s.started != [] then |EncodeAll(Init(s.started))| + s.written else |EncodeAll(s.started)|
  }

  lemma AccountedSnoc(s: State)
    requires s.cur.Some? && s.started != [] && Last(s.started) == s.cur.value
    ensures |EncodeAll(s.started)| == |EncodeAll(Init(s.started))| + PacketSize(s.cur.value)
  {
    hide EncodeAll, Encode, PacketSize;
    EncodeAllSnoc(Init(s.started), s.cur.value);
    assert s.started == Init(s.started) + [s.cur.value];
  }

  lemma TransmitAccount(s: State, o: Writer)
    requires InFlight(s)
    ensures var t := Transmit(s, o).0; |t.data| - t.written == |s.data| - s.written
  {
    hide Encode, PacketSize;
  }

  lemma {:induction false} WriteAccount(s: State, o: Writer)
    requires Control(s) && s.open && Write(s, o).0.exit != Aborted
    ensures var t := Write(s, o).0; |t.data| - Accounted(t) == |s.data| - Accounted(s)
    decreases Pending(s), 0
  {
    hide EncodeAll, Encode, PacketSize, Transmit, ScheduleWrite;
    TransmitShape(s, o);
    TransmitAccount(s, o);
    var (s1, r) := Transmit(s, o);
    if r == Sent {
      if s1.cur.Some? { AccountedSnoc(s1); }
      if s1.queue != [] || s1.bye {
        NextPacketControl(s1);
        assert Init(NextPacket(s1).started) == s1.started;
        ScheduleAccount(NextPacket(s1), o);
      }
    }
  }

  lemma {:induction false} ScheduleAccount(s: State, o: Writer)
    requires Control(s) && ScheduleWrite(s, o).exit != Aborted
    ensures var t := ScheduleWrite(s, o); |t.data| - Accounted(t) == |s.data| - Accounted(s)
    decreases Pending(s), 1
  {
    hide EncodeAll, Encode, PacketSize, Write;
    if s.open && s.watch == 0 {
      WriteAccount(s, o);
    }
  }

  lemma SameAccount(s: State, t: State)
    requires t.cur == s.cur && t.written == s.written && t.started == s.started
    ensures Accounted(t) == Accounted(s)
  {
  }

  lemma StartAccount(s: State, p: Packet)
    requires s.cur.None?
    ensures Accounted(Start(s, p)) == Accounted(s)
  {
    hide EncodeAll;
    assert Init(s.started + [p]) == s.started;
  }

  lemma PingAccount(s: State, o: Writer)
    requires Inv(s) && PingAllowed(s) && SendPing(s, o).0.exit != Aborted
    ensures var t := SendPing(s, o).0;
      if Tears(s, DoPing) then |t.data| - Accounted(t) < |s.data| - Accounted(s)
      else |t.data| - Accounted(t) == |s.data| - Accounted(s)
  {
    hide Accounted, Encode, PacketSize, ScheduleWrite;
    PreparePingControl(s);
    PreparePingAccount(s);
    ScheduleAccount(PreparePing(s), o);
  }

  lemma CloseAccount(s: State, o: Writer)
    requires Inv(s) && Close(s, o).exit != Aborted
    ensures var t := Close(s, o); |t.data| - Accounted(t) == |s.data| - Accounted(s)
  {
    hide Accounted, Encode, PacketSize, ScheduleWrite;
    if !s.done && s.cur.None? && s.queue == [] {
      var t := Start(s, Bye).(done := true, bye := false);
      StartAccount(s, Bye);
      SameAccount(Start(s, Bye), t);
      PrepareByeControl(s);
      ScheduleAccount(t, o);
    } else {
      SameAccount(s, Close(s, o));
    }
  }

  /** Unless the connection is lost, the bytes in the pipe stay as far behind the packets started as
      they are, and a torn ping makes them fall behind. */
  lemma StepAccount(s: State, e: Event, o: Writer)
    requires Inv(s) && Enabled(s, e) && Step(s, e, o).exit != Aborted
    ensures s.exit != Aborted
    ensures var t := Step(s, e, o);
      if Tears(s, e) then |t.data| - Accounted(t) < |s.data| - Accounted(s)
      else |t.data| - Accounted(t) == |s.data| - Accounted(s)
  {
    hide Accounted, Encode, PacketSize, Write, ScheduleWrite, SendPing, Close;
    if !s.open { StaysClosed(s, e, o); }
    match e
    case DoSend(m) =>
      if !s.done && s.cur.None? {
        StartAccount(s.(offered := s.offered + [m]), Msg(m));
        SameAccount(s, s.(offered := s.offered + [m]));
        SameAccount(Start(s.(offered := s.offered + [m]), Msg(m)), Send(s, m));
      } else {
        SameAccount(s, Send(s, m));
      }
    case DoPing => if PingAllowed(s) { PingAccount(s, o); } else { PingRefused(s, o); }
    case DoClose => CloseAccount(s, o);
    case DoShutdown => SameAccountClosed(s, o);
    case DoSetBacklog(b, keep) => SameAccount(s, SetBacklog(s, b, keep));
    case DoFire(w, out) =>
      if out {
        WriteAccount(s, o);
        SameAccount(Write(s, o).0, Fire(s, w, out, o));
      } else {
        SameAccount(s, Fire(s, w, out, o));
      }
    case DoInvoke =>
      SameAccount(s, s.(invokes := s.invokes - 1));
      ScheduleAccount(s.(invokes := s.invokes - 1), o);
  }

  lemma PingRefused(s: State, o: Writer)
    requires !PingAllowed(s)
    ensures SendPing(s, o).0 == s
  {
  }

  lemma SameAccountClosed(s: State, o: Writer)
    requires Inv(s) && Shutdown(s, Aborted).exit != Aborted
    ensures Accounted(Shutdown(s, Aborted)) == Accounted(s)
  {
    hide EncodeAll, PacketSize;
  }

  lemma PreparePingAccount(s: State)
    requires Control(s) && PingAllowed(s)
    ensures var t := PreparePing(s);
      && t.data == s.data
      && (if s.cur.Some? && s.written > 0 then Accounted(t) > Accounted(s) else Accounted(t) == Accounted(s))
  {
    hide EncodeAll, Encode, PacketSize;
    assert Init(s.started + [Ping]) == s.started;
    if s.cur.Some? { AccountedSnoc(s); }
  }

  /** A torn ping does no harm only if the write that should repeat it fails. */
  lemma TornAndClosed(s: State, o: Writer)
    requires Inv(s) && Stream(s) && Tears(s, DoPing) && !Step(s, DoPing, o).open
    ensures Stream(Step(s, DoPing, o))
  {
    hide EncodeAll, Encode, Stream, ScheduleWrite;
    StreamPrefix(s);
    EncodeAllSnoc(s.started, Ping);
    SchedulePing(PreparePing(s), o);
    AbortedStream(ScheduleWrite(PreparePing(s), o));
  }

  /** A lone ping closes the channel only if its first write fails, and nothing is written then. */
  lemma SchedulePing(s: State, o: Writer)
    requires s.open && s.cur == Some(Ping) && s.written == 0 && s.queue == [] && !s.bye && !s.done
    ensures var t := ScheduleWrite(s, o);
      t.open || (t.cur.None? && t.exit == Aborted && t.data == s.data && t.started == s.started)
  {
    hide Encode, Transmit;
    PingTransmit(s, o);
    var (s1, r) := Transmit(s, o);
    assert s.watch == 0 && r == Sent ==> ScheduleWrite(s, o) == Rest(s1);
  }

  /** A ping goes out with one write call, all of it or a part, or the call fails. */
  lemma PingTransmit(s: State, o: Writer)
    requires s.cur == Some(Ping) && s.written == 0
    ensures var (t, r) := Transmit(s, o);
      && t == s.(calls := t.calls, written := t.written, data := t.data)
      && (r == Failed ==> t.data == s.data)
  {
    hide Encode;
  }

  lemma AbortedStream(s: State)
    requires !s.open && s.cur.None? && s.exit == Aborted && s.data <= EncodeAll(s.started)
    ensures Stream(s)
  {
    hide EncodeAll;
  }

  /** A step keeps the stream exactly if it does not tear a ping and leave the channel open. */
  lemma StepStreamExact(s: State, e: Event, o: Writer)
    requires Inv(s) && Enabled(s, e) && Stream(s)
    ensures Stream(Step(s, e, o)) <==> !(Tears(s, e) && Step(s, e, o).open)
  {
    hide EncodeAll, Encode, PacketSize, Step, Stream, Tears;
    var t := Step(s, e, o);
    if !Tears(s, e) {
      StepStream(s, e, o);
    } else if t.open {
      StepControl(s, e, o);
      StepAccount(s, e, o);
      StreamAccount(s);
      if Stream(t) { StreamAccount(t); }
    } else {
      TornIsPing(s, e);
      TornAndClosed(s, o);
    }
  }

  lemma TornIsPing(s: State, e: Event)
    requires Tears(s, e)
    ensures e == DoPing
  {
  }

  lemma StepControl(s: State, e: Event, o: Writer)
    requires Inv(s) && Enabled(s, e)
    ensures Control(s) && Control(Step(s, e, o))
  {
    hide Step;
    StepInv(s, e, o);
  }

  lemma StreamAccount(s: State)
    requires Control(s) && Stream(s) && s.exit != Aborted
    ensures |s.data| == Accounted(s)
  {
    hide EncodeAll, Encode, PacketSize;
  }

  /** After a first ping of which the pipe has taken two bytes; a watch waits for the rest. */
  function HalfPing(): State {
    Fresh(0).(cur := Some(Ping), written := 2, started := [Ping], data := [0, 0], calls := 1,
              watch := 1, live := {1}, lastWatch := 1)
  }

  /** A second request starts the ping afresh. */
  function TornPing(): State { HalfPing().(written := 0, started := [Ping, Ping]) }

  lemma PingTwice(o: Writer)
    requires o(0, 5) == Took(2)
    ensures Step(Fresh(0), DoPing, o) == HalfPing()
    ensures Step(HalfPing(), DoPing, o) == TornPing() && Tears(HalfPing(), DoPing)
  {
    var p := PreparePing(Fresh(0));
    assert p.data + Encode(Ping)[0..2] == [0, 0];
    assert Transmit(p, o) == WriteUpTo(p, 5, o);
  }

  /** The failure is real: two pings, the first of which was written halfway. The bytes do not show it
      yet: two zeros are a prefix of two pings. */
  lemma TornPingExample(o: Writer)
    requires o(0, 5) == Took(2)
    ensures var s := Step(Fresh(0), DoPing, o); Inv(s) && Stream(s) && Tears(s, DoPing)
    ensures var t := Step(Step(Fresh(0), DoPing, o), DoPing, o);
      t.open && !Stream(t) && t.data == [0, 0] && t.data <= EncodeAll(t.started)
  {
    hide Step, Stream, Tears, Inv, EncodeAll, Encode;
    FreshInv(0);
    FreshStream(0);
    PingTwice(o);
    StepInv(Fresh(0), DoPing, o);
    StepStream(Fresh(0), DoPing, o) by { NothingToTear(); }
    StepStreamExact(HalfPing(), DoPing, o);
    TwoZeros();
  }

  lemma FreshStream(backlog: int)
    ensures Stream(Fresh(backlog))
  {
  }

  lemma NothingToTear()
    ensures !Tears(Fresh(0), DoPing)
  {
  }

  lemma TwoZeros()
    ensures [0, 0] <= EncodeAll([Ping, Ping])
  {
    assert EncodeAll([Ping, Ping]) == Encode(Ping) + EncodeAll([Ping]);
  }

  /* ---------- Pipes that take small writes whole ---------- */

  /** The packet in flight has not been touched, or all of its fixed part is out. */
  ghost predicate WholeStart(s: State)
  {
    s.cur.Some? ==> s.written == 0 || s.written >= FixedPart(s.cur.value)
  }

  lemma {:induction false} WriteWhole(s: State, o: Writer)
    requires Control(s) && s.open && WholeStart(s) && AtomicSmallWrites(o)
    ensures WholeStart(Write(s, o).0)
    decreases Pending(s), 0
  {
    hide EncodeAll, Encode, Transmit;
    TransmitShape(s, o);
    TransmitWhole(s, o);
    var (s1, r) := Transmit(s, o);
    if r == Sent && (s1.queue != [] || s1.bye) {
      NextPacketControl(s1);
      ScheduleWhole(NextPacket(s1), o);
    }
  }

  lemma TransmitWhole(s: State, o: Writer)
    requires InFlight(s) && WholeStart(s) && AtomicSmallWrites(o)
    ensures WholeStart(Transmit(s, o).0)
  {
    hide Encode;
  }

  lemma {:induction false} ScheduleWhole(s: State, o: Writer)
    requires Control(s) && WholeStart(s) && AtomicSmallWrites(o)
    ensures WholeStart(ScheduleWrite(s, o))
    decreases Pending(s), 1
  {
    hide Write, FixedPart;
    if s.open && s.watch == 0 {
      WriteWhole(s, o);
    }
  }

  /** On such a pipe no packet header is ever half written, so no ping is ever torn. */
  lemma StepWhole(s: State, e: Event, o: Writer)
    requires Inv(s) && Enabled(s, e) && WholeStart(s) && AtomicSmallWrites(o)
    ensures WholeStart(Step(s, e, o)) && !Tears(s, e)
  {
    hide EncodeAll, Encode, Write, ScheduleWrite, FixedPart;
    match e
    case DoPing =>
      if PingAllowed(s) {
        assert s.cur.Some? ==> s.written == 0 by { if s.cur.Some? { PingFixed(s.cur.value); } }
        PreparePingControl(s);
        ScheduleWhole(PreparePing(s), o);
      }
    case DoClose =>
      if !s.done && s.cur.None? && s.queue == [] {
        PrepareByeControl(s);
        ScheduleWhole(Start(s, Bye).(done := true, bye := false), o);
      }
    case DoFire(w, out) => if out { WriteWhole(s, o); }
    case DoInvoke => ScheduleWhole(s.(invokes := s.invokes - 1), o);
    case _ =>
  }

  lemma PingFixed(p: Packet)
    ensures !p.Msg? ==> FixedPart(p) == PacketSize(p)
  {
  }
}
