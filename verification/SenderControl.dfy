/** What every step of the sender keeps about its flags, its watches and its packet in flight. */
module SenderControl {
  import opened Channel
  import opened Sequences
  import opened Wire
  import opened SenderSpec

  /** A bye can only be the last packet started. */
  ghost predicate ByeOnlyLast(ps: seq<Packet>)
  {
    forall i :: 0 <= i < |ps| - 1 ==> ps[i] != Bye
  }

  ghost predicate Watches(s: State)
  {
    && (s.watch != 0 ==> s.watch in s.live)
    && (forall w :: w in s.live ==> 0 < w <= s.lastWatch)
  }

  ghost predicate InFlight(s: State)
  {
    && (s.cur.Some? ==> s.open && s.written < PacketSize(s.cur.value)
                        && s.started != [] && Last(s.started) == s.cur.value)
    && (s.cur.None? ==> s.written == 0)
    && (s.open && s.cur.None? ==> s.queue == [])
  }

  /** The end of a connection: its bye is announced, then prepared, then the channel goes away. */
  ghost predicate Ending(s: State)
  {
    && ByeOnlyLast(s.started)
    && (s.bye ==> s.done && s.cur.Some? && Bye !in s.started)
    && (!s.done ==> s.open && Bye !in s.started)
    && (s.open && s.done ==> s.cur.Some? && (s.bye <==> s.cur.value != Bye))
    && (s.open && s.done && s.cur == Some(Bye) ==> s.queue == [])
    && (!s.open ==> s.cur.None? && s.watch == 0)
    && (s.exit == Running <==> s.open)
    && (s.exit == Drained ==> s.queue == [] && s.started != [] && Last(s.started) == Bye)
    && s.closedSignals == if s.open then 0 else 1
  }

  ghost predicate Control(s: State) { Watches(s) && InFlight(s) && Ending(s) }

  /** Somebody will come back for the unfinished packet. */
  ghost predicate Wakeup(s: State)
  {
    s.cur.Some? ==> s.live != {} || s.invokes > 0
  }

  ghost predicate Inv(s: State) { Control(s) && Wakeup(s) }

  lemma FreshInv(backlog: int)
    ensures Inv(Fresh(backlog))
  {
  }

  /** What a transmission may change: bytes, and how far it got. */
  lemma TransmitShape(s: State, o: Writer)
    requires InFlight(s)
    ensures var (s1, r) := Transmit(s, o);
      && s1 == s.(calls := s1.calls, written := s1.written, data := s1.data)
      && (r == Sent ==> s.cur.Some? ==> s1.written == PacketSize(s.cur.value))
      && (r != Sent ==> s.cur.Some? && s.written <= s1.written < PacketSize(s.cur.value))
      && (s.cur.None? ==> s1 == s && r == Sent)
  {
    hide Encode, PacketSize;
  }

  /** The next packet keeps control, as a state in the middle of Write. */
  lemma NextPacketControl(s: State)
    requires Watches(s) && Ending(s) && s.open && (s.cur.None? ==> s.queue == [] && !s.bye)
    requires s.queue != [] || s.bye
    ensures Control(NextPacket(s)) && NextPacket(s).open
    ensures NextPacket(s).live == s.live
  {
    hide Encode, PacketSize;
    var t := NextPacket(s);
    assert 0 < PacketSize(t.cur.value) by { PositiveSize(t.cur.value); }
    assert forall i :: 0 <= i < |s.started| ==> s.started[i] in s.started;
    assert forall i :: 0 <= i < |s.started| ==> t.started[i] == s.started[i];
  }

  lemma PositiveSize(p: Packet)
    ensures 0 < PacketSize(p)
  {
  }

  lemma FixedPartFits(p: Packet)
    ensures FixedPart(p) <= PacketSize(p)
  {
  }

  lemma RestControl(s: State)
    requires Watches(s) && Ending(s) && s.open && s.queue == [] && !s.bye
    requires s.cur.Some? ==> s.started != [] && Last(s.started) == s.cur.value
    ensures Control(Rest(s)) && Rest(s).cur.None? && Rest(s).live == s.live
  {
    assert s.done ==> s.cur == Some(Bye);
  }

  /** Write and schedule-write keep control; what they leave unfinished, the caller will watch. */
  lemma {:induction false} WriteControl(s: State, o: Writer)
    requires Control(s) && s.open
    ensures var (t, more) := Write(s, o);
      Control(t) && s.live <= t.live && (t.cur.Some? ==> more)
    decreases Pending(s), 0
  {
    hide Encode, PacketSize, Transmit;
    TransmitShape(s, o);
    var (s1, r) := Transmit(s, o);
    if r == Sent {
      if s1.queue != [] || s1.bye {
        NextPacketControl(s1);
        ScheduleControl(NextPacket(s1), o);
      } else {
        RestControl(s1);
      }
    }
  }

  lemma {:induction false} ScheduleControl(s: State, o: Writer)
    requires Control(s)
    ensures var t := ScheduleWrite(s, o);
      Control(t) && s.live <= t.live && (t.cur.Some? ==> t.live != {})
    decreases Pending(s), 1
  {
    hide Write, Encode, PacketSize;
    if s.open && s.watch == 0 {
      WriteControl(s, o);
      var (s1, more) := Write(s, o);
      if more && s1.open {
        assert AddWatch(s1).watch in AddWatch(s1).live;
      }
    } else if s.cur.Some? {
      assert s.watch in s.live;
    }
  }

  lemma StartControl(s: State, p: Packet)
    requires Control(s) && s.open && !s.done && s.cur.None? && p != Bye
    ensures Control(Start(s, p))
  {
    hide Encode;
    assert forall i :: 0 <= i < |s.started| ==> s.started[i] in s.started;
  }

  lemma SendInv(s: State, m: Message)
    requires Inv(s)
    ensures Inv(Send(s, m))
  {
    hide PacketSize;
    if !s.done && s.cur.None? {
      StartControl(s.(offered := s.offered + [m]), Msg(m));
    }
  }

  lemma PreparePingControl(s: State)
    requires Control(s) && PingAllowed(s)
    ensures Control(PreparePing(s))
  {
    hide PacketSize;
    PositiveSize(Ping);
    assert forall i :: 0 <= i < |s.started| ==> s.started[i] in s.started;
  }

  lemma PingInv(s: State, o: Writer)
    requires Inv(s)
    ensures Inv(SendPing(s, o).0)
  {
    hide PacketSize, ScheduleWrite;
    if PingAllowed(s) {
      PreparePingControl(s);
      ScheduleControl(PreparePing(s), o);
    }
  }

  lemma PrepareByeControl(s: State)
    requires Control(s) && !s.done && s.cur.None?
    ensures Control(Start(s, Bye).(done := true, bye := false))
  {
    hide PacketSize;
    PositiveSize(Bye);
    assert forall i :: 0 <= i < |s.started| ==> s.started[i] in s.started;
  }

  lemma CloseInv(s: State, o: Writer)
    requires Inv(s)
    ensures Inv(Close(s, o))
  {
    hide PacketSize, ScheduleWrite;
    if !s.done && s.cur.None? && s.queue == [] {
      PrepareByeControl(s);
      ScheduleControl(Start(s, Bye).(done := true, bye := false), o);
    }
  }

  lemma ShutdownControl(s: State)
    requires Control(s)
    ensures Control(Shutdown(s, Aborted)) && Control(Shutdown(s.(watch := 0), Aborted))
  {
  }

  lemma UnwatchControl(s: State, w: nat)
    requires Control(s) && s.watch != w
    ensures Control(s.(live := s.live - {w}))
  {
  }

  lemma FireInv(s: State, w: nat, out: bool, o: Writer)
    requires Inv(s) && w in s.live && (out ==> s.open)
    ensures Inv(Fire(s, w, out, o))
  {
    hide Write, PacketSize;
    if out {
      WriteControl(s, o);
      WriteUnwatched(s, o);
      var (t, more) := Write(s, o);
      if !more { UnwatchControl(t, w); }
    } else {
      ShutdownControl(s);
      UnwatchControl(Shutdown(s.(watch := 0), Aborted), w);
    }
  }

  /** A write that has nothing left clears the field write_watch_id. */
  lemma WriteUnwatched(s: State, o: Writer)
    ensures !Write(s, o).1 ==> Write(s, o).0.watch == 0
  {
    hide ScheduleWrite, Transmit;
  }

  /** Every step keeps the invariant; in particular no wakeup is ever lost. */
  lemma StepInv(s: State, e: Event, o: Writer)
    requires Inv(s) && Enabled(s, e)
    ensures Inv(Step(s, e, o))
  {
    hide Fire, SendPing, Close, Send, ScheduleWrite, PacketSize;
    match e
    case DoSend(m) => SendInv(s, m);
    case DoPing => PingInv(s, o);
    case DoClose => CloseInv(s, o);
    case DoShutdown => ShutdownControl(s);
    case DoSetBacklog(b, keep) =>
    case DoFire(w, out) => FireInv(s, w, out, o);
    case DoInvoke => ScheduleControl(s.(invokes := s.invokes - 1), o);
  }

  /* ---------- The end is final ---------- */

  /** Nothing ever makes a sender accept messages again. */
  lemma {:induction false} WriteStaysDone(s: State, o: Writer)
    requires s.done
    ensures Write(s, o).0.done
    decreases Pending(s), 0
  {
    hide Encode, Transmit;
    TransmitDone(s, o);
    if Transmit(s, o).1 == Sent {
      var s1 := Transmit(s, o).0;
      if s1.queue != [] || s1.bye {
        StaysDone(NextPacket(s1), o);
      }
    }
  }

  lemma TransmitDone(s: State, o: Writer)
    ensures var t := Transmit(s, o).0; t.done == s.done && Pending(t) == Pending(s)
  {
    hide Encode;
  }

  lemma {:induction false} StaysDone(s: State, o: Writer)
    requires s.done
    ensures ScheduleWrite(s, o).done
    decreases Pending(s), 1
  {
    hide Write;
    if s.open && s.watch == 0 {
      WriteStaysDone(s, o);
    }
  }

  /** No step ever makes a sender accept messages again. */
  lemma StepStaysDone(s: State, e: Event, o: Writer)
    requires Enabled(s, e) && s.done
    ensures Step(s, e, o).done
  {
    hide Write, ScheduleWrite;
    match e
    case DoFire(w, out) => WriteStaysDone(s, o);
    case DoInvoke => StaysDone(s.(invokes := s.invokes - 1), o);
    case _ =>
  }

  /** A closed channel stays closed, and nothing is started or written any more. */
  lemma StaysClosed(s: State, e: Event, o: Writer)
    requires Inv(s) && Enabled(s, e) && !s.open
    ensures var t := Step(s, e, o);
      !t.open && t.exit == s.exit && t.cur.None? && t.started == s.started && t.data == s.data
  {
    hide Write;
  }

  /* ---------- The pipe only grows ---------- */

  lemma TransmitGrows(s: State, o: Writer)
    requires InFlight(s)
    ensures s.data <= Transmit(s, o).0.data
  {
    hide Encode, PacketSize;
  }

  lemma {:induction false} WriteGrows(s: State, o: Writer)
    requires Control(s) && s.open
    ensures s.data <= Write(s, o).0.data
    decreases Pending(s), 0
  {
    hide Encode, PacketSize, Transmit, ScheduleWrite;
    TransmitShape(s, o);
    TransmitGrows(s, o);
    var (s1, r) := Transmit(s, o);
    if r == Sent && (s1.queue != [] || s1.bye) {
      NextPacketControl(s1);
      ScheduleGrows(NextPacket(s1), o);
    }
  }

  lemma {:induction false} ScheduleGrows(s: State, o: Writer)
    requires Control(s)
    ensures s.data <= ScheduleWrite(s, o).data
    decreases Pending(s), 1
  {
    hide Write;
    if s.open && s.watch == 0 {
      WriteGrows(s, o);
    }
  }

  lemma StepGrows(s: State, e: Event, o: Writer)
    requires Inv(s) && Enabled(s, e)
    ensures s.data <= Step(s, e, o).data
  {
    hide Write, ScheduleWrite, Encode, PacketSize;
    match e
    case DoPing =>
      if PingAllowed(s) {
        PreparePingControl(s);
        ScheduleGrows(PreparePing(s), o);
      }
    case DoClose =>
      if !s.done && s.cur.None? && s.queue == [] {
        PrepareByeControl(s);
        ScheduleGrows(Start(s, Bye).(done := true, bye := false), o);
      }
    case DoFire(w, out) => if out { WriteGrows(s, o); }
    case DoInvoke => ScheduleGrows(s.(invokes := s.invokes - 1), o);
    case _ =>
  }
}
