/** After a torn ping: the pipe lacks bytes of the packets started. An encoded ping is all zeros, so
    the gap does not show as long as only pings follow; the first other packet lays it open. */
module TornPings {
  import opened Channel
  import opened Sequences
  import opened Wire
  import opened SenderSpec
  import opened SenderControl
  import opened SenderStream

  /* ---------- Bytes ---------- */

  ghost predicate AllZero(b: seq<byte>)
  {
    forall i :: 0 <= i < |b| ==> b[i] == 0
  }

  /** Two byte sequences differ where both have a byte. */
  ghost predicate Clash(a: seq<byte>, b: seq<byte>)
  {
    exists i :: 0 <= i < |a| && i < |b| && a[i] != b[i]
  }

  lemma ClashGrows(a: seq<byte>, b: seq<byte>, x: seq<byte>, y: seq<byte>)
    requires Clash(a, b)
    ensures Clash(a + x, b + y)
  {
    var i :| 0 <= i < |a| && i < |b| && a[i] != b[i];
    assert (a + x)[i] != (b + y)[i];
  }

  lemma ClashIsNoPrefix(a: seq<byte>, b: seq<byte>)
    requires Clash(a, b)
    ensures !(a <= b)
  {
  }

  /** `b` continues `pre` with zeros only. */
  ghost predicate Padded(pre: seq<byte>, b: seq<byte>)
  {
    pre <= b && AllZero(b[|pre|..])
  }

  lemma PaddedAt(pre: seq<byte>, b: seq<byte>)
    requires Padded(pre, b)
    ensures forall i :: |pre| <= i < |b| ==> b[i] == 0
  {
    assert forall i :: |pre| <= i < |b| ==> b[i] == b[|pre|..][i - |pre|];
  }

  lemma PaddedPrefix(pre: seq<byte>, a: seq<byte>, b: seq<byte>)
    requires Padded(pre, a) && Padded(pre, b) && |a| <= |b|
    ensures a <= b
  {
    PaddedAt(pre, a);
    PaddedAt(pre, b);
    assert forall i :: 0 <= i < |pre| ==> a[i] == pre[i] && b[i] == pre[i];
    assert forall i :: 0 <= i < |a| ==> a[i] == b[i];
  }

  lemma PaddedMore(pre: seq<byte>, a: seq<byte>, z: seq<byte>)
    requires Padded(pre, a) && AllZero(z)
    ensures Padded(pre, a + z)
  {
    assert (a + z)[|pre|..] == a[|pre|..] + z;
  }

  lemma PingIsZero(w: nat)
    requires w <= HEADER_SIZE
    ensures AllZero(Encode(Ping)[..w]) && |Encode(Ping)[..w]| == w
  {
  }

  lemma OthersAreNot(p: Packet)
    requires p != Ping
    ensures Encode(p)[4] != 0
  {
    hide Put32;
    if p.Msg? {
      assert Encode(p)[4] == Header(PREFIX_SIZE + |p.message.text|, TYPE_MESSAGE)[4];
    }
  }

  /** If zeros are missing before `e`, then `e` is zero throughout or the bytes clash. */
  lemma {:induction false} ZeroOrClash(pre: seq<byte>, d: seq<byte>, x: seq<byte>, e: seq<byte>, k: nat)
    requires Padded(pre, d) && Padded(pre, x) && |d| < |x| && k < |e|
    ensures Clash(d + e, x + e) || e[k] == 0
  {
    var a, b, i := d + e, x + e, |d| + k;
    assert a[i] == e[k];
    if a[i] != b[i] {
      assert Clash(a, b);
    } else if i < |x| {
      PaddedAt(pre, x);
    } else {
      ZeroOrClash(pre, d, x, e, i - |x|);
    }
  }

  /* ---------- Packets ---------- */

  /** From number `m` on there are only pings. */
  ghost predicate OnlyPings(ps: seq<Packet>, m: nat)
  {
    m < |ps| && forall i :: m <= i < |ps| ==> ps[i] == Ping
  }

  /** The bytes of the first `m` packets, then zeros, but fewer than the pings from there on have. */
  ghost predicate Short(d: seq<byte>, ps: seq<Packet>, m: nat)
  {
    OnlyPings(ps, m) && Padded(EncodeAll(ps[..m]), d) && |d| < |EncodeAll(ps)|
  }

  /** Some other packet has followed, and the bytes are wrong. */
  ghost predicate Broken(d: seq<byte>, ps: seq<Packet>, m: nat)
  {
    m < |ps| && !OnlyPings(ps, m) && Clash(d, EncodeAll(ps))
  }

  ghost predicate Boundary(d: seq<byte>, ps: seq<Packet>, m: nat) { Short(d, ps, m) || Broken(d, ps, m) }

  lemma {:induction false} PingsArePadding(ps: seq<Packet>, m: nat)
    requires m <= |ps| && forall i :: m <= i < |ps| ==> ps[i] == Ping
    ensures Padded(EncodeAll(ps[..m]), EncodeAll(ps))
    decreases |ps|
  {
    hide Encode, EncodeAll;
    if m == |ps| {
      assert ps[..m] == ps;
    } else {
      var qs := Init(ps);
      PingsArePadding(qs, m);
      EncodeAllSnoc(qs, Ping);
      assert ps == qs + [Ping] && qs[..m] == ps[..m];
      PingIsZero(HEADER_SIZE);
      assert Encode(Ping)[..HEADER_SIZE] == Encode(Ping);
      PaddedMore(EncodeAll(ps[..m]), EncodeAll(qs), Encode(Ping));
    }
  }

  /** At a packet boundary the pipe holds a prefix exactly if only pings have followed. */
  lemma BoundaryPrefix(d: seq<byte>, ps: seq<Packet>, m: nat)
    requires Boundary(d, ps, m)
    ensures d <= EncodeAll(ps) <==> OnlyPings(ps, m)
  {
    hide EncodeAll, Clash, Padded;
    if OnlyPings(ps, m) {
      PingsArePadding(ps, m);
      PaddedPrefix(EncodeAll(ps[..m]), d, EncodeAll(ps));
    } else {
      ClashIsNoPrefix(d, EncodeAll(ps));
    }
  }

  /** Another ping, whole or in part, hides the gap; any other packet, once it is out, lays it open. */
  lemma Advance(d: seq<byte>, ps: seq<Packet>, p: Packet, w: nat, m: nat)
    requires Boundary(d, ps, m) && w <= PacketSize(p) && (p == Ping || w == PacketSize(p))
    ensures Boundary(d + Encode(p)[..w], ps + [p], m)
  {
    hide EncodeAll, Encode, Clash, Padded, PacketSize;
    EncodeAllSnoc(ps, p);
    var qs := ps + [p];
    assert qs[..m] == ps[..m];
    if Broken(d, ps, m) {
      ClashGrows(d, EncodeAll(ps), Encode(p)[..w], Encode(p));
      var i :| m <= i < |ps| && ps[i] != Ping;
      assert qs[i] != Ping;
    } else if p == Ping {
      PingSize();
      PingIsZero(w);
      PaddedMore(EncodeAll(ps[..m]), d, Encode(Ping)[..w]);
    } else {
      assert qs[|ps|] != Ping;
      assert Encode(p)[..w] == Encode(p);
      PingsArePadding(ps, m);
      OthersAreNot(p);
      ZeroOrClash(EncodeAll(ps[..m]), d, EncodeAll(ps), Encode(p), 4);
    }
  }

  lemma PingSize()
    ensures PacketSize(Ping) == HEADER_SIZE
  {
  }

  /* ---------- The sender ---------- */

  /** The bytes in the pipe before those of the packet in flight. */
  function Before(s: State): seq<byte> {
    if s.written <= |s.data| then s.data[..|s.data| - s.written] else []
  }

  /** A ping was torn when `m` packets had been started before it. */
  ghost predicate Lagging(s: State, m: nat)
  {
    if s.exit == Aborted then OnlyPings(s.started, m) ==> s.data <= EncodeAll(s.started)
    else if s.cur.None? then Boundary(s.data, s.started, m)
    else
      && s.started != [] && s.written <= PacketSize(s.cur.value)
      && s.data == Before(s) + Encode(s.cur.value)[..s.written]
      && Boundary(Before(s), Init(s.started), m)
  }

  lemma SameLag(s: State, t: State, m: nat)
    requires Lagging(s, m)
    requires t.cur == s.cur && t.written == s.written && t.started == s.started && t.data == s.data && t.exit == s.exit
    ensures Lagging(t, m)
  {
    hide EncodeAll, Encode, PacketSize, Boundary;
  }

  lemma StartLag(s: State, p: Packet, m: nat)
    requires Boundary(s.data, s.started, m) && s.exit != Aborted
    ensures Lagging(Start(s, p), m)
  {
    hide EncodeAll, Encode, Boundary;
    assert Init(s.started + [p]) == s.started;
    assert s.data[..|s.data|] == s.data && s.data + Encode(p)[..0] == s.data;
  }

  /** The packet in flight goes on, whole or in part. */
  lemma TransmitLag(s: State, o: Writer, m: nat)
    requires Control(s) && s.open && Lagging(s, m)
    ensures Lagging(Transmit(s, o).0, m)
  {
    hide EncodeAll, Encode, PacketSize, Boundary, Transmit;
    TransmitShape(s, o);
    if s.cur.Some? {
      TransmitAppends(s, o);
      var t := Transmit(s, o).0;
      var e := Encode(s.cur.value);
      Extend(Before(s), e, s.written, t.written);
      assert t.data == Before(s) + e[..t.written];
      assert Before(t) == Before(s);
    }
  }

  lemma TransmitAppends(s: State, o: Writer)
    requires InFlight(s) && s.cur.Some?
    ensures var t := Transmit(s, o).0;
      && s.written <= t.written <= PacketSize(s.cur.value)
      && t.data == s.data + Encode(s.cur.value)[s.written..t.written]
  {
    hide Encode, PacketSize, FixedPart, WriteUpTo;
    var p := s.cur.value;
    FixedPartFits(p);
    var e := Encode(p);
    if s.written < FixedPart(p) { WriteUpToAppends(s, FixedPart(p), o); }
    var (s1, r) := if s.written < FixedPart(p) then WriteUpTo(s, FixedPart(p), o) else (s, Sent);
    assert s.data + e[s.written..s.written] == s.data;
    if r == Sent && s1.written < PacketSize(p) {
      WriteUpToAppends(s1, PacketSize(p), o);
      var w := WriteUpTo(s1, PacketSize(p), o).0.written;
      assert s.data + e[s.written..s1.written] + e[s1.written..w] == s.data + e[s.written..w];
    }
  }

  lemma WriteUpToAppends(s: State, end: nat, o: Writer)
    requires s.cur.Some? && s.written < end <= PacketSize(s.cur.value)
    ensures var t := WriteUpTo(s, end, o).0;
      && t.cur == s.cur && s.written <= t.written <= end
      && t.data == s.data + Encode(s.cur.value)[s.written..t.written]
  {
    hide Encode, PacketSize;
    assert s.data + Encode(s.cur.value)[s.written..s.written] == s.data;
  }

  /** A packet that is out leaves a boundary. */
  lemma FinishedLag(s: State, m: nat)
    requires Lagging(s, m) && s.exit != Aborted
    requires s.cur.Some? ==> s.started != [] && Last(s.started) == s.cur.value && s.written == PacketSize(s.cur.value)
    ensures Boundary(s.data, s.started, m)
  {
    hide EncodeAll, Encode, PacketSize, Boundary;
    if s.cur.Some? {
      Advance(Before(s), Init(s.started), s.cur.value, s.written, m);
      assert s.started == Init(s.started) + [s.cur.value];
    }
  }

  /** A connection that is lost keeps at least the prefix that it had. */
  lemma AbortLag(s: State, m: nat)
    requires InFlight(s) && Lagging(s, m)
    ensures Lagging(Shutdown(s, Aborted), m)
  {
    hide EncodeAll, Encode, PacketSize, Boundary;
    if s.open && s.exit != Aborted && OnlyPings(s.started, m) {
      if s.cur.Some? {
        assert s.started == Init(s.started) + [s.cur.value] && s.cur == Some(Ping);
        Advance(Before(s), Init(s.started), Ping, s.written, m);
      }
      BoundaryPrefix(s.data, s.started, m);
    }
  }

  lemma {:induction false} WriteLag(s: State, o: Writer, m: nat)
    requires Control(s) && s.open && Lagging(s, m)
    ensures Lagging(Write(s, o).0, m)
    decreases Pending(s), 0
  {
    hide EncodeAll, Encode, PacketSize, Transmit, Boundary, Lagging, ScheduleWrite;
    TransmitShape(s, o);
    TransmitLag(s, o, m);
    var (s1, r) := Transmit(s, o);
    match r
    case Failed =>
      SameLag(s1, s1.(watch := 0), m);
      AbortLag(s1.(watch := 0), m);
    case Waiting =>
    case Sent =>
      FinishedLag(s1, m);
      if s1.queue != [] || s1.bye {
        NextPacketControl(s1);
        StartLag(s1, NextPacket(s1).cur.value, m);
        SameLag(Start(s1, NextPacket(s1).cur.value), NextPacket(s1), m);
        ScheduleLag(NextPacket(s1), o, m);
      } else {
        RestLag(s1, m);
      }
  }

  lemma RestLag(s: State, m: nat)
    requires Boundary(s.data, s.started, m) && s.open && s.exit != Aborted
    ensures Lagging(Rest(s), m)
  {
    hide Boundary;
  }

  lemma {:induction false} ScheduleLag(s: State, o: Writer, m: nat)
    requires Control(s) && Lagging(s, m)
    ensures Lagging(ScheduleWrite(s, o), m)
    decreases Pending(s), 1
  {
    hide Lagging, Write;
    if s.open && s.watch == 0 {
      WriteLag(s, o, m);
      SameLag(Write(s, o).0, AddWatch(Write(s, o).0), m);
    }
  }

  /** Another ping request, whether it tears the one in flight or not. */
  lemma PreparePingLag(s: State, m: nat)
    requires Control(s) && PingAllowed(s) && Lagging(s, m)
    ensures Lagging(PreparePing(s), m)
  {
    hide EncodeAll, Encode, PacketSize, Boundary;
    if s.cur.None? {
      StartLag(s, Ping, m);
    } else if s.written > 0 {
      Advance(Before(s), Init(s.started), Ping, s.written, m);
      assert s.started == Init(s.started) + [Ping];
      StartLag(s, Ping, m);
    }
  }

  /** Once a ping has been torn, every step keeps this. */
  lemma StepLag(s: State, e: Event, o: Writer, m: nat)
    requires Inv(s) && Enabled(s, e) && Lagging(s, m)
    ensures Lagging(Step(s, e, o), m)
  {
    hide EncodeAll, Encode, PacketSize, Boundary, Lagging, Write, ScheduleWrite;
    match e
    case DoSend(d) =>
      if !s.done && s.cur.None? {
        FinishedLag(s, m);
        var s1 := s.(offered := s.offered + [d]);
        StartLag(s1, Msg(d), m);
        SameLag(Start(s1, Msg(d)), Send(s, d), m);
      } else {
        SameLag(s, Send(s, d), m);
      }
    case DoPing =>
      if PingAllowed(s) {
        PreparePingControl(s);
        PreparePingLag(s, m);
        ScheduleLag(PreparePing(s), o, m);
      }
    case DoClose => CloseLag(s, o, m);
    case DoShutdown => AbortLag(s, m);
    case DoSetBacklog(b, keep) => SameLag(s, SetBacklog(s, b, keep), m);
    case DoFire(w, out) =>
      if out {
        WriteLag(s, o, m);
        SameLag(Write(s, o).0, Fire(s, w, out, o), m);
      } else {
        SameLag(s, s.(watch := 0), m);
        AbortLag(s.(watch := 0), m);
        SameLag(Shutdown(s.(watch := 0), Aborted), Fire(s, w, out, o), m);
      }
    case DoInvoke =>
      SameLag(s, s.(invokes := s.invokes - 1), m);
      ScheduleLag(s.(invokes := s.invokes - 1), o, m);
  }

  lemma CloseLag(s: State, o: Writer, m: nat)
    requires Inv(s) && Lagging(s, m)
    ensures Lagging(Close(s, o), m)
  {
    hide EncodeAll, Encode, PacketSize, Boundary, Lagging, ScheduleWrite;
    if !s.done && s.cur.None? && s.queue == [] {
      FinishedLag(s, m);
      var t := Start(s, Bye).(done := true, bye := false);
      StartLag(s, Bye, m);
      SameLag(Start(s, Bye), t, m);
      PrepareByeControl(s);
      ScheduleLag(t, o, m);
    } else {
      SameLag(s, Close(s, o), m);
    }
  }

  /** The number of packets started before the one in flight. */
  function Position(s: State): nat { if s.started == [] then 0 else |s.started| - 1 }

  /** The first tear. */
  lemma TearLag(s: State, e: Event, o: Writer)
    requires Inv(s) && Stream(s) && Enabled(s, e) && Tears(s, e)
    ensures Lagging(Step(s, e, o), Position(s)) && Position(s) < |Step(s, e, o).started|
  {
    hide EncodeAll, Encode, PacketSize, ScheduleWrite, Lagging;
    var t, m := PreparePing(s), Position(s);
    assert s.cur == Some(Ping) && s.started == Init(s.started) + [Ping] && s.started[..m] == Init(s.started);
    PingSize();
    PingIsZero(s.written);
    EncodeAllSnoc(Init(s.started), Ping);
    assert s.data[|EncodeAll(Init(s.started))|..] == Encode(Ping)[..s.written];
    assert Short(s.data, s.started, m);
    StartLag(s, Ping, m);
    PreparePingControl(s);
    ScheduleLag(t, o, m);
    ScheduleStarts(t, o);
  }

  /** Packets that have been started stay on record. */
  lemma {:induction false} ScheduleStarts(s: State, o: Writer)
    requires Control(s)
    ensures s.started <= ScheduleWrite(s, o).started
    decreases Pending(s), 1
  {
    hide Write;
    if s.open && s.watch == 0 { WriteStarts(s, o); }
  }

  lemma {:induction false} WriteStarts(s: State, o: Writer)
    requires Control(s) && s.open
    ensures s.started <= Write(s, o).0.started
    decreases Pending(s), 0
  {
    hide Encode, PacketSize, Transmit, ScheduleWrite;
    TransmitShape(s, o);
    var (s1, r) := Transmit(s, o);
    if r == Sent && (s1.queue != [] || s1.bye) {
      NextPacketControl(s1);
      ScheduleStarts(NextPacket(s1), o);
    }
  }

  /** Whatever has happened since: only pings mean a prefix. When no packet is in flight and the
      connection has not been lost, the converse holds too. */
  lemma LagPrefix(s: State, m: nat)
    requires Control(s) && Lagging(s, m)
    ensures OnlyPings(s.started, m) ==> s.data <= EncodeAll(s.started)
    ensures s.cur.None? && s.exit != Aborted ==> (s.data <= EncodeAll(s.started) <==> OnlyPings(s.started, m))
  {
    hide EncodeAll, Encode, PacketSize, Boundary;
    if s.exit != Aborted {
      if s.cur.None? {
        BoundaryPrefix(s.data, s.started, m);
      } else if OnlyPings(s.started, m) {
        assert s.started == Init(s.started) + [s.cur.value] && s.cur == Some(Ping);
        Advance(Before(s), Init(s.started), Ping, s.written, m);
        BoundaryPrefix(s.data, s.started, m);
      }
    }
  }
}
