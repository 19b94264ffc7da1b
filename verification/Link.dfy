/** Sender, pipe and receiver together: what holds in every run of the log pipe. */
module Link {
  import opened Channel
  import opened Sequences
  import opened Wire
  import S = SenderSpec
  import opened SenderControl
  import opened SenderLedger
  import opened SenderStream
  import opened TornPings
  import R = ReceiverSpec
  import Batch = ReceiverBatch

  datatype System = System(s: S.State, r: R.State)

  datatype Event = AtSender(s: S.Event) | AtReceiver(r: R.Event)

  /** The answers the two ends of the pipe will get from the kernel. */
  datatype Kernel = Kernel(w: Writer, r: Reader)

  predicate Enabled(y: System, e: Event) {
    match e
    case AtSender(e) => S.Enabled(y.s, e)
    case AtReceiver(e) => R.Enabled(y.r, e)
  }

  function Step(y: System, e: Event, k: Kernel): System
    requires Enabled(y, e) && y.r.taken <= |y.s.data|
  {
    match e
    case AtSender(e) => y.(s := S.Step(y.s, e, k.w))
    case AtReceiver(e) => y.(r := R.Step(y.r, e, y.s.data, k.r))
  }

  /** A run from a fresh pipe; none if some event could not happen when it was its turn. */
  function Run(backlog: int, es: seq<Event>, k: Kernel): Option<System> {
    if es == [] then Some(System(S.Fresh(backlog), R.FRESH))
    else
      match Run(backlog, Init(es), k)
      case None => None
      case Some(y) =>
        if Enabled(y, Last(es)) && y.r.taken <= |y.s.data| then Some(Step(y, Last(es), k)) else None
  }

  /* ---------- Every run ---------- */

  ghost predicate Linked(y: System)
  {
    SenderControl.Inv(y.s) && Ledger(y.s) && Batch.Inv(y.r, y.s.data)
  }

  lemma StepKeeps(y: System, e: Event, k: Kernel)
    requires Linked(y) && Enabled(y, e)
    ensures Linked(Step(y, e, k))
  {
    hide S.Step, R.Step, Ledger, SenderControl.Inv, Batch.Parsed;
    match e
    case AtSender(e) =>
      var t := S.Step(y.s, e, k.w);
      StepInv(y.s, e, k.w);
      StepLedger(y.s, e, k.w);
      StepGrows(y.s, e, k.w);
      Batch.StreamGrows(y.r, y.s.data, t.data[|y.s.data|..]);
      assert t.data == y.s.data + t.data[|y.s.data|..];
    case AtReceiver(e) =>
      Batch.StepInv(y.r, e, y.s.data, k.r);
  }

  /** In every reachable state nobody sleeps on an unfinished packet, the ledger balances, and the
      receiver has parsed exactly what it has taken. */
  lemma {:induction false} RunKeeps(backlog: int, es: seq<Event>, k: Kernel)
    requires Run(backlog, es, k).Some?
    ensures Linked(Run(backlog, es, k).value)
  {
    hide S.Step, R.Step, Ledger, SenderControl.Inv, Batch.Inv;
    if es == [] {
      SenderControl.FreshInv(backlog);
      NormalizedBounded(backlog);
      Batch.FreshInv([]);
    } else {
      RunKeeps(backlog, Init(es), k);
      StepKeeps(Run(backlog, Init(es), k).value, Last(es), k);
    }
  }

  /** No lost wakeup, in any run: an unfinished packet has an open channel and a live watch or a
      queued invoke; a message waits only behind an unfinished packet; and the receiver is watched
      exactly while it is open and not paused. */
  lemma NobodySleeps(backlog: int, es: seq<Event>, k: Kernel)
    requires Run(backlog, es, k).Some?
    ensures var y := Run(backlog, es, k).value;
      && (y.s.cur.Some? ==> y.s.open && y.s.written < PacketSize(y.s.cur.value) && (y.s.live != {} || y.s.invokes > 0))
      && (y.s.open && y.s.queue != [] ==> y.s.cur.Some?)
      && (y.s.open && y.s.done ==> y.s.cur.Some?)
      && (y.r.watched <==> y.r.open && y.r.paused == 0)
  {
    hide Run, PacketSize;
    RunKeeps(backlog, es, k);
  }

  /** No event of the run restarts a ping that is half written. */
  ghost predicate Untorn(backlog: int, es: seq<Event>, k: Kernel)
    requires Run(backlog, es, k).Some?
  {
    es == [] || (Untorn(backlog, Init(es), k) &&
                 (Last(es).AtSender? ==> !Tears(Run(backlog, Init(es), k).value.s, Last(es).s)))
  }

  /** However short the writes, the pipe has taken exactly a prefix of the packets started. */
  lemma {:induction false} RunStream(backlog: int, es: seq<Event>, k: Kernel)
    requires Run(backlog, es, k).Some? && Untorn(backlog, es, k)
    ensures Stream(Run(backlog, es, k).value.s)
  {
    hide S.Step, R.Step, Ledger, SenderControl.Inv, Batch.Inv;
    if es == [] {
      FreshStream(backlog);
    } else {
      RunStream(backlog, Init(es), k);
      RunKeeps(backlog, Init(es), k);
      if Last(es).AtSender? {
        StepStream(Run(backlog, Init(es), k).value.s, Last(es).s, k.w);
      }
    }
  }

  /** Bytes fall behind the packets started at a torn ping, and never catch up. */
  lemma {:induction false} RunAccount(backlog: int, es: seq<Event>, k: Kernel)
    requires Run(backlog, es, k).Some? && Run(backlog, es, k).value.s.exit != S.Aborted
    ensures var s := Run(backlog, es, k).value.s;
      |s.data| <= Accounted(s) && (|s.data| == Accounted(s) <==> Untorn(backlog, es, k))
  {
    hide S.Step, R.Step, Ledger, SenderControl.Inv, Batch.Inv, Accounted, Tears;
    if es == [] {
      FreshAccount(backlog);
    } else {
      RunKeeps(backlog, Init(es), k);
      if Last(es).AtSender? {
        StepAccount(Run(backlog, Init(es), k).value.s, Last(es).s, k.w);
      }
      RunAccount(backlog, Init(es), k);
    }
  }

  lemma FreshAccount(backlog: int)
    ensures var s := S.Fresh(backlog); |s.data| == Accounted(s)
  {
  }

  /** Unless the connection was lost this is exact: every byte of the packets started is accounted for
      if and only if no ping of the run was torn. */
  lemma RunStreamExact(backlog: int, es: seq<Event>, k: Kernel)
    requires Run(backlog, es, k).Some? && Run(backlog, es, k).value.s.exit != S.Aborted
    ensures Stream(Run(backlog, es, k).value.s) <==> Untorn(backlog, es, k)
  {
    hide Run, Untorn, Stream, Accounted, Ledger, Batch.Inv, PacketSize;
    RunKeeps(backlog, es, k);
    RunAccount(backlog, es, k);
    if Untorn(backlog, es, k) {
      RunStream(backlog, es, k);
    } else if Stream(Run(backlog, es, k).value.s) {
      StreamAccount(Run(backlog, es, k).value.s);
    }
  }

  /** The atomicity rule for small pipe writes is enough: no run on such a pipe tears a ping. */
  lemma {:induction false} AtomicWritesNeverTear(backlog: int, es: seq<Event>, k: Kernel)
    requires Run(backlog, es, k).Some? && AtomicSmallWrites(k.w)
    ensures Untorn(backlog, es, k) && WholeStart(Run(backlog, es, k).value.s)
  {
    hide S.Step, R.Step, Ledger, SenderControl.Inv, Batch.Inv, AtomicSmallWrites;
    if es != [] {
      AtomicWritesNeverTear(backlog, Init(es), k);
      RunKeeps(backlog, Init(es), k);
      if Last(es).AtSender? {
        StepWhole(Run(backlog, Init(es), k).value.s, Last(es).s, k.w);
      }
    }
  }

  /* ---------- When a torn ping does harm ---------- */

  /** The number of packets that had been started before the first ping that was torn. */
  ghost function FirstTorn(backlog: int, es: seq<Event>, k: Kernel): nat
    requires Run(backlog, es, k).Some?
  {
    if es == [] then 0
    else if Untorn(backlog, Init(es), k) then Position(Run(backlog, Init(es), k).value.s)
    else FirstTorn(backlog, Init(es), k)
  }

  /** No ping was torn, or only pings have been started from the first torn one on. */
  ghost predicate Harmless(backlog: int, es: seq<Event>, k: Kernel)
    requires Run(backlog, es, k).Some?
  {
    Untorn(backlog, es, k) || OnlyPings(Run(backlog, es, k).value.s.started, FirstTorn(backlog, es, k))
  }

  lemma {:induction false} RunLagging(backlog: int, es: seq<Event>, k: Kernel)
    requires Run(backlog, es, k).Some? && !Untorn(backlog, es, k)
    ensures Lagging(Run(backlog, es, k).value.s, FirstTorn(backlog, es, k))
  {
    hide S.Step, R.Step, Ledger, SenderControl.Inv, Batch.Inv, Lagging, Tears, Stream;
    var s := Run(backlog, Init(es), k).value.s;
    RunKeeps(backlog, Init(es), k);
    if Untorn(backlog, Init(es), k) {
      RunStream(backlog, Init(es), k);
      TearLag(s, Last(es).s, k.w);
    } else {
      RunLagging(backlog, Init(es), k);
      if Last(es).AtSender? {
        StepLag(s, Last(es).s, k.w, FirstTorn(backlog, Init(es), k));
      }
    }
  }

  /** What the pipe has taken is a prefix of the packets started as long as only pings follow a torn
      one. When no packet is in flight and the connection was not lost, this is exact. */
  lemma PrefixExactly(backlog: int, es: seq<Event>, k: Kernel)
    requires Run(backlog, es, k).Some?
    ensures var s := Run(backlog, es, k).value.s;
      && (Harmless(backlog, es, k) ==> s.data <= EncodeAll(s.started))
      && (s.cur.None? && s.exit != S.Aborted ==> (s.data <= EncodeAll(s.started) <==> Harmless(backlog, es, k)))
  {
    hide Run, Untorn, FirstTorn, Stream, Lagging, OnlyPings, EncodeAll, Ledger, Batch.Inv;
    RunKeeps(backlog, es, k);
    if Untorn(backlog, es, k) {
      RunStream(backlog, es, k);
      StreamPrefix(Run(backlog, es, k).value.s);
    } else {
      RunLagging(backlog, es, k);
      LagPrefix(Run(backlog, es, k).value.s, FirstTorn(backlog, es, k));
    }
  }

  /* ---------- End to end ---------- */

  function KnownAll(ps: seq<Packet>): seq<Frame> {
    if ps == [] then [] else [Known(ps[0])] + KnownAll(ps[1..])
  }

  /** Parsing the encodings of packets gives the packets back. */
  lemma {:induction false} FramesOfPackets(ps: seq<Packet>)
    requires ByeOnlyLast(ps)
    ensures Frames(EncodeAll(ps)) == (KnownAll(ps), [])
  {
    hide Encode, Decode, FrameSize, PacketSize, Frames;
    if ps == [] {
      Batch.NothingComplete([]);
      Batch.FramesIncomplete([]);
    } else {
      var b, x := Encode(ps[0]), EncodeAll(ps[1..]);
      DecodeEncode(ps[0]);
      HeaderStable(b, x);
      assert (b + x)[..|b|] == b && (b + x)[|b|..] == x;
      Batch.FrameHead(b + x);
      assert ByeOnlyLast(ps[1..]) by {
        assert forall i :: 0 <= i < |ps[1..]| ==> ps[1..][i] == ps[i + 1];
      }
      FramesOfPackets(ps[1..]);
      if ps[0] == Bye {
        assert |ps| == 1;
        assert KnownAll(ps) == [Known(Bye)];
      }
    }
  }

  function Received(signals: seq<R.Signal>): seq<Message> {
    if signals == [] then []
    else Received(Init(signals)) + if Last(signals).GotMessage? then [Last(signals).message] else []
  }

  function FrameMessages(fs: seq<Frame>): seq<Message> {
    if fs == [] then []
    else FrameMessages(Init(fs)) + if Last(fs).Known? && Last(fs).packet.Msg? then [Last(fs).packet.message] else []
  }

  lemma ReceivedSnoc(signals: seq<R.Signal>, x: R.Signal)
    ensures Received(signals + [x]) == Received(signals) + if x.GotMessage? then [x.message] else []
  {
    assert Init(signals + [x]) == signals;
  }

  /** The messages signalled are the messages in the frames. */
  lemma {:induction false} ReceivedFrames(fs: seq<Frame>)
    ensures Received(Batch.Summarize(fs).signals) == FrameMessages(fs)
  {
    hide Received, R.SkipCount;
    if fs == [] {
      NothingReceived();
    } else {
      ReceivedFrames(Init(fs));
      var s, f := Batch.Summarize(Init(fs)), Last(fs);
      if f.Known? && f.packet.Msg? {
        var m := f.packet.message;
        var skip := R.SkipCount(s.last, m.index);
        if s.seen && skip != 0 {
          ReceivedSnoc(s.signals, R.Skipped(skip));
          ReceivedSnoc(s.signals + [R.Skipped(skip)], R.GotMessage(m));
          assert s.signals + ([R.Skipped(skip)] + [R.GotMessage(m)])
              == s.signals + [R.Skipped(skip)] + [R.GotMessage(m)];
        } else {
          ReceivedSnoc(s.signals, R.GotMessage(m));
          assert s.signals + ([] + [R.GotMessage(m)]) == s.signals + [R.GotMessage(m)];
        }
      }
    }
  }

  lemma NothingReceived()
    ensures Received([]) == []
  {
  }

  lemma {:induction false} KnownSnoc(ps: seq<Packet>, p: Packet)
    ensures KnownAll(ps + [p]) == KnownAll(ps) + [Known(p)]
  {
    if ps == [] {
      assert ([] + [p])[1..] == [];
    } else {
      KnownSnoc(ps[1..], p);
      assert (ps + [p])[0] == ps[0] && (ps + [p])[1..] == ps[1..] + [p];
    }
  }

  lemma {:induction false} MessagesOfFrames(ps: seq<Packet>)
    ensures FrameMessages(KnownAll(ps)) == Messages(ps) && |KnownAll(ps)| == |ps|
  {
    if ps != [] {
      MessagesOfFrames(Init(ps));
      KnownSnoc(Init(ps), Last(ps));
      assert ps == Init(ps) + [Last(ps)];
      assert Init(KnownAll(ps)) == KnownAll(Init(ps));
    }
  }

  lemma {:induction false} FrameMessagesMonotone(a: seq<Frame>, b: seq<Frame>)
    requires a <= b
    ensures FrameMessages(a) <= FrameMessages(b)
  {
    if a != b {
      FrameMessagesMonotone(a, Init(b));
    }
  }

  /** What was received is a prefix of what was put in flight, which is an in-order part of what
      was offered, with every field intact. */
  lemma Safe(y: System)
    requires Linked(y) && y.s.data <= EncodeAll(y.s.started)
    ensures Received(y.r.signals) <= Messages(y.s.started)
    ensures Subseq(Messages(y.s.started), y.s.offered)
  {
    hide EncodeAll, Encode, Frames, FrameMessages, Received, Batch.Summarize, Messages, Subseq;
    var s, r := y.s, y.r;
    FramesOfPackets(s.started);
    PrefixParses(s.data[..r.taken], EncodeAll(s.started));
    ReceivedFrames(r.frames);
    FrameMessagesMonotone(r.frames, KnownAll(s.started));
    MessagesOfFrames(s.started);
    InFlightKept(s);
  }

  /** If the sender has drained and everything was read, all of it was received, and the bye. */
  lemma Faithful(y: System)
    requires Linked(y) && Stream(y.s)
    ensures Received(y.r.signals) <= Messages(y.s.started)
    ensures Subseq(Messages(y.s.started), y.s.offered)
    ensures y.s.exit == S.Drained && y.r.taken == |y.s.data| ==>
              Received(y.r.signals) == Messages(y.s.started) && Known(Bye) in y.r.frames
  {
    hide EncodeAll, Encode, Frames, FrameMessages, Received, Batch.Summarize, Messages, Subseq;
    var s, r := y.s, y.r;
    StreamPrefix(s);
    Safe(y);
    if s.exit == S.Drained && r.taken == |s.data| {
      FramesOfPackets(s.started);
      ReceivedFrames(r.frames);
      MessagesOfFrames(s.started);
      assert s.data[..r.taken] == EncodeAll(s.started);
      KnownSnoc(Init(s.started), Bye);
      assert s.started == Init(s.started) + [Bye];
    }
  }

  lemma PrefixParses(b: seq<byte>, all: seq<byte>)
    requires b <= all
    ensures Frames(b).0 <= Frames(all).0
  {
    hide Frames;
    assert all == b + all[|b|..];
    Batch.FramesMonotone(b, all[|b|..]);
  }

  lemma InFlightKept(s: S.State)
    requires Ledger(s)
    ensures Subseq(Messages(s.started), s.offered)
  {
    hide Messages;
    SubseqPrefix(Kept(s), |Messages(s.started)|);
    assert Kept(s)[..|Messages(s.started)|] == Messages(s.started);
    SubseqTrans(Messages(s.started), Kept(s), s.offered);
  }

  /** The main safety theorem, for every run in which no packet but a ping has followed a torn ping. */
  lemma EndToEnd(backlog: int, es: seq<Event>, k: Kernel)
    requires Run(backlog, es, k).Some? && Harmless(backlog, es, k)
    ensures var y := Run(backlog, es, k).value;
      && Received(y.r.signals) <= Messages(y.s.started)
      && Subseq(Messages(y.s.started), y.s.offered)
  {
    hide Run, Linked, Harmless, Received, Messages;
    RunKeeps(backlog, es, k);
    PrefixExactly(backlog, es, k);
    Safe(Run(backlog, es, k).value);
  }

  /** The same for every run at all, if the pipe takes small writes whole or not at all. */
  lemma EndToEndOnAtomicPipes(backlog: int, es: seq<Event>, k: Kernel)
    requires Run(backlog, es, k).Some? && AtomicSmallWrites(k.w)
    ensures var y := Run(backlog, es, k).value;
      && Stream(y.s)
      && Received(y.r.signals) <= Messages(y.s.started)
      && Subseq(Messages(y.s.started), y.s.offered)
  {
    hide *;
    AtomicWritesNeverTear(backlog, es, k);
    RunStream(backlog, es, k);
    UntornIsHarmless(backlog, es, k);
    EndToEnd(backlog, es, k);
  }

  lemma UntornIsHarmless(backlog: int, es: seq<Event>, k: Kernel)
    requires Run(backlog, es, k).Some? && Untorn(backlog, es, k)
    ensures Harmless(backlog, es, k)
  {
  }

  /** Where the receiver stands in a stream of encoded packets, the next header is one it can take. */
  lemma {:induction false} NextHeadOk(ps: seq<Packet>, b: seq<byte>, x: seq<byte>)
    requires ByeOnlyLast(ps) && b + x <= EncodeAll(ps) && Known(Bye) !in Frames(b).0
    ensures HeadOk(Frames(b).1 + x)
    decreases |ps|
  {
    hide Encode, Decode, FrameSize, PacketSize, Frames, FixedField, SizeField, Kind;
    if ps == [] {
      Batch.NothingComplete([]);
      Batch.FramesIncomplete([]);
      assert b == [] && x == [];
    } else {
      var e := Encode(ps[0]);
      EncodeFrames(ps[0]);
      SameHead(e, EncodeAll(ps[1..]), b + x);
      if Complete(b) {
        HeaderStable(b, x);
        Batch.FrameHead(b);
        var n := FrameSize(b);
        assert b[n..] + x <= EncodeAll(ps[1..]) by { assert (b + x)[n..] == b[n..] + x; }
        assert ByeOnlyLast(ps[1..]) by {
          assert forall i :: 0 <= i < |ps[1..]| ==> ps[1..][i] == ps[i + 1];
        }
        NextHeadOk(ps[1..], b[n..], x);
      } else {
        Batch.FramesIncomplete(b);
      }
    }
  }

  /** A prefix that reaches past the header has the header of the whole. */
  lemma SameHead(e: seq<byte>, tail: seq<byte>, c: seq<byte>)
    requires |e| >= HEADER_SIZE && FrameSize(e) == |e| && HeadOk(e) && c <= e + tail
    ensures HeadOk(c) && (|c| >= HEADER_SIZE ==> FrameSize(c) == |e|)
  {
    hide FrameSize, HeadOk;
    if |c| >= HEADER_SIZE {
      var h := e[..HEADER_SIZE];
      assert e == h + e[HEADER_SIZE..] && c == h + c[HEADER_SIZE..];
      HeaderStable(h, e[HEADER_SIZE..]);
      HeaderStable(h, c[HEADER_SIZE..]);
    } else {
      ShortHeadOk(c);
    }
  }

  lemma ShortHeadOk(c: seq<byte>)
    requires |c| < HEADER_SIZE
    ensures HeadOk(c)
  {
  }

  /** Connected to this sender, the receiver never meets a header that it cannot take. */
  lemma HeadersAlwaysFit(backlog: int, es: seq<Event>, k: Kernel)
    requires Run(backlog, es, k).Some? && Harmless(backlog, es, k)
    ensures var y := Run(backlog, es, k).value;
      y.r.open ==> y.r.taken <= |y.s.data| && HeadOk(y.r.partial + y.s.data[y.r.taken..])
  {
    hide Run, Harmless, EncodeAll, Frames, Batch.Summarize, HeadOk;
    RunKeeps(backlog, es, k);
    PrefixExactly(backlog, es, k);
    var y := Run(backlog, es, k).value;
    if y.r.open {
      var b, x := y.s.data[..y.r.taken], y.s.data[y.r.taken..];
      assert b + x == y.s.data;
      NextHeadOk(y.s.started, b, x);
    }
  }
}
