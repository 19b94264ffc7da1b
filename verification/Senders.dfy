/** The sender as an object: a 22-byte packet array and counters that it updates in place. */
module Senders {
  import opened Channel
  import opened Sequences
  import opened Wire
  import opened Pipes
  import S = SenderSpec
  import SenderControl
  import SenderDrain
  import SenderEffects

  class Sender {
    const pipe: Pipe
    var io: Pipe?
    var done: bool
    var bye: bool
    var writeWatchId: nat
    var lastWatch: nat
    var buffer: seq<Message>
    var maxSize: int
    const packet: array<byte>
    var packetSize: nat
    var packetFixedPart: nat
    var packetWritten: nat
    var currentMessage: Option<Message>

    /** The value of this object in the state machine: what the fields above mean, and the history. */
    ghost var model: S.State

    ghost predicate Valid()
      reads this, packet, pipe
    {
      && packet.Length == MAX_FIXED_PART
      && (io == null || io == pipe)
      && model.done == done && model.bye == bye && model.open == (io != null)
      && model.queue == buffer && model.limit == maxSize
      && model.watch == writeWatchId && model.lastWatch == lastWatch
      && model.data == pipe.data && model.calls == pipe.writeCalls
      && (model.cur.None? ==> packetSize == packetWritten && model.written == 0)
      && (model.cur.Some? ==> model.open && model.written == packetWritten && Holds(model.cur.value))
      && (model.open && !(model.cur.Some? && model.cur.value.Msg?) ==> currentMessage.None?)
    }

    /** The packet array and its counters hold this packet. */
    ghost predicate Holds(p: Packet)
      reads this, packet
    {
      && packet.Length == MAX_FIXED_PART
      && packetSize == PacketSize(p) && packetFixedPart == FixedPart(p) && packetWritten <= packetSize
      && packet[..packetFixedPart] == Encode(p)[..packetFixedPart]
      && (p.Msg? ==> currentMessage == Some(p.message))
    }

    /** What holds between any two calls. */
    ghost predicate Good()
      reads this, packet, pipe
    {
      Valid() && SenderControl.Inv(model)
    }

    constructor (pipe: Pipe, backlog: int)
      requires pipe.data == [] && pipe.writeCalls == 0
      ensures this.pipe == pipe && fresh(packet)
      ensures Good() && model == S.Fresh(backlog)
    {
      this.pipe, io := pipe, pipe;
      done, bye, writeWatchId, lastWatch := false, false, 0, 0;
      buffer, maxSize := [], S.NormalizeBacklog(backlog);
      packet := new byte[MAX_FIXED_PART];
      packetSize, packetFixedPart, packetWritten, currentMessage := 0, 0, 0, None;
      model := S.Fresh(backlog);
      new;
      SenderControl.FreshInv(backlog);
    }

    /* ---------- Preparing packets ---------- */

    method PutUint32(offset: nat, x: uint32)
      requires offset + 4 <= packet.Length
      modifies packet
      ensures packet[..] == old(packet[..offset]) + Put32(x) + old(packet[offset + 4..])
    {
      packet[offset] := x % 0x100;
      packet[offset + 1] := x / 0x100 % 0x100;
      packet[offset + 2] := x / 0x1_0000 % 0x100;
      packet[offset + 3] := x / 0x100_0000 % 0x100;
    }

    method PutUint64(offset: nat, x: uint64)
      requires offset + 8 <= packet.Length
      modifies packet
      ensures packet[..] == old(packet[..offset]) + Put64(x) + old(packet[offset + 8..])
    {
      hide Put32;
      PutUint32(offset, x % TWO_32);
      PutUint32(offset + 4, x / TWO_32);
    }

    method FillHeader(payload: nat, kind: byte)
      requires packet.Length == MAX_FIXED_PART && payload + HEADER_SIZE < TWO_32
      modifies packet, this`packetSize, this`packetWritten, this`packetFixedPart
      ensures packet[..HEADER_SIZE] == Header(payload, kind) && packet[HEADER_SIZE..] == old(packet[HEADER_SIZE..])
      ensures packetSize == HEADER_SIZE + payload && packetWritten == 0
      ensures packetFixedPart == Min(MAX_FIXED_PART, packetSize)
    {
      hide Put32;
      PutUint32(0, payload);
      packet[4] := kind;
      packetSize, packetWritten := HEADER_SIZE + payload, 0;
      packetFixedPart := Min(packet.Length, packetSize);
    }

    /** Lays out a packet without text: the array then holds its whole encoding. */
    method PrepareEmpty(ghost p: Packet, kind: byte)
      requires packet.Length == MAX_FIXED_PART
      requires !p.Msg? && kind == (if p == Ping then TYPE_PING else TYPE_BYE)
      modifies packet, this`packetSize, this`packetWritten, this`packetFixedPart
      ensures Holds(p) && packetWritten == 0
    {
      FillHeader(0, kind);
      assert Encode(p)[..packetFixedPart] == Encode(p) == Header(0, kind);
    }

    method PrepareCurrentMessage()
      requires packet.Length == MAX_FIXED_PART && currentMessage.Some?
      modifies packet, this`packetSize, this`packetWritten, this`packetFixedPart
      ensures Holds(Msg(currentMessage.value)) && packetWritten == 0
    {
      hide Put32, Put64;
      var m := currentMessage.value;
      var payload := PREFIX_SIZE + |m.text|;
      FillHeader(payload, TYPE_MESSAGE);
      FillPrefix(m);
      ghost var h := Header(payload, TYPE_MESSAGE);
      assert packet[..] == h + Prefix(m);
      assert Encode(Msg(m))[..MAX_FIXED_PART] == h + Prefix(m);
      assert packet[..MAX_FIXED_PART] == packet[..];
    }

    method FillPrefix(m: Message)
      requires packet.Length == MAX_FIXED_PART
      modifies packet
      ensures packet[..] == old(packet[..HEADER_SIZE]) + Prefix(m)
    {
      hide Put32, Put64;
      ghost var h := packet[..HEADER_SIZE];
      PutUint64(5, Unsigned(m.timestamp));
      ghost var t := Put64(Unsigned(m.timestamp));
      assert packet[..13] == h + t;
      PutUint32(13, m.index);
      assert packet[..17] == h + t + Put32(m.index);
      PutUint32(17, m.category);
      assert packet[..21] == h + t + Put32(m.index) + Put32(m.category);
      packet[21] := m.level;
      assert packet[..] == packet[..21] + [packet[21]];
      assert packet[..21] == h + t + Put32(m.index) + Put32(m.category);
      assert h + t + Put32(m.index) + Put32(m.category) + [m.level]
          == h + (t + Put32(m.index) + Put32(m.category) + [m.level]);
    }

    /* ---------- Writing ---------- */

    method Shutdown(ghost why: S.Exit)
      requires Valid()
      modifies this
      ensures Valid() && model == S.Shutdown(old(model), why)
    {
      hide Encode, PacketSize, FixedPart;
      packetSize, packetWritten := 0, 0;
      done, bye := true, false;
      writeWatchId := 0;
      io := null;
      model := S.Shutdown(model, why);
    }

    lemma SliceOfPrefix(a: seq<byte>, b: seq<byte>, w: nat, n: nat)
      requires a <= b && w + n <= |a|
      ensures a[w..][..n] == b[w..w + n]
    {
    }

    /** One write call for the bytes of the fixed part that are not out yet. */
    method WriteFixedPart() returns (r: S.Progress)
      requires Valid() && model.cur.Some? && packetWritten < packetFixedPart
      modifies this`packetWritten, this`model, pipe`data, pipe`writeCalls
      ensures Valid() && (model, r) == S.WriteUpTo(old(model), old(packetFixedPart), pipe.writer)
      ensures old(pipe.data) <= pipe.data
    {
      hide Encode;
      ghost var p, w := model.cur.value, packetWritten;
      var chunk := packet[packetWritten..packetFixedPart];
      var n, failed := io.WriteChars(chunk);
      SliceOfPrefix(packet[..packetFixedPart], Encode(p), w, n);
      assert chunk == packet[..packetFixedPart][w..];
      model := S.WriteUpTo(model, packetFixedPart, pipe.writer).0;
      packetWritten := packetWritten + n;
      r := if failed then S.Failed else if packetWritten < packetFixedPart then S.Waiting else S.Sent;
    }

    /** One write call for the rest of the message text. */
    method WriteText() returns (r: S.Progress)
      requires Valid() && model.cur.Some? && packetFixedPart <= packetWritten < packetSize
      modifies this`packetWritten, this`model, pipe`data, pipe`writeCalls
      ensures Valid() && (model, r) == S.WriteUpTo(old(model), old(packetSize), pipe.writer)
      ensures old(pipe.data) <= pipe.data
    {
      hide Encode, PacketSize;
      ghost var p, w := model.cur.value, packetWritten;
      TextIsTail(p, w);
      var chunk := currentMessage.value.text[packetWritten - packetFixedPart..];
      var n, failed := io.WriteChars(chunk);
      assert chunk[..n] == Encode(p)[w..][..n] == Encode(p)[w..w + n];
      model := S.WriteUpTo(model, packetSize, pipe.writer).0;
      packetWritten := packetWritten + n;
      r := if failed then S.Failed else if packetWritten < packetSize then S.Waiting else S.Sent;
    }

    lemma TextIsTail(p: Packet, w: nat)
      requires FixedPart(p) <= w < PacketSize(p)
      ensures p.Msg? && FixedPart(p) == MAX_FIXED_PART && |p.message.text| == PacketSize(p) - MAX_FIXED_PART
      ensures Encode(p)[w..] == p.message.text[w - MAX_FIXED_PART..]
    {
    }

    method Transmit() returns (r: S.Progress)
      requires Valid() && SenderControl.Control(model)
      modifies this`packetWritten, this`model, pipe`data, pipe`writeCalls
      ensures Valid() && (model, r) == S.Transmit(old(model), pipe.writer) && old(pipe.data) <= pipe.data
    {
      hide Encode, FixedPart, PacketSize;
      r := S.Sent;
      if packetWritten < packetSize {
        if packetWritten < packetFixedPart {
          r := WriteFixedPart();
          if r != S.Sent { return; }
        }
        if packetWritten < packetSize {
          r := WriteText();
        }
      }
    }

    method PickMessage()
      requires Valid() && model.open && model.queue != []
      modifies this, packet
      ensures Valid() && model == S.NextPacket(old(model))
    {
      hide Encode, FixedPart, PacketSize;
      currentMessage, buffer := Some(buffer[0]), buffer[1..];
      PrepareCurrentMessage();
      model := S.NextPacket(model);
    }

    method PickBye()
      requires Valid() && model.open && model.queue == [] && model.bye
      modifies this, packet
      ensures Valid() && model == S.NextPacket(old(model))
    {
      hide Encode, FixedPart, PacketSize;
      currentMessage, bye := None, false;
      PrepareEmpty(Bye, TYPE_BYE);
      model := S.NextPacket(model);
    }

    method PickNothing()
      requires Valid() && model.open && model.queue == []
      modifies this
      ensures Valid() && model == old(model).(cur := None, written := 0)
    {
      hide Encode, FixedPart, PacketSize;
      packetWritten, packetSize, packetFixedPart := 0, 0, 0;
      currentMessage := None;
      model := model.(cur := None, written := 0);
    }

    method Write() returns (more: bool)
      requires Valid() && SenderControl.Control(model) && io != null
      modifies this, packet, pipe`data, pipe`writeCalls
      ensures Valid() && (model, more) == S.Write(old(model), pipe.writer) && old(pipe.data) <= pipe.data
      decreases S.Pending(model), 0
    {
      hide Encode, S.ScheduleWrite, S.Transmit, PacketSize, FixedPart;
      SenderControl.TransmitShape(model, pipe.writer);
      var r := Transmit();
      ghost var s1 := model;
      match r {
        case Failed =>
          writeWatchId, model := 0, model.(watch := 0);
          Shutdown(S.Aborted);
          return false;
        case Waiting =>
          return true;
        case Sent =>
          if buffer != [] || bye {
            if buffer != [] { PickMessage(); } else { PickBye(); }
            SenderControl.NextPacketControl(s1);
            ScheduleWrite();
            return true;
          }
          PickNothing();
          writeWatchId, model := 0, model.(watch := 0);
          if done {
            Shutdown(S.Drained);
          }
          return false;
      }
    }

    method ScheduleWrite()
      requires Valid() && SenderControl.Control(model)
      modifies this, packet, pipe`data, pipe`writeCalls
      ensures Valid() && model == S.ScheduleWrite(old(model), pipe.writer) && old(pipe.data) <= pipe.data
      decreases S.Pending(model), 1
    {
      hide S.Write, Encode, PacketSize, FixedPart;
      if io != null && writeWatchId == 0 {
        var more := Write();
        if more {
          AddWatch();
        }
      }
    }

    method AddWatch()
      requires Valid()
      modifies this`writeWatchId, this`lastWatch, this`model
      ensures Valid() && model == S.AddWatch(old(model))
    {
      hide Encode, PacketSize, FixedPart;
      if io != null {
        lastWatch := lastWatch + 1;
        writeWatchId := lastWatch;
      } else {
        writeWatchId := 0;
      }
      model := S.AddWatch(model);
    }

    /* ---------- Callbacks ---------- */

    lemma ControlOf(s: S.State)
      requires SenderControl.Inv(s)
      ensures SenderControl.Control(s)
    {
    }

    /** False means that the main loop removes the watch that fired. */
    method WriteCallback(ghost w: nat, out: bool) returns (again: bool)
      requires Good() && w in model.live && (out ==> io != null)
      modifies this, packet, pipe`data, pipe`writeCalls
      ensures Good() && model == S.Fire(old(model), w, out, pipe.writer) && old(pipe.data) <= pipe.data
      ensures !again ==> w !in model.live
    {
      hide S.Write, SenderControl.Inv, Encode, PacketSize, FixedPart;
      SenderControl.FireInv(model, w, out, pipe.writer);
      ControlOf(model);
      if out {
        again := Write();
      } else {
        writeWatchId, model := 0, model.(watch := 0);
        Shutdown(S.Aborted);
        again := false;
      }
      if !again {
        model := model.(live := model.live - {w});
      }
    }

    method ScheduleWriteInContext()
      requires Good() && model.invokes > 0
      modifies this, packet, pipe`data, pipe`writeCalls
      ensures Good() && model == S.Invoke(old(model), pipe.writer) && old(pipe.data) <= pipe.data
    {
      hide S.ScheduleWrite, SenderControl.Inv, Encode, PacketSize, FixedPart;
      SenderControl.StepInv(model, S.DoInvoke, pipe.writer);
      ControlOf(model);
      model := model.(invokes := model.invokes - 1);
      assert SenderControl.Control(model);
      ScheduleWrite();
    }

    /* ---------- API ---------- */

    /** If the ring has to shrink, `shrunk` is what it keeps of its contents. */
    method SetBacklog(backlog: int, ghost keep: seq<bool>, shrunk: seq<Message>)
      requires Good()
      requires shrunk == S.SetBacklog(model, backlog, keep).queue
      modifies this
      ensures Good() && model == S.SetBacklog(old(model), backlog, keep)
    {
      hide Select, Reject, SenderControl.Inv, Encode, PacketSize, FixedPart;
      SenderControl.StepInv(model, S.DoSetBacklog(backlog, keep), pipe.writer);
      maxSize, buffer := S.NormalizeBacklog(backlog), shrunk;
      model := S.SetBacklog(model, backlog, keep);
    }

    method SendPing() returns (ok: bool)
      requires Good()
      modifies this, packet, pipe`data, pipe`writeCalls
      ensures Good() && (model, ok) == S.SendPing(old(model), pipe.writer) && old(pipe.data) <= pipe.data
    {
      hide S.ScheduleWrite, SenderControl.Inv, Encode, PacketSize, FixedPart;
      SenderControl.PingInv(model, pipe.writer);
      ControlOf(model);
      if !done && currentMessage.None? && buffer == [] {
        SenderControl.PreparePingControl(model);
        PrepareEmpty(Ping, TYPE_PING);
        model := S.PreparePing(model);
        ScheduleWrite();
        return true;
      }
      return false;
    }

    method Send(m: Message)
      requires Good()
      modifies this, packet
      ensures Good() && model == S.Send(old(model), m)
    {
      hide SenderControl.Inv, Encode, PacketSize, FixedPart, S.Enqueue;
      SenderControl.SendInv(model, m);
      ControlOf(model);
      if !done {
        model := model.(offered := model.offered + [m]);
        if packetSize == packetWritten {
          currentMessage := Some(m);
          PrepareCurrentMessage();
          model := S.Start(model, Msg(m)).(invokes := model.invokes + 1);
        } else {
          Enqueue(m);
        }
      }
    }

    predicate CanPut()
      reads this
    {
      maxSize < 0 || |buffer| + 1 <= maxSize
    }

    method Enqueue(m: Message)
      requires Valid()
      modifies this`buffer, this`model
      ensures Valid() && model == S.Enqueue(old(model), m)
    {
      hide Encode, PacketSize, FixedPart;
      model := S.Enqueue(model, m);
      if !CanPut() {
        buffer := buffer[..|buffer| - |buffer| / 2];
      }
      if CanPut() {
        buffer := buffer + [m];
      }
    }

    method Close()
      requires Good()
      modifies this, packet, pipe`data, pipe`writeCalls
      ensures Good() && model == S.Close(old(model), pipe.writer) && old(pipe.data) <= pipe.data
      ensures done && (!old(done) ==> SenderDrain.Backlog(model) == SenderDrain.Backlog(old(model)) + [Bye])
    {
      hide S.ScheduleWrite, SenderControl.Inv, Encode, PacketSize, FixedPart;
      hide SenderDrain.Backlog, SenderEffects.Outcome;
      if !done { SenderEffects.CloseSaysBye(model, pipe.writer); }
      assert done ==> S.Close(model, pipe.writer) == model;
      SenderControl.CloseInv(model, pipe.writer);
      ControlOf(model);
      if !done {
        done := true;
        if packetSize == packetWritten && buffer == [] {
          SenderControl.PrepareByeControl(model);
          bye := false;
          PrepareEmpty(Bye, TYPE_BYE);
          model := S.Start(model, Bye).(done := true, bye := false);
          ScheduleWrite();
        } else {
          bye := true;
          model := model.(done := true, bye := true);
        }
      }
    }
  }
}
