/** The receiver as an object: it fills a 22-byte packet array and a text buffer in place. */
module Receivers {
  import opened Wire
  import opened Pipes
  import R = ReceiverSpec
  import Batch = ReceiverBatch

  class Receiver {
    const pipe: Pipe
    var io: Pipe?
    var paused: nat
    var readWatch: bool
    var lastMessageIndex: uint32
    var messageReceived: bool
    const packet: array<byte>
    var packetSize: nat
    var packetFixedPart: nat
    var packetRead: nat
    var packetBuffer: array?<byte>

    /** The value of this object in the state machine: what the fields above mean, and the history. */
    ghost var model: R.State

    /** The bytes of the current frame that have been read, wherever they are stored. */
    ghost function Partial(): seq<byte>
      requires packet.Length == MAX_FIXED_PART
      requires packetRead > MAX_FIXED_PART ==>
        packetBuffer != null && packetRead - MAX_FIXED_PART <= packetBuffer.Length
      reads this, packet, packetBuffer
    {
      if packetRead <= MAX_FIXED_PART then packet[..packetRead]
      else packet[..] + packetBuffer[..packetRead - MAX_FIXED_PART]
    }

    /** The size fields describe the header that has been read; the text buffer exists exactly when
        the fixed part is complete and some text is still to come. */
    ghost predicate Layout()
      reads this, packet, packetBuffer
    {
      && packet.Length == MAX_FIXED_PART && packetBuffer != packet
      && (packetRead < HEADER_SIZE ==> packetBuffer == null)
      && (packetRead >= HEADER_SIZE ==>
            && packetSize == SizeField(packet[..HEADER_SIZE]) && packetFixedPart == FixedField(packet[..HEADER_SIZE])
            && packetRead <= Max(packetSize, packetFixedPart)
            && (packetFixedPart == HEADER_SIZE || packetFixedPart == MAX_FIXED_PART)
            && (packetFixedPart == HEADER_SIZE ==> packetSize <= HEADER_SIZE)
            && (packetBuffer != null <==> packetFixedPart <= packetRead && packetFixedPart < packetSize)
            && (packetBuffer != null ==> packetBuffer.Length == packetSize - packetFixedPart + 1))
    }

    static function Max(a: nat, b: nat): nat { if a < b then b else a }

    /** The plain fields agree with the state machine. */
    ghost predicate Fields()
      reads this, pipe
    {
      && (io == null || io == pipe)
      && model.open == (io != null) && model.paused == paused && model.watched == readWatch
      && model.seen == messageReceived && model.last == lastMessageIndex
      && model.taken == pipe.taken && model.calls == pipe.readCalls && pipe.taken <= |pipe.data|
    }

    ghost predicate Valid()
      reads this, packet, packetBuffer, pipe
    {
      Layout() && Fields() && model.partial == Partial()
    }

    /** All that is left of the stream, counted from the start of the current frame. */
    ghost function Ahead(): seq<byte>
      requires pipe.taken <= |pipe.data|
      reads this, pipe
    {
      model.partial + pipe.data[pipe.taken..]
    }

    /** What holds between any two calls. */
    ghost predicate Good()
      reads this, packet, packetBuffer, pipe
    {
      Valid() && Batch.Inv(model, pipe.data)
    }

    constructor (pipe: Pipe)
      requires pipe.taken == pipe.readCalls == 0
      ensures this.pipe == pipe && fresh(packet) && packetBuffer == null
      ensures Good() && model == R.FRESH
    {
      this.pipe, io := pipe, pipe;
      paused, readWatch := 0, true;
      lastMessageIndex, messageReceived := 0, false;
      packet := new byte[MAX_FIXED_PART];
      packetSize, packetFixedPart, packetRead, packetBuffer := 0, 0, 0, null;
      model := R.FRESH;
      new;
      Batch.FreshInv(pipe.data);
    }

    /* ---------- Reading ---------- */

    /** Copies bytes into an array, leaving the rest of it alone. */
    static method Store(a: array<byte>, at: nat, chunk: seq<byte>)
      requires at + |chunk| <= a.Length
      modifies a
      ensures a[..at + |chunk|] == old(a[..at]) + chunk && a[at + |chunk|..] == old(a[at + |chunk|..])
    {
      for i := 0 to |chunk|
        invariant a[..at + i] == old(a[..at]) + chunk[..i]
        invariant a[at + i..] == old(a[at + i..])
      {
        ghost var before := a[at + i..];
        a[at + i] := chunk[i];
        assert a[..at + i + 1] == a[..at + i] + [chunk[i]];
        assert a[at + i + 1..] == before[1..];
      }
    }

    /** One read call for the bytes missing up to `end`; the caller stores them. */
    method ReadChars(count: nat, ghost end: nat) returns (chunk: seq<byte>, failed: bool, ghost r: R.Progress)
      requires Fields() && io != null && |model.partial| < end && count == end - |model.partial|
      modifies this`model, pipe`taken, pipe`readCalls
      ensures Fields() && (model, r) == R.ReadUpTo(old(model), end, pipe.data, pipe.reader)
      ensures model.partial == old(model.partial) + chunk && |chunk| <= count && Ahead() == old(Ahead())
      ensures failed ==> chunk == []
      ensures r == if failed then R.Failed else if |chunk| < count then R.Waiting else R.Full
    {
      ghost var before, start := model.partial, pipe.taken;
      chunk, failed := io.ReadChars(count);
      Shift(before, pipe.data, start, pipe.taken);
      r := R.ReadUpTo(model, end, pipe.data, pipe.reader).1;
      model := R.ReadUpTo(model, end, pipe.data, pipe.reader).0;
    }

    /** One read call into the packet array. */
    method ReadFixed(end: nat) returns (r: R.Progress)
      requires packet.Length == MAX_FIXED_PART && packetRead < end <= MAX_FIXED_PART && io != null
      requires Fields() && model.partial == packet[..packetRead]
      modifies packet, this`packetRead, this`model, pipe`taken, pipe`readCalls
      ensures Fields() && old(packetRead) <= packetRead <= end && model.partial == packet[..packetRead]
      ensures packet[..old(packetRead)] == old(packet[..packetRead]) && Ahead() == old(Ahead())
      ensures (model, r) == R.ReadUpTo(old(model), end, pipe.data, pipe.reader)
      ensures r == R.Full <==> packetRead == end
    {
      hide R.ReadUpTo;
      var chunk, failed, r' := ReadChars(end - packetRead, end);
      ghost var before := packet[..packetRead];
      Store(packet, packetRead, chunk);
      assert packet[..packetRead] == (before + chunk)[..packetRead];
      packetRead := packetRead + |chunk|;
      r := if failed then R.Failed else if packetRead < end then R.Waiting else R.Full;
    }

    lemma Shift(p: seq<byte>, data: seq<byte>, a: nat, b: nat)
      requires a <= b <= |data|
      ensures (p + data[a..b]) + data[b..] == p + data[a..] && p + [] == p
    {
    }

    /** The first read phase: the header and, once it is complete, the size fields. */
    method ReadHeader() returns (r: R.Progress)
      requires Valid() && io != null && HeadOk(Ahead())
      modifies packet, this`packetRead, this`packetSize, this`packetFixedPart, this`model, pipe`taken, pipe`readCalls
      ensures Valid() && (model, r) == R.Phase(old(model), HEADER_SIZE, pipe.data, pipe.reader)
      ensures r == R.Full ==> packetRead >= HEADER_SIZE
    {
      hide Get32;
      r := R.Full;
      if packetRead < HEADER_SIZE {
        r := ReadFixed(HEADER_SIZE);
        if r == R.Full {
          packetSize := SizeField(packet[..HEADER_SIZE]);
          packetFixedPart := FixedField(packet[..HEADER_SIZE]);
          HeaderStable(model.partial, pipe.data[pipe.taken..]);
        }
      }
    }

    /** Every phase finds the size fields equal to what the bytes read so far say. */
    lemma FieldsOfPartial()
      requires Layout() && packetRead >= HEADER_SIZE
      ensures |Partial()| == packetRead && Partial()[..HEADER_SIZE] == packet[..HEADER_SIZE]
      ensures SizeField(Partial()) == packetSize && FixedField(Partial()) == packetFixedPart
    {
      hide Get32, SizeField, FixedField;
      var h := packet[..HEADER_SIZE];
      FixedFieldBound(h);
      HeaderStable(h, Partial()[HEADER_SIZE..]);
      assert Partial() == h + Partial()[HEADER_SIZE..];
    }

    /** The second read phase: the rest of the fixed part, then room for the text. */
    method ReadFixedPart() returns (r: R.Progress)
      requires Valid() && io != null && packetRead >= HEADER_SIZE
      modifies packet, this`packetRead, this`packetBuffer, this`model, pipe`taken, pipe`readCalls
      ensures Valid() && (model, r) == R.Phase(old(model), old(packetFixedPart), pipe.data, pipe.reader)
      ensures old(packetFixedPart) == FixedField(old(model).partial)
      ensures packetRead >= HEADER_SIZE && (r == R.Full ==> packetRead >= packetFixedPart)
      ensures packetBuffer == old(packetBuffer) || fresh(packetBuffer)
    {
      hide Get32, SizeField, FixedField, R.ReadUpTo;
      FieldsOfPartial();
      r := R.Full;
      if packetRead < packetFixedPart {
        ghost var h := packet[..HEADER_SIZE];
        FixedFieldBound(h);
        r := ReadFixed(packetFixedPart);
        assert packet[..HEADER_SIZE] == h;
        if r == R.Full && packetSize > packetFixedPart {
          packetBuffer := new byte[packetSize - packetFixedPart + 1];
        }
      }
    }

    static lemma FixedFieldBound(h: seq<byte>)
      requires |h| >= HEADER_SIZE
      ensures FixedField(h) == HEADER_SIZE || FixedField(h) == MAX_FIXED_PART
    {
    }

    /** The third read phase: the message text. */
    method ReadRest() returns (r: R.Progress)
      requires Valid() && io != null && packetRead >= HEADER_SIZE && packetRead >= packetFixedPart
      modifies packetBuffer, this`packetRead, this`model, pipe`taken, pipe`readCalls
      ensures Valid() && (model, r) == R.Phase(old(model), old(packetSize), pipe.data, pipe.reader)
      ensures old(packetSize) == SizeField(old(model).partial)
      ensures packetRead >= HEADER_SIZE && packetRead >= packetFixedPart
      ensures r == R.Full ==> packetRead >= packetSize
    {
      hide Get32, SizeField, FixedField, R.ReadUpTo;
      FieldsOfPartial();
      r := R.Full;
      if packetRead < packetSize {
        FixedFieldBound(packet[..HEADER_SIZE]);
        ghost var text := packetBuffer[..packetRead - packetFixedPart];
        var chunk, failed, r' := ReadChars(packetSize - packetRead, packetSize);
        Store(packetBuffer, packetRead - packetFixedPart, chunk);
        packetRead := packetRead + |chunk|;
        assert packet[..] + text + chunk == packet[..] + (text + chunk);
        r := if failed then R.Failed else if packetRead < packetSize then R.Waiting else R.Full;
      }
    }

    /* ---------- Complete packets ---------- */

    /** What the fields of a complete message packet say. */
    static lemma MessageFields(fixed: seq<byte>, text: seq<byte>)
      requires |fixed| == MAX_FIXED_PART && |text| + MAX_FIXED_PART < TWO_32
      ensures DecodeMessage(fixed + text) ==
              Message(Signed(Get64(fixed[5..13])), Get32(fixed[13..17]), Get32(fixed[17..21]), fixed[21], text)
    {
      hide Get32, Get64, Signed;
      var b := fixed + text;
      assert b[5..13] == fixed[5..13] && b[13..17] == fixed[13..17] && b[17..21] == fixed[17..21] && b[22..] == text;
    }

    /** The message in a complete message packet. */
    method TakeMessage() returns (m: Message)
      requires Layout() && packetRead == FrameSize(packet[..HEADER_SIZE]) && packet[4] == TYPE_MESSAGE
      modifies packetBuffer
      ensures Layout() && old(Partial()) == Partial() && MAX_FIXED_PART <= |Partial()| < TWO_32
      ensures m == DecodeMessage(Partial())
    {
      hide Get32, Get64, SizeField;
      FrameOfFields();
      var text := [];
      if packetBuffer != null {
        var n := packetSize - packetFixedPart;
        packetBuffer[n] := 0;
        text := packetBuffer[..n];
      }
      assert Partial() == packet[..] + text;
      MessageFields(packet[..], text);
      var index, category := Get32(packet[13..17]), Get32(packet[17..21]);
      m := Message(Signed(Get64(packet[5..13])), index, category, packet[21], text);
    }

    lemma FrameOfFields()
      requires Layout() && packetRead >= HEADER_SIZE
      ensures FrameSize(packet[..HEADER_SIZE]) == Max(packetSize, packetFixedPart)
      ensures packet[4] == TYPE_MESSAGE ==> packetFixedPart == MAX_FIXED_PART
    {
    }

    /** Whether the current frame is complete: what the phases establish. */
    ghost predicate Whole()
      reads this, packet, packetBuffer
    {
      && Layout() && packetRead >= HEADER_SIZE && packetRead == Max(packetSize, packetFixedPart)
      && model.partial == Partial()
    }

    lemma WholeIsComplete()
      requires Whole()
      ensures Complete(Partial())
      ensures |Partial()| == packetRead == FrameSize(Partial()) == FrameSize(packet[..HEADER_SIZE])
      ensures Kind(Partial()) == packet[4] && Partial()[..FrameSize(Partial())] == Partial()
    {
      hide Get32, SizeField, FixedField;
      FieldsOfPartial();
      FixedFieldBound(packet[..HEADER_SIZE]);
      assert Partial()[4] == packet[4];
    }

    /** Hands a complete packet to the listeners. False means that the sender said bye. */
    method Dispatch() returns (more: bool, emitted: seq<R.Signal>)
      requires Whole() && Fields() && io != null
      modifies this, packetBuffer
      ensures Valid() && packetRead == 0 && packetBuffer == null
      ensures old(Complete(Partial()) && |Partial()| == FrameSize(Partial()))
      ensures (model, more) == R.Deliver(old(model), Decode(old(Partial())))
      ensures model.signals == old(model.signals) + emitted
    {
      hide Get32, SizeField, FixedField, R.SignalsFor, FrameSize;
      WholeIsComplete();
      ghost var f := Decode(Partial());
      emitted, more := [], true;
      if packet[4] == TYPE_MESSAGE {
        emitted := DispatchMessage();
      } else {
        more := packet[4] != TYPE_BYE;
      }
      packetSize, packetFixedPart, packetRead, packetBuffer := 0, 0, 0, null;
      model := R.Deliver(model, f).0;
    }

    /** The message goes out, after a skip report if indices are missing, and its index is remembered. */
    method DispatchMessage() returns (emitted: seq<R.Signal>)
      requires Whole() && packet[4] == TYPE_MESSAGE
      modifies packetBuffer, this`messageReceived, this`lastMessageIndex
      ensures old(Decode(Partial()).Known? && Decode(Partial()).packet.Msg?)
      ensures var m := old(Decode(Partial()).packet.message);
        && emitted == R.SignalsFor(old(messageReceived), old(lastMessageIndex), m)
        && messageReceived && lastMessageIndex == m.index
    {
      hide Get32, Get64, SizeField, FixedField, DecodeMessage, R.SignalsFor, FrameSize;
      WholeIsComplete();
      var m := TakeMessage();
      emitted := Announce(m);
      messageReceived := true;
      lastMessageIndex := m.index;
    }

    /** The signals for a message: a skip report if indices are missing, then the message. */
    method Announce(m: Message) returns (emitted: seq<R.Signal>)
      ensures emitted == R.SignalsFor(messageReceived, lastMessageIndex, m)
    {
      emitted := [];
      if messageReceived {
        var expected := (lastMessageIndex + 1) % TWO_32;
        if m.index != expected {
          emitted := [R.Skipped(if m.index > expected then m.index - expected else expected - m.index)];
        }
      }
      emitted := emitted + [R.GotMessage(m)];
    }

    /** The three read phases in turn. */
    method FillPacket() returns (r: R.Progress)
      requires Valid() && io != null && HeadOk(Ahead())
      modifies packet, packetBuffer, this`packetRead, this`packetSize, this`packetFixedPart, this`packetBuffer
      modifies this`model, pipe`taken, pipe`readCalls
      ensures Valid() && (model, r) == R.Fill(old(model), pipe.data, pipe.reader)
      ensures r == R.Full ==> Whole()
      ensures packetBuffer == null || packetBuffer == old(packetBuffer) || fresh(packetBuffer)
    {
      hide Get32, SizeField, FixedField, R.Phase, FrameSize;
      r := ReadHeader();
      if r == R.Full {
        r := ReadFixedPart();
        if r == R.Full {
          r := ReadRest();
        }
      }
    }

    /** The body of the read callback: at most one packet. */
    method Read() returns (more: bool, emitted: seq<R.Signal>)
      requires Good() && io != null && HeadOk(Ahead())
      modifies this, packet, packetBuffer, pipe`taken, pipe`readCalls
      ensures Valid() && (model, more) == R.Read(old(model), pipe.data, pipe.reader)
      ensures model.signals == old(model.signals) + emitted
      ensures packetBuffer == null || packetBuffer == old(packetBuffer) || fresh(packetBuffer)
    {
      hide Get32, SizeField, FixedField, R.Fill, Decode, FrameSize, Frames, Batch.Summarize;
      Batch.FillShape(model, pipe.data, pipe.reader);
      var r := FillPacket();
      if r != R.Full { return r == R.Waiting, []; }
      WholeIsComplete();
      more, emitted := Dispatch();
    }

    /** False means that the main loop removes the read watch. */
    method ReadCallback(ready: bool) returns (again: bool, emitted: seq<R.Signal>)
      requires Good() && readWatch && HeadOk(Ahead())
      modifies this, packet, packetBuffer, pipe`taken, pipe`readCalls
      ensures Good() && model == R.Callback(old(model), ready, pipe.data, pipe.reader)
      ensures model.signals == old(model.signals) + emitted && again == model.open == (io != null)
      ensures !ready ==> !again && emitted == []
      ensures packetBuffer == null || packetBuffer == old(packetBuffer) || fresh(packetBuffer)
    {
      hide R.Read, Frames, Batch.Summarize, Complete, Get32, SizeField, FixedField;
      Batch.StepInv(model, R.DoRead(ready), pipe.data, pipe.reader);
      Batch.ReadKeeps(model, pipe.data, pipe.reader);
      again, emitted := false, [];
      if ready {
        again, emitted := Read();
      }
      if !again {
        Close();
      }
    }

    /* ---------- API ---------- */

    method Close()
      requires Valid()
      modifies this
      ensures Valid() && model == R.Close(old(model)) && packetBuffer == null
    {
      hide Get32;
      packetSize, packetFixedPart, packetRead, packetBuffer := 0, 0, 0, null;
      readWatch, io := false, null;
      model := R.Close(model);
    }

    method Pause()
      requires Good()
      modifies this`paused, this`readWatch, this`model
      ensures Good() && model == R.Pause(old(model))
    {
      hide Get32, SizeField, FixedField, Frames, Batch.Summarize, Complete;
      paused := paused + 1;
      readWatch := false;
      model := R.Pause(model);
    }

    /** The watch comes back exactly when the last pause is undone and the channel is still open. */
    method Resume()
      requires Good()
      modifies this`paused, this`readWatch, this`model
      ensures Good() && model == R.Resume(old(model))
      ensures readWatch == (io != null && paused == 0)
    {
      hide Get32, SizeField, FixedField, Frames, Batch.Summarize, Complete;
      if paused > 0 {
        paused := paused - 1;
        if paused == 0 && io != null {
          readWatch := true;
        }
      }
      model := R.Resume(model);
    }
  }
}
