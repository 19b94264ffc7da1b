/** A sender object and a receiver object at the two ends of one pipe. */
module Connections {
  import opened Channel
  import opened Sequences
  import opened Wire
  import opened Pipes
  import opened Senders
  import opened Receivers
  import S = SenderSpec
  import SenderControl
  import opened SenderLedger
  import SenderStream
  import R = ReceiverSpec
  import Batch = ReceiverBatch
  import L = Link

  class Connection {
    const pipe: Pipe
    const sender: Sender
    const receiver: Receiver
    const backlog: int

    /** Everything that has happened at either end. */
    ghost var history: seq<L.Event>

    ghost function Kernel(): L.Kernel { L.Kernel(pipe.writer, pipe.reader) }

    ghost function System(): L.System
      reads sender, receiver
    {
      L.System(sender.model, receiver.model)
    }

    /** The two objects share the pipe and nothing else. */
    ghost predicate Ends()
      reads this, sender, sender.packet, receiver, receiver.packet, receiver.packetBuffer, pipe
    {
      && sender.pipe == receiver.pipe == pipe
      && sender.packet != receiver.packet && sender.packet != receiver.packetBuffer
      && sender.Good() && receiver.Good()
    }

    /** Both objects are sound, and together they are the state after a run in which no ping was torn. */
    ghost predicate Valid()
      reads this, sender, sender.packet, receiver, receiver.packet, receiver.packetBuffer, pipe
    {
      && Ends()
      && L.Run(backlog, history, Kernel()) == Some(System())
      && L.Untorn(backlog, history, Kernel())
    }

    constructor (writer: Writer, reader: Reader, backlog: int)
      ensures Valid() && history == []
      ensures pipe.writer == writer && pipe.reader == reader && this.backlog == backlog
    {
      var p := new Pipe(writer, reader);
      var s := new Sender(p, backlog);
      var r := new Receiver(p);
      pipe, sender, receiver, this.backlog, history := p, s, r, backlog, [];
    }

    /** The history with one more event. */
    lemma RunSnoc(e: L.Event)
      requires Valid() && L.Enabled(System(), e)
      requires e.AtSender? ==> !SenderStream.Tears(sender.model, e.s)
      ensures L.Linked(System()) && receiver.model.taken <= |sender.model.data|
      ensures L.Run(backlog, history + [e], Kernel()) == Some(L.Step(System(), e, Kernel()))
      ensures L.Untorn(backlog, history + [e], Kernel())
    {
      hide S.Step, R.Step, Ledger, SenderControl.Inv, SenderStream.Tears;
      L.RunKeeps(backlog, history, Kernel());
      assert Init(history + [e]) == history;
    }

    /** One call or callback of the sender. */
    method AtSender(e: S.Event)
      requires Valid() && S.Enabled(sender.model, e) && !SenderStream.Tears(sender.model, e)
      modifies this`history, sender, sender.packet, pipe`data, pipe`writeCalls
      ensures Valid() && history == old(history) + [L.AtSender(e)]
      ensures sender.model == S.Step(old(sender.model), e, pipe.writer) && receiver.model == old(receiver.model)
    {
      hide L.Run, L.Untorn, L.Linked;
      RunSnoc(L.AtSender(e));
      SenderCall(e);
      history := history + [L.AtSender(e)];
    }

    method SenderCall(e: S.Event)
      requires Ends() && S.Enabled(sender.model, e)
      modifies sender, sender.packet, pipe`data, pipe`writeCalls
      ensures Ends() && sender.model == S.Step(old(sender.model), e, pipe.writer)
    {
      hide Encode, PacketSize, FixedPart, SenderControl.Inv, S.Step, Batch.Parsed, Get32, SizeField, FixedField;
      ghost var before := pipe.data;
      Dispatch(e);
      assert pipe.data == before + pipe.data[|before|..];
      Batch.StreamGrows(receiver.model, before, pipe.data[|before|..]);
    }

    method Dispatch(e: S.Event)
      requires sender.Good() && sender.pipe == pipe && S.Enabled(sender.model, e)
      modifies sender, sender.packet, pipe`data, pipe`writeCalls
      ensures sender.Good() && sender.model == S.Step(old(sender.model), e, pipe.writer)
      ensures old(pipe.data) <= pipe.data
    {
      hide Encode, PacketSize, FixedPart, SenderControl.Inv, S.Write, S.ScheduleWrite;
      SenderControl.StepInv(sender.model, e, pipe.writer);
      match e {
        case DoSend(m) => sender.Send(m);
        case DoPing => var _ := sender.SendPing();
        case DoClose => sender.Close();
        case DoShutdown => sender.Shutdown(S.Aborted);
        case DoSetBacklog(b, keep) =>
          var limit := S.NormalizeBacklog(b);
          var shrunk := if limit < 0 || |sender.buffer| <= limit then sender.buffer else Select(sender.buffer, keep);
          sender.SetBacklog(b, keep, shrunk);
        case DoFire(w, out) => var _ := sender.WriteCallback(w, out);
        case DoInvoke => sender.ScheduleWriteInContext();
      }
    }

    /** One call or callback of the receiver. */
    method AtReceiver(e: R.Event)
      requires Valid() && R.Enabled(receiver.model, e)
      modifies this`history, receiver, receiver.packet, receiver.packetBuffer, pipe`taken, pipe`readCalls
      ensures Valid() && history == old(history) + [L.AtReceiver(e)]
      ensures receiver.model == R.Step(old(receiver.model), e, pipe.data, pipe.reader)
      ensures sender.model == old(sender.model)
    {
      hide L.Run, L.Untorn, L.Linked, R.Step, SenderControl.Inv, Batch.Inv, HeadOk;
      hide Get32, SizeField, FixedField, Encode;
      RunSnoc(L.AtReceiver(e));
      L.UntornIsHarmless(backlog, history, Kernel());
      L.HeadersAlwaysFit(backlog, history, Kernel());
      ReceiverCall(e);
      history := history + [L.AtReceiver(e)];
    }

    method ReceiverCall(e: R.Event)
      requires Ends() && R.Enabled(receiver.model, e)
      requires receiver.model.open ==> HeadOk(receiver.Ahead())
      modifies receiver, receiver.packet, receiver.packetBuffer, pipe`taken, pipe`readCalls
      ensures Ends() && receiver.model == R.Step(old(receiver.model), e, pipe.data, pipe.reader)
    {
      hide Encode, PacketSize, FixedPart, SenderControl.Inv, R.Callback, Batch.Parsed, HeadOk;
      hide Get32, SizeField, FixedField;
      Batch.StepInv(receiver.model, e, pipe.data, pipe.reader);
      match e {
        case DoRead(ready) => var _, _ := receiver.ReadCallback(ready);
        case DoPause => receiver.Pause();
        case DoResume => receiver.Resume();
        case DoClose => receiver.Close();
      }
    }

    /** Whatever the two objects have done: what the receiver has signalled is a prefix of what the
        sender has put in flight, which is an in-order part of what it was offered. */
    lemma Delivers()
      requires Valid()
      ensures L.Received(receiver.model.signals) <= Messages(sender.model.started)
      ensures Subseq(Messages(sender.model.started), sender.model.offered)
    {
      hide L.Run, L.Untorn, Ends;
      L.UntornIsHarmless(backlog, history, Kernel());
      L.EndToEnd(backlog, history, Kernel());
    }
  }
}
