/** The pipe between the two processes. Its kernel answers are arbitrary but fixed in advance. */
module Pipes {
  import opened Channel
  import opened Wire

  class Pipe {
    const writer: Writer
    const reader: Reader
    var data: seq<byte>       // everything ever taken from the writer
    var taken: nat            // how much of it the reader has got
    var writeCalls: nat
    var readCalls: nat

    constructor (writer: Writer, reader: Reader)
      ensures this.writer == writer && this.reader == reader
      ensures data == [] && taken == writeCalls == readCalls == 0
    {
      this.writer, this.reader := writer, reader;
      data, taken, writeCalls, readCalls := [], 0, 0, 0;
    }

    /** An unbuffered g_io_channel_write_chars. */
    method WriteChars(buf: seq<byte>) returns (n: nat, failed: bool)
      modifies this`data, this`writeCalls
      ensures writeCalls == old(writeCalls) + 1
      ensures match writer(old(writeCalls), |buf|)
        case WriteError => failed && n == 0 && data == old(data)
        case Took(k) => !failed && n == Min(k, |buf|) && data == old(data) + buf[..n]
    {
      var answer := writer(writeCalls, |buf|);
      writeCalls := writeCalls + 1;
      match answer {
        case WriteError => n, failed := 0, true;
        case Took(k) =>
          n, failed := Min(k, |buf|), false;
          data := data + buf[..n];
      }
    }

    /** An unbuffered g_io_channel_read_chars: at most `count` bytes, perhaps none. */
    method ReadChars(count: nat) returns (chunk: seq<byte>, failed: bool)
      requires taken <= |data|
      modifies this`taken, this`readCalls
      ensures readCalls == old(readCalls) + 1
      ensures match reader(old(readCalls), count)
        case Got(k) =>
          !failed && taken == old(taken) + Min(Min(k, count), |data| - old(taken)) && chunk == data[old(taken)..taken]
        case _ => failed && chunk == [] && taken == old(taken)
    {
      var answer := reader(readCalls, count);
      readCalls := readCalls + 1;
      match answer {
        case Got(k) =>
          var n := Min(Min(k, count), |data| - taken);
          chunk, failed := data[taken..taken + n], false;
          taken := taken + n;
        case _ => chunk, failed := [], true;
      }
    }
  }
}
