/** What a non-blocking pipe may answer to the two ends that use it. */
module Channel {

  datatype Option<T> = None | Some(value: T)

  /** One write call: some bytes were taken (perhaps none), or the call failed. */
  datatype WriteAnswer = Took(n: nat) | WriteError

  /** One read call: some bytes (perhaps none), the end of the stream, or a failure. */
  datatype ReadAnswer = Got(n: nat) | EndOfStream | ReadError

  /** The answer to write call number `i` that offers `len` bytes. */
  type Writer = (nat, nat) -> WriteAnswer

  /** The answer to read call number `i` that asks for `len` bytes. */
  type Reader = (nat, nat) -> ReadAnswer

  function Min(a: nat, b: nat): nat { if a < b then a else b }

  /** The smallest PIPE_BUF that POSIX.1-2017 permits. */
  const PIPE_BUF: nat := 512

  /** POSIX.1-2017, write(): a non-blocking pipe takes a write of at most PIPE_BUF bytes whole or not at all. */
  ghost predicate AtomicSmallWrites(o: Writer)
  {
    forall i, len :: 0 < len <= PIPE_BUF && o(i, len).Took? ==> o(i, len).n == 0 || o(i, len).n >= len
  }

  ghost predicate TakesEverything(o: Writer)
  {
    forall i, len :: o(i, len).Took? && o(i, len).n >= len
  }

  ghost predicate NeverFails(o: Writer)
  {
    forall i, len :: o(i, len).Took?
  }

  /** Write call number `i` finds room for at least one byte. */
  ghost predicate Gives(o: Writer, i: nat)
  {
    forall len :: len > 0 ==> o(i, len).Took? && o(i, len).n > 0
  }

  /** No read call fails or ends the stream. */
  ghost predicate NeverEnds(o: Reader)
  {
    forall i, len :: o(i, len).Got?
  }

  /** Read call number `i` gets at least one byte if there is one. */
  ghost predicate Yields(o: Reader, i: nat)
  {
    forall len :: len > 0 ==> o(i, len).Got? && o(i, len).n > 0
  }
}
