/** The reader side's frame preparation, shared by both Rust servers (src/server.rs and
    src/main.rs): of the bytes one `read` returned, only those with value 32 or more are
    kept, in their original order. */
module Frames {
  import opened Utf8

  /** The bytes of `s` that are not control bytes, in order. */
  function Printable(s: seq<byte>): (r: seq<byte>)
    ensures |r| <= |s|
    ensures forall i :: 0 <= i < |r| ==> r[i] >= 32
    ensures (forall i :: 0 <= i < |s| ==> s[i] >= 32) ==> r == s
    decreases |s|
  {
    if s == [] then []
    else (if s[0] >= 32 then [s[0]] else []) + Printable(s[1..])
  }

  /** Filtering distributes over concatenation, so the filter keeps every printable byte
      of each part and drops every control byte. */
  lemma {:induction false} PrintableConcat(a: seq<byte>, b: seq<byte>)
    ensures Printable(a + b) == Printable(a) + Printable(b)
    decreases |a|
  {
    if a == [] {
      assert a + b == b;
    } else {
      assert (a + b)[1..] == a[1..] + b;
      PrintableConcat(a[1..], b);
    }
  }

  /** Filtering twice is filtering once. */
  lemma PrintableIdempotent(s: seq<byte>)
    ensures Printable(Printable(s)) == Printable(s)
  {
  }

  /** The reader's filter loop: it pushes each byte of the read that is not a control byte. */
  method FilterControl(read: seq<byte>) returns (bytes: seq<byte>)
    ensures bytes == Printable(read)
  {
    bytes := [];
    for i := 0 to |read|
      invariant bytes == Printable(read[..i])
    {
      PrintableConcat(read[..i], [read[i]]);
      assert read[..i + 1] == read[..i] + [read[i]];
      if read[i] >= 32 {
        bytes := bytes + [read[i]];
      }
    }
    assert read[..|read|] == read;
  }

  /** What one `read` leads the reader thread to do: forward an event and read again, send
      a last event and stop, or stop without telling the server anything (a panic, or an
      early `return Err`). */
  datatype ReaderStep<E> = Forward(event: E) | Hangup(event: E) | Die

  /** The result of one `read` on the socket: the bytes it returned (none at end of stream)
      or an I/O error. */
  datatype ReadResult = Received(data: seq<byte>) | ReadFailed
}
