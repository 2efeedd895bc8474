/** The incremental scan for the blank line that ends a block of HTTP headers. The
    reader may deliver the stream in any pieces; the scan only peeks. */
module HeaderScan {

  const MAX_HEADER_BYTES := 64 * 1024
  const BUFFER_SIZE := MAX_HEADER_BYTES + 1

  /** Why the connection delivers no more. */
  datatype Failure = EndOfStream | Broken

  datatype Result = Found | TooLarge | ReadError(failure: Failure)

  /** The bytes the connection delivers before it fails or ends; `buffered` of them
      have arrived. */
  class Reader {
    const stream: seq<char>
    const failure: Failure
    var buffered: nat

    ghost predicate Valid()
      reads this
    {
      buffered <= |stream| && buffered <= BUFFER_SIZE
    }

    constructor (stream: seq<char>, failure: Failure, buffered: nat)
      requires buffered <= |stream| && buffered <= BUFFER_SIZE
      ensures Valid() && this.stream == stream && this.failure == failure
    {
      this.stream, this.failure, this.buffered := stream, failure, buffered;
    }

    /** Waits for `n` bytes. The reads it takes may bring more than that; when the
        stream is shorter, they bring all of it and then the error. */
    method Peek(n: nat) returns (ok: bool)
      requires Valid() && n <= BUFFER_SIZE
      modifies this`buffered
      ensures Valid() && old(buffered) <= buffered && (ok <==> n <= |stream|) && (ok ==> n <= buffered)
    {
      while buffered < n && buffered < |stream|
        invariant Valid() && old(buffered) <= buffered
        decreases |stream| - buffered
      {
        var read: int := *;
        var room := if |stream| < BUFFER_SIZE then |stream| else BUFFER_SIZE;
        buffered := if buffered < read <= room then read else buffered + 1;
      }
      ok := n <= buffered;
    }
  }

  /** A line of nothing, or of a lone carriage return, ends at `i`. */
  predicate BlankLineEndsAt(s: seq<char>, i: nat)
    requires i < |s|
  {
    s[i] == '\n' && (i == 0 || s[i - 1] == '\n' || (s[i - 1] == '\r' && (i == 1 || s[i - 2] == '\n')))
  }

  predicate NoBlankLine(s: seq<char>, n: nat)
    requires n <= |s|
  {
    forall i :: 0 <= i < n ==> !BlankLineEndsAt(s, i)
  }

  /** Found exactly when a blank line ends within the limit; too large exactly when
      the limit arrives without one; otherwise the reader's own error. */
  function Outcome(s: seq<char>, failure: Failure): Result {
    if exists i :: 0 <= i < |s| && i < 65_536 && BlankLineEndsAt(s, i) then Found
    else if |s| >= 65_536 then TooLarge
    else ReadError(failure)
  }

  /** `start` is where the line that position `i` is on begins. */
  predicate LineStartsAt(s: seq<char>, i: nat, start: nat)
    requires i <= |s|
  {
    && start <= i && (start == 0 || s[start - 1] == '\n')
    && (forall j :: start <= j < i ==> s[j] != '\n')
  }

  /** The test at a line feed, in terms of the current line, is the definition. */
  lemma LineTest(s: seq<char>, i: nat, start: nat)
    requires i < |s| && s[i] == '\n' && LineStartsAt(s, i, start)
    ensures BlankLineEndsAt(s, i) <==> i == start || (i == start + 1 && s[start] == '\r')
  {
    if i > start {
      assert s[i - 1] != '\n';
    }
    if i > start + 1 {
      assert s[i - 2] != '\n';
    }
  }

  /** The answer depends on the stream alone, however it is cut into reads, and the
      reader keeps every byte. */
  method PeekHTTPHeaders(reader: Reader) returns (r: Result)
    requires reader.Valid()
    modifies reader`buffered
    ensures reader.Valid() && r == Outcome(reader.stream, reader.failure)
  {
    var s := reader.stream;
    var scanned, lineStart: nat := 0, 0;
    while scanned < MAX_HEADER_BYTES
      invariant reader.Valid() && scanned <= MAX_HEADER_BYTES && scanned <= |s|
      invariant LineStartsAt(s, scanned, lineStart) && NoBlankLine(s, scanned)
      decreases MAX_HEADER_BYTES - scanned
    {
      var ok := reader.Peek(scanned + 1);
      if !ok {
        return ReadError(reader.failure);
      }
      var available := reader.buffered;
      if available > MAX_HEADER_BYTES {
        available := MAX_HEADER_BYTES;
      }
      for i := scanned to available
        invariant reader.Valid() && LineStartsAt(s, i, lineStart) && NoBlankLine(s, i)
      {
        if s[i] == '\n' {
          LineTest(s, i, lineStart);
          if i == lineStart || (i == lineStart + 1 && s[lineStart] == '\r') {
            return Found;
          }
          lineStart := i + 1;
        }
      }
      scanned := available;
    }
    r := TooLarge;
  }

  /** More bytes never change an answer that was reached; only a read error may
      turn into one. */
  lemma MoreBytesSameAnswer(s: seq<char>, more: seq<char>, f: Failure, g: Failure)
    requires !Outcome(s, f).ReadError?
    ensures Outcome(s + more, g) == Outcome(s, f)
  {
    var t := s + more;
    forall i | 0 <= i < |s| ensures BlankLineEndsAt(t, i) <==> BlankLineEndsAt(s, i) {
      assert t[i] == s[i];
    }
  }
}
