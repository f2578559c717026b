/** The character sources and sinks the CharStreams operations work on:
    java.io.StringReader with the test doubles built on it (NonSkippingReader,
    the reader of newNonBufferFillingReader, the broken readers), and a
    StringWriter / StringBuilder sink with the broken writers. */
module Streams {
  import opened IoTypes

  /** How many chars fewer than requested the non-buffer-filling reader asks
      its delegate for. */
  const Shortfall: nat := 1024

  /** The java.io.Closeable side of a stream: whether close() has been
      called and how many times, and what close() throws. */
  class Closeable {
    const closeError: Option<IOError>
    var closed: bool
    var closeCount: nat

    constructor (closeError: Option<IOError>)
      ensures this.closeError == closeError && !closed && closeCount == 0
    {
      this.closeError := closeError;
      closed := false;
      closeCount := 0;
    }

    method Close() returns (e: Option<IOError>)
      modifies this`closed, this`closeCount
      ensures closed && closeCount == old(closeCount) + 1 && e == closeError
    {
      closed := true;
      closeCount := closeCount + 1;
      e := closeError;
    }
  }

  /** A reader over `text` whose cursor `pos` moves as it is read or skipped. */
  class Reader {
    const text: string
    const fault: Fault
    /** False for NonSkippingReader, whose skip always returns 0. */
    const skips: bool
    /** False for the reader of newNonBufferFillingReader, which asks its
        delegate for `Shortfall` chars fewer than it is asked for. */
    const fillsBuffer: bool
    var pos: nat
    /** Closing the reader; close() fails for the close-broken double. */
    const handle: Closeable

    ghost predicate Valid()
      reads this
    {
      pos <= |text|
    }

    /** What is left to read. */
    function Remaining(): string
      reads this
      requires Valid()
    {
      text[pos..]
    }

    constructor (text: string, fault: Fault, skips: bool, fillsBuffer: bool)
      ensures Valid() && pos == 0
      ensures this.text == text && this.fault == fault
      ensures this.skips == skips && this.fillsBuffer == fillsBuffer
      ensures fresh(handle) && !handle.closed && handle.closeCount == 0
      ensures handle.closeError == if fault == FailsOnClose then Some(BrokenCloseInput) else None
    {
      this.text := text;
      this.fault := fault;
      this.skips := skips;
      this.fillsBuffer := fillsBuffer;
      pos := 0;
      handle := new Closeable(if fault == FailsOnClose then Some(BrokenCloseInput) else None);
    }

    /** The length the reader passes on to StringReader.read when asked for `len` chars. */
    function Request(len: nat): nat
    {
      if fillsBuffer then len else if len > Shortfall then len - Shortfall else 0
    }

    /** Reader.read(): the next char, None at end of input. */
    method Read() returns (r: Result<Option<char>>)
      requires Valid()
      modifies this`pos
      ensures Valid()
      ensures fault == FailsOnUse ==> r == Err(BrokenRead) && pos == old(pos)
      ensures fault != FailsOnUse && old(pos) == |text| ==> r == Ok(None) && pos == old(pos)
      ensures fault != FailsOnUse && old(pos) < |text| ==>
                r == Ok(Some(text[old(pos)])) && pos == old(pos) + 1
    {
      if fault == FailsOnUse {
        return Err(BrokenRead);
      }
      if pos == |text| {
        return Ok(None);
      }
      r := Ok(Some(text[pos]));
      pos := pos + 1;
    }

    /** Reader.read(cbuf, off, len): fills buf[off..off + n] from the cursor
        and returns n, or -1 at end of input; the rest of buf is untouched. The non-buffer-filling double
        fails any request whose length is not positive, hence the second
        precondition. */
    method ReadInto(buf: array<char>, off: nat, len: nat) returns (r: Result<int>)
      requires Valid() && off + len <= buf.Length
      requires !fillsBuffer ==> len > 0
      modifies this`pos, buf
      ensures Valid()
      ensures fault == FailsOnUse ==> r == Err(BrokenRead)
      ensures fault != FailsOnUse ==> r == Ok(ReadCount(Request(len), |text| - old(pos)))
      ensures r.Ok? && r.value > 0 ==>
                pos == old(pos) + r.value && buf[off..off + r.value] == text[old(pos)..pos]
      ensures (r.Err? || r.value <= 0) ==> pos == old(pos)
      ensures forall i :: 0 <= i < buf.Length && !(off <= i < off + (if r.Ok? && r.value > 0 then r.value else 0))
                ==> buf[i] == old(buf[i])
    {
      if fault == FailsOnUse {
        return Err(BrokenRead);
      }
      var ask := Request(len);
      if ask == 0 {
        return Ok(0);
      }
      if pos == |text| {
        return Ok(-1);
      }
      var n := if ask < |text| - pos then ask else |text| - pos;
      for i := 0 to n
        invariant pos == old(pos)
        invariant buf[off..off + i] == text[pos..pos + i]
        invariant forall j :: 0 <= j < buf.Length && !(off <= j < off + i) ==> buf[j] == old(buf[j])
      {
        buf[off + i] := text[pos + i];
      }
      pos := pos + n;
      r := Ok(n);
    }

    /** Reader.skip(n): StringReader skips what is left up to n; the
        non-skipping double always answers 0. */
    method Skip(n: nat) returns (r: Result<nat>)
      requires Valid()
      modifies this`pos
      ensures Valid()
      ensures !skips ==> r == Ok(0) && pos == old(pos)
      ensures skips && fault == FailsOnUse && n > 0 ==> r == Err(BrokenRead) && pos == old(pos)
      ensures skips && (fault != FailsOnUse || n == 0) ==>
                r == Ok(Min(n, |text| - old(pos))) && pos == old(pos) + r.value
    {
      if !skips {
        return Ok(0);
      }
      if fault == FailsOnUse && n > 0 {
        return Err(BrokenRead);
      }
      var k := Min(n, |text| - pos);
      pos := pos + k;
      r := Ok(k);
    }
  }

  /** A writer (or StringBuilder) that accumulates what is appended to it. */
  class Writer {
    const fault: Fault
    var contents: string
    /** Closing the writer; close() fails for the close-broken double. */
    const handle: Closeable

    constructor (fault: Fault)
      ensures this.fault == fault && contents == []
      ensures fresh(handle) && !handle.closed && handle.closeCount == 0
      ensures handle.closeError == if fault == FailsOnClose then Some(BrokenCloseOutput) else None
    {
      this.fault := fault;
      contents := [];
      handle := new Closeable(if fault == FailsOnClose then Some(BrokenCloseOutput) else None);
    }

    /** Appendable.append(s). A broken writer fails on any non-empty write. */
    method Append(s: string) returns (e: Option<IOError>)
      modifies this`contents
      ensures fault == FailsOnUse && s != [] ==> e == Some(BrokenWrite) && contents == old(contents)
      ensures !(fault == FailsOnUse && s != []) ==> e == None && contents == old(contents) + s
    {
      if fault == FailsOnUse && s != [] {
        return Some(BrokenWrite);
      }
      contents := contents + s;
      e := None;
    }
  }

  function Min(a: nat, b: nat): nat
  {
    if a < b then a else b
  }

  /** What StringReader.read answers to a request of `ask` chars with
      `available` chars left: 0 for an empty request, -1 at end of input,
      otherwise as many as it can. */
  function ReadCount(ask: nat, available: nat): (n: int)
    ensures ask > 0 && available > 0 ==> 0 < n <= ask && n <= available
    ensures ask > 0 && available == 0 ==> n == -1
  {
    if ask == 0 then 0 else if available == 0 then -1 else Min(ask, available)
  }
}
