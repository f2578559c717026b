/** The supplier-level operations of CharStreams: copy(InputSupplier,
    OutputSupplier), toString(InputSupplier), write(CharSequence,
    OutputSupplier) and the two readLines(InputSupplier, ...). Each opens
    its streams from suppliers, registers them with a Closer, runs the
    reader-level operation inside try/catch/finally, rethrows what the body
    threw and closes everything in the finally block. */
module Suppliers {
  import opened IoTypes
  import opened Streams
  import opened CharStreams
  import opened Closing

  /** An InputSupplier<Reader> that opens a fresh reader over `text` on every
      call, wrapped as CheckCloseSupplier.Input: it remembers what it handed
      out so that areClosed() can tell whether all of it was closed. */
  class ReaderSupplier {
    const text: string
    const fault: Fault
    var handedOut: seq<Closeable>

    constructor (text: string, fault: Fault)
      ensures this.text == text && this.fault == fault && handedOut == []
    {
      this.text := text;
      this.fault := fault;
      handedOut := [];
    }

    /** areClosed(): every reader handed out has been closed. */
    ghost predicate AreClosed()
      reads this, handedOut
    {
      forall i :: 0 <= i < |handedOut| ==> handedOut[i].closed
    }

    /** getInput(): a broken-at-acquisition supplier throws; the others hand
        out a fresh reader positioned at the start of the text. */
    method GetInput() returns (r: Result<Reader>)
      modifies this`handedOut
      ensures fault == FailsOnOpen ==> r == Err(BrokenGetInput) && handedOut == old(handedOut)
      ensures fault != FailsOnOpen ==>
                && r.Ok? && fresh(r.value) && fresh(r.value.handle)
                && r.value.Valid() && r.value.Remaining() == text && r.value.fault == fault
                && r.value.skips && r.value.fillsBuffer && !r.value.handle.closed && r.value.handle.closeCount == 0
                && r.value.handle.closeError == (if fault == FailsOnClose then Some(BrokenCloseInput) else None)
                && handedOut == old(handedOut) + [r.value.handle]
    {
      if fault == FailsOnOpen {
        return Err(BrokenGetInput);
      }
      var reader := new Reader(text, fault, true, true);
      handedOut := handedOut + [reader.handle];
      r := Ok(reader);
    }
  }

  /** An OutputSupplier<Writer> that opens a fresh writer on every call,
      wrapped as CheckCloseSupplier.Output. */
  class WriterSupplier {
    const fault: Fault
    var handedOut: seq<Closeable>
    /** The writers handed out, in order; `handedOut` holds their handles. */
    var writers: seq<Writer>

    constructor (fault: Fault)
      ensures this.fault == fault && handedOut == [] && writers == []
    {
      this.fault := fault;
      handedOut := [];
      writers := [];
    }

    /** areClosed(): every writer handed out has been closed. */
    ghost predicate AreClosed()
      reads this, handedOut
    {
      forall i :: 0 <= i < |handedOut| ==> handedOut[i].closed
    }

    /** getOutput(): a broken-at-acquisition supplier throws; the others
        hand out a fresh, empty writer. */
    method GetOutput() returns (r: Result<Writer>)
      modifies this`handedOut, this`writers
      ensures fault == FailsOnOpen ==>
                r == Err(BrokenGetOutput) && handedOut == old(handedOut) && writers == old(writers)
      ensures fault != FailsOnOpen ==>
                && r.Ok? && fresh(r.value) && fresh(r.value.handle)
                && r.value.contents == [] && r.value.fault == fault && !r.value.handle.closed && r.value.handle.closeCount == 0
                && r.value.handle.closeError == (if fault == FailsOnClose then Some(BrokenCloseOutput) else None)
                && handedOut == old(handedOut) + [r.value.handle] && writers == old(writers) + [r.value]
    {
      if fault == FailsOnOpen {
        return Err(BrokenGetOutput);
      }
      var writer := new Writer(fault);
      handedOut := handedOut + [writer.handle];
      writers := writers + [writer];
      r := Ok(writer);
    }
  }

  // ------------------------------------------- try / catch / finally closer

  /** What close() of an input or output stream with this fault throws. */
  function InputCloseErrors(f: Fault): seq<IOError>
  {
    if f == FailsOnClose then [BrokenCloseInput] else []
  }

  function OutputCloseErrors(f: Fault): seq<IOError>
  {
    if f == FailsOnClose then [BrokenCloseOutput] else []
  }

  /** The exception the body rethrew through the Closer, if any. */
  function Rethrown<T>(body: Result<T>): Option<IOError>
  {
    if body.Err? then Some(body.error) else None
  }

  /** How a Closer-guarded call ends, given what the body ended with and
      what closing the registered streams threw, in closing order. */
  function Settled<T>(body: Result<T>, closeErrors: seq<IOError>, suppressing: bool): Outcome<T>
  {
    var thrown := Rethrown(body);
    var primary := Primary(thrown, closeErrors);
    if primary.Some? then Threw(Failure(primary.value, if suppressing then Losers(thrown, closeErrors) else []))
    else Completed(body.value)
  }

  /** The log records such a call adds to the Closeables logger. */
  function Logged<T>(body: Result<T>, closeErrors: seq<IOError>, suppressing: bool): seq<IOError>
  {
    if suppressing then [] else Losers(Rethrown(body), closeErrors)
  }

  /** The body's failure takes precedence over every close failure; with a
      successful body the first close failure is thrown; and the call
      completes only when neither the body nor any close failed, with the
      body's value. */
  lemma SettledPrecedence<T>(body: Result<T>, closeErrors: seq<IOError>, suppressing: bool)
    ensures body.Err? ==> Settled(body, closeErrors, suppressing).Threw?
                          && Settled(body, closeErrors, suppressing).failure.primary == body.error
    ensures body.Ok? && closeErrors != [] ==>
              Settled(body, closeErrors, suppressing) == Threw(Failure(closeErrors[0],
                if suppressing then closeErrors[1..] else []))
    ensures Settled(body, closeErrors, suppressing).Completed? <==> body.Ok? && closeErrors == []
    ensures Settled(body, closeErrors, suppressing).Completed? ==>
              Settled(body, closeErrors, suppressing).value == body.value
  {
  }

  /** Every failure of the call is accounted for exactly once: one is
      thrown, and each of the others is suppressed on it or logged. */
  lemma SettledAccounting<T>(body: Result<T>, closeErrors: seq<IOError>, suppressing: bool)
    ensures var o, logged := Settled(body, closeErrors, suppressing), Logged(body, closeErrors, suppressing);
            var failures := |closeErrors| + (if body.Err? then 1 else 0);
            && (o.Threw? ==> 1 + |o.failure.suppressed| + |logged| == failures)
            && (o.Completed? ==> failures == 0 && logged == [])
            && (suppressing ==> logged == [])
            && (!suppressing && o.Threw? ==> o.failure.suppressed == [])
  {
  }

  /** The first registered of a Closer's stack, if any. */
  function Bottom(stack: seq<Closeable>): (b: seq<Closeable>)
    ensures |b| <= 1 && (b == [] <==> stack == [])
    ensures b != [] ==> b[0] == stack[|stack| - 1]
  {
    if stack == [] then [] else [stack[|stack| - 1]]
  }

  /** Registering c puts its close errors first in closing order. */
  lemma CloseErrorsPush(c: Closeable, hs: seq<Closeable>)
    ensures CloseErrors([c] + hs) == Errors(c) + CloseErrors(hs)
  {
    assert ([c] + hs)[1..] == hs;
  }

  /** closer.register(supplier.getInput()): the new reader's handle goes
      on top of the Closer's stack. */
  method OpenInput(from: ReaderSupplier, closer: Closer) returns (r: Result<Reader>)
    modifies from`handedOut, closer`stack
    ensures from.fault == FailsOnOpen ==>
              && r == Err(BrokenGetInput)
              && closer.stack == old(closer.stack) && from.handedOut == old(from.handedOut)
    ensures from.fault != FailsOnOpen ==>
              && r.Ok? && fresh(r.value) && fresh(r.value.handle)
              && r.value.Valid() && r.value.Remaining() == from.text && r.value.fault == from.fault
              && r.value.skips && r.value.fillsBuffer
              && closer.stack == [r.value.handle] + old(closer.stack)
              && CloseErrors(closer.stack) == InputCloseErrors(from.fault) + CloseErrors(old(closer.stack))
              && from.handedOut == old(from.handedOut) + [r.value.handle]
  {
    r := from.GetInput();
    if r.Ok? {
      closer.Register(r.value.handle);
      CloseErrorsPush(r.value.handle, old(closer.stack));
    }
  }

  /** closer.register(supplier.getOutput()). */
  method OpenOutput(to: WriterSupplier, closer: Closer) returns (r: Result<Writer>)
    modifies to`handedOut, to`writers, closer`stack
    ensures to.fault == FailsOnOpen ==>
              && r == Err(BrokenGetOutput) && closer.stack == old(closer.stack)
              && to.handedOut == old(to.handedOut) && to.writers == old(to.writers)
    ensures to.fault != FailsOnOpen ==>
              && r.Ok? && fresh(r.value) && fresh(r.value.handle)
              && r.value.contents == [] && r.value.fault == to.fault
              && closer.stack == [r.value.handle] + old(closer.stack)
              && CloseErrors(closer.stack) == OutputCloseErrors(to.fault) + CloseErrors(old(closer.stack))
              && to.handedOut == old(to.handedOut) + [r.value.handle]
              && to.writers == old(to.writers) + [r.value]
  {
    r := to.GetOutput();
    if r.Ok? {
      closer.Register(r.value.handle);
      CloseErrorsPush(r.value.handle, old(closer.stack));
    }
  }

  /** The catch and finally blocks: rethrow(e) when the body threw e,
      then close() the Closer. The call ends as Settled says and adds what
      Logged says to the log; every registered stream ends up closed, once
      for each time it was registered. */
  method Finish<T>(closer: Closer, body: Result<T>) returns (o: Outcome<T>)
    requires closer.thrown == None
    modifies closer`stack, closer`thrown, closer.log`records, closer.stack`closed, closer.stack`closeCount
    ensures forall i :: 0 <= i < |old(closer.stack)| ==> old(closer.stack)[i].closed
    ensures forall c :: c in old(closer.stack) ==> c.closeCount == old(c.closeCount) + multiset(old(closer.stack))[c]
    ensures o == Settled(body, CloseErrors(old(closer.stack)), closer.suppressing)
    ensures closer.log.records
            == old(closer.log.records) + Logged(body, CloseErrors(old(closer.stack)), closer.suppressing)
  {
    if body.Err? {
      closer.Rethrow(body.error);
    }
    var f := closer.Close();
    o := if f.Some? then Threw(f.value) else Completed(body.value);
  }

  /** The close errors of an operation that only opens an input. */
  function InputOnlyCloseErrors(inFault: Fault): seq<IOError>
  {
    if inFault == FailsOnOpen then [] else InputCloseErrors(inFault)
  }

  /** The body of an operation that opens its input and then reads all of
      it: the failure to open, the failure to read, or the value. */
  function ReadingBody<T>(inFault: Fault, value: T): Result<T>
  {
    if inFault == FailsOnOpen then Err(BrokenGetInput)
    else if inFault == FailsOnUse then Err(BrokenRead)
    else Ok(value)
  }

  // ------------------------------------------------------------------ copy

  /** The body of copy(InputSupplier, OutputSupplier): open the input, open
      the output, then copy between them. */
  function CopyBody(text: string, inFault: Fault, outFault: Fault): Result<nat>
  {
    if inFault == FailsOnOpen then Err(BrokenGetInput)
    else if outFault == FailsOnOpen then Err(BrokenGetOutput)
    else TransferResult(text, inFault, outFault)
  }

  /** The close errors of copy, in closing order: the output (registered
      last) before the input; a stream that was never opened is not closed. */
  function CopyCloseErrors(inFault: Fault, outFault: Fault): seq<IOError>
  {
    if inFault == FailsOnOpen then []
    else if outFault == FailsOnOpen then InputCloseErrors(inFault)
    else OutputCloseErrors(outFault) + InputCloseErrors(inFault)
  }

  function CopyOutcome(text: string, inFault: Fault, outFault: Fault, suppressing: bool): Outcome<nat>
  {
    Settled(CopyBody(text, inFault, outFault), CopyCloseErrors(inFault, outFault), suppressing)
  }

  function CopyLogged(text: string, inFault: Fault, outFault: Fault, suppressing: bool): seq<IOError>
  {
    Logged(CopyBody(text, inFault, outFault), CopyCloseErrors(inFault, outFault), suppressing)
  }

  /** The try block of copy(InputSupplier, OutputSupplier): opens and
      registers the reader, then the writer, and copies. The reader lies at
      the bottom of the Closer's stack and the writer above it. */
  method TryCopy(from: ReaderSupplier, to: WriterSupplier, closer: Closer) returns (body: Result<nat>)
    requires closer.stack == []
    modifies from`handedOut, to`handedOut, to`writers, closer`stack
    ensures body == CopyBody(from.text, from.fault, to.fault)
    ensures CloseErrors(closer.stack) == CopyCloseErrors(from.fault, to.fault)
    ensures fresh(set c | c in closer.stack)
    ensures closer.stack == [] <==> from.fault == FailsOnOpen
    ensures |closer.stack| == 2 <==> from.fault != FailsOnOpen && to.fault != FailsOnOpen
    ensures |closer.stack| <= 2
    ensures from.handedOut == old(from.handedOut) + Bottom(closer.stack)
    ensures |closer.stack| < 2 ==> to.handedOut == old(to.handedOut) && to.writers == old(to.writers)
    ensures |closer.stack| == 2 ==>
              && to.handedOut == old(to.handedOut) + [closer.stack[0]]
              && |to.writers| == |old(to.writers)| + 1
              && (body.Ok? ==> to.writers[|to.writers| - 1].contents == from.text)
  {
    var input := OpenInput(from, closer);
    if input.Err? {
      return Err(input.error);
    }
    var output := OpenOutput(to, closer);
    if output.Err? {
      return Err(output.error);
    }
    body := Copy(input.value, output.value);
  }

  /** copy(InputSupplier, OutputSupplier). Everything acquired is closed,
      whatever fails; the output is not even asked for when the input
      could not be opened; on success the new writer holds the text. */
  method CopySuppliers(from: ReaderSupplier, to: WriterSupplier, log: Log, suppressing: bool)
    returns (o: Outcome<nat>)
    modifies from`handedOut, to`handedOut, to`writers, log`records
    ensures o == CopyOutcome(from.text, from.fault, to.fault, suppressing)
    ensures log.records == old(log.records) + CopyLogged(from.text, from.fault, to.fault, suppressing)
    ensures old(from.AreClosed()) ==> from.AreClosed()
    ensures old(to.AreClosed()) ==> to.AreClosed()
    ensures from.fault == FailsOnOpen ==> to.handedOut == old(to.handedOut)
    ensures o.Completed? ==> |to.writers| > 0 && to.writers[|to.writers| - 1].contents == from.text
  {
    var closer := new Closer(suppressing, log);
    var body := TryCopy(from, to, closer);
    ghost var registered := closer.stack;
    o := Finish(closer, body);
    assert from.handedOut == old(from.handedOut) + Bottom(registered);
    assert registered != [] ==> registered[|registered| - 1].closed;
    assert |registered| == 2 ==> registered[0].closed;
  }

  // -------------------------------------------------------------- toString

  function ToStringOutcome(text: string, inFault: Fault, suppressing: bool): Outcome<string>
  {
    Settled(ReadingBody(inFault, text), InputOnlyCloseErrors(inFault), suppressing)
  }

  /** The try block of toString(InputSupplier). */
  method TryToString(from: ReaderSupplier, closer: Closer) returns (body: Result<string>)
    requires closer.stack == []
    modifies from`handedOut, closer`stack
    ensures body == ReadingBody(from.fault, from.text)
    ensures CloseErrors(closer.stack) == InputOnlyCloseErrors(from.fault)
    ensures fresh(set c | c in closer.stack)
    ensures from.handedOut == old(from.handedOut) + closer.stack
  {
    var input := OpenInput(from, closer);
    if input.Err? {
      return Err(input.error);
    }
    body := ToString(input.value);
  }

  /** toString(InputSupplier): the whole text, with the reader closed. */
  method ToStringSupplier(from: ReaderSupplier, log: Log, suppressing: bool) returns (o: Outcome<string>)
    modifies from`handedOut, log`records
    ensures o == ToStringOutcome(from.text, from.fault, suppressing)
    ensures log.records == old(log.records)
              + Logged(ReadingBody(from.fault, from.text), InputOnlyCloseErrors(from.fault), suppressing)
    ensures old(from.AreClosed()) ==> from.AreClosed()
  {
    var closer := new Closer(suppressing, log);
    var body := TryToString(from, closer);
    ghost var registered := closer.stack;
    o := Finish(closer, body);
    assert from.handedOut == old(from.handedOut) + registered;
  }

  // ----------------------------------------------------------------- write

  /** The body of write(CharSequence, OutputSupplier): open the output and
      append the text to it; a broken writer fails on a non-empty text. */
  function WriteBody(text: string, outFault: Fault): Result<()>
  {
    if outFault == FailsOnOpen then Err(BrokenGetOutput)
    else if outFault == FailsOnUse && text != [] then Err(BrokenWrite)
    else Ok(())
  }

  function OutputOnlyCloseErrors(outFault: Fault): seq<IOError>
  {
    if outFault == FailsOnOpen then [] else OutputCloseErrors(outFault)
  }

  function WriteOutcome(text: string, outFault: Fault, suppressing: bool): Outcome<()>
  {
    Settled(WriteBody(text, outFault), OutputOnlyCloseErrors(outFault), suppressing)
  }

  /** The try block of write(CharSequence, OutputSupplier). */
  method TryWrite(text: string, to: WriterSupplier, closer: Closer) returns (body: Result<()>)
    requires closer.stack == []
    modifies to`handedOut, to`writers, closer`stack
    ensures body == WriteBody(text, to.fault)
    ensures CloseErrors(closer.stack) == OutputOnlyCloseErrors(to.fault)
    ensures fresh(set c | c in closer.stack)
    ensures to.handedOut == old(to.handedOut) + closer.stack
    ensures |to.writers| == |old(to.writers)| + |closer.stack|
    ensures body.Ok? ==> |to.writers| > 0 && to.writers[|to.writers| - 1].contents == text
  {
    var output := OpenOutput(to, closer);
    if output.Err? {
      return Err(output.error);
    }
    var e := output.value.Append(text);
    body := if e.Some? then Err(e.value) else Ok(());
  }

  /** write(CharSequence, OutputSupplier): on success the new writer holds
      exactly the text; the writer is closed in every case. */
  method WriteSupplier(text: string, to: WriterSupplier, log: Log, suppressing: bool) returns (o: Outcome<()>)
    modifies to`handedOut, to`writers, log`records
    ensures o == WriteOutcome(text, to.fault, suppressing)
    ensures log.records == old(log.records)
              + Logged(WriteBody(text, to.fault), OutputOnlyCloseErrors(to.fault), suppressing)
    ensures old(to.AreClosed()) ==> to.AreClosed()
    ensures o.Completed? ==> |to.writers| > 0 && to.writers[|to.writers| - 1].contents == text
  {
    var closer := new Closer(suppressing, log);
    var body := TryWrite(text, to, closer);
    ghost var registered := closer.stack;
    o := Finish(closer, body);
    assert to.handedOut == old(to.handedOut) + registered;
  }

  // ------------------------------------------------------------- readLines

  function ReadLinesOutcome(text: string, inFault: Fault, suppressing: bool): Outcome<seq<string>>
  {
    Settled(ReadingBody(inFault, Lines(text)), InputOnlyCloseErrors(inFault), suppressing)
  }

  /** The try block of readLines(InputSupplier). */
  method TryReadLines(from: ReaderSupplier, closer: Closer) returns (body: Result<seq<string>>)
    requires closer.stack == []
    modifies from`handedOut, closer`stack
    ensures body == ReadingBody(from.fault, Lines(from.text))
    ensures CloseErrors(closer.stack) == InputOnlyCloseErrors(from.fault)
    ensures fresh(set c | c in closer.stack)
    ensures from.handedOut == old(from.handedOut) + closer.stack
  {
    var input := OpenInput(from, closer);
    if input.Err? {
      return Err(input.error);
    }
    body := ReadLines(input.value);
  }

  /** readLines(InputSupplier): the lines of the text, with the reader closed. */
  method ReadLinesSupplier(from: ReaderSupplier, log: Log, suppressing: bool) returns (o: Outcome<seq<string>>)
    modifies from`handedOut, log`records
    ensures o == ReadLinesOutcome(from.text, from.fault, suppressing)
    ensures log.records == old(log.records)
              + Logged(ReadingBody(from.fault, Lines(from.text)), InputOnlyCloseErrors(from.fault), suppressing)
    ensures old(from.AreClosed()) ==> from.AreClosed()
  {
    var closer := new Closer(suppressing, log);
    var body := TryReadLines(from, closer);
    ghost var registered := closer.stack;
    o := Finish(closer, body);
    assert from.handedOut == old(from.handedOut) + registered;
  }

  /** What readLines(InputSupplier, LineProcessor) returns for a processor
      that has seen `seen` lines before: getResult() after the lines fed. */
  function ProcessedCount(text: string, answer: (nat, string) -> bool, seen: nat): nat
  {
    seen + Fed(Lines(text), answer, seen)
  }

  function ProcessOutcome(text: string, inFault: Fault, answer: (nat, string) -> bool, seen: nat, suppressing: bool): Outcome<nat>
  {
    Settled(ReadingBody(inFault, ProcessedCount(text, answer, seen)), InputOnlyCloseErrors(inFault), suppressing)
  }

  /** The try block of readLines(InputSupplier, LineProcessor). */
  method TryProcess(from: ReaderSupplier, processor: CountingProcessor, closer: Closer) returns (body: Result<nat>)
    requires closer.stack == []
    modifies from`handedOut, closer`stack, processor`seen, processor`collected
    ensures body == ReadingBody(from.fault, ProcessedCount(from.text, processor.answer, old(processor.seen)))
    ensures CloseErrors(closer.stack) == InputOnlyCloseErrors(from.fault)
    ensures fresh(set c | c in closer.stack)
    ensures from.handedOut == old(from.handedOut) + closer.stack
    ensures body.Ok? ==>
              var lines := Lines(from.text);
              processor.collected
              == old(processor.collected) + Kept(processor.keeps, lines[..Fed(lines, processor.answer, old(processor.seen))])
  {
    var input := OpenInput(from, closer);
    if input.Err? {
      return Err(input.error);
    }
    body := ReadLinesWith(input.value, processor);
  }

  /** readLines(InputSupplier, LineProcessor): the lines are fed in order
      until the processor answers false, and getResult() is returned; the
      reader is closed in every case. */
  method ProcessSupplier(from: ReaderSupplier, processor: CountingProcessor, log: Log, suppressing: bool)
    returns (o: Outcome<nat>)
    modifies from`handedOut, processor`seen, processor`collected, log`records
    ensures o == ProcessOutcome(from.text, from.fault, processor.answer, old(processor.seen), suppressing)
    ensures o.Completed? ==>
              var lines := Lines(from.text);
              processor.collected
              == old(processor.collected) + Kept(processor.keeps, lines[..Fed(lines, processor.answer, old(processor.seen))])
    ensures old(from.AreClosed()) ==> from.AreClosed()
  {
    var closer := new Closer(suppressing, log);
    var body := TryProcess(from, processor, closer);
    ghost var registered := closer.stack;
    o := Finish(closer, body);
    assert from.handedOut == old(from.handedOut) + registered;
  }

  // ------------------------------------------------- failures of copy

  /** A read failure wins over every later failure: whatever the output
      does once it is open, copy from a broken reader throws the read's
      error. A write failure alone is what copy throws for a sound reader,
      and nothing fails for a sound pair. */
  lemma CopyPrecedence(text: string, inFault: Fault, outFault: Fault, suppressing: bool)
    ensures outFault != FailsOnOpen ==>
              var o := CopyOutcome(text, FailsOnUse, outFault, suppressing);
              o.Threw? && o.failure.primary == BrokenRead
    ensures inFault != FailsOnOpen && inFault != FailsOnUse && text != [] ==>
              var o := CopyOutcome(text, inFault, FailsOnUse, suppressing);
              o.Threw? && o.failure.primary == BrokenWrite
    ensures CopyOutcome(text, Sound, Sound, suppressing) == Completed(|text|)
  {
    SettledPrecedence(CopyBody(text, FailsOnUse, outFault), CopyCloseErrors(FailsOnUse, outFault), suppressing);
    SettledPrecedence(CopyBody(text, inFault, FailsOnUse), CopyCloseErrors(inFault, FailsOnUse), suppressing);
  }

  /** The failures of a failed copy besides the thrown one: suppressed on
      it, or the records logged when suppression is unavailable. */
  function Secondary(text: string, inFault: Fault, outFault: Fault, suppressing: bool): nat
  {
    var o := CopyOutcome(text, inFault, outFault, suppressing);
    if suppressing then (if o.Threw? then |o.failure.suppressed| else 0)
    else |CopyLogged(text, inFault, outFault, suppressing)|
  }

  /** The counts of secondary failures for broken suppliers (every fault
      but Sound is one of the broken suppliers of the tests). Every such
      copy throws. A broken-at-write output fails only on a non-empty text,
      hence the guard on those rows. */
  lemma CopyFailureCounts(text: string, inFault: Fault, outFault: Fault, suppressing: bool)
    ensures inFault != Sound ==>
              CopyOutcome(text, inFault, Sound, suppressing).Threw?
              && Secondary(text, inFault, Sound, suppressing) == 0
    ensures inFault != Sound ==>
              CopyOutcome(text, inFault, FailsOnClose, suppressing).Threw?
              && Secondary(text, inFault, FailsOnClose, suppressing) == if inFault == FailsOnOpen then 0 else 1
    ensures outFault != Sound && (outFault == FailsOnUse ==> text != []) ==>
              CopyOutcome(text, Sound, outFault, suppressing).Threw?
              && Secondary(text, Sound, outFault, suppressing) == 0
    ensures outFault != Sound && (outFault == FailsOnUse ==> text != []) ==>
              CopyOutcome(text, FailsOnClose, outFault, suppressing).Threw?
              && Secondary(text, FailsOnClose, outFault, suppressing) == 1
    ensures inFault != Sound && outFault != Sound && (outFault == FailsOnUse ==> text != []) ==>
              CopyOutcome(text, inFault, outFault, suppressing).Threw?
              && Secondary(text, inFault, outFault, suppressing) <= 1
  {
  }
}
