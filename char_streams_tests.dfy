/** The concrete runs of CharStreamsTest, played against the model: each
    method builds the test's readers, writers and suppliers, performs the
    test's calls, and its postcondition states what the test asserts. */
module CharStreamsTests {
  import opened IoTypes
  import opened Streams
  import opened CharStreams
  import opened Closing
  import opened Suppliers

  const Text: string := "The quick brown fox jumped over the lazy dog."

  /** The text of the readLines tests. */
  const ABC: string := "a\nb\nc"

  /** testToString: toString of a StringReader and of a reader supplier. */
  method ToStringOfText() returns (direct: Result<string>, supplied: Outcome<string>)
    ensures direct == Ok(Text) && supplied == Completed(Text)
  {
    var reader := new Reader(Text, Sound, true, true);
    direct := ToString(reader);
    var supplier := new ReaderSupplier(Text, Sound);
    var log := new Log();
    supplied := ToStringSupplier(supplier, log, true);
  }

  /** testSkipFully_blockingRead: skipFully reaches 6 chars of "abcdef"
      through single-char reads although skip always answers 0, after
      which the reader is at end of input. */
  method SkipFullyBlockingRead() returns (e: Option<IOError>, next: Result<Option<char>>)
    ensures e == None && next == Ok(None)
  {
    var reader := new Reader("abcdef", Sound, false, true);
    e := SkipFully(reader, 6);
    next := reader.Read();
  }

  /** "a\nb\nc" splits into "a", "b" and "c": no empty line follows "c". */
  lemma LinesOfABC()
    ensures Lines(ABC) == ["a", "b", "c"]
  {
    var s1, s2, s3 := ABC, "b\nc", "c";
    assert s1 == "a" + "\n" + s2;
    SplitAtTerminator("a", s2);
    assert Lines(s1) == ["a"] + Lines(s2);
    assert s2 == "b" + "\n" + s3;
    SplitAtTerminator("b", s3);
    assert Lines(s2) == ["b"] + Lines(s3);
    LineEndAt(s3, 1);
    assert FirstLine(s3) == s3[..1] == "c";
    assert AfterFirstLine(s3) == [];
    assert Lines(s3) == ["c"] + Lines([]);
  }

  /** testReadLines_fromReadable. */
  method ReadLinesFromReadable() returns (lines: Result<seq<string>>)
    ensures lines == Ok(["a", "b", "c"])
  {
    var reader := new Reader(ABC, Sound, true, true);
    LinesOfABC();
    lines := ReadLines(reader);
  }

  /** What each processor of testReadLines_withLineProcessor makes of
      "a\nb\nc": the always-false one is fed 1 line, the always-true one
      all 3, and the conditional one the first 2. */
  lemma ProcessedABC()
    ensures ProcessOutcome(ABC, Sound, Answer(AlwaysStop), 0, true) == Completed(1)
    ensures ProcessOutcome(ABC, Sound, Answer(AlwaysContinue), 0, true) == Completed(3)
    ensures ProcessOutcome(ABC, Sound, Answer(ContinueWhileBelow(2)), 0, true) == Completed(2)
    ensures Kept(true, Lines(ABC)[..Fed(Lines(ABC), Answer(ContinueWhileBelow(2)), 0)]) == "ab"
  {
    FedABC();
    assert ProcessedCount(ABC, Answer(AlwaysStop), 0) == 1;
    assert ProcessedCount(ABC, Answer(AlwaysContinue), 0) == 3;
    assert ProcessedCount(ABC, Answer(ContinueWhileBelow(2)), 0) == 2;
    LinesOfABC();
    assert ["a", "b", "c"][..2] == ["a", "b"];
    assert Concat(["a", "b"]) == Concat(["a"]) + "b" == "ab";
  }

  /** The lines of "a\nb\nc" fed to each processor of the test. */
  lemma FedABC()
    ensures Fed(Lines(ABC), Answer(AlwaysStop), 0) == 1
    ensures Fed(Lines(ABC), Answer(AlwaysContinue), 0) == 3
    ensures Fed(Lines(ABC), Answer(ContinueWhileBelow(2)), 0) == 2
  {
    LinesOfABC();
    FedCount(Lines(ABC), AlwaysStop, 0);
    FedCount(Lines(ABC), AlwaysContinue, 0);
    FedCount(Lines(ABC), ContinueWhileBelow(2), 0);
  }

  /** testReadLines_withLineProcessor: one supplier, re-opened from the
      start by each call; the always-false processor sees 1 line, the
      always-true one all 3, and the conditional one the first 2, "a" and
      "b". */
  method ReadLinesWithProcessors() returns (alwaysFalse: Outcome<nat>, alwaysTrue: Outcome<nat>,
                                            conditional: Outcome<nat>, sb: string)
    ensures alwaysFalse == Completed(1) && alwaysTrue == Completed(3) && conditional == Completed(2)
    ensures sb == "ab"
  {
    var r := new ReaderSupplier(ABC, Sound);
    var log := new Log();
    ProcessedABC();
    var p1 := new CountingProcessor(Answer(AlwaysStop), false);
    alwaysFalse := ProcessSupplier(r, p1, log, true);
    var p2 := new CountingProcessor(Answer(AlwaysContinue), false);
    alwaysTrue := ProcessSupplier(r, p2, log, true);
    var p3 := new CountingProcessor(Answer(ContinueWhileBelow(2)), true);
    conditional := ProcessSupplier(r, p3, log, true);
    sb := p3.collected;
  }

  /** testAlwaysCloses, copies from the good reader supplier: to the good
      writer supplier the text arrives whole, to the broken one the write's
      error is thrown; either way everything opened is closed. */
  method AlwaysClosesCopyFromGood(suppressing: bool)
    returns (okRead: ReaderSupplier, okWrite: WriterSupplier, brokenWrite: WriterSupplier,
             copies: seq<Outcome<nat>>)
    ensures copies == [Completed(|Text|), Threw(Failure(BrokenWrite, []))]
    ensures okRead.AreClosed() && okWrite.AreClosed() && brokenWrite.AreClosed()
  {
    okRead := new ReaderSupplier(Text, Sound);
    okWrite := new WriterSupplier(Sound);
    brokenWrite := new WriterSupplier(FailsOnUse);
    var log := new Log();
    var c1 := CopySuppliers(okRead, okWrite, log, suppressing);
    assert c1 == Completed(|Text|);
    var c2 := CopySuppliers(okRead, brokenWrite, log, suppressing);
    copies := [c1, c2];
  }

  /** testAlwaysCloses, copies from the broken reader supplier: the read's
      error is thrown whether the writer supplier is good or broken, and
      everything opened is closed. */
  method AlwaysClosesCopyFromBroken(suppressing: bool)
    returns (brokenRead: ReaderSupplier, okWrite: WriterSupplier, brokenWrite: WriterSupplier,
             copies: seq<Outcome<nat>>)
    ensures copies == [Threw(Failure(BrokenRead, [])), Threw(Failure(BrokenRead, []))]
    ensures brokenRead.AreClosed() && okWrite.AreClosed() && brokenWrite.AreClosed()
  {
    brokenRead := new ReaderSupplier(Text, FailsOnUse);
    okWrite := new WriterSupplier(Sound);
    brokenWrite := new WriterSupplier(FailsOnUse);
    var log := new Log();
    var c3 := CopySuppliers(brokenRead, okWrite, log, suppressing);
    assert c3 == Threw(Failure(BrokenRead, []));
    var c4 := CopySuppliers(brokenRead, brokenWrite, log, suppressing);
    copies := [c3, c4];
  }

  /** testAlwaysCloses, toString part: toString of a good and of a broken
      reader supplier closes the reader it opened. */
  method AlwaysClosesToString(suppressing: bool)
    returns (okRead: ReaderSupplier, brokenRead: ReaderSupplier, strings: seq<Outcome<string>>)
    ensures strings == [Completed(Text), Threw(Failure(BrokenRead, []))]
    ensures okRead.AreClosed() && brokenRead.AreClosed()
  {
    okRead := new ReaderSupplier(Text, Sound);
    brokenRead := new ReaderSupplier(Text, FailsOnUse);
    var log := new Log();
    var s1 := ToStringSupplier(okRead, log, suppressing);
    assert s1 == Completed(Text);
    var s2 := ToStringSupplier(brokenRead, log, suppressing);
    strings := [s1, s2];
  }

  /** testAlwaysCloses, write part: write to a broken writer supplier
      throws the write's error and closes the writer. */
  method AlwaysClosesWrite(suppressing: bool) returns (brokenWrite: WriterSupplier, written: Outcome<()>)
    ensures written == Threw(Failure(BrokenWrite, []))
    ensures brokenWrite.AreClosed()
  {
    brokenWrite := new WriterSupplier(FailsOnUse);
    var log := new Log();
    written := WriteSupplier("hello world", brokenWrite, log, suppressing);
  }

  /** testSkipFully_EOF: 6 chars cannot be skipped in "abcde". */
  method SkipFullyPastEnd() returns (e: Option<IOError>)
    ensures e == Some(EndOfFile)
  {
    var reader := new Reader("abcde", Sound, true, true);
    e := SkipFully(reader, 6);
  }

  /** testSkipFully: reads and skips interleave over "abcdef". */
  method SkipFullyInterleaved() returns (chars: seq<Result<Option<char>>>, skips: seq<Option<IOError>>)
    ensures chars == [Ok(Some('a')), Ok(Some('c')), Ok(Some('f')), Ok(None)]
    ensures skips == [None, None]
  {
    var reader := new Reader("abcdef", Sound, true, true);
    var r1 := reader.Read();
    var s1 := SkipFully(reader, 1);
    var r2 := reader.Read();
    var s2 := SkipFully(reader, 2);
    var r3 := reader.Read();
    var r4 := reader.Read();
    chars, skips := [r1, r2, r3, r4], [s1, s2];
  }

  /** testWriteString: write puts exactly the string into the writer. */
  method WriteString() returns (o: Outcome<()>, contents: string)
    ensures o == Completed(()) && contents == "foo"
  {
    var to := new WriterSupplier(Sound);
    var log := new Log();
    o := WriteSupplier("foo", to, log, true);
    contents := to.writers[|to.writers| - 1].contents;
  }

  /** `s` repeated n times. */
  function Repeat(s: string, n: nat): (r: string)
    ensures |r| == n * |s|
  {
    if n == 0 then [] else s + Repeat(s, n - 1)
  }

  /** testCopyWithReaderThatDoesNotFillBuffer: the reader asks its delegate
      for 1024 chars fewer than requested, yet copy moves all 1000 chars
      and never issues an empty request. */
  method CopyWithReaderThatDoesNotFillBuffer() returns (copied: Result<nat>, contents: string)
    ensures copied == Ok(1000) && contents == Repeat("0123456789", 100)
  {
    var s := Repeat("0123456789", 100);
    var reader := new Reader(s, Sound, true, false);
    var b := new Writer(Sound);
    copied := Copy(reader, b);
    contents := b.contents;
  }
}
