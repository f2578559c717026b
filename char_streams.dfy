/** The reader-level operations of CharStreams: copy from a reader to an
    appendable through a reusable CharBuffer, toString, skipFully, and the
    line-oriented reading behind readLines and LineProcessor. */
module CharStreams {
  import opened IoTypes
  import opened Streams

  /** Capacity of the scratch CharBuffer of copy: 0x800 chars. */
  const BufSize: nat := 0x800

  /** What copy(Readable, Appendable) ends with for a reader with `rest` left
      to read: a broken reader fails on its first read, a broken writer on
      the first chunk it is given, otherwise all of `rest` is transferred. */
  function TransferResult(rest: string, inFault: Fault, outFault: Fault): (r: Result<nat>)
  {
    if inFault == FailsOnUse then Err(BrokenRead)
    else if outFault == FailsOnUse && rest != [] then Err(BrokenWrite)
    else Ok(|rest|)
  }

  /** copy(Readable, Appendable): each cycle clears the buffer (so the whole
      capacity is requested again), reads into it, appends the filled part
      and adds it to the count, until the reader reports end of input. */
  method Copy(from: Reader, to: Writer) returns (r: Result<nat>)
    requires from.Valid()
    modifies from`pos, to`contents
    ensures from.Valid()
    ensures r == TransferResult(old(from.Remaining()), from.fault, to.fault)
    ensures r.Ok? ==> to.contents == old(to.contents) + old(from.Remaining()) && from.Remaining() == []
    ensures r.Err? ==> to.contents == old(to.contents)
  {
    var buf := new char[BufSize];
    var total: nat := 0;
    while true
      invariant from.Valid() && old(from.pos) <= from.pos
      invariant to.contents == old(to.contents) + from.text[old(from.pos)..from.pos]
      invariant total == from.pos - old(from.pos)
      invariant from.fault == FailsOnUse || to.fault == FailsOnUse ==> from.pos == old(from.pos)
      decreases |from.text| - from.pos
    {
      // clear(): position 0, limit at full capacity
      var position, limit := 0, buf.Length;
      assert from.Request(limit - position) > 0;
      var n := from.ReadInto(buf, position, limit - position);
      if n.Err? {
        return Err(n.error);
      }
      if n.value == -1 {
        break;
      }
      // flip(): the chars just read are buf[0..n]
      limit, position := position + n.value, 0;
      var e := to.Append(buf[position..limit]);
      if e.Some? {
        return Err(e.value);
      }
      total := total + (limit - position);
    }
    r := Ok(total);
  }

  /** toString(Readable): copies into a fresh StringBuilder and returns its text. */
  method ToString(from: Reader) returns (r: Result<string>)
    requires from.Valid()
    modifies from`pos
    ensures from.Valid()
    ensures r == if from.fault == FailsOnUse then Err(BrokenRead) else Ok(old(from.Remaining()))
  {
    var sb := new Writer(Sound);
    var c := Copy(from, sb);
    if c.Err? {
      return Err(c.error);
    }
    assert sb.contents == [] + old(from.Remaining()) == old(from.Remaining());
    r := Ok(sb.contents);
  }

  /** skipFully(reader, n): skips exactly n chars. When skip makes no
      progress a single char is read instead; end of input before n chars
      is an EOFException. */
  method SkipFully(reader: Reader, n: nat) returns (e: Option<IOError>)
    requires reader.Valid()
    modifies reader`pos
    ensures reader.Valid()
    ensures reader.fault == FailsOnUse && n > 0 ==> e == Some(BrokenRead)
    ensures reader.fault != FailsOnUse && old(reader.pos) + n <= |reader.text| ==>
              e == None && reader.pos == old(reader.pos) + n
    ensures reader.fault != FailsOnUse && old(reader.pos) + n > |reader.text| ==>
              e == Some(EndOfFile) && reader.pos == |reader.text|
  {
    var remaining := n;
    while remaining > 0
      invariant reader.Valid()
      invariant reader.pos + remaining == old(reader.pos) + n
      invariant reader.fault == FailsOnUse ==> remaining == n
      decreases remaining
    {
      var amt := reader.Skip(remaining);
      if amt.Err? {
        return Some(amt.error);
      }
      if amt.value == 0 {
        // force a blocking read
        var c := reader.Read();
        if c.Err? {
          return Some(c.error);
        }
        if c.value.None? {
          return Some(EndOfFile);
        }
        remaining := remaining - 1;
      } else {
        remaining := remaining - amt.value;
      }
    }
    e := None;
  }

  // ---------------------------------------------------------------- lines

  /** Index of the first line terminator of s, or |s| when there is none. */
  function LineEnd(s: string): (k: nat)
    ensures k <= |s|
  {
    if s == [] || s[0] == '\n' then 0 else 1 + LineEnd(s[1..])
  }

  /** LineEnd finds a terminator, if there is one, and no terminator comes before it. */
  lemma {:induction false} LineEndFacts(s: string)
    ensures LineEnd(s) < |s| ==> s[LineEnd(s)] == '\n'
    ensures forall i :: 0 <= i < LineEnd(s) ==> s[i] != '\n'
    decreases |s|
  {
    if s != [] && s[0] != '\n' {
      LineEndFacts(s[1..]);
      forall i | 0 <= i < LineEnd(s)
        ensures s[i] != '\n'
      {
        if i > 0 {
          assert s[i] == s[1..][i - 1];
        }
      }
    }
  }

  /** The converse: an index with a terminator, or the end, and none before it is LineEnd. */
  lemma LineEndAt(s: string, k: nat)
    requires k <= |s| && (k < |s| ==> s[k] == '\n')
    requires forall i :: 0 <= i < k ==> s[i] != '\n'
    ensures LineEnd(s) == k
  {
    LineEndFacts(s);
  }

  function FirstLine(s: string): string
  {
    s[..LineEnd(s)]
  }

  /** What follows the first line and its terminator. */
  function AfterFirstLine(s: string): (t: string)
    ensures s != [] ==> |t| < |s|
  {
    if LineEnd(s) < |s| then s[LineEnd(s) + 1..] else []
  }

  /** The lines of s as a line reader yields them: s split at each '\n',
      with no empty line after a final terminator. */
  function Lines(s: string): seq<string>
    decreases |s|
  {
    if s == [] then [] else [FirstLine(s)] + Lines(AfterFirstLine(s))
  }

  /** Each line followed by its terminator. */
  function Join(lines: seq<string>): string
  {
    if lines == [] then [] else lines[0] + "\n" + Join(lines[1..])
  }

  ghost predicate NoTerminators(lines: seq<string>)
  {
    forall i, j :: 0 <= i < |lines| && 0 <= j < |lines[i]| ==> lines[i][j] != '\n'
  }

  /** No line contains a terminator. */
  lemma {:induction false} LinesHaveNoTerminators(s: string)
    ensures NoTerminators(Lines(s))
    decreases |s|
  {
    if s != [] {
      var lines := Lines(AfterFirstLine(s));
      LinesHaveNoTerminators(AfterFirstLine(s));
      LineEndFacts(s);
      assert Lines(s) == [FirstLine(s)] + lines;
      forall i, j | 0 <= i < |Lines(s)| && 0 <= j < |Lines(s)[i]|
        ensures Lines(s)[i][j] != '\n'
      {
        if i > 0 {
          assert Lines(s)[i] == lines[i - 1];
        }
      }
    }
  }

  /** Splitting loses nothing: joining the lines gives back the text, with a
      terminator added only when the last line had none. */
  lemma {:induction false} JoinLines(s: string)
    ensures Join(Lines(s)) == if s == [] || s[|s| - 1] == '\n' then s else s + "\n"
    decreases |s|
  {
    if s != [] {
      var first, t := FirstLine(s), AfterFirstLine(s);
      assert Lines(s) == [first] + Lines(t);
      JoinCons(first, Lines(t));
      JoinLines(t);
      if LineEnd(s) < |s| {
        TerminatedSplit(s);
        JoinAfterTerminator(first, t);
      } else {
        LineEndFacts(s);
        assert first == s && t == [];
        assert s[|s| - 1] != '\n';
      }
    }
  }

  /** A text whose first line ends with a terminator is that line, the terminator and the rest. */
  lemma TerminatedSplit(s: string)
    requires LineEnd(s) < |s|
    ensures s == FirstLine(s) + "\n" + AfterFirstLine(s)
  {
    var k := LineEnd(s);
    assert s[k] == '\n' by {
      LineEndFacts(s);
    }
    SplitAround(s, k);
  }

  /** A string split around its k-th char. */
  lemma SplitAround(s: string, k: nat)
    requires k < |s|
    ensures s == s[..k] + [s[k]] + s[k + 1..]
  {
  }

  /** The step of JoinLines when the first line ends with a terminator. */
  lemma JoinAfterTerminator(first: string, t: string)
    ensures var s := first + "\n" + t;
            first + "\n" + (if t == [] || t[|t| - 1] == '\n' then t else t + "\n")
            == if s[|s| - 1] == '\n' then s else s + "\n"
  {
    if t != [] {
      assert (first + "\n" + t)[|first + "\n" + t| - 1] == t[|t| - 1];
      assert (first + "\n") + (t + "\n") == ((first + "\n") + t) + "\n";
    }
  }

  lemma JoinCons(line: string, lines: seq<string>)
    ensures Join([line] + lines) == line + "\n" + Join(lines)
  {
    assert ([line] + lines)[1..] == lines;
  }

  /** A line without terminator, then one, then more text: the first line is that line. */
  lemma SplitAtTerminator(l: string, t: string)
    requires forall i :: 0 <= i < |l| ==> l[i] != '\n'
    ensures FirstLine(l + "\n" + t) == l && AfterFirstLine(l + "\n" + t) == t
  {
    var s := l + "\n" + t;
    assert s[|l|] == '\n';
    assert forall i :: 0 <= i < |l| ==> s[i] == l[i];
    LineEndAt(s, |l|);
    assert s[..|l|] == l && s[|l| + 1..] == t;
  }

  lemma NoTerminatorsTail(lines: seq<string>)
    requires lines != [] && NoTerminators(lines)
    ensures NoTerminators(lines[1..])
    ensures forall j :: 0 <= j < |lines[0]| ==> lines[0][j] != '\n'
  {
    forall i, j | 0 <= i < |lines[1..]| && 0 <= j < |lines[1..][i]|
      ensures lines[1..][i][j] != '\n'
    {
      assert lines[1..][i] == lines[i + 1];
    }
  }

  /** The other direction: lines without terminators come back from their join. */
  lemma {:induction false} LinesOfJoin(lines: seq<string>)
    requires NoTerminators(lines)
    ensures Lines(Join(lines)) == lines
  {
    if lines != [] {
      NoTerminatorsTail(lines);
      SplitAtTerminator(lines[0], Join(lines[1..]));
      LinesOfJoin(lines[1..]);
      assert Lines(Join(lines)) == [lines[0]] + lines[1..];
    }
  }

  /** LineReader.readLine(): the next line, or None at end of input. */
  method ReadLine(reader: Reader) returns (r: Result<Option<string>>)
    requires reader.Valid()
    modifies reader`pos
    ensures reader.Valid()
    ensures reader.fault == FailsOnUse ==> r == Err(BrokenRead) && reader.pos == old(reader.pos)
    ensures reader.fault != FailsOnUse && old(reader.Remaining()) == [] ==>
              r == Ok(None) && reader.Remaining() == []
    ensures reader.fault != FailsOnUse && old(reader.Remaining()) != [] ==>
              r == Ok(Some(FirstLine(old(reader.Remaining()))))
              && reader.Remaining() == AfterFirstLine(old(reader.Remaining()))
  {
    ghost var rest := reader.Remaining();
    var line: string := [];
    while true
      invariant reader.Valid() && old(reader.pos) <= reader.pos
      invariant line == reader.text[old(reader.pos)..reader.pos] == rest[..|line|]
      invariant forall i :: 0 <= i < |line| ==> line[i] != '\n'
      invariant reader.fault == FailsOnUse ==> reader.pos == old(reader.pos)
      decreases |reader.text| - reader.pos
    {
      var c := reader.Read();
      if c.Err? {
        return Err(c.error);
      }
      match c.value
      case None =>
        if line == [] {
          return Ok(None);
        }
        LineEndAt(rest, |line|);
        return Ok(Some(line));
      case Some(ch) =>
        if ch == '\n' {
          assert rest[|line|] == '\n';
          LineEndAt(rest, |line|);
          return Ok(Some(line));
        }
        line := line + [ch];
    }
  }

  /** readLines(Readable): every line of what is left to read. */
  method ReadLines(reader: Reader) returns (r: Result<seq<string>>)
    requires reader.Valid()
    modifies reader`pos
    ensures reader.Valid()
    ensures reader.fault == FailsOnUse ==> r == Err(BrokenRead)
    ensures reader.fault != FailsOnUse ==>
              r == Ok(Lines(old(reader.Remaining()))) && reader.Remaining() == []
  {
    ghost var all := Lines(reader.Remaining());
    var lines: seq<string> := [];
    while true
      invariant reader.Valid()
      invariant reader.fault != FailsOnUse ==> lines + Lines(reader.Remaining()) == all
      decreases |reader.Remaining()|
    {
      ghost var rest := reader.Remaining();
      var line := ReadLine(reader);
      if line.Err? {
        return Err(line.error);
      }
      if line.value.None? {
        assert lines + Lines([]) == lines;
        break;
      }
      assert Lines(rest) == [line.value.value] + Lines(reader.Remaining());
      lines := lines + [line.value.value];
    }
    r := Ok(lines);
  }

  // ------------------------------------------------------ line processors

  /** A LineProcessor<Integer> as the tests write them: it counts the lines
      it is fed, getResult() is the count, and processLine answers
      `answer(seen, line)` with `seen` the count including this line. Only
      the conditional processor of the tests keeps the lines, in its
      StringBuilder; `keeps` says whether this one does. */
  class CountingProcessor {
    const answer: (nat, string) -> bool
    const keeps: bool
    var seen: nat
    var collected: string

    constructor (answer: (nat, string) -> bool, keeps: bool)
      ensures this.answer == answer && this.keeps == keeps && seen == 0 && collected == []
    {
      this.answer := answer;
      this.keeps := keeps;
      seen := 0;
      collected := [];
    }

    method ProcessLine(line: string) returns (more: bool)
      modifies this`seen, this`collected
      ensures seen == old(seen) + 1
      ensures collected == old(collected) + (if keeps then line else [])
      ensures more == answer(seen, line)
    {
      seen := seen + 1;
      if keeps {
        collected := collected + line;
      }
      more := answer(seen, line);
    }

    method GetResult() returns (n: nat)
      ensures n == seen
    {
      n := seen;
    }
  }

  /** How many of `lines` readLines feeds to a processor that has seen
      `seen` lines before: all of them, or up to and including the first
      one it answers false to. */
  function Fed(lines: seq<string>, answer: (nat, string) -> bool, seen: nat): (n: nat)
    ensures n <= |lines|
    ensures lines != [] ==> n >= 1
  {
    if lines == [] then 0
    else if answer(seen + 1, lines[0]) then 1 + Fed(lines[1..], answer, seen + 1)
    else 1
  }

  /** The processor answered true to each of the first m lines, numbered
      seen + 1 .. seen + m. */
  ghost predicate ContinuedThrough(answer: (nat, string) -> bool, lines: seq<string>, seen: nat, m: nat)
    requires m <= |lines|
    decreases m
  {
    m == 0 || (answer(seen + 1, lines[0]) && ContinuedThrough(answer, lines[1..], seen + 1, m - 1))
  }

  /** Fed in terms of the answers: every line fed but the last was answered
      true, and the last was answered false unless no line was left. */
  lemma {:induction false} FedStopsAtFirstFalse(lines: seq<string>, answer: (nat, string) -> bool, seen: nat)
    ensures var n := Fed(lines, answer, seen);
            && (n > 0 ==> ContinuedThrough(answer, lines, seen, n - 1))
            && (0 < n < |lines| ==> !answer(seen + n, lines[n - 1]))
            && (ContinuedThrough(answer, lines, seen, n) ==> n == |lines|)
  {
    if lines != [] && answer(seen + 1, lines[0]) {
      FedStopsAtFirstFalse(lines[1..], answer, seen + 1);
      var n := Fed(lines, answer, seen);
      if n < |lines| {
        assert lines[1..][n - 2] == lines[n - 1];
      }
    }
  }

  /** The processor answered true to line number k = seen + m + 1 as well. */
  lemma {:induction false} ContinuedOneMore(answer: (nat, string) -> bool, lines: seq<string>, seen: nat, m: nat, k: nat)
    requires m < |lines| && ContinuedThrough(answer, lines, seen, m)
    requires k == seen + m + 1 && answer(k, lines[m])
    ensures ContinuedThrough(answer, lines, seen, m + 1)
    decreases m
  {
    if m > 0 {
      assert lines[1..][m - 1] == lines[m];
      ContinuedOneMore(answer, lines[1..], seen + 1, m - 1, k);
    }
  }

  /** Lines the processor asked to go on after are each followed by the next one. */
  lemma {:induction false} FedPrefix(lines: seq<string>, answer: (nat, string) -> bool, seen: nat, m: nat)
    requires m <= |lines| && ContinuedThrough(answer, lines, seen, m)
    ensures Fed(lines, answer, seen) == m + Fed(lines[m..], answer, seen + m)
    decreases m
  {
    if m > 0 {
      FedPrefix(lines[1..], answer, seen + 1, m - 1);
      assert lines[1..][m - 1..] == lines[m..];
    }
  }

  /** The processors of the tests answer on the count alone: never, always,
      or while they have seen fewer than a limit. */
  datatype Policy = AlwaysStop | AlwaysContinue | ContinueWhileBelow(limit: nat)

  function Continues(p: Policy, seen: nat): bool
  {
    match p
    case AlwaysStop => false
    case AlwaysContinue => true
    case ContinueWhileBelow(limit) => seen < limit
  }

  function Answer(p: Policy): (nat, string) -> bool
  {
    (seen: nat, line: string) => Continues(p, seen)
  }

  /** The number of lines fed to the processors of the tests, in closed form. */
  lemma {:induction false} FedCount(lines: seq<string>, p: Policy, seen: nat)
    ensures Fed(lines, Answer(p), seen) == if lines == [] then 0 else
      match p
      case AlwaysStop => 1
      case AlwaysContinue => |lines|
      case ContinueWhileBelow(limit) =>
        if limit <= seen + 1 then 1
        else if |lines| < limit - seen then |lines| else limit - seen
  {
    if lines != [] && Continues(p, seen + 1) {
      FedCount(lines[1..], p, seen + 1);
    }
  }

  /** The lines concatenated, as the conditional processor's StringBuilder holds them. */
  function Concat(lines: seq<string>): string
  {
    if lines == [] then [] else Concat(lines[..|lines| - 1]) + lines[|lines| - 1]
  }

  lemma ConcatSnoc(lines: seq<string>, line: string)
    ensures Concat(lines + [line]) == Concat(lines) + line
  {
    assert (lines + [line])[..|lines|] == lines;
  }

  /** What a processor that keeps (or not) the lines has collected of them. */
  function Kept(keeps: bool, lines: seq<string>): string
  {
    if keeps then Concat(lines) else []
  }

  /** Feeding the first line of what is left extends the lines fed so far,
      and what the processor has collected, by that line. */
  lemma Advance(fed: seq<string>, all: seq<string>, rest: string, keeps: bool, collected0: string, collected: string)
    requires rest != [] && fed + Lines(rest) == all
    requires collected == collected0 + Kept(keeps, fed)
    ensures (fed + [FirstLine(rest)]) + Lines(AfterFirstLine(rest)) == all
    ensures |fed| < |all| && all[..|fed| + 1] == fed + [FirstLine(rest)] && all[|fed|] == FirstLine(rest)
    ensures collected + (if keeps then FirstLine(rest) else []) == collected0 + Kept(keeps, fed + [FirstLine(rest)])
  {
    NextLine(fed, rest, all);
    if keeps {
      CollectLine(fed, FirstLine(rest), collected0, collected);
    } else {
      assert collected + [] == collected;
    }
  }

  lemma NextLine(fed: seq<string>, rest: string, all: seq<string>)
    requires rest != [] && fed + Lines(rest) == all
    ensures (fed + [FirstLine(rest)]) + Lines(AfterFirstLine(rest)) == all
    ensures |fed| < |all| && all[..|fed| + 1] == fed + [FirstLine(rest)]
  {
    assert Lines(rest) == [FirstLine(rest)] + Lines(AfterFirstLine(rest));
    assert (fed + [FirstLine(rest)]) + Lines(AfterFirstLine(rest)) == fed + Lines(rest);
  }

  lemma CollectLine(fed: seq<string>, line: string, collected0: string, collected: string)
    requires collected == collected0 + Concat(fed)
    ensures collected + line == collected0 + Concat(fed + [line])
  {
    ConcatSnoc(fed, line);
    assert collected + line == collected0 + (Concat(fed) + line);
  }

  /** The processor said stop at the line after `fed`: that line was the last one fed. */
  lemma FedUntilStop(all: seq<string>, fed: seq<string>, line: string, answer: (nat, string) -> bool, seen: nat, k: nat)
    requires |fed| < |all| && all[..|fed| + 1] == fed + [line] && all[|fed|] == line
    requires ContinuedThrough(answer, all, seen, |fed|) && k == seen + |fed| + 1 && !answer(k, line)
    ensures Fed(all, answer, seen) == |fed| + 1 && all[..Fed(all, answer, seen)] == fed + [line]
  {
    FedPrefix(all, answer, seen, |fed|);
    assert all[|fed|..][0] == line;
  }

  /** The processor asked for every line: all of them were fed. */
  lemma FedUntilEnd(all: seq<string>, answer: (nat, string) -> bool, seen: nat)
    requires ContinuedThrough(answer, all, seen, |all|)
    ensures Fed(all, answer, seen) == |all| && all[..Fed(all, answer, seen)] == all
  {
    FedPrefix(all, answer, seen, |all|);
    assert all[|all|..] == [];
  }

  /** One turn of the readLines loop: read a line and, unless the input is
      exhausted, hand it to the processor; Some(b) carries its answer. */
  method FeedNextLine(reader: Reader, processor: CountingProcessor) returns (r: Result<Option<bool>>)
    requires reader.Valid()
    modifies reader`pos, processor`seen, processor`collected
    ensures reader.Valid()
    ensures reader.fault == FailsOnUse ==> r == Err(BrokenRead)
    ensures reader.fault != FailsOnUse ==> r.Ok?
    ensures r.Err? || r.value.None? ==>
              processor.seen == old(processor.seen) && processor.collected == old(processor.collected)
    ensures r.Ok? && r.value.None? ==> old(reader.Remaining()) == [] && reader.Remaining() == []
    ensures r.Err? ==> reader.pos == old(reader.pos)
    ensures r.Ok? && r.value.Some? ==>
              var rest := old(reader.Remaining());
              && rest != []
              && reader.Remaining() == AfterFirstLine(rest)
              && processor.seen == old(processor.seen) + 1
              && processor.collected == old(processor.collected) + (if processor.keeps then FirstLine(rest) else [])
              && r.value.value == processor.answer(old(processor.seen) + 1, FirstLine(rest))
  {
    var line := ReadLine(reader);
    if line.Err? {
      return Err(line.error);
    }
    if line.value.None? {
      return Ok(None);
    }
    var more := processor.ProcessLine(line.value.value);
    r := Ok(Some(more));
  }

  /** The state of readLines(reader, processor) after the lines `fed` of
      `all`, from a processor that had seen `seen0` lines and collected
      `collected0`: while going, it answered true to each of them; once
      stopped without failure, they are exactly the lines Fed says. */
  ghost predicate Feeding(reader: Reader, processor: CountingProcessor, all: seq<string>, fed: seq<string>,
                          seen0: nat, collected0: string, going: bool, failure: Option<IOError>)
    reads reader, processor
  {
    && reader.Valid()
    && (reader.fault != FailsOnUse ==> fed + Lines(reader.Remaining()) == all)
    && (reader.fault == FailsOnUse ==> fed == [])
    && |fed| <= |all| && processor.seen == seen0 + |fed|
    && processor.collected == collected0 + Kept(processor.keeps, fed)
    && (going ==> failure == None && ContinuedThrough(processor.answer, all, seen0, |fed|))
    && (!going && failure == None ==>
          reader.fault != FailsOnUse && Fed(all, processor.answer, seen0) == |fed| && all[..|fed|] == fed)
    && (failure != None ==> reader.fault == FailsOnUse && failure == Some(BrokenRead))
  }

  /** One turn of the readLines loop, with the lines fed so far. */
  method FeedStep(reader: Reader, processor: CountingProcessor, ghost all: seq<string>, ghost fed: seq<string>,
                  ghost seen0: nat, ghost collected0: string)
    returns (going: bool, failure: Option<IOError>, ghost fed': seq<string>)
    requires Feeding(reader, processor, all, fed, seen0, collected0, true, None)
    modifies reader`pos, processor`seen, processor`collected
    ensures Feeding(reader, processor, all, fed', seen0, collected0, going, failure)
    ensures |reader.Remaining()| < |old(reader.Remaining())|
            || (!going && |reader.Remaining()| == |old(reader.Remaining())|)
  {
    ghost var rest, before := reader.Remaining(), processor.collected;
    ghost var k := processor.seen + 1;
    var step := FeedNextLine(reader, processor);
    fed' := fed;
    going, failure := true, None;
    if step.Err? {
      going, failure := false, Some(step.error);
    } else if step.value.None? {
      assert fed + [] == all;
      FedUntilEnd(all, processor.answer, seen0);
      going := false;
    } else {
      ghost var l := FirstLine(rest);
      Advance(fed, all, rest, processor.keeps, collected0, before);
      if !step.value.value {
        FedUntilStop(all, fed, l, processor.answer, seen0, k);
        going := false;
      } else {
        ContinuedOneMore(processor.answer, all, seen0, |fed|, k);
      }
      fed' := fed + [l];
    }
  }

  /** readLines(Readable, LineProcessor): feeds the lines in order, stops
      right after the first false, and returns getResult(). */
  method ReadLinesWith(reader: Reader, processor: CountingProcessor) returns (r: Result<nat>)
    requires reader.Valid()
    modifies reader`pos, processor`seen, processor`collected
    ensures reader.Valid()
    ensures reader.fault == FailsOnUse ==> r == Err(BrokenRead) && processor.seen == old(processor.seen)
    ensures reader.fault != FailsOnUse ==>
              var lines := Lines(old(reader.Remaining()));
              var n := Fed(lines, processor.answer, old(processor.seen));
              && r == Ok(processor.seen)
              && processor.seen == old(processor.seen) + n
              && processor.collected == old(processor.collected) + Kept(processor.keeps, lines[..n])
  {
    ghost var all := Lines(reader.Remaining());
    ghost var seen0, collected0 := processor.seen, processor.collected;
    ghost var fed: seq<string> := [];
    var going, failure := true, None;
    assert collected0 + Kept(processor.keeps, fed) == collected0;
    while going
      invariant Feeding(reader, processor, all, fed, seen0, collected0, going, failure)
      decreases |reader.Remaining()|, if going then 1 else 0
    {
      going, failure, fed := FeedStep(reader, processor, all, fed, seen0, collected0);
    }
    if failure.Some? {
      r := Err(failure.value);
    } else {
      var n := processor.GetResult();
      r := Ok(n);
    }
  }
}
