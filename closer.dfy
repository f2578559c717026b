/** Closer: registers the Closeables a supplier-level operation opens, closes
    them all in reverse order of registration on every exit path, and
    decides which exception the caller finally receives. The first failure
    wins; every later close failure is either added to it as a suppressed
    exception (when Throwable.addSuppressed is available) or written to the
    Closeables logger. */
module Closing {
  import opened IoTypes
  import opened Streams

  /** What close() on one Closeable throws: at most one error. */
  function Errors(c: Closeable): seq<IOError>
  {
    if c.closeError.Some? then [c.closeError.value] else []
  }

  /** The errors thrown while closing a stack of Closeables, in closing
      order: from the top of the stack, which holds the last registered. */
  function CloseErrors(hs: seq<Closeable>): seq<IOError>
  {
    if hs == [] then [] else Errors(hs[0]) + CloseErrors(hs[1..])
  }

  /** The exception state of a Closer: the primary failure (if any), the
      errors added to it with addSuppressed, and the errors sent to the log. */
  datatype Ledger = Ledger(primary: Option<IOError>, suppressed: seq<IOError>, logged: seq<IOError>)

  /** One close failure reaches the Closer: it becomes the primary failure if
      there is none yet; otherwise the suppressor takes it. */
  function Absorb(l: Ledger, e: IOError, suppressing: bool): Ledger
  {
    if l.primary.None? then l.(primary := Some(e))
    else if suppressing then l.(suppressed := l.suppressed + [e])
    else l.(logged := l.logged + [e])
  }

  function AbsorbAll(l: Ledger, errs: seq<IOError>, suppressing: bool): Ledger
    decreases |errs|
  {
    if errs == [] then l else AbsorbAll(Absorb(l, errs[0], suppressing), errs[1..], suppressing)
  }

  /** The ledger after closing, given the failure rethrown from the body. */
  function Settle(thrown: Option<IOError>, errs: seq<IOError>, suppressing: bool): Ledger
  {
    AbsorbAll(Ledger(thrown, [], []), errs, suppressing)
  }

  /** The failure the caller receives: the body's, else the first close failure. */
  function Primary(thrown: Option<IOError>, errs: seq<IOError>): Option<IOError>
  {
    if thrown.Some? then thrown else if errs == [] then None else Some(errs[0])
  }

  /** The close failures that lose to the primary one, in closing order. */
  function Losers(thrown: Option<IOError>, errs: seq<IOError>): seq<IOError>
  {
    if thrown.Some? then errs else if errs == [] then [] else errs[1..]
  }

  /** The fold in closed form: the body's failure wins over every close
      failure, and otherwise the first close failure wins; all the others
      go, in closing order, to exactly one of the suppressed list and the
      log, according to whether suppression is available. */
  lemma {:induction false} SettleClosedForm(thrown: Option<IOError>, errs: seq<IOError>, suppressing: bool)
    ensures Settle(thrown, errs, suppressing)
            == Ledger(Primary(thrown, errs),
                      if suppressing then Losers(thrown, errs) else [],
                      if suppressing then [] else Losers(thrown, errs))
  {
    if thrown.Some? {
      AbsorbAllWithPrimary(Ledger(thrown, [], []), errs, suppressing);
    } else if errs != [] {
      AbsorbAllWithPrimary(Ledger(Some(errs[0]), [], []), errs[1..], suppressing);
    }
  }

  /** Once there is a primary failure, it stays, and the suppressor takes everything else. */
  lemma {:induction false} AbsorbAllWithPrimary(l: Ledger, errs: seq<IOError>, suppressing: bool)
    requires l.primary.Some?
    ensures var r := AbsorbAll(l, errs, suppressing);
            && r.primary == l.primary
            && r.suppressed == l.suppressed + (if suppressing then errs else [])
            && r.logged == l.logged + (if suppressing then [] else errs)
    decreases |errs|
  {
    if errs != [] {
      var next := Absorb(l, errs[0], suppressing);
      AbsorbAllWithPrimary(next, errs[1..], suppressing);
      assert errs == [errs[0]] + errs[1..];
    }
  }

  /** One more close failure, seen after `done`. */
  lemma LosersStep(thrown: Option<IOError>, done: seq<IOError>, e: IOError)
    ensures Primary(thrown, done + [e]) == if Primary(thrown, done).Some? then Primary(thrown, done) else Some(e)
    ensures Losers(thrown, done + [e]) == if Primary(thrown, done).Some? then Losers(thrown, done) + [e] else []
  {
    if thrown.None? && done != [] {
      assert (done + [e])[1..] == done[1..] + [e];
    }
  }

  /** Popping the top of the stack: its errors come first. */
  lemma PopStack(done: seq<IOError>, hs: seq<Closeable>)
    requires hs != []
    ensures done + CloseErrors(hs) == (done + Errors(hs[0])) + CloseErrors(hs[1..])
  {
  }

  /** Registrations among the first k + 1 handles: one more for the (k + 1)-th. */
  lemma CountOneMore(all: seq<Closeable>, k: nat)
    requires k < |all|
    ensures forall c :: multiset(all[..k + 1])[c] == multiset(all[..k])[c] + (if c == all[k] then 1 else 0)
  {
    assert all[..k + 1] == all[..k] + [all[k]];
  }

  /** The records of the Closeables logger as a log handler stores them. */
  class Log {
    var records: seq<IOError>

    constructor ()
      ensures records == []
    {
      records := [];
    }

    method Publish(e: IOError)
      modifies this`records
      ensures records == old(records) + [e]
    {
      records := records + [e];
    }
  }

  class Closer {
    /** Whether Throwable.addSuppressed is available; otherwise close
        failures that lose to another one are logged. */
    const suppressing: bool
    const log: Log
    var stack: seq<Closeable>
    var thrown: Option<IOError>

    constructor (suppressing: bool, log: Log)
      ensures this.suppressing == suppressing && this.log == log
      ensures stack == [] && thrown == None
    {
      this.suppressing := suppressing;
      this.log := log;
      stack := [];
      thrown := None;
    }

    /** register(c): c will be closed when the Closer is. */
    method Register(c: Closeable)
      modifies this`stack
      ensures stack == [c] + old(stack)
    {
      stack := [c] + stack;
    }

    /** rethrow(e): records e as the failure of the body; the caller throws it. */
    method Rethrow(e: IOError)
      modifies this`thrown
      ensures thrown == Some(e)
    {
      thrown := Some(e);
    }

    /** close(): closes every registered Closeable, last registered first.
        The result is the exception that leaves the try/catch/finally block
        around the body: the rethrown one when there was one, else the first
        close failure, else none; with the errors suppressed on it. Each
        Closeable is closed once for every time it was registered. */
    method Close() returns (f: Option<Failure>)
      modifies this`stack, log`records, stack`closed, stack`closeCount
      ensures stack == []
      ensures forall i :: 0 <= i < |old(stack)| ==> old(stack)[i].closed
      ensures forall c :: c in old(stack) ==> c.closeCount == old(c.closeCount) + multiset(old(stack))[c]
      ensures var errs := CloseErrors(old(stack));
              var primary, losers := Primary(old(thrown), errs), Losers(old(thrown), errs);
              && f == (if primary.Some? then Some(Failure(primary.value, if suppressing then losers else [])) else None)
              && log.records == old(log.records) + (if suppressing then [] else losers)
    {
      ghost var all, thrown0 := stack, thrown;
      ghost var done: seq<IOError> := [];
      ghost var k := 0;
      var throwable := thrown;
      var suppressed: seq<IOError> := [];
      while stack != []
        invariant k <= |all| && stack == all[k..]
        invariant forall i :: 0 <= i < k ==> all[i].closed
        invariant forall c :: c in all ==> c.closeCount == old(c.closeCount) + multiset(all[..k])[c]
        invariant done + CloseErrors(stack) == CloseErrors(all)
        invariant Accounts(throwable, suppressed, log.records, old(log.records), thrown0, done)
        decreases |stack|
      {
        throwable, suppressed, done := CloseTop(all, k, throwable, suppressed, thrown0, done, old(log.records));
        CountOneMore(all, k);
        k := k + 1;
      }
      assert all[..k] == all;
      assert done == done + CloseErrors(stack);
      f := if throwable.Some? then Some(Failure(throwable.value, suppressed)) else None;
    }

    /** One turn of close(): pops the top of the stack, the k-th of the
        Closeables `all` registered when close() started, closes it, and
        takes its close failure. */
    method CloseTop(ghost all: seq<Closeable>, ghost k: nat, throwable: Option<IOError>, suppressed: seq<IOError>,
                    ghost thrown0: Option<IOError>, ghost done: seq<IOError>, ghost base: seq<IOError>)
      returns (throwable': Option<IOError>, suppressed': seq<IOError>, ghost done': seq<IOError>)
      requires k < |all| && stack == all[k..]
      requires done + CloseErrors(stack) == CloseErrors(all)
      requires Accounts(throwable, suppressed, log.records, base, thrown0, done)
      modifies this`stack, log`records, {all[k]}`closed, {all[k]}`closeCount
      ensures stack == all[k + 1..]
      ensures done' + CloseErrors(stack) == CloseErrors(all)
      ensures Accounts(throwable', suppressed', log.records, base, thrown0, done')
      ensures all[k].closed && all[k].closeCount == old(all[k].closeCount) + 1
    {
      PopStack(done, stack);
      var c := stack[0];
      stack := stack[1..];
      var e := c.Close();
      throwable', suppressed' := throwable, suppressed;
      if e.Some? {
        throwable', suppressed' := Take(e.value, throwable, suppressed, thrown0, done, base);
      }
      done' := done + Errors(c);
    }

    /** The state of close() after the close failures `done`: the primary
        failure and its losers, split between the suppressed list and the
        log records that were `base` when close() started. */
    ghost predicate Accounts(throwable: Option<IOError>, suppressed: seq<IOError>, records: seq<IOError>,
                             base: seq<IOError>, thrown0: Option<IOError>, done: seq<IOError>)
    {
      && throwable == Primary(thrown0, done)
      && suppressed == (if suppressing then Losers(thrown0, done) else [])
      && records == base + if suppressing then [] else Losers(thrown0, done)
    }

    /** One close failure reaching close(): it becomes the primary failure
        if there is none yet; otherwise it is added to the primary one as
        suppressed, or logged when suppression is unavailable. Given the
        state after the failures `done`, the result is the state after
        `done + [e]`. */
    method Take(e: IOError, throwable: Option<IOError>, suppressed: seq<IOError>,
                ghost thrown0: Option<IOError>, ghost done: seq<IOError>, ghost base: seq<IOError>)
      returns (throwable': Option<IOError>, suppressed': seq<IOError>)
      requires Accounts(throwable, suppressed, log.records, base, thrown0, done)
      modifies log`records
      ensures Accounts(throwable', suppressed', log.records, base, thrown0, done + [e])
    {
      LosersStep(thrown0, done, e);
      throwable', suppressed' := throwable, suppressed;
      if throwable.None? {
        throwable' := Some(e);
      } else if suppressing {
        suppressed' := suppressed + [e];
      } else {
        log.Publish(e);
      }
    }
  }
}
