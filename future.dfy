/** The one-shot future of pkg/future: a cell that leaves Pending exactly
    once, either resolved with a value or canceled, and is read any number
    of times afterwards. */
module Futures {
  import opened Errors

  /** The sentinel `ErrFutureCanceled`. */
  const ErrFutureCanceled: Error := Msg("future canceled")

  /** The observable state of a future. */
  datatype FutureState<T> = Pending | Resolved(value: T) | Canceled

  /** What a producer does to its future: `Set(v)` or `Cancel()`. Both
      close the future's channel. */
  datatype Op<T> = SetOp(v: T) | CancelOp

  /** The state a Pending future is in after `op`. */
  function After<T>(op: Op<T>): FutureState<T>
  {
    match op
    case SetOp(v) => Resolved(v)
    case CancelOp => Canceled
  }

  /** The state after applying `ops` in order, or None when one of them
      closes an already closed channel, which panics in Go. */
  function Apply<T>(s: FutureState<T>, ops: seq<Op<T>>): Option<FutureState<T>>
    decreases |ops|
  {
    if ops == [] then Some(s)
    else if !s.Pending? then None
    else Apply(After(ops[0]), ops[1..])
  }

  /** A resolved or canceled future admits no further operation: any `Set`
      or `Cancel` on it panics, and with none it keeps its state. */
  lemma TerminalIsFinal<T>(s: FutureState<T>, ops: seq<Op<T>>)
    requires !s.Pending?
    ensures Apply(s, ops) == if ops == [] then Some(s) else None
  {
  }

  /** A pending future survives a sequence of operations exactly when the
      sequence holds at most one `Set` or `Cancel`; in particular `Set`
      after `Cancel`, `Cancel` after `Set` and either one twice all panic. */
  lemma {:induction false} AtMostOnce<T>(ops: seq<Op<T>>)
    ensures Apply(Pending, ops).Some? <==> |ops| <= 1
    ensures |ops| == 1 ==> Apply(Pending, ops) == Some(After(ops[0]))
  {
    if |ops| >= 2 {
      assert Apply(Pending, ops) == Apply(After(ops[0]), ops[1..]);
      TerminalIsFinal(After(ops[0]), ops[1..]);
    }
  }

  class Future<T> {
    /** The value `Set` stored; the zero value until then. */
    var value: T
    /** Whether `Cancel` was called. */
    var canceled: bool
    /** Whether the channel `c` has been closed, by `Set` or by `Cancel`. */
    var closed: bool
    /** Go's zero value of `T`, which `Get` returns for a canceled future. */
    const zero: T

    ghost predicate Valid()
      reads this
    {
      canceled ==> closed
    }

    /** The state `Get` observes once the channel is closed. */
    function State(): (s: FutureState<T>)
      reads this
    {
      if !closed then Pending else if canceled then Canceled else Resolved(value)
    }

    /** `New`: an open channel, not canceled, holding the zero value. */
    constructor (zero: T)
      ensures Valid() && State() == Pending
      ensures !canceled && !closed && value == zero && this.zero == zero
    {
      this.zero := zero;
      value := zero;
      canceled := false;
      closed := false;
    }

    /** `Set` stores the value and closes the channel. A second close panics,
        so the future must still be Pending. */
    method Set(v: T)
      requires Valid() && State() == Pending
      modifies this
      ensures Valid() && State() == Resolved(v)
      ensures Apply(old(State()), [SetOp(v)]) == Some(State())
    {
      value := v;
      closed := true;
    }

    /** `Cancel` marks the future canceled and closes the channel; it too
        requires a Pending future. */
    method Cancel()
      requires Valid() && State() == Pending
      modifies this
      ensures Valid() && State() == Canceled
      ensures value == old(value)
      ensures Apply(old(State()), [CancelOp]) == Some(State())
    {
      canceled := true;
      closed := true;
    }

    /** `Get` returns only once the channel is closed, so a Pending future is
        excluded; it then yields the value and nil, or the zero value and
        `ErrFutureCanceled`. It changes nothing. */
    method Get() returns (v: T, err: MaybeError)
      requires Valid() && State() != Pending
      ensures State().Resolved? ==> v == State().value && err == None
      ensures State() == Canceled ==> v == zero && err == Some(ErrFutureCanceled)
    {
      if canceled {
        return zero, Some(ErrFutureCanceled);
      }
      return value, None;
    }
  }

  /** Any number of consumers reading a settled future observe the same
      outcome: the value if it was resolved, the cancellation otherwise. */
  method ConsumersAgree<T>(f: Future<T>) returns (v1: T, e1: MaybeError, v2: T, e2: MaybeError)
    requires f.Valid() && f.State() != Pending
    ensures v1 == v2 && e1 == e2
    ensures e1.None? <==> f.State().Resolved?
  {
    v1, e1 := f.Get();
    v2, e2 := f.Get();
  }
}
