/** The launcher of pkg/launcher: a WaitGroup counting launched tasks and a
    buffered channel of capacity 1000 collecting each task's error. */
module Launchers {
  import opened Errors

  /** The capacity of the `errs` channel. */
  const BufferSize: nat := 1000

  class Launcher {
    /** The contents of `errs`, in the order the tasks finished. */
    var results: seq<MaybeError>
    /** The WaitGroup counter: tasks registered by `Go`. */
    var launched: nat
    /** Whether `Wait` has closed `errs`. */
    var closed: bool

    ghost predicate Valid()
      reads this
    {
      && (!closed ==> |results| == launched <= BufferSize)
      && (closed ==> results == [])
    }

    /** `New`: an empty buffer and no task registered. */
    constructor ()
      ensures Valid() && !closed && results == [] && launched == 0
    {
      results := [];
      launched := 0;
      closed := false;
    }

    /** `Go` registers one task and, once the task has returned `result`,
        puts that result in the buffer. Tasks are run to completion one at a
        time here; their place in `results` is their completion position.
        A send on a closed channel panics, so `Wait` must not have run; and
        since `Wait` waits for every task before it drains, a 1001st task
        would block on the full buffer forever, so at most 1000 tasks. */
    method Go(result: MaybeError)
      requires Valid() && !closed && launched < BufferSize
      modifies this
      ensures Valid() && !closed
      ensures launched == old(launched) + 1
      ensures results == old(results) + [result]
    {
      launched := launched + 1;
      results := results + [result];
    }

    /** `Wait` closes the buffer and folds every result into one error with
        `errors.Join`. Closing twice panics, so it runs at most once. */
    method Wait() returns (err: MaybeError)
      requires Valid() && !closed
      modifies this
      ensures Valid() && closed && results == [] && launched == old(launched)
      ensures err == JoinAll(old(results))
      ensures err.None? <==> forall i :: 0 <= i < |old(results)| ==> old(results)[i].None?
      ensures Flattened(err) == LeavesAll(NonNil(old(results)))
    {
      ghost var all := results;
      closed := true;
      err := None;
      var k := 0;
      while results != []
        invariant closed && launched == old(launched)
        invariant 0 <= k <= |all|
        invariant results == all[k..]
        invariant err == JoinAll(all[..k])
        decreases |results|
      {
        var next := results[0];
        results := results[1..];
        assert all[..k + 1][..k] == all[..k];
        err := JoinList([err, next]);
        k := k + 1;
      }
      assert all[..k] == all;
      JoinAllNilIff(all);
      JoinAllLeaves(all);
    }
  }
}
