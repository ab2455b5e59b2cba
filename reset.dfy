/** `Reset` of internal/reset: empty every table, each with up to three
    attempts, and join the per-table errors. The database is a parameter:
    `exec(name, a)` is what the `DELETE` statement of attempt `a` on table
    `name` returns, nil or the driver's message. */
module Reset {
  import opened Errors

  /** `maxRetries`: the number of attempts per table. */
  const MaxRetries: nat := 3

  /** The tables `Reset` empties, in declaration order; `discounts` is
      commented out in the list and `discounts_to_targets` is absent. */
  const TableNames: seq<string> := [
    "users", "user_addresses", "user_cards", "orders", "orders_composition", "payments",
    "couriers", "dishes", "commodities", "categories", "categories_to_targets", "suppliers"
  ]

  /** The outcome of the `DELETE` statement of each attempt on each table:
      None for success, the driver's error message otherwise. */
  type Exec = (string, nat) -> Option<string>

  /** `resetTable`: nil when the statement succeeded, otherwise the
      driver's error wrapped as `reset table "<name>": <cause>`. */
  function ResetTable(name: string, dbErr: Option<string>): (r: MaybeError)
    ensures r.None? <==> dbErr.None?
    ensures Atomic(r)
  {
    match dbErr
    case None => None
    case Some(cause) => Some(Msg("reset table \"" + name + "\": " + cause))
  }

  /** The error left by the attempts from `a` on, when all earlier ones
      failed: the first success stops the loop with nil, and the last
      attempt's error stands when none succeeds. */
  function AttemptsFrom(name: string, exec: Exec, a: nat): MaybeError
    requires a < MaxRetries
    decreases MaxRetries - a
  {
    var r := ResetTable(name, exec(name, a));
    if r.None? || a == MaxRetries - 1 then r else AttemptsFrom(name, exec, a + 1)
  }

  /** What the goroutine of table `name` sends on `errs`. */
  function TableResult(name: string, exec: Exec): MaybeError
  {
    AttemptsFrom(name, exec, 0)
  }

  /** One of the attempts on table `name` succeeds. */
  predicate SomeAttemptSucceeds(name: string, exec: Exec)
  {
    exists a :: 0 <= a < MaxRetries && exec(name, a).None?
  }

  /** From attempt `a` on, the result is nil exactly when one of the
      remaining attempts succeeds, and otherwise is the last attempt's
      error. */
  lemma {:induction false} AttemptsFromSpec(name: string, exec: Exec, a: nat)
    requires a < MaxRetries
    ensures AttemptsFrom(name, exec, a).None? <==> exists b :: a <= b < MaxRetries && exec(name, b).None?
    ensures AttemptsFrom(name, exec, a).Some? ==> AttemptsFrom(name, exec, a) == ResetTable(name, exec(name, MaxRetries - 1))
    decreases MaxRetries - a
  {
    if exec(name, a).Some? && a < MaxRetries - 1 {
      AttemptsFromSpec(name, exec, a + 1);
      assert forall b :: a <= b < MaxRetries && exec(name, b).None? ==> a + 1 <= b;
    }
  }

  /** A table's reported error is nil exactly when some attempt succeeded;
      otherwise it is the third attempt's error. */
  lemma TableResultSpec(name: string, exec: Exec)
    ensures TableResult(name, exec).None? <==> SomeAttemptSucceeds(name, exec)
    ensures TableResult(name, exec).Some? ==> TableResult(name, exec) == ResetTable(name, exec(name, MaxRetries - 1))
  {
    AttemptsFromSpec(name, exec, 0);
  }

  /** The retry loop of one goroutine: at most `MaxRetries` attempts,
      stopping at the first success; `tries` counts the attempts made. */
  method ResetWithRetries(name: string, exec: Exec) returns (err: MaybeError, tries: nat)
    ensures err == TableResult(name, exec)
    ensures 1 <= tries <= MaxRetries
    ensures err == ResetTable(name, exec(name, tries - 1))
    ensures forall a :: 0 <= a < tries - 1 ==> exec(name, a).Some?
    ensures err.Some? ==> tries == MaxRetries
  {
    err := None;
    tries := 0;
    while tries < MaxRetries
      invariant tries <= MaxRetries
      invariant forall a :: 0 <= a < tries ==> exec(name, a).Some?
      invariant tries > 0 ==> err == ResetTable(name, exec(name, tries - 1))
      invariant tries < MaxRetries ==> AttemptsFrom(name, exec, 0) == AttemptsFrom(name, exec, tries)
      invariant tries == MaxRetries ==> err == AttemptsFrom(name, exec, 0)
    {
      err := ResetTable(name, exec(name, tries));
      tries := tries + 1;
      if err.None? {
        break;
      }
    }
  }

  /** The per-table results, in table order. */
  function TableResults(exec: Exec): (rs: seq<MaybeError>)
    ensures |rs| == |TableNames|
  {
    seq(|TableNames|, i requires 0 <= i < |TableNames| => TableResult(TableNames[i], exec))
  }

  /** Every table was emptied by one of its attempts. */
  predicate AllTablesReset(exec: Exec)
  {
    forall i :: 0 <= i < |TableNames| ==> SomeAttemptSucceeds(TableNames[i], exec)
  }

  /** The per-table results are all nil exactly when every table was
      reset, and none of them is itself a join. */
  lemma TableResultsFacts(exec: Exec)
    ensures (forall i :: 0 <= i < |TableResults(exec)| ==> TableResults(exec)[i].None?) <==> AllTablesReset(exec)
    ensures forall i :: 0 <= i < |TableResults(exec)| ==> Atomic(TableResults(exec)[i])
  {
    var rs := TableResults(exec);
    forall i | 0 <= i < |rs| ensures (rs[i].None? <==> SomeAttemptSucceeds(TableNames[i], exec)) && Atomic(rs[i]) {
      TableResultSpec(TableNames[i], exec);
      AttemptsFromSpec(TableNames[i], exec, 0);
      if rs[i].Some? {
        assert rs[i] == ResetTable(TableNames[i], exec(TableNames[i], MaxRetries - 1));
      }
    }
  }

  /** `Reset`: one goroutine per table sends its result on `errs`, whose
      buffer holds one result per table, so no send blocks; the results
      are then received and folded with `errors.Join`. The goroutines run
      here one after the other in table order, which is one schedule. The
      error is nil exactly when every table was reset; otherwise its leaves
      are the failing tables' errors, one per table. */
  method Reset(exec: Exec) returns (err: MaybeError)
    ensures err == JoinAll(TableResults(exec))
    ensures err.None? <==> AllTablesReset(exec)
    ensures Flattened(err) == NonNil(TableResults(exec))
  {
    var errs: seq<MaybeError> := [];
    for table := 0 to |TableNames|
      invariant errs == TableResults(exec)[..table]
    {
      var e, _ := ResetWithRetries(TableNames[table], exec);
      assert |errs| < |TableNames|;
      errs := errs + [e];
    }
    assert errs == TableResults(exec);
    err := None;
    for k := 0 to |errs|
      invariant err == JoinAll(errs[..k])
    {
      assert errs[..k + 1][..k] == errs[..k];
      err := JoinList([err, errs[k]]);
    }
    assert errs[..|errs|] == errs;
    ResetOutcome(exec);
  }

  /** What the joined error says about the tables. */
  lemma ResetOutcome(exec: Exec)
    ensures JoinAll(TableResults(exec)).None? <==> AllTablesReset(exec)
    ensures Flattened(JoinAll(TableResults(exec))) == NonNil(TableResults(exec))
  {
    var rs := TableResults(exec);
    TableResultsFacts(exec);
    JoinAllNilIff(rs);
    JoinAllLeaves(rs);
    NonNilOfAtomic(rs);
    LeavesAllOfMessages(NonNil(rs));
  }

  /** Whatever order the goroutines finish in, the joined error holds the
      same table errors, as often each, and is nil in the same cases. */
  lemma ResetOrderIrrelevant(exec: Exec, received: seq<MaybeError>)
    requires multiset(received) == multiset(TableResults(exec))
    ensures multiset(Flattened(JoinAll(received))) == multiset(Flattened(JoinAll(TableResults(exec))))
    ensures JoinAll(received).None? <==> AllTablesReset(exec)
  {
    TableResultsFacts(exec);
    JoinAllOrderIndependent(TableResults(exec), received);
    ResetOutcome(exec);
  }
}
