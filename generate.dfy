/** `Generate` of internal/gen/gen.go: fourteen tasks on one launcher,
    linked by ten futures. A task reads the id lists it needs from upstream
    futures, calls its create function on them and resolves (or cancels)
    the future it publishes. The create functions, which talk to the
    database, are one parameter `create` of the model. */
module Gen {
  import opened Errors
  import opened Futures
  import opened Launchers

  /** The ten futures, one per table whose ids other tasks need. */
  datatype Fut = UsersF | CardsF | CouriersF | PaymentsF | OrdersF | SuppliersF | DishesF | CommoditiesF | CategoriesF | DiscountsF

  /** The futures in the order `Generate` creates them. */
  const AllFuts: seq<Fut> := [UsersF, CardsF, CouriersF, PaymentsF, OrdersF, SuppliersF, DishesF, CommoditiesF, CategoriesF, DiscountsF]

  /** A future's position among the created futures. */
  function Index(f: Fut): (i: nat)
    ensures i < |AllFuts|
  {
    match f
    case UsersF => 0
    case CardsF => 1
    case CouriersF => 2
    case PaymentsF => 3
    case OrdersF => 4
    case SuppliersF => 5
    case DishesF => 6
    case CommoditiesF => 7
    case CategoriesF => 8
    case DiscountsF => 9
  }

  /** Distinct futures occupy distinct positions. */
  lemma IndexInjective(f: Fut, g: Fut)
    requires Index(f) == Index(g)
    ensures f == g
  {
  }

  /** The fourteen tasks, named after the create function each one calls. */
  datatype Task =
    | Users | Cards | Addresses | Couriers | Payments | Orders | Suppliers | Dishes | Commodities
    | OrderCompositions | Categories | CategoriesToTargets | Discounts | DiscountsToTargets

  /** The order in which `Generate` hands the tasks to `launch.Go`. */
  const LaunchOrder: seq<Task> := [
    Users, Cards, Addresses, Couriers, Payments, Orders, Suppliers, Dishes, Commodities,
    OrderCompositions, Categories, CategoriesToTargets, Discounts, DiscountsToTargets]

  /** A task's position in the launch order. */
  function Rank(t: Task): (r: nat)
    ensures r < |LaunchOrder|
  {
    match t
    case Users => 0
    case Cards => 1
    case Addresses => 2
    case Couriers => 3
    case Payments => 4
    case Orders => 5
    case Suppliers => 6
    case Dishes => 7
    case Commodities => 8
    case OrderCompositions => 9
    case Categories => 10
    case CategoriesToTargets => 11
    case Discounts => 12
    case DiscountsToTargets => 13
  }

  /** Every task is launched, once, at its rank. */
  lemma LaunchedAtRank(t: Task)
    ensures LaunchOrder[Rank(t)] == t
  {
  }

  lemma RankIsPosition(k: nat)
    requires k < |LaunchOrder|
    ensures Rank(LaunchOrder[k]) == k
  {
  }

  /** The futures a task reads, in the order of its `Get` calls. */
  function Needs(t: Task): seq<Fut>
  {
    match t
    case Cards => [UsersF]
    case Addresses => [UsersF]
    case Payments => [CardsF]
    case Orders => [UsersF, CouriersF, PaymentsF]
    case Dishes => [SuppliersF]
    case Commodities => [SuppliersF]
    case OrderCompositions => [OrdersF, DishesF, CommoditiesF]
    case CategoriesToTargets => [CategoriesF, DishesF, CommoditiesF]
    case DiscountsToTargets => [DiscountsF, DishesF, CommoditiesF]
    case _ => []
  }

  /** The future a task resolves or cancels, if any. */
  function Publishes(t: Task): Option<Fut>
  {
    match t
    case Users => Some(UsersF)
    case Cards => Some(CardsF)
    case Couriers => Some(CouriersF)
    case Payments => Some(PaymentsF)
    case Orders => Some(OrdersF)
    case Suppliers => Some(SuppliersF)
    case Dishes => Some(DishesF)
    case Commodities => Some(CommoditiesF)
    case Categories => Some(CategoriesF)
    case Discounts => Some(DiscountsF)
    case _ => None
  }

  /** The one task that publishes a future. */
  function Producer(f: Fut): (t: Task)
    ensures Publishes(t) == Some(f)
  {
    match f
    case UsersF => Users
    case CardsF => Cards
    case CouriersF => Couriers
    case PaymentsF => Payments
    case OrdersF => Orders
    case SuppliersF => Suppliers
    case DishesF => Dishes
    case CommoditiesF => Commodities
    case CategoriesF => Categories
    case DiscountsF => Discounts
  }

  /** No future has two publishers. */
  lemma PublisherIsProducer(t: Task, f: Fut)
    requires Publishes(t) == Some(f)
    ensures Producer(f) == t
  {
  }

  /** Every future a task reads is published by a task launched before it,
      so the launch order is a topological order of the task graph: running
      the tasks one after the other in that order, no `Get` ever waits. */
  lemma NeedsProducedEarlier(t: Task)
    ensures forall f :: f in Needs(t) ==> Rank(Producer(f)) < Rank(t)
  {
  }

  /** What a create function returned: the ids of the rows it created, or
      its error. */
  datatype Work = Done(ids: seq<int>) | Failed(msg: string)

  /** A create function, applied to the task and to the id lists the task
      read from its futures, in `Needs` order. */
  type Create = (Task, seq<seq<int>>) -> Work

  /** What a task did: stopped at the first input future that was canceled,
      or ran its create function. */
  datatype TaskRun = Blocked(missing: Fut) | Ran(work: Work)

  /** The run of task `t`, given the runs of the tasks upstream of it. */
  function Run(t: Task, create: Create): TaskRun
    decreases Rank(t), 1
  {
    NeedsProducedEarlier(t);
    match FirstMissing(Needs(t), t, create)
    case Some(f) => Blocked(f)
    case None => Ran(create(t, Inputs(Needs(t), t, create)))
  }

  /** The task ran its create function and it succeeded. */
  predicate Succeeded(t: Task, create: Create)
    decreases Rank(t), 2
  {
    Run(t, create).Ran? && Run(t, create).work.Done?
  }

  /** A future ends resolved exactly when its producer succeeded. */
  predicate Created(f: Fut, create: Create)
    decreases Rank(Producer(f)), 3
  {
    Succeeded(Producer(f), create)
  }

  /** The ids a resolved future holds. */
  function Value(f: Fut, create: Create): seq<int>
    decreases Rank(Producer(f)), 4
  {
    if Created(f, create) then Run(Producer(f), create).work.ids else []
  }

  /** The first canceled future among `needs`, in order. */
  function FirstMissing(needs: seq<Fut>, bound: Task, create: Create): Option<Fut>
    requires forall f :: f in needs ==> Rank(Producer(f)) < Rank(bound)
    decreases Rank(bound), 0, |needs|
  {
    if needs == [] then None
    else
      match FirstMissing(needs[..|needs| - 1], bound, create)
      case Some(f) => Some(f)
      case None => if Created(needs[|needs| - 1], create) then None else Some(needs[|needs| - 1])
  }

  /** The values read from `needs`, in order. */
  function Inputs(needs: seq<Fut>, bound: Task, create: Create): seq<seq<int>>
    requires forall f :: f in needs ==> Rank(Producer(f)) < Rank(bound)
    decreases Rank(bound), 0, |needs|
  {
    if needs == [] then [] else Inputs(needs[..|needs| - 1], bound, create) + [Value(needs[|needs| - 1], create)]
  }

  /** The state every future ends in. */
  function Settled(f: Fut, create: Create): (s: FutureState<seq<int>>)
    ensures s != Pending
    ensures s.Resolved? <==> Created(f, create)
  {
    if Created(f, create) then Resolved(Value(f, create)) else Canceled
  }

  /** The message a task returns when a future it reads was canceled. */
  function NotCreated(f: Fut): string
  {
    match f
    case UsersF => "users not created"
    case CardsF => "cards not created"
    case CouriersF => "couriers not created"
    case PaymentsF => "payments not created"
    case OrdersF => "orders not created"
    case SuppliersF => "suppliers not created"
    case DishesF => "dishes not created"
    case CommoditiesF => "commodities not created"
    case CategoriesF => "categories not created"
    case DiscountsF => "discounts not created"
  }

  /** The error a task returns to the launcher: nil exactly when it
      succeeded, and never itself a join. */
  function TaskError(t: Task, create: Create): (r: MaybeError)
    ensures r.None? <==> Succeeded(t, create)
    ensures Atomic(r)
  {
    match Run(t, create)
    case Blocked(f) => Some(Msg(NotCreated(f)))
    case Ran(Failed(msg)) => Some(Msg(msg))
    case Ran(Done(_)) => None
  }

  /** What a task does to the future it publishes: `Set` with the created
      ids, or one `Cancel` (explicit in the tasks without inputs, deferred
      in the others). */
  function TaskOps(t: Task, create: Create): seq<Op<seq<int>>>
  {
    if Publishes(t).None? then []
    else if Succeeded(t, create) then [SetOp(Run(t, create).work.ids)]
    else [CancelOp]
  }

  /** The errors the tasks return, in launch order. */
  function Results(create: Create): seq<MaybeError>
  {
    seq(|LaunchOrder|, i requires 0 <= i < |LaunchOrder| => TaskError(LaunchOrder[i], create))
  }

  // ---------------------------------------------------------------------
  // Properties of the task graph

  /** Every future in `needs` was created. */
  predicate AllCreated(needs: seq<Fut>, create: Create)
  {
    forall f :: f in needs ==> Created(f, create)
  }

  /** The first missing input is one of the inputs and was not created,
      and every input read before it was created; there is none exactly
      when every input was created. */
  lemma {:induction false} FirstMissingSpec(needs: seq<Fut>, bound: Task, create: Create)
    requires forall f :: f in needs ==> Rank(Producer(f)) < Rank(bound)
    ensures FirstMissing(needs, bound, create).None? <==> AllCreated(needs, create)
    ensures FirstMissing(needs, bound, create).Some? ==>
      FirstMissing(needs, bound, create).value in needs && !Created(FirstMissing(needs, bound, create).value, create)
    ensures FirstMissing(needs, bound, create).Some? ==>
      exists k :: 0 <= k < |needs| && needs[k] == FirstMissing(needs, bound, create).value && AllCreated(needs[..k], create)
    decreases |needs|, 1
  {
    if needs != [] {
      var init, last := needs[..|needs| - 1], needs[|needs| - 1];
      assert needs == init + [last];
      assert forall f :: f in init ==> f in needs;
      FirstMissingSpec(init, bound, create);
      if FirstMissing(needs, bound, create).None? {
        forall f | f in needs ensures Created(f, create) {
          if f != last {
            assert f in init;
          }
        }
      } else if FirstMissing(init, bound, create).None? {
        assert !Created(last, create) && last in needs;
      } else {
        assert FirstMissing(init, bound, create).value in needs;
      }
    }
    if FirstMissing(needs, bound, create).Some? {
      FirstMissingIsFirst(needs, bound, create);
    }
  }

  /** The inputs read before the first missing one were all created. */
  lemma {:induction false} FirstMissingIsFirst(needs: seq<Fut>, bound: Task, create: Create)
    requires forall f :: f in needs ==> Rank(Producer(f)) < Rank(bound)
    requires FirstMissing(needs, bound, create).Some?
    ensures exists k :: 0 <= k < |needs| && needs[k] == FirstMissing(needs, bound, create).value && AllCreated(needs[..k], create)
    decreases |needs|, 0
  {
    var init := needs[..|needs| - 1];
    assert forall f :: f in init ==> f in needs;
    match FirstMissing(init, bound, create)
    case None =>
      assert needs[..|needs| - 1] == init;
      forall f | f in init ensures Created(f, create) {
        FirstMissingSpec(init, bound, create);
      }
    case Some(m) =>
      FirstMissingIsFirst(init, bound, create);
      var k :| 0 <= k < |init| && init[k] == m && AllCreated(init[..k], create);
      assert needs[..k] == init[..k];
  }

  /** Once a prefix of the inputs holds a missing one, the later inputs do
      not change which one is reported. */
  lemma {:induction false} FirstMissingExtends(needs: seq<Fut>, k: nat, bound: Task, create: Create)
    requires k <= |needs|
    requires forall f :: f in needs ==> Rank(Producer(f)) < Rank(bound)
    requires FirstMissing(needs[..k], bound, create).Some?
    ensures FirstMissing(needs, bound, create) == FirstMissing(needs[..k], bound, create)
    decreases |needs|
  {
    if k < |needs| {
      var init := needs[..|needs| - 1];
      assert init[..k] == needs[..k];
      FirstMissingExtends(init, k, bound, create);
    } else {
      assert needs[..k] == needs;
    }
  }

  /** Reading one more input after `i` present ones: it is the first
      missing one if it was not created, and otherwise its value is appended
      to the inputs. */
  lemma ReadStep(needs: seq<Fut>, i: nat, bound: Task, create: Create)
    requires i < |needs|
    requires forall f :: f in needs ==> Rank(Producer(f)) < Rank(bound)
    requires FirstMissing(needs[..i], bound, create) == None
    ensures FirstMissing(needs[..i + 1], bound, create) == if Created(needs[i], create) then None else Some(needs[i])
    ensures Inputs(needs[..i + 1], bound, create) == Inputs(needs[..i], bound, create) + [Value(needs[i], create)]
  {
    assert needs[..i + 1][..i] == needs[..i];
  }

  /** A task succeeds exactly when every future it reads was created and its
      own create function, applied to their values, succeeded. */
  lemma SucceededIff(t: Task, create: Create)
    ensures Succeeded(t, create) <==>
      AllCreated(Needs(t), create) && create(t, Inputs(Needs(t), t, create)).Done?
  {
    NeedsProducedEarlier(t);
    FirstMissingSpec(Needs(t), t, create);
  }

  /** A canceled future makes every task that reads it fail without
      calling its create function: the task stops at its first canceled
      input and returns "<x> not created" for it. */
  lemma FailurePropagates(f: Fut, t: Task, create: Create)
    requires f in Needs(t) && !Created(f, create)
    ensures !Succeeded(t, create) && TaskError(t, create).Some?
    ensures Run(t, create).Blocked?
    ensures TaskError(t, create) == Some(Msg(NotCreated(Run(t, create).missing)))
  {
    NeedsProducedEarlier(t);
    FirstMissingSpec(Needs(t), t, create);
  }

  /** When every create call succeeds, every task does. */
  lemma {:induction false} AllCreatesSucceed(t: Task, create: Create)
    requires forall u, xs :: create(u, xs).Done?
    ensures Succeeded(t, create)
    decreases Rank(t)
  {
    NeedsProducedEarlier(t);
    forall f | f in Needs(t) ensures Created(f, create) {
      AllCreatesSucceed(Producer(f), create);
    }
    SucceededIff(t, create);
  }

  /** Task `u` is `t` itself or, through the futures `t` reads, a task
      upstream of it. */
  predicate Upstream(u: Task, t: Task)
    decreases Rank(t)
  {
    NeedsProducedEarlier(t);
    u == t || exists f :: f in Needs(t) && Upstream(u, Producer(f))
  }

  /** A failing task traces back to a task upstream of it whose own create
      call failed. */
  lemma {:induction false} RootCause(t: Task, create: Create)
    requires !Succeeded(t, create)
    ensures exists u :: Upstream(u, t) && Run(u, create).Ran? && Run(u, create).work.Failed?
    decreases Rank(t)
  {
    NeedsProducedEarlier(t);
    if Run(t, create).Blocked? {
      var f := Run(t, create).missing;
      FirstMissingSpec(Needs(t), t, create);
      RootCause(Producer(f), create);
      var u :| Upstream(u, Producer(f)) && Run(u, create).Ran? && Run(u, create).work.Failed?;
      assert Upstream(u, t);
    } else {
      assert Upstream(t, t);
    }
  }

  /** Task `t`'s error sits at its launch position among the results. */
  lemma ResultAt(create: Create, t: Task)
    ensures |Results(create)| == |LaunchOrder|
    ensures Results(create)[Rank(t)] == TaskError(t, create)
  {
    LaunchedAtRank(t);
  }

  /** Every task succeeded. */
  predicate AllSucceeded(create: Create)
  {
    forall t :: Succeeded(t, create)
  }

  /** Some create call made by a task that ran returned an error. */
  predicate SomeCreateFailed(create: Create)
  {
    exists u :: Run(u, create).Ran? && Run(u, create).work.Failed?
  }

  /** Some task fails exactly when some create call made fails. */
  lemma SomeTaskFailsIff(create: Create)
    ensures !AllSucceeded(create) <==> SomeCreateFailed(create)
  {
    if t :| !Succeeded(t, create) {
      RootCause(t, create);
      var u :| Upstream(u, t) && Run(u, create).Ran? && Run(u, create).work.Failed?;
    }
    if u :| Run(u, create).Ran? && Run(u, create).work.Failed? {
      assert !Succeeded(u, create);
    }
  }

  /** Every result is nil exactly when every task succeeded. */
  lemma ResultsNilIff(create: Create)
    ensures (forall i :: 0 <= i < |Results(create)| ==> Results(create)[i].None?) <==> AllSucceeded(create)
  {
    var rs := Results(create);
    if AllSucceeded(create) {
      forall i | 0 <= i < |rs| ensures rs[i].None? {
        assert rs[i] == TaskError(LaunchOrder[i], create);
      }
    } else {
      var t :| !Succeeded(t, create);
      ResultAt(create, t);
      assert rs[Rank(t)].Some?;
    }
  }

  /** Every failed create call surfaces, with its own message, in the error
      `Generate` returns. */
  lemma RootCauseReported(create: Create, t: Task)
    requires Run(t, create).Ran? && Run(t, create).work.Failed?
    ensures Msg(Run(t, create).work.msg) in Flattened(JoinAll(Results(create)))
  {
    var rs := Results(create);
    var e := Msg(Run(t, create).work.msg);
    ResultAt(create, t);
    assert rs[Rank(t)] == Some(e);
    JoinAllLeafCount(rs, e);
    assert multiset(rs)[Some(e)] > 0;
  }

  /** Whatever order the tasks finish in, the joined error holds the same
      errors, as often each, and is nil in the same cases. */
  lemma CompletionOrderIrrelevant(create: Create, ps: seq<MaybeError>)
    requires multiset(ps) == multiset(Results(create))
    ensures multiset(Flattened(JoinAll(ps))) == multiset(Flattened(JoinAll(Results(create))))
    ensures JoinAll(ps).None? <==> AllSucceeded(create)
  {
    var rs := Results(create);
    JoinAllOrderIndependent(rs, ps);
    JoinAllNilIff(rs);
    ResultsNilIff(create);
  }

  /** Each publishing task settles its future exactly once, so no `Set` or
      `Cancel` panics, and leaves it in its final state. */
  lemma TaskOpsSettle(t: Task, create: Create)
    requires Publishes(t).Some?
    ensures Apply(Pending, TaskOps(t, create)) == Some(Settled(Publishes(t).value, create))
  {
    var ops := TaskOps(t, create);
    PublisherIsProducer(t, Publishes(t).value);
    AtMostOnce(ops);
  }

  // ---------------------------------------------------------------------
  // The payments task as written

  /** The operations the payments task performs on `paymentsFut` as the
      source has it: the deferred `Cancel` when the cards are missing, an
      explicit `Cancel` and then the deferred one when `createPayments`
      fails, `Set` otherwise. */
  function PaymentsOpsAsWritten(create: Create): seq<Op<seq<int>>>
  {
    match Run(Payments, create)
    case Blocked(_) => [CancelOp]
    case Ran(Failed(_)) => [CancelOp, CancelOp]
    case Ran(Done(ids)) => [SetOp(ids)]
  }

  /** As written, the payments task closes `paymentsFut` twice, and so
      panics, exactly when the cards exist but `createPayments` fails. */
  lemma PaymentsAsWrittenPanics(create: Create)
    ensures Apply(Pending, PaymentsOpsAsWritten(create)).None? <==>
      Run(Payments, create).Ran? && Run(Payments, create).work.Failed?
  {
    AtMostOnce(PaymentsOpsAsWritten(create));
  }

  /** A concrete run: everything succeeds except `createPayments`. */
  lemma PaymentsPanicExample()
    ensures var create: Create := (t, xs) => if t == Payments then Failed("create payments: timeout") else Done([1]);
      Apply(Pending, PaymentsOpsAsWritten(create)) == None
  {
    var create: Create := (t, xs) => if t == Payments then Failed("create payments: timeout") else Done([1]);
    assert Run(Users, create) == Ran(Done([1]));
    assert Created(UsersF, create);
    assert FirstMissing([UsersF], Cards, create) == None by {
      assert [UsersF][..0] == [];
    }
    assert Run(Cards, create).Ran?;
    assert Created(CardsF, create);
    assert FirstMissing([CardsF], Payments, create) == None by {
      assert [CardsF][..0] == [];
    }
    assert Run(Payments, create) == Ran(Failed("create payments: timeout"));
    PaymentsAsWrittenPanics(create);
  }

  // ---------------------------------------------------------------------
  // The tasks and Generate

  /** The ten futures: one per key, pairwise distinct objects, all valid. */
  ghost predicate FuturesValid(futs: seq<Future<seq<int>>>)
    reads futs
  {
    && |futs| == |AllFuts|
    && (forall i, j :: 0 <= i < j < |futs| ==> futs[i] != futs[j])
    && (forall i :: 0 <= i < |futs| ==> futs[i].Valid())
  }

  /** The `Get` calls that open a task: read the inputs in order and stop
      at the first canceled one. Reading changes no future. */
  method ReadInputs(t: Task, futs: seq<Future<seq<int>>>, create: Create) returns (inputs: seq<seq<int>>, missing: Option<Fut>)
    requires FuturesValid(futs)
    requires forall f :: f in Needs(t) ==> futs[Index(f)].State() == Settled(f, create)
    ensures missing == FirstMissing(Needs(t), t, create)
    ensures missing.None? ==> inputs == Inputs(Needs(t), t, create)
  {
    NeedsProducedEarlier(t);
    var needs := Needs(t);
    inputs := [];
    for i := 0 to |needs|
      invariant FirstMissing(needs[..i], t, create) == None
      invariant inputs == Inputs(needs[..i], t, create)
    {
      var v, e := futs[Index(needs[i])].Get();
      ReadStep(needs, i, t, create);
      if e.Some? {
        FirstMissingExtends(needs, i + 1, t, create);
        return inputs, Some(needs[i]);
      }
      inputs := inputs + [v];
    }
    assert needs[..|needs|] == needs;
    missing := None;
  }

  /** What a task returns and what it leaves its own future in, by what it
      did. */
  lemma RunOutcome(t: Task, create: Create)
    ensures Run(t, create).Blocked? ==> TaskError(t, create) == Some(Msg(NotCreated(Run(t, create).missing)))
    ensures Run(t, create).Ran? && Run(t, create).work.Failed? ==> TaskError(t, create) == Some(Msg(Run(t, create).work.msg))
    ensures Run(t, create).Ran? && Run(t, create).work.Done? ==> TaskError(t, create) == None
    ensures Publishes(t).Some? ==>
      Settled(Publishes(t).value, create) == if Succeeded(t, create) then Resolved(Run(t, create).work.ids) else Canceled
  {
    if Publishes(t).Some? {
      PublisherIsProducer(t, Publishes(t).value);
    }
  }

  /** One task, as the closure handed to `launch.Go` runs it: read the
      inputs, returning "<x> not created" (and canceling the own future) at
      the first canceled one; then call the create function, cancel the own
      future on its error and resolve it with its ids otherwise. Only the
      task's own future changes. */
  method RunTask(t: Task, futs: seq<Future<seq<int>>>, create: Create) returns (r: MaybeError)
    requires FuturesValid(futs)
    requires forall f :: f in Needs(t) ==> futs[Index(f)].State() == Settled(f, create)
    requires Publishes(t).Some? ==> futs[Index(Publishes(t).value)].State() == Pending
    modifies if Publishes(t).Some? then {futs[Index(Publishes(t).value)]} else {}
    ensures FuturesValid(futs)
    ensures r == TaskError(t, create)
    ensures Publishes(t).Some? ==>
      Apply(old(futs[Index(Publishes(t).value)].State()), TaskOps(t, create)) == Some(futs[Index(Publishes(t).value)].State())
    ensures Publishes(t).Some? ==> futs[Index(Publishes(t).value)].State() == Settled(Publishes(t).value, create)
  {
    if Publishes(t).Some? {
      TaskOpsSettle(t, create);
    }
    RunOutcome(t, create);
    var inputs, missing := ReadInputs(t, futs, create);
    if missing.Some? {
      if Publishes(t).Some? {
        futs[Index(Publishes(t).value)].Cancel();
      }
      return Some(Msg(NotCreated(missing.value)));
    }
    match create(t, inputs)
    case Failed(msg) =>
      if Publishes(t).Some? {
        futs[Index(Publishes(t).value)].Cancel();
      }
      r := Some(Msg(msg));
    case Done(ids) =>
      if Publishes(t).Some? {
        futs[Index(Publishes(t).value)].Set(ids);
      }
      r := None;
  }

  /** The state future `f` is in once the first `k` tasks have run. */
  ghost function Expected(f: Fut, k: nat, create: Create): FutureState<seq<int>>
  {
    if Rank(Producer(f)) < k then Settled(f, create) else Pending
  }

  /** Running the task at position `k` settles its own future and leaves
      every other future's expected state as it was. */
  lemma ExpectedNext(t: Task, k: nat, f: Fut, create: Create)
    requires k < |LaunchOrder| && LaunchOrder[k] == t
    ensures Publishes(t) == Some(f) ==> Expected(f, k + 1, create) == Settled(f, create)
    ensures Publishes(t) != Some(f) ==> Expected(f, k + 1, create) == Expected(f, k, create)
  {
    RankIsPosition(k);
    if Publishes(t) == Some(f) {
      PublisherIsProducer(t, f);
    } else if Rank(Producer(f)) == k {
      LaunchedAtRank(Producer(f));
    }
  }

  /** Every future is in the state the first `k` tasks leave it in. */
  ghost predicate StatesAt(futs: seq<Future<seq<int>>>, k: nat, create: Create)
    requires |futs| == |AllFuts|
    reads futs
  {
    forall f :: futs[Index(f)].State() == Expected(f, k, create)
  }

  lemma PrefixSnoc<T>(s: seq<T>, k: nat)
    requires k < |s|
    ensures s[..k + 1] == s[..k] + [s[k]]
  {
  }

  /** The ten `future.New` calls of `Generate`, one per entry of `AllFuts`:
      fresh, distinct, pending futures whose zero value is the empty id
      list. */
  method NewFutures() returns (futs: seq<Future<seq<int>>>)
    ensures FuturesValid(futs)
    ensures forall i :: 0 <= i < |futs| ==> fresh(futs[i]) && futs[i].State() == Pending
  {
    futs := [];
    for i := 0 to |AllFuts|
      invariant |futs| == i
      invariant forall j, l :: 0 <= j < l < i ==> futs[j] != futs[l]
      invariant forall j :: 0 <= j < i ==> fresh(futs[j]) && futs[j].Valid() && futs[j].State() == Pending
    {
      var fut := new Future<seq<int>>([]);
      futs := futs + [fut];
    }
  }

  /** The `launch.Go` call at position `k`: run the task and put its
      error in the buffer. */
  method LaunchNext(k: nat, futs: seq<Future<seq<int>>>, launch: Launcher, create: Create)
    requires k < |LaunchOrder|
    requires FuturesValid(futs) && StatesAt(futs, k, create)
    requires launch.Valid() && !launch.closed && launch.launched == k
    modifies launch
    modifies if Publishes(LaunchOrder[k]).Some? then {futs[Index(Publishes(LaunchOrder[k]).value)]} else {}
    ensures FuturesValid(futs) && StatesAt(futs, k + 1, create)
    ensures launch.Valid() && !launch.closed && launch.launched == k + 1
    ensures launch.results == old(launch.results) + [TaskError(LaunchOrder[k], create)]
  {
    var t := LaunchOrder[k];
    RankIsPosition(k);
    NeedsProducedEarlier(t);
    forall f | f in Needs(t) ensures futs[Index(f)].State() == Settled(f, create) {
      assert futs[Index(f)].State() == Expected(f, k, create);
    }
    if Publishes(t).Some? {
      ExpectedNext(t, k, Publishes(t).value, create);
      assert futs[Index(Publishes(t).value)].State() == Expected(Publishes(t).value, k, create);
    }
    label before:
    var result := RunTask(t, futs, create);
    forall f ensures futs[Index(f)].State() == Expected(f, k + 1, create) {
      ExpectedNext(t, k, f, create);
      if Publishes(t) != Some(f) {
        if Publishes(t).Some? && Index(f) == Index(Publishes(t).value) {
          IndexInjective(f, Publishes(t).value);
        }
        assert futs[Index(f)].State() == old@before(futs[Index(f)].State());
      }
    }
    launch.Go(result);
  }

  /** The fourteen `launch.Go` calls, in launch order. Each task runs to
      completion before the next starts, which is one schedule of the
      goroutines; since every input of a task is published earlier in the
      order, no `Get` waits. */
  method LaunchAll(futs: seq<Future<seq<int>>>, launch: Launcher, create: Create)
    requires FuturesValid(futs) && forall i :: 0 <= i < |futs| ==> futs[i].State() == Pending
    requires launch.Valid() && !launch.closed && launch.results == [] && launch.launched == 0
    modifies launch, set i | 0 <= i < |futs| :: futs[i]
    ensures FuturesValid(futs) && forall f :: futs[Index(f)].State() == Settled(f, create)
    ensures launch.Valid() && !launch.closed && launch.results == Results(create)
  {
    ghost var results := Results(create);
    forall f ensures futs[Index(f)].State() == Expected(f, 0, create) {
      assert futs[Index(f)].State() == Pending;
    }
    for k := 0 to |LaunchOrder|
      invariant FuturesValid(futs) && StatesAt(futs, k, create)
      invariant launch.Valid() && !launch.closed && launch.launched == k
      invariant launch.results == results[..k]
    {
      LaunchNext(k, futs, launch, create);
      PrefixSnoc(results, k);
    }
    assert results[..|LaunchOrder|] == results;
    forall f ensures futs[Index(f)].State() == Settled(f, create) {
      assert futs[Index(f)].State() == Expected(f, |LaunchOrder|, create);
    }
  }

  /** The joined error is nil exactly when every task succeeded. */
  lemma GenerateNilIff(create: Create)
    ensures JoinAll(Results(create)).None? <==> AllSucceeded(create)
  {
    ResultsNilIff(create);
    JoinAllNilIff(Results(create));
  }

  /** The joined error is nil exactly when no create call failed. */
  lemma GenerateFailureIff(create: Create)
    ensures JoinAll(Results(create)).None? <==> !SomeCreateFailed(create)
  {
    GenerateNilIff(create);
    SomeTaskFailsIff(create);
  }

  /** The joined error's leaves are the task errors, one each, in order. */
  lemma GenerateLeaves(create: Create)
    ensures Flattened(JoinAll(Results(create))) == NonNil(Results(create))
  {
    var rs := Results(create);
    JoinAllLeaves(rs);
    NonNilOfAtomic(rs);
    LeavesAllOfMessages(NonNil(rs));
  }

  /** `Generate`: create the futures and the launcher, launch the tasks and
      wait. The error is nil exactly when every task succeeds, which is
      exactly when no create call fails; otherwise it joins one error per
      failing task, in the order they finished, and every failed create
      call is among them. */
  method Generate(create: Create) returns (err: MaybeError)
    ensures err == JoinAll(Results(create))
    ensures err.None? <==> AllSucceeded(create)
    ensures err.None? <==> !SomeCreateFailed(create)
    ensures Flattened(err) == NonNil(Results(create))
  {
    var launch := new Launcher();
    var futs := NewFutures();
    LaunchAll(futs, launch, create);
    err := launch.Wait();
    GenerateNilIff(create);
    GenerateFailureIff(create);
    GenerateLeaves(create);
  }
}
