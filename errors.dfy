/** Go's `error` values and `errors.Join`, as the launcher, Generate and Reset
    use them to fold the results of several tasks into one error. */
module Errors {

  datatype Option<+T> = None | Some(value: T)

  /** A non-nil Go error: a plain error carrying its message, or the value
      `errors.Join` builds, which keeps its non-nil arguments in order. */
  datatype Error = Msg(text: string) | Joined(errs: seq<Error>)

  /** A Go `error` value; `None` stands for nil. */
  type MaybeError = Option<Error>

  /** The non-nil entries of `es`, in order. */
  function NonNil(es: seq<MaybeError>): (r: seq<Error>)
    ensures |r| <= |es|
    ensures r == [] <==> forall i :: 0 <= i < |es| ==> es[i].None?
  {
    if es == [] then []
    else
      var last := es[|es| - 1];
      assert forall i :: 0 <= i < |es| - 1 ==> es[..|es| - 1][i] == es[i];
      NonNil(es[..|es| - 1]) + (if last.Some? then [last.value] else [])
  }

  /** `errors.Join(es...)`: nil when every argument is nil, otherwise one
      joined error holding the non-nil arguments, even if there is only one. */
  function JoinList(es: seq<MaybeError>): (r: MaybeError)
    ensures r.None? <==> forall i :: 0 <= i < |es| ==> es[i].None?
    ensures r.Some? ==> r.value == Joined(NonNil(es))
  {
    var kept := NonNil(es);
    if kept == [] then None else Some(Joined(kept))
  }

  /** The accumulator of `for x := range results { err = errors.Join(err, x) }`
      after it has consumed all of `rs`, starting from nil. */
  function JoinAll(rs: seq<MaybeError>): MaybeError
  {
    if rs == [] then None
    else JoinList([JoinAll(rs[..|rs| - 1]), rs[|rs| - 1]])
  }

  /** The errors a (possibly nested) joined error holds, with every join
      node flattened away. */
  function Leaves(e: Error): seq<Error>
    decreases e, 1
  {
    match e
    case Msg(_) => [e]
    case Joined(es) => LeavesAll(es)
  }

  function LeavesAll(es: seq<Error>): seq<Error>
    decreases es, 0
  {
    if es == [] then [] else LeavesAll(es[..|es| - 1]) + Leaves(es[|es| - 1])
  }

  /** The leaves of a Go error value; nil has none. */
  function Flattened(r: MaybeError): seq<Error>
  {
    if r.None? then [] else Leaves(r.value)
  }

  /** An error that is not itself a join, as every task in this model returns. */
  predicate Atomic(r: MaybeError)
  {
    r.None? || r.value.Msg?
  }

  /** The fold is nil exactly when every folded result is nil. */
  lemma {:induction false} JoinAllNilIff(rs: seq<MaybeError>)
    ensures JoinAll(rs).None? <==> forall i :: 0 <= i < |rs| ==> rs[i].None?
  {
    if rs != [] {
      var init := rs[..|rs| - 1];
      JoinAllNilIff(init);
      assert forall i :: 0 <= i < |init| ==> init[i] == rs[i];
      var pair := [JoinAll(init), rs[|rs| - 1]];
      assert JoinAll(rs).None? <==> pair[0].None? && pair[1].None?;
    }
  }

  lemma {:induction false} LeavesAllAppend(a: seq<Error>, b: seq<Error>)
    ensures LeavesAll(a + b) == LeavesAll(a) + LeavesAll(b)
    decreases |b|
  {
    if b == [] {
      assert a + b == a;
    } else {
      var b' := b[..|b| - 1];
      assert (a + b)[..|a + b| - 1] == a + b';
      LeavesAllAppend(a, b');
    }
  }

  lemma LeavesAllSingleton(e: Error)
    ensures LeavesAll([e]) == Leaves(e)
  {
    assert [e][..0] == [];
  }

  /** Appending one result appends its error, if any, to the non-nil ones. */
  lemma NonNilSnoc(rs: seq<MaybeError>, x: MaybeError)
    ensures NonNil(rs + [x]) == NonNil(rs) + (if x.Some? then [x.value] else [])
  {
    assert (rs + [x])[..|rs|] == rs;
  }

  /** The non-nil entries of a pair. */
  lemma NonNilPair(a: MaybeError, b: MaybeError)
    ensures NonNil([a, b]) == (if a.Some? then [a.value] else []) + (if b.Some? then [b.value] else [])
  {
    NonNilSnoc([], a);
    NonNilSnoc([a], b);
    assert [] + [a] == [a];
    assert [a] + [b] == [a, b];
  }

  /** The leaves of a single optional error. */
  lemma LeavesAllOption(o: MaybeError)
    ensures LeavesAll(if o.Some? then [o.value] else []) == Flattened(o)
  {
    if o.Some? {
      LeavesAllSingleton(o.value);
    }
  }

  /** Joining two errors keeps the leaves of both, in order. */
  lemma JoinTwoLeaves(a: MaybeError, b: MaybeError)
    ensures Flattened(JoinList([a, b])) == Flattened(a) + Flattened(b)
  {
    var oa := if a.Some? then [a.value] else [];
    var ob := if b.Some? then [b.value] else [];
    NonNilPair(a, b);
    LeavesAllAppend(oa, ob);
    LeavesAllOption(a);
    LeavesAllOption(b);
  }

  /** The leaves of the fold are exactly the non-nil results, each join
      node flattened, in the order they were folded: no error is lost. */
  lemma {:induction false} JoinAllLeaves(rs: seq<MaybeError>)
    ensures Flattened(JoinAll(rs)) == LeavesAll(NonNil(rs))
  {
    if rs != [] {
      var init, x := rs[..|rs| - 1], rs[|rs| - 1];
      var ox := if x.Some? then [x.value] else [];
      JoinAllLeaves(init);
      JoinTwoLeaves(JoinAll(init), x);
      assert init + [x] == rs;
      NonNilSnoc(init, x);
      LeavesAllAppend(NonNil(init), ox);
      if x.Some? {
        LeavesAllSingleton(x.value);
      }
    }
  }

  /** Without nested joins among the entries, the leaves are the entries. */
  lemma {:induction false} LeavesAllOfMessages(es: seq<Error>)
    requires forall i :: 0 <= i < |es| ==> es[i].Msg?
    ensures LeavesAll(es) == es
  {
    if es != [] {
      var init, last := es[..|es| - 1], es[|es| - 1];
      assert forall i :: 0 <= i < |init| ==> init[i].Msg? by {
        forall i | 0 <= i < |init| ensures init[i].Msg? {
          assert init[i] == es[i];
        }
      }
      LeavesAllOfMessages(init);
      assert Leaves(last) == [last];
      assert init + [last] == es;
    }
  }

  /** Each error occurs among the non-nil entries as often as the results
      hold it. */
  lemma {:induction false} NonNilCount(rs: seq<MaybeError>, e: Error)
    ensures multiset(NonNil(rs))[e] == multiset(rs)[Some(e)]
  {
    if rs != [] {
      var init, x := rs[..|rs| - 1], rs[|rs| - 1];
      NonNilCount(init, e);
      assert init + [x] == rs;
      NonNilSnoc(init, x);
      assert multiset(rs) == multiset(init) + multiset{x};
      if x.Some? {
        assert multiset(NonNil(rs)) == multiset(NonNil(init)) + multiset{x.value};
      } else {
        assert NonNil(rs) == NonNil(init);
      }
    }
  }

  lemma NonNilOfAtomic(rs: seq<MaybeError>)
    requires forall i :: 0 <= i < |rs| ==> Atomic(rs[i])
    ensures forall i :: 0 <= i < |NonNil(rs)| ==> NonNil(rs)[i].Msg?
  {
    forall i | 0 <= i < |NonNil(rs)|
      ensures NonNil(rs)[i].Msg?
    {
      var e := NonNil(rs)[i];
      assert e in multiset(NonNil(rs));
      NonNilCount(rs, e);
      assert Some(e) in rs;
    }
  }

  /** Reordering the results does not change whether the fold is nil. */
  lemma JoinAllNilPermutation(rs: seq<MaybeError>, ps: seq<MaybeError>)
    requires multiset(rs) == multiset(ps)
    ensures JoinAll(rs).None? <==> JoinAll(ps).None?
  {
    JoinAllNilIff(rs);
    JoinAllNilIff(ps);
    forall i | 0 <= i < |ps| && ps[i].Some?
      ensures exists j :: 0 <= j < |rs| && rs[j].Some?
    {
      assert ps[i] in multiset(rs);
    }
    forall i | 0 <= i < |rs| && rs[i].Some?
      ensures exists j :: 0 <= j < |ps| && ps[j].Some?
    {
      assert rs[i] in multiset(ps);
    }
  }

  /** When every task returns a plain error or nil, the fold's leaves hold
      each error exactly as often as the results do. */
  lemma JoinAllLeafCount(rs: seq<MaybeError>, e: Error)
    requires forall i :: 0 <= i < |rs| ==> Atomic(rs[i])
    ensures multiset(Flattened(JoinAll(rs)))[e] == multiset(rs)[Some(e)]
  {
    JoinAllLeaves(rs);
    NonNilOfAtomic(rs);
    LeavesAllOfMessages(NonNil(rs));
    NonNilCount(rs, e);
  }

  /** Whatever the order in which the results were folded (a different
      completion order of the tasks), the fold holds the same errors with
      the same multiplicities, and is nil in the same cases. */
  lemma JoinAllOrderIndependent(rs: seq<MaybeError>, ps: seq<MaybeError>)
    requires forall i :: 0 <= i < |rs| ==> Atomic(rs[i])
    requires multiset(rs) == multiset(ps)
    ensures multiset(Flattened(JoinAll(rs))) == multiset(Flattened(JoinAll(ps)))
    ensures JoinAll(rs).None? <==> JoinAll(ps).None?
  {
    forall i | 0 <= i < |ps| ensures Atomic(ps[i]) {
      assert ps[i] in multiset(rs);
    }
    forall e ensures multiset(Flattened(JoinAll(rs)))[e] == multiset(Flattened(JoinAll(ps)))[e] {
      JoinAllLeafCount(rs, e);
      JoinAllLeafCount(ps, e);
    }
    JoinAllNilPermutation(rs, ps);
  }

  /** The number of leaves is the number of failing tasks. */
  lemma JoinAllCount(rs: seq<MaybeError>)
    requires forall i :: 0 <= i < |rs| ==> Atomic(rs[i])
    ensures |Flattened(JoinAll(rs))| == |NonNil(rs)|
  {
    JoinAllLeaves(rs);
    NonNilOfAtomic(rs);
    LeavesAllOfMessages(NonNil(rs));
  }
}
