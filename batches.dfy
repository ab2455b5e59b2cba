/** The record-building loops of the create* functions in
    internal/gen/gen.go. The ids come from the upstream futures, the draws
    are parameters, and a record keeps only the fields the loops decide. */
module Batches {
  import opened Generators

  const CardsPerUserMin: nat := 1
  const CardsPerUserMax: nat := 5
  const AddressesPerUserMin: nat := 1
  const AddressesPerUserMax: nat := 10
  const OrderCount: nat := 300 * 1_000
  const MinItemsPerOrder: nat := 1
  const MaxItemsPerOrder: nat := 10
  const MinItemsPerSupplier: nat := 3
  const MaxItemsPerSupplier: nat := 10

  // ---------------------------------------------------------------------
  // Per-user records: cards and addresses

  /** `rand.IntN(max-min) + min` for each draw: one count per owner, each
      at least `min` and below `max` (the maximum itself is never drawn). */
  function Counts(draws: seq<nat>, min: nat, max: nat): (cs: seq<nat>)
    requires forall i :: 0 <= i < |draws| ==> draws[i] < max - min
    ensures |cs| == |draws|
    ensures forall i :: 0 <= i < |cs| ==> min <= cs[i] < max
  {
    seq(|draws|, i requires 0 <= i < |draws| => draws[i] + min)
  }

  /** Each owner repeated as often as its count says, owners in order. */
  function Expand(owners: seq<int>, counts: seq<nat>): seq<int>
    requires |owners| == |counts|
  {
    if owners == [] then []
    else Expand(owners[..|owners| - 1], counts[..|counts| - 1]) + seq(counts[|counts| - 1], _ => owners[|owners| - 1])
  }

  function Sum(xs: seq<nat>): nat
  {
    if xs == [] then 0 else Sum(xs[..|xs| - 1]) + xs[|xs| - 1]
  }

  lemma {:induction false} ExpandSize(owners: seq<int>, counts: seq<nat>)
    requires |owners| == |counts|
    ensures |Expand(owners, counts)| == Sum(counts)
  {
    if owners != [] {
      ExpandSize(owners[..|owners| - 1], counts[..|counts| - 1]);
    }
  }

  lemma {:induction false} SumBounds(xs: seq<nat>, lo: nat, hi: nat)
    requires forall i :: 0 <= i < |xs| ==> lo <= xs[i] <= hi
    ensures lo * |xs| <= Sum(xs) <= hi * |xs|
  {
    if xs != [] {
      var init := xs[..|xs| - 1];
      SumBounds(init, lo, hi);
      assert lo * |xs| == lo * |init| + lo;
      assert hi * |xs| == hi * |init| + hi;
    }
  }

  /** Some owner equal to `x` has a positive count. */
  predicate Owned(owners: seq<int>, counts: seq<nat>, x: int)
    requires |owners| == |counts|
  {
    exists i :: 0 <= i < |owners| && owners[i] == x && counts[i] > 0
  }

  lemma InRepeat(v: int, n: nat, x: int)
    ensures x in seq(n, _ => v) <==> n > 0 && x == v
  {
    if n > 0 {
      assert seq(n, _ => v)[0] == v;
    }
  }

  lemma AppendAssoc<T>(a: seq<T>, b: seq<T>, c: seq<T>)
    ensures (a + b) + c == a + (b + c)
  {
  }

  /** A loop that consumes `whole` block by block: moving the next block
      from what remains to what was built keeps their concatenation. */
  lemma AppendStep<T>(built: seq<T>, block: seq<T>, rest: seq<T>, whole: seq<T>)
    requires whole == block + rest
    ensures (built + block) + rest == built + whole
  {
  }

  /** A value occurs in the expansion exactly when some owner with that value
      has a positive count. */
  lemma {:induction false} ExpandMembers(owners: seq<int>, counts: seq<nat>, x: int)
    requires |owners| == |counts|
    ensures x in Expand(owners, counts) <==> Owned(owners, counts, x)
  {
    if owners != [] {
      var n := |owners| - 1;
      var init := Expand(owners[..n], counts[..n]);
      var tail := seq(counts[n], _ => owners[n]);
      ExpandMembers(owners[..n], counts[..n], x);
      InRepeat(owners[n], counts[n], x);
      assert Expand(owners, counts) == init + tail;
      assert x in init + tail <==> x in init || x in tail;
      if Owned(owners[..n], counts[..n], x) {
        var i :| 0 <= i < n && owners[..n][i] == x && counts[..n][i] > 0;
        assert owners[i] == x && counts[i] > 0;
      }
      if Owned(owners, counts, x) {
        var i :| 0 <= i < |owners| && owners[i] == x && counts[i] > 0;
        if i < n {
          assert owners[..n][i] == x && counts[..n][i] > 0;
        }
      }
    }
  }

  /** With distinct owners, each owner occurs exactly as often as its count. */
  lemma {:induction false} ExpandMultiplicity(owners: seq<int>, counts: seq<nat>, i: nat)
    requires |owners| == |counts| && i < |owners|
    requires forall j, k :: 0 <= j < k < |owners| ==> owners[j] != owners[k]
    ensures multiset(Expand(owners, counts))[owners[i]] == counts[i]
  {
    var n := |owners| - 1;
    var x := owners[i];
    var init := Expand(owners[..n], counts[..n]);
    var tail := seq(counts[n], _ => owners[n]);
    assert Expand(owners, counts) == init + tail;
    assert multiset(init + tail) == multiset(init) + multiset(tail);
    RepeatCount(owners[n], counts[n], x);
    if i < n {
      assert owners[..n][i] == x && counts[..n][i] == counts[i];
      assert x != owners[n];
      ExpandMultiplicity(owners[..n], counts[..n], i);
    } else {
      assert forall j :: 0 <= j < n ==> owners[..n][j] != x;
      ExpandMembers(owners[..n], counts[..n], x);
      assert multiset(init)[x] == 0;
    }
  }

  lemma {:induction false} RepeatCount(v: int, n: nat, x: int)
    ensures multiset(seq(n, _ => v))[x] == if x == v then n else 0
  {
    if n > 0 {
      RepeatCount(v, n - 1, x);
      assert seq(n, _ => v) == seq(n - 1, _ => v) + [v];
    }
  }

  /** The card loop of `createCards`: each user gets `rand.IntN(4) + 1`
      cards, at least one and at most four (never `CardsPerUserMax`), and
      `totalCards` counts exactly the cards built, so `cards[:totalCards]`
      is all of them. A card keeps its owner's id; the number is gofakeit's. */
  method CreateCards(userIDs: seq<int>, countDraws: seq<nat>) returns (cards: seq<int>, totalCards: nat)
    requires |countDraws| == |userIDs|
    requires forall i :: 0 <= i < |countDraws| ==> countDraws[i] < CardsPerUserMax - CardsPerUserMin
    ensures totalCards == |cards|
    ensures cards == Expand(userIDs, Counts(countDraws, CardsPerUserMin, CardsPerUserMax))
    ensures |userIDs| <= |cards| <= 4 * |userIDs|
    ensures forall u :: u in cards <==> u in userIDs
    ensures (forall j, k :: 0 <= j < k < |userIDs| ==> userIDs[j] != userIDs[k]) ==>
      forall i :: 0 <= i < |userIDs| ==> 1 <= multiset(cards)[userIDs[i]] <= 4
  {
    ghost var counts := Counts(countDraws, CardsPerUserMin, CardsPerUserMax);
    cards := [];
    totalCards := 0;
    for i := 0 to |userIDs|
      invariant totalCards == |cards|
      invariant cards == Expand(userIDs[..i], counts[..i])
    {
      var userID := userIDs[i];
      var userCardCount := countDraws[i] + CardsPerUserMin;
      totalCards := totalCards + userCardCount;
      ghost var before := cards;
      for j := 0 to userCardCount
        invariant cards == before + seq(j, _ => userID)
      {
        cards := cards + [userID];
      }
      assert userIDs[..i + 1][..i] == userIDs[..i] && counts[..i + 1][..i] == counts[..i];
    }
    assert userIDs[..|userIDs|] == userIDs && counts[..|counts|] == counts;
    PerUserFacts(userIDs, counts, 1, 4);
  }

  /** What `CreateCards` and `CreateAddresses` promise about an expansion
      whose counts lie in [lo, hi] with lo >= 1. */
  lemma PerUserFacts(owners: seq<int>, counts: seq<nat>, lo: nat, hi: nat)
    requires |owners| == |counts| && 1 <= lo
    requires forall i :: 0 <= i < |counts| ==> lo <= counts[i] <= hi
    ensures lo * |owners| <= |Expand(owners, counts)| <= hi * |owners|
    ensures forall u :: u in Expand(owners, counts) <==> u in owners
    ensures (forall j, k :: 0 <= j < k < |owners| ==> owners[j] != owners[k]) ==>
      forall i :: 0 <= i < |owners| ==> lo <= multiset(Expand(owners, counts))[owners[i]] <= hi
  {
    ExpandSize(owners, counts);
    SumBounds(counts, lo, hi);
    forall u ensures u in Expand(owners, counts) <==> u in owners {
      ExpandMembers(owners, counts, u);
      if u in owners {
        var i :| 0 <= i < |owners| && owners[i] == u;
        assert counts[i] > 0;
      }
    }
    if forall j, k :: 0 <= j < k < |owners| ==> owners[j] != owners[k] {
      forall i | 0 <= i < |owners| ensures lo <= multiset(Expand(owners, counts))[owners[i]] <= hi {
        ExpandMultiplicity(owners, counts, i);
      }
    }
  }

  /** The address loop of `createAddresses`: each user gets
      `rand.IntN(9) + 1` addresses, one to nine, and `totalAddresses` counts
      exactly the addresses built. An address keeps its owner's id. */
  method CreateAddresses(userIDs: seq<int>, countDraws: seq<nat>) returns (addresses: seq<int>, totalAddresses: nat)
    requires |countDraws| == |userIDs|
    requires forall i :: 0 <= i < |countDraws| ==> countDraws[i] < AddressesPerUserMax - AddressesPerUserMin
    ensures totalAddresses == |addresses|
    ensures addresses == Expand(userIDs, Counts(countDraws, AddressesPerUserMin, AddressesPerUserMax))
    ensures |userIDs| <= |addresses| <= 9 * |userIDs|
    ensures forall u :: u in addresses <==> u in userIDs
    ensures (forall j, k :: 0 <= j < k < |userIDs| ==> userIDs[j] != userIDs[k]) ==>
      forall i :: 0 <= i < |userIDs| ==> 1 <= multiset(addresses)[userIDs[i]] <= 9
  {
    ghost var counts := Counts(countDraws, AddressesPerUserMin, AddressesPerUserMax);
    addresses := [];
    totalAddresses := 0;
    for i := 0 to |userIDs|
      invariant totalAddresses == |addresses|
      invariant addresses == Expand(userIDs[..i], counts[..i])
    {
      var userID := userIDs[i];
      var userAddressCount := countDraws[i] + AddressesPerUserMin;
      totalAddresses := totalAddresses + userAddressCount;
      ghost var before := addresses;
      for j := 0 to userAddressCount
        invariant addresses == before + seq(j, _ => userID)
      {
        addresses := addresses + [userID];
      }
      assert userIDs[..i + 1][..i] == userIDs[..i] && counts[..i + 1][..i] == counts[..i];
    }
    assert userIDs[..|userIDs|] == userIDs && counts[..|counts|] == counts;
    PerUserFacts(userIDs, counts, 1, 9);
  }

  // ---------------------------------------------------------------------
  // Orders

  /** The loop of `createOrders`: order `i` is paid by `paymentIDs[i]`, so
      there must be at least `OrderCount` payment ids, or the indexing
      panics; user and courier are chosen among the given ones. */
  method CreateOrders(userIDs: seq<int>, courierIDs: seq<int>, paymentIDs: seq<int>, draws: seq<OrderDraw>)
    returns (orders: seq<Order>)
    requires |paymentIDs| >= OrderCount && |draws| == OrderCount
    requires forall i :: 0 <= i < OrderCount ==> ValidOrderDraw(draws[i], |userIDs|, |courierIDs|)
    ensures |orders| == OrderCount
    ensures forall i :: 0 <= i < OrderCount ==> orders[i] == RandomOrder(paymentIDs[i], userIDs, courierIDs, draws[i])
    ensures forall i :: 0 <= i < OrderCount ==>
      orders[i].paymentID == paymentIDs[i] && orders[i].userID in userIDs && orders[i].courierID in courierIDs
  {
    orders := [];
    for i := 0 to OrderCount
      invariant |orders| == i
      invariant forall k :: 0 <= k < i ==> orders[k] == RandomOrder(paymentIDs[k], userIDs, courierIDs, draws[k])
    {
      orders := orders + [RandomOrder(paymentIDs[i], userIDs, courierIDs, draws[i])];
    }
  }

  /** No two orders share a payment when the payment ids are distinct. */
  lemma OrdersPaidOnce(userIDs: seq<int>, courierIDs: seq<int>, paymentIDs: seq<int>, draws: seq<OrderDraw>, orders: seq<Order>)
    requires |paymentIDs| >= OrderCount && |draws| == OrderCount && |orders| == OrderCount
    requires forall i :: 0 <= i < OrderCount ==> ValidOrderDraw(draws[i], |userIDs|, |courierIDs|)
    requires forall i :: 0 <= i < OrderCount ==> orders[i] == RandomOrder(paymentIDs[i], userIDs, courierIDs, draws[i])
    requires forall j, k :: 0 <= j < k < |paymentIDs| ==> paymentIDs[j] != paymentIDs[k]
    ensures forall j, k :: 0 <= j < k < OrderCount ==> orders[j].paymentID != orders[k].paymentID
  {
  }

  // ---------------------------------------------------------------------
  // Dishes and commodities

  /** A dish or commodity record: its supplier, the name of the predefined
      entry it copies, its price and its rating. */
  datatype Item = Item(supplierID: int, name: string, cost: int, rating: Numeric)

  /** The draws one item consumes: the probe start of `chooseUniq`, the
      price and the rating. */
  datatype ItemDraw = ItemDraw(start: nat, cost: nat, rating: nat)

  /** The draws one supplier consumes: the item count `rand.IntN(7)` and one
      `ItemDraw` per item. */
  datatype SupplierDraw = SupplierDraw(count: nat, items: seq<ItemDraw>)

  /** The draws are in range, and the catalog has room for every item of the
      supplier: `chooseUniq` would probe for ever otherwise. */
  predicate ValidSupplierDraw(d: SupplierDraw, catalogSize: nat)
  {
    && d.count < MaxItemsPerSupplier - MinItemsPerSupplier
    && |d.items| == d.count + MinItemsPerSupplier
    && |d.items| <= catalogSize
    && ValidItemDraws(d.items, catalogSize)
  }

  predicate ValidItemDraws(ds: seq<ItemDraw>, catalogSize: nat)
  {
    forall k :: 0 <= k < |ds| ==> ds[k].start < catalogSize && ds[k].cost < 990 && ds[k].rating < 400
  }

  function Starts(ds: seq<ItemDraw>): (r: seq<nat>)
    ensures |r| == |ds| && forall k :: 0 <= k < |ds| ==> r[k] == ds[k].start
  {
    seq(|ds|, k requires 0 <= k < |ds| => ds[k].start)
  }

  /** One `generateRandomDish` (or `generateRandomCommodity`) record. */
  function MakeItem(supplierID: int, name: string, it: ItemDraw): Item
    requires it.cost < 990 && it.rating < 400
  {
    Item(supplierID, name, RandomCost(it.cost), RandomRating(it.rating))
  }

  /** The items built from the draws `ds` and the catalog entries `picks`
      they copy, one for one. */
  function Named(supplierID: int, catalog: seq<string>, ds: seq<ItemDraw>, picks: seq<nat>): (r: seq<Item>)
    requires |picks| == |ds| && ValidItemDraws(ds, |catalog|)
    requires forall k :: 0 <= k < |picks| ==> picks[k] < |catalog|
    ensures |r| == |ds|
  {
    seq(|ds|, k requires 0 <= k < |ds| => MakeItem(supplierID, catalog[picks[k]], ds[k]))
  }

  lemma NamedCons(supplierID: int, catalog: seq<string>, ds: seq<ItemDraw>, picks: seq<nat>)
    requires |picks| == |ds| > 0 && ValidItemDraws(ds, |catalog|)
    requires forall k :: 0 <= k < |picks| ==> picks[k] < |catalog|
    ensures ValidItemDraws(ds[1..], |catalog|) && forall k :: 0 <= k < |picks| - 1 ==> picks[1..][k] < |catalog|
    ensures Named(supplierID, catalog, ds, picks)
      == [MakeItem(supplierID, catalog[picks[0]], ds[0])] + Named(supplierID, catalog, ds[1..], picks[1..])
  {
    assert forall k :: 0 <= k < |ds| - 1 ==> ds[1..][k] == ds[k + 1];
  }

  /** The items one supplier gets: entry `k` copies the catalog entry the
      `k`-th `chooseUniq` call picks, with one `taken` set per supplier. */
  function SupplierItems(supplierID: int, catalog: seq<string>, d: SupplierDraw): (r: seq<Item>)
    requires ValidSupplierDraw(d, |catalog|)
    ensures |r| == |d.items|
  {
    Named(supplierID, catalog, d.items, PickIndices(|catalog|, Starts(d.items), {}))
  }

  /** The items the inner loop still builds from the draws `ds` when
      `taken` holds the catalog entries already picked. */
  function BlockFrom(supplierID: int, catalog: seq<string>, ds: seq<ItemDraw>, taken: set<nat>): (r: seq<Item>)
    requires forall x :: x in taken ==> x < |catalog|
    requires |taken| + |ds| <= |catalog| && ValidItemDraws(ds, |catalog|)
    decreases |ds|
  {
    if ds == [] then []
    else
      FreeWhenSmall(|catalog|, taken);
      var idx := FirstFree(|catalog|, ds[0].start, taken);
      FirstFreeIsFirst(|catalog|, ds[0].start, taken);
      [MakeItem(supplierID, catalog[idx], ds[0])] + BlockFrom(supplierID, catalog, ds[1..], taken + {idx})
  }

  /** The loop's items are the catalog entries `PickIndices` selects. */
  lemma {:induction false} BlockFromPicks(supplierID: int, catalog: seq<string>, ds: seq<ItemDraw>, taken: set<nat>)
    requires forall x :: x in taken ==> x < |catalog|
    requires |taken| + |ds| <= |catalog| && ValidItemDraws(ds, |catalog|)
    ensures BlockFrom(supplierID, catalog, ds, taken) == Named(supplierID, catalog, ds, PickIndices(|catalog|, Starts(ds), taken))
    decreases |ds|
  {
    if ds != [] {
      var n := |catalog|;
      FreeWhenSmall(n, taken);
      var idx := FirstFree(n, ds[0].start, taken);
      FirstFreeIsFirst(n, ds[0].start, taken);
      var picks := PickIndices(n, Starts(ds), taken);
      NamedCons(supplierID, catalog, ds, picks);
      BlockFromPicks(supplierID, catalog, ds[1..], taken + {idx});
      assert Starts(ds)[1..] == Starts(ds[1..]);
      assert picks == [idx] + PickIndices(n, Starts(ds[1..]), taken + {idx});
    }
  }

  /** What one supplier contributes: its items when `hash(id) % 3`, with
      Go's remainder, passes the kind's test, nothing otherwise. */
  function Share(kind: ItemKind, supplierID: int, hash: int -> int, catalog: seq<string>, d: SupplierDraw): seq<Item>
    requires ValidSupplierDraw(d, |catalog|)
  {
    if StocksAsWritten(kind, hash(supplierID)) then SupplierItems(supplierID, catalog, d) else []
  }

  predicate ValidSupplierDraws(draws: seq<SupplierDraw>, catalogSize: nat)
  {
    forall i :: 0 <= i < |draws| ==> ValidSupplierDraw(draws[i], catalogSize)
  }

  lemma ValidSupplierDrawsSuffix(draws: seq<SupplierDraw>, catalogSize: nat, i: nat)
    requires ValidSupplierDraws(draws, catalogSize) && i <= |draws|
    ensures ValidSupplierDraws(draws[i..], catalogSize)
  {
    assert forall j :: 0 <= j < |draws| - i ==> draws[i..][j] == draws[i + j];
  }

  /** The records `createDishes` (kind `DishKind`) or `createCommodities`
      (kind `CommodityKind`) builds, supplier by supplier. */
  function ItemsFor(kind: ItemKind, supplierIDs: seq<int>, hash: int -> int, catalog: seq<string>, draws: seq<SupplierDraw>): seq<Item>
    requires |draws| == |supplierIDs|
    requires ValidSupplierDraws(draws, |catalog|)
  {
    if supplierIDs == [] then []
    else
      ValidSupplierDrawsSuffix(draws, |catalog|, 1);
      Share(kind, supplierIDs[0], hash, catalog, draws[0]) + ItemsFor(kind, supplierIDs[1..], hash, catalog, draws[1..])
  }

  /** The supplier loop of `createDishes` and `createCommodities`: a
      supplier whose hash passes the kind's test gets 3 to 9 items,
      picked without repetition from the predefined catalog. */
  method CreateSupplierItems(kind: ItemKind, supplierIDs: seq<int>, hash: int -> int, catalog: seq<string>, draws: seq<SupplierDraw>)
    returns (items: seq<Item>)
    requires |draws| == |supplierIDs|
    requires ValidSupplierDraws(draws, |catalog|)
    ensures items == ItemsFor(kind, supplierIDs, hash, catalog, draws)
  {
    items := [];
    for i := 0 to |supplierIDs|
      invariant ValidSupplierDraws(draws[i..], |catalog|)
      invariant items + ItemsFor(kind, supplierIDs[i..], hash, catalog, draws[i..]) == ItemsFor(kind, supplierIDs, hash, catalog, draws)
    {
      ValidSupplierDrawsSuffix(draws, |catalog|, i + 1);
      assert draws[i..][0] == draws[i];
      var block := SupplierShare(kind, supplierIDs[i], hash, catalog, draws[i]);
      ItemsForStep(kind, supplierIDs, hash, catalog, draws, i, items, block);
      items := items + block;
    }
    assert supplierIDs[|supplierIDs|..] == [];
  }

  /** The body of the supplier loop: the hash filter, then the supplier's
      block of items. */
  method SupplierShare(kind: ItemKind, supplierID: int, hash: int -> int, catalog: seq<string>, d: SupplierDraw) returns (block: seq<Item>)
    requires ValidSupplierDraw(d, |catalog|)
    ensures block == Share(kind, supplierID, hash, catalog, d)
  {
    var h := GoRem(hash(supplierID), 3);
    block := [];
    if (kind == DishKind && (h == 0 || h == 1)) || (kind == CommodityKind && (h == 0 || h == 2)) {
      block := SupplierBlock(supplierID, catalog, d);
    }
  }

  /** One turn of the supplier loop: the block of supplier `i` moves from
      the remaining suppliers' items to the items built. */
  lemma ItemsForStep(kind: ItemKind, supplierIDs: seq<int>, hash: int -> int, catalog: seq<string>, draws: seq<SupplierDraw>, i: nat,
                     items: seq<Item>, block: seq<Item>)
    requires |draws| == |supplierIDs| && i < |supplierIDs|
    requires ValidSupplierDraws(draws, |catalog|)
    requires ValidSupplierDraws(draws[i..], |catalog|) && ValidSupplierDraws(draws[i + 1..], |catalog|)
    requires items + ItemsFor(kind, supplierIDs[i..], hash, catalog, draws[i..]) == ItemsFor(kind, supplierIDs, hash, catalog, draws)
    requires ValidSupplierDraw(draws[i], |catalog|) && block == Share(kind, supplierIDs[i], hash, catalog, draws[i])
    ensures (items + block) + ItemsFor(kind, supplierIDs[i + 1..], hash, catalog, draws[i + 1..]) == ItemsFor(kind, supplierIDs, hash, catalog, draws)
  {
    assert supplierIDs[i..][1..] == supplierIDs[i + 1..] && draws[i..][1..] == draws[i + 1..];
    assert supplierIDs[i..][0] == supplierIDs[i] && draws[i..][0] == draws[i];
    var rest := ItemsFor(kind, supplierIDs[i + 1..], hash, catalog, draws[i + 1..]);
    assert ItemsFor(kind, supplierIDs[i..], hash, catalog, draws[i..]) == block + rest;
    AppendAssoc(items, block, rest);
  }

  /** The inner loop: `count + 3` calls of `generateRandomDish` (or
      `generateRandomCommodity`) sharing one fresh `taken` set. */
  method SupplierBlock(supplierID: int, catalog: seq<string>, d: SupplierDraw) returns (block: seq<Item>)
    requires ValidSupplierDraw(d, |catalog|)
    ensures block == SupplierItems(supplierID, catalog, d)
  {
    var ds := d.items;
    var taken: set<nat> := {};
    block := [];
    for k := 0 to |ds|
      invariant |taken| == k && forall x :: x in taken ==> x < |catalog|
      invariant ValidItemDraws(ds[k..], |catalog|)
      invariant block + BlockFrom(supplierID, catalog, ds[k..], taken) == BlockFrom(supplierID, catalog, ds, {})
    {
      BlockStep(supplierID, catalog, ds, k, taken);
      var name, idx, taken' := ChooseUniq(catalog, ds[k].start, taken);
      BlockLoopStep(supplierID, catalog, ds, k, taken, block);
      taken := taken';
      block := block + [MakeItem(supplierID, name, ds[k])];
    }
    assert ds[|ds|..] == [];
    BlockFromPicks(supplierID, catalog, ds, {});
  }

  /** The inner loop's invariant survives one turn. */
  lemma BlockLoopStep(supplierID: int, catalog: seq<string>, ds: seq<ItemDraw>, k: nat, taken: set<nat>, block: seq<Item>)
    requires k < |ds| && |ds| <= |catalog| && ValidItemDraws(ds, |catalog|)
    requires |taken| == k && forall x :: x in taken ==> x < |catalog|
    requires ValidItemDraws(ds[k..], |catalog|)
    requires block + BlockFrom(supplierID, catalog, ds[k..], taken) == BlockFrom(supplierID, catalog, ds, {})
    ensures HasFree(|catalog|, taken) && ds[k].start < |catalog| && ds[k].cost < 990 && ds[k].rating < 400
    ensures var idx := FirstFree(|catalog|, ds[k].start, taken);
      && idx < |catalog| && idx !in taken
      && |taken + {idx}| == k + 1 && (forall x :: x in taken + {idx} ==> x < |catalog|)
      && ValidItemDraws(ds[k + 1..], |catalog|)
      && (block + [MakeItem(supplierID, catalog[idx], ds[k])]) + BlockFrom(supplierID, catalog, ds[k + 1..], taken + {idx})
         == BlockFrom(supplierID, catalog, ds, {})
  {
    BlockStep(supplierID, catalog, ds, k, taken);
    var idx := FirstFree(|catalog|, ds[k].start, taken);
    var item := MakeItem(supplierID, catalog[idx], ds[k]);
    var rest := BlockFrom(supplierID, catalog, ds[k + 1..], taken + {idx});
    AppendAssoc(block, [item], rest);
  }

  /** One `chooseUniq` call of the inner loop builds the next item of
      `BlockFrom`. */
  lemma BlockStep(supplierID: int, catalog: seq<string>, ds: seq<ItemDraw>, k: nat, taken: set<nat>)
    requires k < |ds| && forall x :: x in taken ==> x < |catalog|
    requires |taken| + |ds| - k <= |catalog| && ValidItemDraws(ds[k..], |catalog|)
    ensures HasFree(|catalog|, taken) && ds[k].start < |catalog| && ds[k].cost < 990 && ds[k].rating < 400
    ensures FirstFree(|catalog|, ds[k].start, taken) < |catalog| && FirstFree(|catalog|, ds[k].start, taken) !in taken
    ensures ValidItemDraws(ds[k + 1..], |catalog|)
    ensures BlockFrom(supplierID, catalog, ds[k..], taken)
      == [MakeItem(supplierID, catalog[FirstFree(|catalog|, ds[k].start, taken)], ds[k])]
         + BlockFrom(supplierID, catalog, ds[k + 1..], taken + {FirstFree(|catalog|, ds[k].start, taken)})
  {
    FreeWhenSmall(|catalog|, taken);
    FirstFreeIsFirst(|catalog|, ds[k].start, taken);
    assert ds[k..][0] == ds[k];
    assert ds[k..][1..] == ds[k + 1..];
  }

  /** A supplier's items all name it, number 3 to 9, copy pairwise distinct
      catalog entries, and carry a price and a rating in range. */
  lemma SupplierItemsFacts(supplierID: int, catalog: seq<string>, d: SupplierDraw)
    requires ValidSupplierDraw(d, |catalog|)
    ensures var r := SupplierItems(supplierID, catalog, d);
      && MinItemsPerSupplier <= |r| < MaxItemsPerSupplier
      && (forall k :: 0 <= k < |r| ==> r[k].supplierID == supplierID && r[k].name in catalog)
      && (forall k :: 0 <= k < |r| ==> 100 <= r[k].cost <= 9990 && 100 <= r[k].rating.mantissa <= 499)
      && ((forall j, k :: 0 <= j < k < |catalog| ==> catalog[j] != catalog[k]) ==>
            forall j, k :: 0 <= j < k < |r| ==> r[j].name != r[k].name)
  {
    PickIndicesDistinct(|catalog|, Starts(d.items), {});
  }

  /** Some item belongs to supplier `s`. */
  predicate Supplies(items: seq<Item>, s: int)
  {
    exists it :: it in items && it.supplierID == s
  }

  /** Every item belongs to one of the suppliers, and a supplier gets items
      exactly when its hash passes the kind's test as written. */
  lemma {:induction false} ItemsForSuppliers(kind: ItemKind, supplierIDs: seq<int>, hash: int -> int, catalog: seq<string>, draws: seq<SupplierDraw>, s: int)
    requires |draws| == |supplierIDs|
    requires ValidSupplierDraws(draws, |catalog|)
    ensures Supplies(ItemsFor(kind, supplierIDs, hash, catalog, draws), s) <==> s in supplierIDs && StocksAsWritten(kind, hash(s))
  {
    if supplierIDs != [] {
      var first := SupplierItems(supplierIDs[0], catalog, draws[0]);
      assert Share(kind, supplierIDs[0], hash, catalog, draws[0]) == if StocksAsWritten(kind, hash(supplierIDs[0])) then first else [];
      SupplierItemsFacts(supplierIDs[0], catalog, draws[0]);
      ItemsForSuppliers(kind, supplierIDs[1..], hash, catalog, draws[1..], s);
      var all := ItemsFor(kind, supplierIDs, hash, catalog, draws);
      var rest := ItemsFor(kind, supplierIDs[1..], hash, catalog, draws[1..]);
      assert s in supplierIDs <==> s == supplierIDs[0] || s in supplierIDs[1..];
      if StocksAsWritten(kind, hash(supplierIDs[0])) {
        assert all == first + rest;
        if s == supplierIDs[0] {
          assert first[0] in all;
        }
        if Supplies(all, s) {
          var it :| it in all && it.supplierID == s;
          if it !in rest {
            assert it in first;
          }
        }
        if Supplies(rest, s) {
          var it :| it in rest && it.supplierID == s;
          assert it in all;
        }
      } else {
        assert all == rest;
      }
    }
  }

  /** As written, supplier `s` gets dishes or commodities exactly when its
      hash is not negative or is a multiple of 3; the rest of the
      suppliers get nothing, where the intended remainder would give every
      supplier one kind or both (`StocksPartitionsSuppliers`). */
  lemma SupplierCoverage(supplierIDs: seq<int>, hash: int -> int, dishCatalog: seq<string>, dishDraws: seq<SupplierDraw>,
                         commodityCatalog: seq<string>, commodityDraws: seq<SupplierDraw>, s: int)
    requires |dishDraws| == |supplierIDs| && |commodityDraws| == |supplierIDs|
    requires ValidSupplierDraws(dishDraws, |dishCatalog|) && ValidSupplierDraws(commodityDraws, |commodityCatalog|)
    requires s in supplierIDs
    ensures Supplies(ItemsFor(DishKind, supplierIDs, hash, dishCatalog, dishDraws), s)
         || Supplies(ItemsFor(CommodityKind, supplierIDs, hash, commodityCatalog, commodityDraws), s)
      <==> hash(s) >= 0 || hash(s) % 3 == 0
  {
    ItemsForSuppliers(DishKind, supplierIDs, hash, dishCatalog, dishDraws, s);
    ItemsForSuppliers(CommodityKind, supplierIDs, hash, commodityCatalog, commodityDraws, s);
    StocksAsWrittenSkipsSuppliers(hash(s));
  }

  // ---------------------------------------------------------------------
  // Order compositions

  /** A composition or link entry points at a dish or at a commodity. */
  datatype Target = DishTarget(id: int) | CommodityTarget(id: int)

  datatype Composition = Composition(orderID: int, target: Target)

  /** The draws one order consumes: `items` is `rand.IntN(9)`, `dishes` is
      `rand.IntN(itemCount + 1)`, then one index per dish and per commodity. */
  datatype OrderMix = OrderMix(items: nat, dishes: nat, dishPicks: seq<nat>, commodityPicks: seq<nat>)

  function ItemCount(m: OrderMix): nat
  {
    m.items + MinItemsPerOrder
  }

  /** The draws are in range; an order with dishes (commodities) needs a
      non-empty dish (commodity) list, since `rand.IntN(0)` panics. */
  predicate ValidMix(m: OrderMix, dishCount: nat, commodityCount: nat)
  {
    && m.items < MaxItemsPerOrder - MinItemsPerOrder
    && m.dishes <= ItemCount(m)
    && |m.dishPicks| == m.dishes
    && |m.commodityPicks| == ItemCount(m) - m.dishes
    && (forall k :: 0 <= k < |m.dishPicks| ==> m.dishPicks[k] < dishCount)
    && (forall k :: 0 <= k < |m.commodityPicks| ==> m.commodityPicks[k] < commodityCount)
  }

  /** One order's entries: its dishes first, then its commodities. */
  function OrderBlock(orderID: int, dishIDs: seq<int>, commodityIDs: seq<int>, m: OrderMix): (r: seq<Composition>)
    requires ValidMix(m, |dishIDs|, |commodityIDs|)
    ensures |r| == ItemCount(m)
  {
    seq(|m.dishPicks|, k requires 0 <= k < |m.dishPicks| => Composition(orderID, DishTarget(dishIDs[m.dishPicks[k]])))
    + seq(|m.commodityPicks|, k requires 0 <= k < |m.commodityPicks| => Composition(orderID, CommodityTarget(commodityIDs[m.commodityPicks[k]])))
  }

  function Compositions(orderIDs: seq<int>, dishIDs: seq<int>, commodityIDs: seq<int>, mixes: seq<OrderMix>): seq<Composition>
    requires |mixes| == |orderIDs|
    requires forall i :: 0 <= i < |mixes| ==> ValidMix(mixes[i], |dishIDs|, |commodityIDs|)
  {
    if orderIDs == [] then []
    else OrderBlock(orderIDs[0], dishIDs, commodityIDs, mixes[0]) + Compositions(orderIDs[1..], dishIDs, commodityIDs, mixes[1..])
  }

  /** An order gets 1 to 9 entries: `dishes` dish entries taken from the dish
      ids, then `itemCount - dishes` commodity entries taken from the
      commodity ids, so the two counts add up to the item count. */
  lemma OrderBlockFacts(orderID: int, dishIDs: seq<int>, commodityIDs: seq<int>, m: OrderMix)
    requires ValidMix(m, |dishIDs|, |commodityIDs|)
    ensures var r := OrderBlock(orderID, dishIDs, commodityIDs, m);
      && MinItemsPerOrder <= |r| < MaxItemsPerOrder
      && m.dishes + (ItemCount(m) - m.dishes) == |r|
      && (forall k :: 0 <= k < |r| ==> r[k].orderID == orderID)
      && (forall k :: 0 <= k < m.dishes ==> r[k].target.DishTarget? && r[k].target.id in dishIDs)
      && (forall k :: m.dishes <= k < |r| ==> r[k].target.CommodityTarget? && r[k].target.id in commodityIDs)
  {
  }

  /** The loop of `createOrderCompositions`. */
  method CreateOrderCompositions(orderIDs: seq<int>, dishIDs: seq<int>, commodityIDs: seq<int>, mixes: seq<OrderMix>)
    returns (compositions: seq<Composition>)
    requires |mixes| == |orderIDs|
    requires forall i :: 0 <= i < |mixes| ==> ValidMix(mixes[i], |dishIDs|, |commodityIDs|)
    ensures compositions == Compositions(orderIDs, dishIDs, commodityIDs, mixes)
  {
    compositions := [];
    for i := 0 to |orderIDs|
      invariant compositions + Compositions(orderIDs[i..], dishIDs, commodityIDs, mixes[i..]) == Compositions(orderIDs, dishIDs, commodityIDs, mixes)
    {
      CompositionsStep(orderIDs, dishIDs, commodityIDs, mixes, i);
      var entries := OrderEntries(orderIDs[i], dishIDs, commodityIDs, mixes[i]);
      compositions := compositions + entries;
    }
    assert orderIDs[|orderIDs|..] == [];
  }

  lemma CompositionsStep(orderIDs: seq<int>, dishIDs: seq<int>, commodityIDs: seq<int>, mixes: seq<OrderMix>, i: nat)
    requires |mixes| == |orderIDs| && i < |orderIDs|
    requires forall i :: 0 <= i < |mixes| ==> ValidMix(mixes[i], |dishIDs|, |commodityIDs|)
    ensures Compositions(orderIDs[i..], dishIDs, commodityIDs, mixes[i..])
      == OrderBlock(orderIDs[i], dishIDs, commodityIDs, mixes[i]) + Compositions(orderIDs[i + 1..], dishIDs, commodityIDs, mixes[i + 1..])
  {
    assert orderIDs[i..][1..] == orderIDs[i + 1..] && mixes[i..][1..] == mixes[i + 1..];
  }

  /** The body of the order loop: `dishCount` dish entries, then
      `itemCount - dishCount` commodity entries, each index drawn with
      `rand.IntN` over the whole list. */
  method OrderEntries(orderID: int, dishIDs: seq<int>, commodityIDs: seq<int>, m: OrderMix) returns (entries: seq<Composition>)
    requires ValidMix(m, |dishIDs|, |commodityIDs|)
    ensures entries == OrderBlock(orderID, dishIDs, commodityIDs, m)
  {
    var itemCount := m.items + MinItemsPerOrder;
    var dishCount := m.dishes;
    var commodityCount := itemCount - dishCount;
    entries := [];
    for k := 0 to dishCount
      invariant |entries| == k
      invariant forall j :: 0 <= j < k ==> entries[j] == Composition(orderID, DishTarget(dishIDs[m.dishPicks[j]]))
    {
      entries := entries + [Composition(orderID, DishTarget(dishIDs[m.dishPicks[k]]))];
    }
    for k := 0 to commodityCount
      invariant |entries| == dishCount + k
      invariant forall j :: 0 <= j < dishCount ==> entries[j] == Composition(orderID, DishTarget(dishIDs[m.dishPicks[j]]))
      invariant forall j :: 0 <= j < k ==> entries[dishCount + j] == Composition(orderID, CommodityTarget(commodityIDs[m.commodityPicks[j]]))
    {
      entries := entries + [Composition(orderID, CommodityTarget(commodityIDs[m.commodityPicks[k]]))];
    }
  }

  // ---------------------------------------------------------------------
  // Categories to targets

  datatype CategoryLink = CategoryLink(target: Target, categoryID: int)

  /** `rand.IntN(5)` (0 skips the target), then the category index of
      `choose(categoryIDs)`, which is drawn only for a target kept. */
  datatype LinkDraw = LinkDraw(skip: nat, category: nat)

  predicate ValidLinkDraw(d: LinkDraw, categoryCount: nat)
  {
    d.skip < 5 && (d.skip != 0 ==> d.category < categoryCount)
  }

  function Links(ids: seq<int>, draws: seq<LinkDraw>, categoryIDs: seq<int>, dishes: bool): seq<CategoryLink>
    requires |draws| == |ids|
    requires forall i :: 0 <= i < |draws| ==> ValidLinkDraw(draws[i], |categoryIDs|)
  {
    if ids == [] then []
    else
      var n := |ids| - 1;
      assert ValidLinkDraw(draws[n], |categoryIDs|);
      Links(ids[..n], draws[..n], categoryIDs, dishes)
      + if draws[n].skip == 0 then []
        else [CategoryLink(if dishes then DishTarget(ids[n]) else CommodityTarget(ids[n]), categoryIDs[draws[n].category])]
  }

  /** Some target with id `x` has a skip draw other than 0. */
  predicate Kept(ids: seq<int>, draws: seq<LinkDraw>, x: int)
    requires |draws| == |ids|
  {
    exists i :: 0 <= i < |ids| && ids[i] == x && draws[i].skip != 0
  }

  /** Every link names one of the categories and one of the targets, and a
      target is linked exactly when its skip draw is not 0. */
  lemma {:induction false} LinksFacts(ids: seq<int>, draws: seq<LinkDraw>, categoryIDs: seq<int>, dishes: bool)
    requires |draws| == |ids|
    requires forall i :: 0 <= i < |draws| ==> ValidLinkDraw(draws[i], |categoryIDs|)
    ensures |Links(ids, draws, categoryIDs, dishes)| <= |ids|
    ensures forall l :: l in Links(ids, draws, categoryIDs, dishes) ==>
      l.categoryID in categoryIDs && l.target.id in ids && l.target.DishTarget? == dishes
    ensures forall i :: 0 <= i < |ids| && draws[i].skip != 0 ==>
      exists l :: l in Links(ids, draws, categoryIDs, dishes) && l.target.id == ids[i]
    ensures forall l :: l in Links(ids, draws, categoryIDs, dishes) ==> Kept(ids, draws, l.target.id)
  {
    if ids != [] {
      var n := |ids| - 1;
      LinksFacts(ids[..n], draws[..n], categoryIDs, dishes);
      var init := Links(ids[..n], draws[..n], categoryIDs, dishes);
      var all := Links(ids, draws, categoryIDs, dishes);
      assert forall l :: l in init ==> l in all;
      forall i | 0 <= i < |ids| && draws[i].skip != 0
        ensures exists l :: l in all && l.target.id == ids[i]
      {
        if i < n {
          assert ids[..n][i] == ids[i] && draws[..n][i] == draws[i];
          var l :| l in init && l.target.id == ids[i];
          assert l in all;
        } else {
          assert all[|all| - 1] in all;
        }
      }
      forall l | l in all ensures Kept(ids, draws, l.target.id) {
        if l in init {
          var j :| 0 <= j < n && ids[..n][j] == l.target.id && draws[..n][j].skip != 0;
          assert ids[j] == l.target.id && draws[j].skip != 0;
        } else {
          assert draws[n].skip != 0 && l.target.id == ids[n];
        }
      }
    }
  }

  /** The two loops of `createCategoriesToTargets`: dishes, then
      commodities, each kept with probability 4/5 and given a category. */
  method CreateCategoriesToTargets(categoryIDs: seq<int>, dishIDs: seq<int>, commodityIDs: seq<int>, dishDraws: seq<LinkDraw>, commodityDraws: seq<LinkDraw>)
    returns (links: seq<CategoryLink>)
    requires |dishDraws| == |dishIDs| && |commodityDraws| == |commodityIDs|
    requires forall i :: 0 <= i < |dishDraws| ==> ValidLinkDraw(dishDraws[i], |categoryIDs|)
    requires forall i :: 0 <= i < |commodityDraws| ==> ValidLinkDraw(commodityDraws[i], |categoryIDs|)
    ensures links == Links(dishIDs, dishDraws, categoryIDs, true) + Links(commodityIDs, commodityDraws, categoryIDs, false)
  {
    links := [];
    for i := 0 to |dishIDs|
      invariant links == Links(dishIDs[..i], dishDraws[..i], categoryIDs, true)
    {
      assert dishIDs[..i + 1][..i] == dishIDs[..i] && dishDraws[..i + 1][..i] == dishDraws[..i];
      if dishDraws[i].skip == 0 {
        continue;
      }
      links := links + [CategoryLink(DishTarget(dishIDs[i]), Choose(categoryIDs, dishDraws[i].category))];
    }
    assert dishIDs[..|dishIDs|] == dishIDs && dishDraws[..|dishDraws|] == dishDraws;
    ghost var dishLinks := links;
    for i := 0 to |commodityIDs|
      invariant links == dishLinks + Links(commodityIDs[..i], commodityDraws[..i], categoryIDs, false)
    {
      assert commodityIDs[..i + 1][..i] == commodityIDs[..i] && commodityDraws[..i + 1][..i] == commodityDraws[..i];
      if commodityDraws[i].skip == 0 {
        continue;
      }
      links := links + [CategoryLink(CommodityTarget(commodityIDs[i]), Choose(categoryIDs, commodityDraws[i].category))];
    }
    assert commodityIDs[..|commodityIDs|] == commodityIDs && commodityDraws[..|commodityDraws|] == commodityDraws;
  }

  // ---------------------------------------------------------------------
  // Discounts to targets

  datatype DiscountTarget = DiscountTarget(discountID: int, target: Target)

  /** The draws one discount consumes: `rand.IntN(3)` deciding on dishes,
      the probe starts of the dish picks (as many as `rand.IntN(10) + 1`),
      then `rand.IntN(3)` deciding on commodities and their probe starts. */
  datatype DiscountDraw = DiscountDraw(dishCoin: nat, dishStarts: seq<nat>, commodityCoin: nat, commodityStarts: seq<nat>)

  /** Commodities are picked when the coin says so, and always when no dish
      was picked. */
  predicate PicksCommodities(d: DiscountDraw)
  {
    d.commodityCoin != 0 || d.dishCoin == 0
  }

  /** The draws are in range, and a list picked from has room for every
      pick: `chooseUniq` would probe for ever (or `rand.IntN(0)` panic)
      otherwise. */
  predicate ValidPicks(picked: bool, starts: seq<nat>, n: nat)
  {
    if picked then 1 <= |starts| <= 10 && |starts| <= n && forall k :: 0 <= k < |starts| ==> starts[k] < n
    else starts == []
  }

  predicate ValidDiscountDraw(d: DiscountDraw, dishCount: nat, commodityCount: nat)
  {
    && d.dishCoin < 3 && d.commodityCoin < 3
    && ValidPicks(d.dishCoin != 0, d.dishStarts, dishCount)
    && ValidPicks(PicksCommodities(d), d.commodityStarts, commodityCount)
  }

  /** The ids successive `chooseUniq` calls pick from `values`, sharing one
      fresh `alreadyChosen` set. */
  function PickedValues(values: seq<int>, starts: seq<nat>): (r: seq<int>)
    requires |starts| <= |values| && forall k :: 0 <= k < |starts| ==> starts[k] < |values|
    ensures |r| == |starts|
  {
    var idx := PickIndices(|values|, starts, {});
    PickIndicesDistinct(|values|, starts, {});
    seq(|starts|, k requires 0 <= k < |starts| => values[idx[k]])
  }

  /** One discount's targets: its dishes, then its commodities. */
  function DiscountBlock(discountID: int, dishIDs: seq<int>, commodityIDs: seq<int>, d: DiscountDraw): seq<DiscountTarget>
    requires ValidDiscountDraw(d, |dishIDs|, |commodityIDs|)
  {
    var dishes := PickedValues(dishIDs, d.dishStarts);
    var commodities := PickedValues(commodityIDs, d.commodityStarts);
    seq(|dishes|, k requires 0 <= k < |dishes| => DiscountTarget(discountID, DishTarget(dishes[k])))
    + seq(|commodities|, k requires 0 <= k < |commodities| => DiscountTarget(discountID, CommodityTarget(commodities[k])))
  }

  /** Every discount gets at least one target and at most twenty, all for
      it; with distinct ids, no dish and no commodity is targeted twice. */
  lemma DiscountBlockFacts(discountID: int, dishIDs: seq<int>, commodityIDs: seq<int>, d: DiscountDraw)
    requires ValidDiscountDraw(d, |dishIDs|, |commodityIDs|)
    ensures var r := DiscountBlock(discountID, dishIDs, commodityIDs, d);
      && 1 <= |r| <= 20
      && (forall k :: 0 <= k < |r| ==> r[k].discountID == discountID)
      && ((forall j, k :: 0 <= j < k < |dishIDs| ==> dishIDs[j] != dishIDs[k]) &&
          (forall j, k :: 0 <= j < k < |commodityIDs| ==> commodityIDs[j] != commodityIDs[k]) ==>
            forall j, k :: 0 <= j < k < |r| ==> r[j] != r[k])
  {
    PickIndicesDistinct(|dishIDs|, d.dishStarts, {});
    PickIndicesDistinct(|commodityIDs|, d.commodityStarts, {});
  }

  predicate ValidDiscountDraws(draws: seq<DiscountDraw>, dishCount: nat, commodityCount: nat)
  {
    forall i :: 0 <= i < |draws| ==> ValidDiscountDraw(draws[i], dishCount, commodityCount)
  }

  lemma ValidDiscountDrawsSuffix(draws: seq<DiscountDraw>, dishCount: nat, commodityCount: nat, i: nat)
    requires ValidDiscountDraws(draws, dishCount, commodityCount) && i <= |draws|
    ensures ValidDiscountDraws(draws[i..], dishCount, commodityCount)
  {
    assert forall j :: 0 <= j < |draws| - i ==> draws[i..][j] == draws[i + j];
  }

  /** The discount has at least one entry among `targets`. */
  predicate HasTarget(targets: seq<DiscountTarget>, discountID: int)
  {
    exists t :: t in targets && t.discountID == discountID
  }

  function DiscountTargets(discountIDs: seq<int>, dishIDs: seq<int>, commodityIDs: seq<int>, draws: seq<DiscountDraw>): seq<DiscountTarget>
    requires |draws| == |discountIDs|
    requires ValidDiscountDraws(draws, |dishIDs|, |commodityIDs|)
  {
    if discountIDs == [] then []
    else
      ValidDiscountDrawsSuffix(draws, |dishIDs|, |commodityIDs|, 1);
      DiscountBlock(discountIDs[0], dishIDs, commodityIDs, draws[0]) + DiscountTargets(discountIDs[1..], dishIDs, commodityIDs, draws[1..])
  }

  /** The `chooseUniq` loop that fills `discountDishIDs` (or
      `discountCommodityIDs`). */
  method PickUniq(values: seq<int>, starts: seq<nat>) returns (picked: seq<int>)
    requires |starts| <= |values| && forall k :: 0 <= k < |starts| ==> starts[k] < |values|
    ensures picked == PickedValues(values, starts)
  {
    var n := |values|;
    var alreadyChosen: set<nat> := {};
    ghost var idx: seq<nat> := [];
    picked := [];
    for k := 0 to |starts|
      invariant |idx| == k == |picked| == |alreadyChosen|
      invariant forall x :: x in alreadyChosen ==> x < n
      invariant idx + PickIndices(n, starts[k..], alreadyChosen) == PickIndices(n, starts, {})
      invariant forall j :: 0 <= j < k ==> idx[j] < n && picked[j] == values[idx[j]]
    {
      PickStep(n, starts, k, alreadyChosen);
      var v, i, chosen' := ChooseUniq(values, starts[k], alreadyChosen);
      PickLoopStep(values, starts, k, alreadyChosen, idx, picked);
      idx := idx + [i];
      alreadyChosen := chosen';
      picked := picked + [v];
    }
  }

  /** One `chooseUniq` call picks the next index of `PickIndices`. */
  lemma PickStep(n: nat, starts: seq<nat>, k: nat, taken: set<nat>)
    requires k < |starts| && forall x :: x in taken ==> x < n
    requires |taken| + |starts| - k <= n
    requires forall j :: 0 <= j < |starts| ==> starts[j] < n
    ensures HasFree(n, taken) && starts[k] < n
    ensures FirstFree(n, starts[k], taken) < n && FirstFree(n, starts[k], taken) !in taken
    ensures PickIndices(n, starts[k..], taken)
      == [FirstFree(n, starts[k], taken)] + PickIndices(n, starts[k + 1..], taken + {FirstFree(n, starts[k], taken)})
  {
    FreeWhenSmall(n, taken);
    FirstFreeIsFirst(n, starts[k], taken);
    assert starts[k..][1..] == starts[k + 1..];
  }

  /** The `chooseUniq` loop's invariant survives one turn. */
  lemma PickLoopStep(values: seq<int>, starts: seq<nat>, k: nat, taken: set<nat>, idx: seq<nat>, picked: seq<int>)
    requires k < |starts| <= |values| && forall j :: 0 <= j < |starts| ==> starts[j] < |values|
    requires |idx| == k == |picked| == |taken| && forall x :: x in taken ==> x < |values|
    requires idx + PickIndices(|values|, starts[k..], taken) == PickIndices(|values|, starts, {})
    requires forall j :: 0 <= j < k ==> idx[j] < |values| && picked[j] == values[idx[j]]
    ensures HasFree(|values|, taken) && starts[k] < |values|
    ensures var i := FirstFree(|values|, starts[k], taken);
      && i < |values| && i !in taken
      && |taken + {i}| == k + 1 && (forall x :: x in taken + {i} ==> x < |values|)
      && (idx + [i]) + PickIndices(|values|, starts[k + 1..], taken + {i}) == PickIndices(|values|, starts, {})
      && (forall j :: 0 <= j < k + 1 ==> (idx + [i])[j] < |values| && (picked + [values[i]])[j] == values[(idx + [i])[j]])
  {
    PickStep(|values|, starts, k, taken);
    var i := FirstFree(|values|, starts[k], taken);
    var rest := PickIndices(|values|, starts[k + 1..], taken + {i});
    AppendAssoc(idx, [i], rest);
  }

  /** The loop of `createDiscountsToTargets`. */
  method CreateDiscountsToTargets(discountIDs: seq<int>, dishIDs: seq<int>, commodityIDs: seq<int>, draws: seq<DiscountDraw>)
    returns (targets: seq<DiscountTarget>)
    requires |draws| == |discountIDs|
    requires ValidDiscountDraws(draws, |dishIDs|, |commodityIDs|)
    ensures targets == DiscountTargets(discountIDs, dishIDs, commodityIDs, draws)
    ensures forall i :: 0 <= i < |discountIDs| ==> HasTarget(targets, discountIDs[i])
  {
    targets := [];
    for i := 0 to |discountIDs|
      invariant ValidDiscountDraws(draws[i..], |dishIDs|, |commodityIDs|)
      invariant targets + DiscountTargets(discountIDs[i..], dishIDs, commodityIDs, draws[i..]) == DiscountTargets(discountIDs, dishIDs, commodityIDs, draws)
      invariant forall j :: 0 <= j < i ==> HasTarget(targets, discountIDs[j])
    {
      DiscountTargetsUnfold(discountIDs, dishIDs, commodityIDs, draws, i);
      var entries := DiscountEntries(discountIDs[i], dishIDs, commodityIDs, draws[i]);
      ghost var rest := DiscountTargets(discountIDs[i + 1..], dishIDs, commodityIDs, draws[i + 1..]);
      AppendStep(targets, entries, rest, DiscountTargets(discountIDs[i..], dishIDs, commodityIDs, draws[i..]));
      TargetsGrow(discountIDs, i, targets, entries, draws[i], dishIDs, commodityIDs);
      targets := targets + entries;
    }
    assert discountIDs[|discountIDs|..] == [];
  }

  /** The targets of the discounts from `i` on: discount `i`'s block, then
      the rest. */
  lemma DiscountTargetsUnfold(discountIDs: seq<int>, dishIDs: seq<int>, commodityIDs: seq<int>, draws: seq<DiscountDraw>, i: nat)
    requires |draws| == |discountIDs| && i < |discountIDs|
    requires ValidDiscountDraws(draws, |dishIDs|, |commodityIDs|)
    ensures ValidDiscountDraw(draws[i], |dishIDs|, |commodityIDs|)
    ensures ValidDiscountDraws(draws[i..], |dishIDs|, |commodityIDs|) && ValidDiscountDraws(draws[i + 1..], |dishIDs|, |commodityIDs|)
    ensures DiscountTargets(discountIDs[i..], dishIDs, commodityIDs, draws[i..])
      == DiscountBlock(discountIDs[i], dishIDs, commodityIDs, draws[i]) + DiscountTargets(discountIDs[i + 1..], dishIDs, commodityIDs, draws[i + 1..])
  {
    ValidDiscountDrawsSuffix(draws, |dishIDs|, |commodityIDs|, i);
    ValidDiscountDrawsSuffix(draws, |dishIDs|, |commodityIDs|, i + 1);
    assert discountIDs[i..][1..] == discountIDs[i + 1..] && draws[i..][1..] == draws[i + 1..];
    assert discountIDs[i..][0] == discountIDs[i] && draws[i..][0] == draws[i];
  }

  /** Appending a discount's entries keeps every earlier discount's targets
      and adds one for it. */
  lemma TargetsGrow(discountIDs: seq<int>, i: nat, targets: seq<DiscountTarget>, entries: seq<DiscountTarget>,
                    d: DiscountDraw, dishIDs: seq<int>, commodityIDs: seq<int>)
    requires i < |discountIDs|
    requires forall j :: 0 <= j < i ==> HasTarget(targets, discountIDs[j])
    requires ValidDiscountDraw(d, |dishIDs|, |commodityIDs|)
    requires entries == DiscountBlock(discountIDs[i], dishIDs, commodityIDs, d)
    ensures forall j :: 0 <= j < i + 1 ==> HasTarget(targets + entries, discountIDs[j])
  {
    DiscountBlockFacts(discountIDs[i], dishIDs, commodityIDs, d);
    assert entries[0] in targets + entries;
    forall j | 0 <= j < i ensures HasTarget(targets + entries, discountIDs[j]) {
      assert HasTarget(targets, discountIDs[j]);
      var t :| t in targets && t.discountID == discountIDs[j];
      assert t in targets + entries;
    }
  }

  /** The body of the discount loop: the dish picks and their entries, then
      the commodity picks and theirs. Commodities are picked when the second
      coin is not 0 or when no dish was picked. */
  method DiscountEntries(discountID: int, dishIDs: seq<int>, commodityIDs: seq<int>, d: DiscountDraw) returns (entries: seq<DiscountTarget>)
    requires ValidDiscountDraw(d, |dishIDs|, |commodityIDs|)
    ensures entries == DiscountBlock(discountID, dishIDs, commodityIDs, d)
  {
    var discountDishIDs: seq<int> := [];
    if d.dishCoin != 0 {
      discountDishIDs := PickUniq(dishIDs, d.dishStarts);
    }
    assert discountDishIDs == PickedValues(dishIDs, d.dishStarts);
    entries := [];
    for k := 0 to |discountDishIDs|
      invariant |entries| == k
      invariant forall j :: 0 <= j < k ==> entries[j] == DiscountTarget(discountID, DishTarget(discountDishIDs[j]))
    {
      entries := entries + [DiscountTarget(discountID, DishTarget(discountDishIDs[k]))];
    }
    var discountCommodityIDs: seq<int> := [];
    if d.commodityCoin != 0 || |discountDishIDs| == 0 {
      discountCommodityIDs := PickUniq(commodityIDs, d.commodityStarts);
    }
    assert discountCommodityIDs == PickedValues(commodityIDs, d.commodityStarts);
    var dishCount := |discountDishIDs|;
    for k := 0 to |discountCommodityIDs|
      invariant |entries| == dishCount + k
      invariant forall j :: 0 <= j < dishCount ==> entries[j] == DiscountTarget(discountID, DishTarget(discountDishIDs[j]))
      invariant forall j :: 0 <= j < k ==> entries[dishCount + j] == DiscountTarget(discountID, CommodityTarget(discountCommodityIDs[j]))
    {
      entries := entries + [DiscountTarget(discountID, CommodityTarget(discountCommodityIDs[k]))];
    }
  }
}
