/** The record generators of internal/gen/generators.go. Every random draw
    (`rand.IntN`, `rand.Int64N`, gofakeit) is a parameter, given with the
    range the drawing function guarantees. */
module Generators {

  /** `choose`: `values[rand.IntN(len(values))]`; `rand.IntN` panics on an
      empty slice, so the draw's range implies a non-empty one. */
  function Choose<T>(values: seq<T>, draw: nat): (r: T)
    requires draw < |values|
    ensures r in values
  {
    values[draw]
  }

  /** A `pgtype.Numeric`: the integer `mantissa` scaled by 10^`exp`. */
  datatype Numeric = Numeric(mantissa: int, exp: int)

  /** `randomRating`: `rand.Int64N(400) + 100` hundredths, a rating from
      1.00 to 4.99. */
  function RandomRating(draw: nat): (r: Numeric)
    requires draw < 400
    ensures 100 <= r.mantissa <= 499 && r.exp == -2
  {
    Numeric(draw + 100, -2)
  }

  /** The price of a dish or a commodity: `10*rand.Int64N(990) + 100`. */
  function RandomCost(draw: nat): (c: int)
    requires draw < 990
    ensures 100 <= c <= 9990 && c % 10 == 0
  {
    10 * draw + 100
  }

  const PaymentMethods: seq<string> := ["cash", "card", "online"]

  datatype Payment = Payment(kind: string, status: string)

  /** `generateRandomPayment`: a method chosen among the three; the status is
      "failed" only for an online payment whose second draw is 0 (that draw
      is only made for online payments). */
  function RandomPayment(methodDraw: nat, failDraw: nat): (p: Payment)
    requires methodDraw < |PaymentMethods| && failDraw < 10
    ensures p.kind in PaymentMethods
    ensures p.status == "failed" <==> p.kind == "online" && failDraw == 0
    ensures p.status == "failed" || p.status == "successful"
  {
    var kind := Choose(PaymentMethods, methodDraw);
    Payment(kind, if kind == "online" && failDraw == 0 then "failed" else "successful")
  }

  /** The status switch of `generateRandomOrder` over `rand.IntN(100)`. */
  function OrderStatus(rng: nat): (s: string)
    requires rng < 100
    ensures s == "canceled" <==> rng == 0
    ensures s == "in_progress" <==> 1 <= rng <= 2
    ensures s == "delivered" <==> 3 <= rng
  {
    if rng == 0 then "canceled" else if rng < 3 then "in_progress" else "delivered"
  }

  datatype Order = Order(userID: int, courierID: int, paymentID: int, status: string)

  /** The draws one order consumes: the status, the user and the courier. */
  datatype OrderDraw = OrderDraw(status: nat, user: nat, courier: nat)

  predicate ValidOrderDraw(d: OrderDraw, users: nat, couriers: nat)
  {
    d.status < 100 && d.user < users && d.courier < couriers
  }

  /** `generateRandomOrder`: an order for the given payment, placed by one of
      the users and carried by one of the couriers. Addresses and the
      timestamp are gofakeit and clock output, left out. */
  function RandomOrder(paymentID: int, userIDs: seq<int>, courierIDs: seq<int>, d: OrderDraw): (o: Order)
    requires ValidOrderDraw(d, |userIDs|, |courierIDs|)
    ensures o.paymentID == paymentID && o.userID in userIDs && o.courierID in courierIDs
    ensures o.status in {"canceled", "in_progress", "delivered"}
  {
    Order(Choose(userIDs, d.user), Choose(courierIDs, d.courier), paymentID, OrderStatus(d.status))
  }

  const MicrosPerHalfHour: int := 30 * 60 * 1_000_000
  const MicrosPerHour: int := 3600 * 1_000_000

  /** A supplier's working hours, in microseconds since midnight. */
  datatype WorkHours = WorkHours(start: int, end: int)

  /** The work times of `generateRandomSupplier`: a start on a half hour no
      later than 7:30 and an end on a half hour from 12:00 to 19:30, so the
      day is never empty. */
  function RandomWorkHours(startDraw: nat, endDraw: nat): (w: WorkHours)
    requires startDraw < 16 && endDraw < 16
    ensures 0 <= w.start <= 7 * MicrosPerHour + MicrosPerHalfHour
    ensures 12 * MicrosPerHour <= w.end <= 19 * MicrosPerHour + MicrosPerHalfHour
    ensures w.start < w.end
    ensures w.start % MicrosPerHalfHour == 0 && w.end % MicrosPerHalfHour == 0
  {
    WorkHours(startDraw * 30 * 60 * 1_000_000, 12 * 3600 * 1_000_000 + endDraw * 1800 * 1_000_000)
  }

  /** What a supplier offers: dishes or commodities. */
  datatype ItemKind = DishKind | CommodityKind

  /** Go's `%`, which truncates toward zero: the remainder takes the sign of
      the dividend. */
  function GoRem(a: int, n: int): (r: int)
    requires n > 0
    ensures -n < r < n
    ensures a >= 0 ==> 0 <= r
    ensures a <= 0 ==> r <= 0
    ensures (a - r) % n == 0
  {
    if a >= 0 then
      var q, m := a / n, a % n;
      assert a == n * q + m && 0 <= m < n;
      MultipleMod(n, q);
      m
    else
      var q, m := (-a) / n, (-a) % n;
      assert -a == n * q + m && 0 <= m < n;
      assert a + m == n * -q;
      MultipleMod(n, -q);
      -m
  }

  /** A multiple of `n` leaves no remainder. */
  lemma MultipleMod(n: int, q: int)
    requires n > 0
    ensures (n * q) % n == 0
  {
    var x := n * q;
    var k := q - x / n;
    assert n * k == x % n;
  }

  /** The supplier filter of `createDishes` and `createCommodities` as
      written: `hash(id) % 3` with Go's remainder, dishes for 0 and 1,
      commodities for 0 and 2. */
  predicate StocksAsWritten(kind: ItemKind, h: int)
  {
    var m := GoRem(h, 3);
    if kind == DishKind then m == 0 || m == 1 else m == 0 || m == 2
  }

  /** `hash` returns `int(crc64)`, which is negative for half of all
      checksums, and then the remainder is -1 or -2 for two thirds of them:
      such a supplier gets neither dishes nor commodities. */
  lemma StocksAsWrittenSkipsSuppliers(h: int)
    ensures !StocksAsWritten(DishKind, h) && !StocksAsWritten(CommodityKind, h) <==> h < 0 && h % 3 != 0
  {
    if h < 0 {
      var m := (-h) % 3;
      assert -h == 3 * ((-h) / 3) + m;
      assert h == 3 * (-((-h) / 3) - 1) + (3 - m);
      assert m == 0 <==> h % 3 == 0;
    }
  }

  /** The example: a supplier whose hash is -1 gets nothing. */
  lemma NegativeHashGetsNothing()
    ensures !StocksAsWritten(DishKind, -1) && !StocksAsWritten(CommodityKind, -1)
  {
    StocksAsWrittenSkipsSuppliers(-1);
  }

  /** The supplier filter as intended: a residue in {0, 1, 2}, so every
      supplier falls into one of three classes (both kinds, dishes only,
      commodities only). */
  predicate Stocks(kind: ItemKind, h: int)
  {
    var m := h % 3;
    if kind == DishKind then m == 0 || m == 1 else m == 0 || m == 2
  }

  /** Every supplier offers something; both kinds exactly when the residue
      is 0; and the intended filter agrees with the written one whenever
      the hash is not negative. */
  lemma StocksPartitionsSuppliers(h: int)
    ensures Stocks(DishKind, h) || Stocks(CommodityKind, h)
    ensures Stocks(DishKind, h) && Stocks(CommodityKind, h) <==> h % 3 == 0
    ensures h >= 0 ==> (Stocks(DishKind, h) <==> StocksAsWritten(DishKind, h))
    ensures h >= 0 ==> (Stocks(CommodityKind, h) <==> StocksAsWritten(CommodityKind, h))
  {
  }

  // ---------------------------------------------------------------------
  // chooseUniq: linear probing for an index not chosen yet

  /** The slot probed after `k` steps from `start`, going round past the
      last index back to 0. */
  function Slot(start: nat, k: nat, n: nat): (i: nat)
    requires start < n && k < n
    ensures i < n
  {
    if start + k < n then start + k else start + k - n
  }

  /** Some index below `n` is still free. */
  predicate HasFree(n: nat, taken: set<nat>)
  {
    exists x :: 0 <= x < n && x !in taken
  }

  /** Every index below `n` is reached by the probe from any start. */
  lemma SlotsCover(n: nat, start: nat, x: nat)
    requires start < n && x < n
    ensures exists k :: 0 <= k < n && Slot(start, k, n) == x
  {
    var k := if x >= start then x - start else x + n - start;
    assert Slot(start, k, n) == x;
  }

  /** `(idx + 1) % len(values)` moves the probe to the next slot. */
  lemma SlotStep(start: nat, k: nat, n: nat)
    requires start < n && k + 1 < n
    ensures Slot(start, k + 1, n) == (Slot(start, k, n) + 1) % n
  {
    var i := Slot(start, k, n);
    if i + 1 == n {
      assert (i + 1) % n == 0;
    } else {
      assert (i + 1) % n == i + 1;
    }
  }

  /** The first free slot from the `k`-th probe on. */
  function FirstFreeFrom(n: nat, start: nat, taken: set<nat>, k: nat): (idx: nat)
    requires start < n && k <= n
    requires exists j :: k <= j < n && Slot(start, j, n) !in taken
    decreases n - k
  {
    if Slot(start, k, n) !in taken then Slot(start, k, n)
    else FirstFreeFrom(n, start, taken, k + 1)
  }

  /** The index `chooseUniq` settles on: the first one at or after `start`,
      going round modulo `n`, that is not taken yet. */
  function FirstFree(n: nat, start: nat, taken: set<nat>): nat
    requires start < n && HasFree(n, taken)
  {
    var x :| 0 <= x < n && x !in taken;
    SlotsCover(n, start, x);
    FirstFreeFrom(n, start, taken, 0)
  }

  lemma {:induction false} FirstFreeFromIsFirst(n: nat, start: nat, taken: set<nat>, k: nat)
    requires start < n && k <= n
    requires exists j :: k <= j < n && Slot(start, j, n) !in taken
    ensures FirstFreeFrom(n, start, taken, k) !in taken
    ensures exists j :: (k <= j < n && FirstFreeFrom(n, start, taken, k) == Slot(start, j, n) &&
      forall i :: k <= i < j ==> Slot(start, i, n) in taken)
    decreases n - k
  {
    if Slot(start, k, n) in taken {
      FirstFreeFromIsFirst(n, start, taken, k + 1);
    }
  }

  /** `FirstFree` is a free index below `n`, reached after probing only
      taken slots. */
  lemma FirstFreeIsFirst(n: nat, start: nat, taken: set<nat>)
    requires start < n && HasFree(n, taken)
    ensures var idx := FirstFree(n, start, taken);
      && idx < n && idx !in taken
      && (exists j :: (0 <= j < n && idx == Slot(start, j, n) &&
            forall i :: 0 <= i < j ==> Slot(start, i, n) in taken))
  {
    var x :| 0 <= x < n && x !in taken;
    SlotsCover(n, start, x);
    FirstFreeFromIsFirst(n, start, taken, 0);
  }

  /** The indices below `n`. */
  function Below(n: nat): (r: set<nat>)
    ensures forall x: nat :: x in r <==> x < n
    ensures |r| == n
  {
    if n == 0 then {} else Below(n - 1) + {n - 1}
  }

  /** While fewer than `n` indices below `n` are taken, one is free. */
  lemma FreeWhenSmall(n: nat, taken: set<nat>)
    requires forall x :: x in taken ==> x < n
    requires |taken| < n
    ensures HasFree(n, taken)
  {
    var all := Below(n);
    assert taken <= all;
    assert taken != all;
    var x :| x in all && x !in taken;
    assert 0 <= x < n && x !in taken;
  }

  /** The indices successive `chooseUniq` calls pick out of `n` entries when
      they share one `alreadyChosen` set that starts as `taken`. */
  function PickIndices(n: nat, starts: seq<nat>, taken: set<nat>): (r: seq<nat>)
    requires forall x :: x in taken ==> x < n
    requires |taken| + |starts| <= n
    requires forall k :: 0 <= k < |starts| ==> starts[k] < n
    ensures |r| == |starts|
    ensures forall k :: 0 <= k < |r| ==> r[k] < n
    decreases |starts|
  {
    if starts == [] then []
    else
      FreeWhenSmall(n, taken);
      var idx := FirstFree(n, starts[0], taken);
      FirstFreeIsFirst(n, starts[0], taken);
      [idx] + PickIndices(n, starts[1..], taken + {idx})
  }

  /** The picks are valid indices, new with respect to `taken`, and pairwise
      distinct: no entry is chosen twice. */
  lemma {:induction false} PickIndicesDistinct(n: nat, starts: seq<nat>, taken: set<nat>)
    requires forall x :: x in taken ==> x < n
    requires |taken| + |starts| <= n
    requires forall k :: 0 <= k < |starts| ==> starts[k] < n
    ensures forall k :: 0 <= k < |starts| ==> PickIndices(n, starts, taken)[k] < n
    ensures forall k :: 0 <= k < |starts| ==> PickIndices(n, starts, taken)[k] !in taken
    ensures forall k, l :: 0 <= k < l < |starts| ==> PickIndices(n, starts, taken)[k] != PickIndices(n, starts, taken)[l]
    decreases |starts|
  {
    if starts != [] {
      FreeWhenSmall(n, taken);
      var idx := FirstFree(n, starts[0], taken);
      FirstFreeIsFirst(n, starts[0], taken);
      PickIndicesDistinct(n, starts[1..], taken + {idx});
      var rest := PickIndices(n, starts[1..], taken + {idx});
      var r := PickIndices(n, starts, taken);
      assert r == [idx] + rest;
      assert idx < n && idx !in taken;
      assert forall k :: 0 <= k < |rest| ==> rest[k] < n && rest[k] !in taken && rest[k] != idx;
      assert forall k :: 1 <= k < |r| ==> r[k] == rest[k - 1];
      assert forall k :: 0 <= k < |r| ==> r[k] < n && r[k] !in taken;
    }
  }

  /** `chooseUniq`: probe from `start` until an index not in `taken` turns
      up, add it to `taken` and return that element. The Go loop never ends
      when every index is taken, so some index must be free. */
  method ChooseUniq<T>(values: seq<T>, start: nat, taken: set<nat>) returns (v: T, idx: nat, taken': set<nat>)
    requires start < |values| && HasFree(|values|, taken)
    ensures idx == FirstFree(|values|, start, taken)
    ensures idx < |values| && v == values[idx]
    ensures idx !in taken && taken' == taken + {idx}
  {
    var n := |values|;
    ghost var x :| 0 <= x < n && x !in taken;
    SlotsCover(n, start, x);
    idx := start;
    ghost var k := 0;
    assert Slot(start, 0, n) == start;
    while idx in taken
      invariant 0 <= k < n && idx == Slot(start, k, n)
      invariant exists j :: k <= j < n && Slot(start, j, n) !in taken
      invariant FirstFreeFrom(n, start, taken, k) == FirstFree(n, start, taken)
      decreases n - k
    {
      SlotStep(start, k, n);
      idx := (idx + 1) % n;
      k := k + 1;
    }
    taken' := taken + {idx};
    v := values[idx];
  }

  // ---------------------------------------------------------------------
  // Unique e-mail addresses

  /** The package-level `usedEmails` set, owned by one object. */
  class EmailRegistry {
    var used: set<string>

    constructor ()
      ensures used == {}
    {
      used := {};
    }

    /** The e-mail loop of `generateRandomUser`: draw addresses from
        `candidates` (gofakeit's stream) until one is unused, then record it.
        The Go loop runs for ever if no unused address is ever drawn. */
    method NextEmail(candidates: seq<string>) returns (email: string, draws: nat)
      requires exists i :: 0 <= i < |candidates| && candidates[i] !in used
      modifies this
      ensures draws < |candidates| && email == candidates[draws]
      ensures email !in old(used) && used == old(used) + {email}
      ensures forall i :: 0 <= i < draws ==> candidates[i] in old(used)
    {
      draws := 0;
      email := candidates[0];
      while email in used
        invariant 0 <= draws < |candidates| && email == candidates[draws]
        invariant exists i :: draws <= i < |candidates| && candidates[i] !in used
        invariant forall i :: 0 <= i < draws ==> candidates[i] in used
        decreases |candidates| - draws
      {
        draws := draws + 1;
        email := candidates[draws];
      }
      used := used + {email};
    }

    /** The user loop of `createUsers`: one fresh address per user, so the
        generated users' e-mails are pairwise distinct and new. */
    method UserEmails(streams: seq<seq<string>>) returns (emails: seq<string>)
      requires forall u :: 0 <= u < |streams| ==>
        exists i :: 0 <= i < |streams[u]| && streams[u][i] !in used + (set v, j | 0 <= v < u && 0 <= j < |streams[v]| :: streams[v][j])
      modifies this
      ensures |emails| == |streams|
      ensures forall u :: 0 <= u < |emails| ==> emails[u] in streams[u] && emails[u] !in old(used)
      ensures forall u, v :: 0 <= u < v < |emails| ==> emails[u] != emails[v]
      ensures used == old(used) + set u | 0 <= u < |emails| :: emails[u]
    {
      emails := [];
      var u := 0;
      while u < |streams|
        invariant 0 <= u <= |streams| && |emails| == u
        invariant forall w :: 0 <= w < u ==> emails[w] in streams[w] && emails[w] !in old(used)
        invariant forall w, v :: 0 <= w < v < u ==> emails[w] != emails[v]
        invariant used == old(used) + set w | 0 <= w < u :: emails[w]
        invariant used <= old(used) + (set v, j | 0 <= v < u && 0 <= j < |streams[v]| :: streams[v][j])
      {
        var email, _ := NextEmail(streams[u]);
        emails := emails + [email];
        u := u + 1;
      }
    }
  }

  // ---------------------------------------------------------------------
  // Categories

  /** `init`'s deduplication: the categories are the distinct cuisines of
      the predefined dishes and categories of the predefined commodities,
      each once, in the (unspecified) order Go's map iteration yields. */
  method UniqueCategories(cuisines: seq<string>, commodityCategories: seq<string>) returns (categories: seq<string>)
    ensures forall c :: c in categories <==> c in cuisines || c in commodityCategories
    ensures forall i, j :: 0 <= i < j < |categories| ==> categories[i] != categories[j]
  {
    var uniq: set<string> := {};
    for i := 0 to |cuisines|
      invariant forall c :: c in uniq <==> c in cuisines[..i]
    {
      uniq := uniq + {cuisines[i]};
    }
    for i := 0 to |commodityCategories|
      invariant forall c :: c in uniq <==> c in cuisines || c in commodityCategories[..i]
    {
      uniq := uniq + {commodityCategories[i]};
    }
    categories := [];
    var rest := uniq;
    while rest != {}
      invariant rest <= uniq
      invariant forall c :: c in uniq <==> c in rest || c in categories
      invariant forall c :: c in rest ==> c !in categories
      invariant forall i, j :: 0 <= i < j < |categories| ==> categories[i] != categories[j]
      decreases rest
    {
      var c :| c in rest;
      categories := categories + [c];
      rest := rest - {c};
    }
  }
}
