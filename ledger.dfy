/** The stock side of the engine: `UPDATE products SET stock = stock - q` to
    reserve a detail's quantity and `stock + q` to release it. An UPDATE whose
    product row does not exist changes nothing. */
module Ledger {
  import opened Types

  /** Total quantity that the details reserve against product p. */
  function Qty(ds: seq<Detail>, p: ProductId): int
  {
    if ds == [] then 0
    else (if ds[0].productId == p then ds[0].quantity else 0) + Qty(ds[1..], p)
  }

  /** Stock after decrementing every detail's product by its quantity. */
  function Reserve(stock: map<ProductId, int>, ds: seq<Detail>): (r: map<ProductId, int>)
    ensures r.Keys == stock.Keys
  {
    map p | p in stock :: stock[p] - Qty(ds, p)
  }

  /** Stock after giving every detail's quantity back to its product. */
  function Release(stock: map<ProductId, int>, ds: seq<Detail>): (r: map<ProductId, int>)
    ensures r.Keys == stock.Keys
  {
    map p | p in stock :: stock[p] + Qty(ds, p)
  }

  /** Releasing what was reserved restores the stock, and reserving what was
      released does too. */
  lemma ReleaseUndoesReserve(stock: map<ProductId, int>, ds: seq<Detail>)
    ensures Release(Reserve(stock, ds), ds) == stock
    ensures Reserve(Release(stock, ds), ds) == stock
  {
  }

  /** A product no detail names is never touched. */
  lemma {:induction false} QtyUnreferenced(ds: seq<Detail>, p: ProductId)
    requires forall d :: d in ds ==> d.productId != p
    ensures Qty(ds, p) == 0
  {
    if ds != [] {
      assert ds[0] in ds;
      QtyUnreferenced(ds[1..], p);
    }
  }

  /** With non-negative quantities, the total reserved against a product is at
      least the quantity of any one detail naming it. */
  lemma {:induction false} QtyCoversLine(ds: seq<Detail>, k: nat)
    requires k < |ds|
    requires forall d :: d in ds ==> d.quantity >= 0
    ensures Qty(ds, ds[k].productId) >= ds[k].quantity
  {
    var p := ds[k].productId;
    if k == 0 {
      QtyNonNegative(ds[1..], p);
    } else {
      assert ds[1..][k - 1] == ds[k];
      QtyCoversLine(ds[1..], k - 1);
      assert ds[0] in ds;
    }
  }

  lemma {:induction false} QtyNonNegative(ds: seq<Detail>, p: ProductId)
    requires forall d :: d in ds ==> d.quantity >= 0
    ensures Qty(ds, p) >= 0
  {
    if ds != [] {
      assert ds[0] in ds;
      QtyNonNegative(ds[1..], p);
    }
  }

  /** When at most one detail names p, the total reserved against p is that
      detail's quantity. */
  lemma {:induction false} QtyDistinct(ds: seq<Detail>, k: nat)
    requires k < |ds|
    requires forall i, j :: 0 <= i < j < |ds| ==> ds[i].productId != ds[j].productId
    ensures Qty(ds, ds[k].productId) == ds[k].quantity
  {
    var p := ds[k].productId;
    if k == 0 {
      forall d | d in ds[1..] ensures d.productId != p {
        var j :| 0 <= j < |ds[1..]| && ds[1..][j] == d;
        assert ds[j + 1] == d;
      }
      QtyUnreferenced(ds[1..], p);
    } else {
      assert ds[1..][k - 1] == ds[k];
      QtyDistinct(ds[1..], k - 1);
    }
  }

  /** Quantity reserved against p by the stored details of the purchases whose
      ids lie below n. */
  function ReservedBelow(details: map<PurchaseId, seq<Detail>>, p: ProductId, n: int): int
    decreases n
  {
    if n <= 0 then 0
    else ReservedBelow(details, p, n - 1) + (if n - 1 in details then Qty(details[n - 1], p) else 0)
  }

  /** Replacing (or adding) the details of one purchase below n changes the
      reserved total by the difference of their quantities. */
  lemma {:induction false} ReservedBelowUpdate(details: map<PurchaseId, seq<Detail>>, id: PurchaseId,
                                               ds: seq<Detail>, p: ProductId, n: int)
    requires 0 <= id < n
    ensures ReservedBelow(details[id := ds], p, n) ==
              ReservedBelow(details, p, n) + Qty(ds, p) - (if id in details then Qty(details[id], p) else 0)
    decreases n
  {
    if id < n - 1 {
      ReservedBelowUpdate(details, id, ds, p, n - 1);
    } else {
      ReservedBelowSame(details, details[id := ds], p, n - 1);
    }
  }

  /** Dropping the details of one purchase below n takes its quantities out of
      the reserved total. */
  lemma {:induction false} ReservedBelowRemove(details: map<PurchaseId, seq<Detail>>, id: PurchaseId,
                                               p: ProductId, n: int)
    requires 0 <= id < n
    ensures ReservedBelow(details - {id}, p, n) ==
              ReservedBelow(details, p, n) - (if id in details then Qty(details[id], p) else 0)
    decreases n
  {
    if id < n - 1 {
      ReservedBelowRemove(details, id, p, n - 1);
    } else {
      ReservedBelowSame(details, details - {id}, p, n - 1);
    }
  }

  /** The reserved total below n only looks at the ids below n. */
  lemma {:induction false} ReservedBelowSame(d1: map<PurchaseId, seq<Detail>>, d2: map<PurchaseId, seq<Detail>>,
                                             p: ProductId, n: int)
    requires forall id :: 0 <= id < n ==> (id in d1 <==> id in d2)
    requires forall id :: 0 <= id < n && id in d1 ==> d1[id] == d2[id]
    ensures ReservedBelow(d1, p, n) == ReservedBelow(d2, p, n)
    decreases n
  {
    if n > 0 {
      ReservedBelowSame(d1, d2, p, n - 1);
    }
  }
}
