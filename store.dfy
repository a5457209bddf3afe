/** The route handlers as methods of one in-memory store. Each works on local
    copies of the tables, with the source's loops, and assigns the fields only
    when it commits; returning an error is the rollback. */
module Store {
  import opened Types
  import opened Validation
  import opened Ledger
  import opened Engine
  import EngineProperties

  class PurchaseStore {
    var stock: map<ProductId, int>
    var purchases: map<PurchaseId, Purchase>
    var details: map<PurchaseId, seq<Detail>>
    var nextId: PurchaseId
    /** Each product's stock plus its reservations, fixed since construction. */
    ghost var baseline: map<ProductId, int>

    function State(): Db
      reads this
    {
      Db(stock, purchases, details, nextId)
    }

    ghost predicate Valid()
      reads this
    {
      && Consistent(State())
      && baseline.Keys == stock.Keys
      && (forall q :: q in stock ==> Available(State(), q) == baseline[q])
    }

    constructor (catalog: map<ProductId, int>)
      ensures Valid()
      ensures State() == Db(catalog, map[], map[], 1)
      ensures baseline == catalog
    {
      stock := catalog;
      purchases := map[];
      details := map[];
      nextId := 1;
      baseline := catalog;
      new;
      assert forall q :: ReservedBelow(map[], q, 1) == 0;
    }

    /** POST /purchases. */
    method Create(p: Payload) returns (r: Result<PurchaseId>)
      requires Valid()
      modifies this
      ensures Valid() && baseline == old(baseline)
      ensures var o := Engine.Create(old(State()), p);
              && (o.Ok? ==> r == Ok(o.value.0) && State() == o.value.1)
              && (o.Err? ==> r == Err(o.error) && State() == old(State()))
    {
      var v := Validate(p, true);
      if v.Fail? {
        return Err(v.error);
      }
      var ls := p.details.lines;

      // subtotals and total; a bad line is refused before anything changes
      var fault, total := PriceLines(ls);
      if fault.Some? {
        return Err(fault.value);
      }
      if total > MaxTotal {
        return Err(TotalExceeded);
      }
      // stock check: every line against the stock as it stands
      fault := CheckStock(stock, ls);
      if fault.Some? {
        return Err(fault.value);
      }

      // insert the purchase, then one detail and one decrement per line
      var id := nextId;
      var newStock, ds := ReserveLines(stock, ls);

      stock := newStock;
      purchases := purchases[id := Purchase(p.userId.value, p.status.value, total)];
      details := details[id := ds];
      nextId := nextId + 1;
      EngineProperties.CreateKeepsConsistent(old(State()), p);
      EngineProperties.CreateConserves(old(State()), p);
      r := Ok(id);
    }

    /** PUT /purchases/{id}. */
    method Update(id: PurchaseId, p: Payload) returns (r: Outcome)
      requires Valid()
      modifies this
      ensures Valid() && baseline == old(baseline)
      ensures var o := Engine.Update(old(State()), id, p);
              && (o.Ok? ==> r == Pass && State() == o.value)
              && (o.Err? ==> r == Fail(o.error) && State() == old(State()))
    {
      ghost var o := Engine.Update(State(), id, p);
      var v := Validate(p, false);
      if v.Fail? {
        assert o == Err(v.error);
        return v;
      }
      if id !in purchases {
        assert o == Err(PurchaseNotFound);
        return Fail(PurchaseNotFound);
      }
      var cur := purchases[id];
      if cur.status == Completed {
        assert o == Err(PurchaseCompleted);
        return Fail(PurchaseCompleted);
      }

      var newStock := stock;
      if !p.details.Absent? {
        // give back the current reservation before checking the new lines
        newStock := ReleaseDetails(stock, CurrentDetails(State(), id));
        if p.details.NotArray? {
          assert o == Err(DetailsNotIterable);
          return Fail(DetailsNotIterable);
        }
        var fault := CheckStock(newStock, p.details.lines);
        if fault.Some? {
          assert o == Err(fault.value);
          return Fail(fault.value);
        }
      }

      // new total when lines are given, otherwise the stored one
      var total := cur.total;
      if p.details.Lines? {
        total := SumSubtotals(p.details.lines);
        if total > MaxTotal {
          assert o == Err(TotalExceeded);
          return Fail(TotalExceeded);
        }
      }

      var newUser := if p.userId.Some? then p.userId.value else cur.userId;
      var newStatus := if p.status.Some? then p.status.value else cur.status;
      var newDetails := details;
      if p.details.Lines? {
        var ds;
        newStock, ds := ReserveLines(newStock, p.details.lines);
        newDetails := details[id := ds];
      }

      stock := newStock;
      purchases := purchases[id := Purchase(newUser, newStatus, total)];
      details := newDetails;
      EngineProperties.UpdateKeepsConsistent(old(State()), id, p);
      EngineProperties.UpdateConserves(old(State()), id, p);
      r := Pass;
    }

    /** DELETE /purchases/{id}. */
    method Delete(id: PurchaseId) returns (r: Outcome)
      requires Valid()
      modifies this
      ensures Valid() && baseline == old(baseline)
      ensures var o := Engine.Delete(old(State()), id);
              && (o.Ok? ==> r == Pass && State() == o.value)
              && (o.Err? ==> r == Fail(o.error) && State() == old(State()))
    {
      if id !in purchases {
        return Fail(PurchaseNotFound);
      }
      if purchases[id].status == Completed {
        return Fail(PurchaseCompleted);
      }
      var newStock := ReleaseDetails(stock, CurrentDetails(State(), id));
      stock := newStock;
      purchases := purchases - {id};
      details := details - {id};
      EngineProperties.DeleteKeepsConsistent(old(State()), id);
      EngineProperties.DeleteConserves(old(State()), id);
      r := Pass;
    }
  }

  /** The pricing loop of create: each line must carry every field and a
      positive quantity; the subtotals are summed. */
  method PriceLines(ls: seq<Line>) returns (fault: Option<Error>, total: Cents)
    ensures fault == FirstLineFault(ls)
    ensures fault.None? ==> total == Total(ls)
  {
    total := 0;
    var i := 0;
    while i < |ls|
      invariant 0 <= i <= |ls|
      invariant FirstLineFault(ls) == FirstLineFault(ls[i..])
      invariant Total(ls) == total + Total(ls[i..])
    {
      var l := ls[i];
      assert ls[i..][1..] == ls[i + 1..];
      if l.productId == 0 || l.quantity == 0 || l.price == 0 {
        return Some(LineFieldMissing), total;
      }
      if l.quantity <= 0 {
        return Some(NonPositiveQuantity), total;
      }
      total := total + l.quantity * l.price;
      i := i + 1;
    }
    assert ls[i..] == [];
    fault := None;
  }

  /** The pricing loop of update, which checks nothing about the lines. */
  method SumSubtotals(ls: seq<Line>) returns (total: Cents)
    ensures total == Total(ls)
  {
    total := 0;
    var i := 0;
    while i < |ls|
      invariant 0 <= i <= |ls|
      invariant Total(ls) == total + Total(ls[i..])
    {
      assert ls[i..][1..] == ls[i + 1..];
      total := total + ls[i].quantity * ls[i].price;
      i := i + 1;
    }
    assert ls[i..] == [];
  }

  /** The stock check loop: `getProduct` for each line, refusing a missing
      product or one whose stock is below the line's quantity. */
  method CheckStock(stock: map<ProductId, int>, ls: seq<Line>) returns (fault: Option<Error>)
    ensures fault == StockFault(stock, ls)
  {
    var i := 0;
    while i < |ls|
      invariant 0 <= i <= |ls|
      invariant StockFault(stock, ls) == StockFault(stock, ls[i..])
    {
      var l := ls[i];
      assert ls[i..][1..] == ls[i + 1..];
      var product := GetProduct(stock, l.productId);
      if product.None? {
        return Some(ProductNotFound(l.productId));
      }
      if product.value < l.quantity {
        return Some(InsufficientStock(l.productId));
      }
      i := i + 1;
    }
    assert ls[i..] == [];
    fault := None;
  }

  /** The insert loop of create and update: one detail row per line and
      `stock = stock - quantity` on the line's product, line by line. */
  method ReserveLines(stock: map<ProductId, int>, ls: seq<Line>) returns (s: map<ProductId, int>, ds: seq<Detail>)
    ensures ds == ToDetails(ls)
    ensures s == Reserve(stock, ds)
  {
    ghost var all := ToDetails(ls);
    s, ds := stock, [];
    var i := 0;
    while i < |ls|
      invariant 0 <= i <= |ls|
      invariant ds == all[..i]
      invariant s.Keys == stock.Keys
      invariant forall q :: q in s ==> s[q] - Qty(all[i..], q) == stock[q] - Qty(all, q)
    {
      var l := ls[i];
      assert all[i..][1..] == all[i + 1..];
      ds := ds + [Detail(l.productId, l.quantity, l.price, l.quantity * l.price)];
      if l.productId in s {
        s := s[l.productId := s[l.productId] - l.quantity];
      }
      i := i + 1;
    }
    assert all[i..] == [];
    assert ds == all;
  }

  /** The give-back loop of update and delete: `stock = stock + quantity` on
      each stored detail's product. */
  method ReleaseDetails(stock: map<ProductId, int>, cur: seq<Detail>) returns (s: map<ProductId, int>)
    ensures s == Release(stock, cur)
  {
    s := stock;
    var i := 0;
    while i < |cur|
      invariant 0 <= i <= |cur|
      invariant s.Keys == stock.Keys
      invariant forall q :: q in s ==> s[q] + Qty(cur[i..], q) == stock[q] + Qty(cur, q)
    {
      assert cur[i..][1..] == cur[i + 1..];
      if cur[i].productId in s {
        s := s[cur[i].productId := s[cur[i].productId] + cur[i].quantity];
      }
      i := i + 1;
    }
    assert cur[i..] == [];
  }
}
