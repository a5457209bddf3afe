/** The create, update and delete handlers of the purchase routes as pure
    transitions of the tables. A transaction that commits yields the new tables;
    one that rolls back yields only the error kind, the tables staying as they were. */
module Engine {
  import opened Types
  import opened Validation
  import opened Ledger

  const Completed: string := "COMPLETED"

  /** The per-line check of create: every field truthy, then a positive quantity. */
  function LineFault(l: Line): Option<Error>
  {
    if l.productId == 0 || l.quantity == 0 || l.price == 0 then Some(LineFieldMissing)
    else if l.quantity <= 0 then Some(NonPositiveQuantity)
    else None
  }

  /** The fault of the first line that fails LineFault, if any. */
  function FirstLineFault(ls: seq<Line>): (r: Option<Error>)
    ensures r.None? <==> forall k :: 0 <= k < |ls| ==> LineFault(ls[k]).None?
    ensures r.None? ==> forall k :: 0 <= k < |ls| ==> ls[k].productId != 0 && ls[k].quantity > 0 && ls[k].price != 0
    ensures r.Some? ==>
              exists k :: 0 <= k < |ls| && (forall j :: 0 <= j < k ==> LineFault(ls[j]).None?) && r == LineFault(ls[k])
  {
    if ls == [] then None
    else if LineFault(ls[0]).Some? then LineFault(ls[0])
    else
      var rest := FirstLineFault(ls[1..]);
      assert forall k :: 1 <= k < |ls| ==> ls[k] == ls[1..][k - 1];
      FirstFaultShift(ls, rest);
      rest
  }

  /** A fault found first in the tail of a list whose head passes is found
      first in the whole list, one position later. */
  lemma FirstFaultShift(ls: seq<Line>, rest: Option<Error>)
    requires ls != [] && LineFault(ls[0]).None?
    requires rest.Some? ==>
               exists k :: 0 <= k < |ls[1..]| && (forall j :: 0 <= j < k ==> LineFault(ls[1..][j]).None?) &&
                           rest == LineFault(ls[1..][k])
    ensures rest.Some? ==>
              exists k :: 0 <= k < |ls| && (forall j :: 0 <= j < k ==> LineFault(ls[j]).None?) && rest == LineFault(ls[k])
  {
    if rest.Some? {
      var k :| 0 <= k < |ls[1..]| && (forall j :: 0 <= j < k ==> LineFault(ls[1..][j]).None?) &&
               rest == LineFault(ls[1..][k]);
      assert ls[k + 1] == ls[1..][k];
      forall j | 0 <= j < k + 1 ensures LineFault(ls[j]).None? {
        if j > 0 {
          assert ls[j] == ls[1..][j - 1];
        }
      }
    }
  }

  function Subtotal(l: Line): Cents
  {
    l.quantity * l.price
  }

  /** Sum of the lines' subtotals. */
  function Total(ls: seq<Line>): Cents
  {
    if ls == [] then 0 else Subtotal(ls[0]) + Total(ls[1..])
  }

  /** `getProduct`: the product row's stock, if the row exists. */
  function GetProduct(stock: map<ProductId, int>, id: ProductId): (r: Option<int>)
    ensures r.Some? <==> id in stock
    ensures r.Some? ==> r.value == stock[id]
  {
    if id in stock then Some(stock[id]) else None
  }

  /** The line's product exists and its stock covers the line's quantity. */
  predicate InStock(stock: map<ProductId, int>, l: Line)
  {
    l.productId in stock && stock[l.productId] >= l.quantity
  }

  /** The error for a line that is not in stock: a missing product, or else
      a short one. */
  function Shortage(stock: map<ProductId, int>, l: Line): Error
  {
    if l.productId !in stock then ProductNotFound(l.productId) else InsufficientStock(l.productId)
  }

  /** The stock check: every line is compared with the stock as it stands,
      and the first missing or short product is reported. */
  function StockFault(stock: map<ProductId, int>, ls: seq<Line>): (r: Option<Error>)
    ensures r.None? <==> forall k :: 0 <= k < |ls| ==> InStock(stock, ls[k])
    ensures r.Some? ==>
              exists k :: 0 <= k < |ls| && (forall j :: 0 <= j < k ==> InStock(stock, ls[j])) &&
                          !InStock(stock, ls[k]) && r.value == Shortage(stock, ls[k])
  {
    if ls == [] then None
    else
      var l := ls[0];
      match GetProduct(stock, l.productId)
      case None => Some(ProductNotFound(l.productId))
      case Some(s) =>
        if s < l.quantity then Some(InsufficientStock(l.productId))
        else
          var rest := StockFault(stock, ls[1..]);
          assert forall k :: 1 <= k < |ls| ==> ls[k] == ls[1..][k - 1];
          StockFaultShift(stock, ls, rest);
          rest
  }

  /** A shortage found first in the tail of a list whose head is in stock is
      found first in the whole list, one position later. */
  lemma StockFaultShift(stock: map<ProductId, int>, ls: seq<Line>, rest: Option<Error>)
    requires ls != [] && InStock(stock, ls[0])
    requires rest.Some? ==>
               exists k :: 0 <= k < |ls[1..]| && (forall j :: 0 <= j < k ==> InStock(stock, ls[1..][j])) &&
                           !InStock(stock, ls[1..][k]) && rest.value == Shortage(stock, ls[1..][k])
    ensures rest.Some? ==>
              exists k :: 0 <= k < |ls| && (forall j :: 0 <= j < k ==> InStock(stock, ls[j])) &&
                          !InStock(stock, ls[k]) && rest.value == Shortage(stock, ls[k])
  {
    if rest.Some? {
      var k :| 0 <= k < |ls[1..]| && (forall j :: 0 <= j < k ==> InStock(stock, ls[1..][j])) &&
               !InStock(stock, ls[1..][k]) && rest.value == Shortage(stock, ls[1..][k]);
      assert ls[k + 1] == ls[1..][k];
      forall j | 0 <= j < k + 1 ensures InStock(stock, ls[j]) {
        if j > 0 {
          assert ls[j] == ls[1..][j - 1];
        }
      }
    }
  }

  function ToDetail(l: Line): Detail
  {
    Detail(l.productId, l.quantity, l.price, Subtotal(l))
  }

  /** The detail rows inserted for the lines, in order. */
  function ToDetails(ls: seq<Line>): (ds: seq<Detail>)
    ensures |ds| == |ls|
  {
    seq(|ls|, k requires 0 <= k < |ls| => ToDetail(ls[k]))
  }

  /** The stored details of a purchase (none when it has none). */
  function CurrentDetails(db: Db, id: PurchaseId): seq<Detail>
  {
    if id in db.details then db.details[id] else []
  }

  /** POST: validate, check the lines and the total before any transaction,
      check stock line by line, then insert the purchase with the next id,
      insert one detail per line and reserve each line's quantity. */
  function Create(db: Db, p: Payload): (r: Result<(PurchaseId, Db)>)
    ensures r.Ok? ==> Validate(p, true).Pass? && p.details.Lines?
    ensures r.Ok? ==>
              var (id, db') := r.value;
              && id == db.nextId && db'.nextId == db.nextId + 1
              && db'.purchases.Keys == db.purchases.Keys + {id}
              && db'.details.Keys == db.details.Keys + {id}
              && db'.stock.Keys == db.stock.Keys
              && db'.purchases[id].total <= MaxTotal
              && |db'.details[id]| == |p.details.lines|
  {
    match Validate(p, true)
    case Fail(e) => Err(e)
    case Pass =>
      var ls := p.details.lines;
      if FirstLineFault(ls).Some? then Err(FirstLineFault(ls).value)
      else if Total(ls) > MaxTotal then Err(TotalExceeded)
      else if StockFault(db.stock, ls).Some? then Err(StockFault(db.stock, ls).value)
      else
        var id := db.nextId;
        var ds := ToDetails(ls);
        Ok((id, Db(Reserve(db.stock, ds),
                   db.purchases[id := Purchase(p.userId.value, p.status.value, Total(ls))],
                   db.details[id := ds],
                   id + 1)))
  }

  /** PUT: validate in update mode, refuse a missing or completed purchase.
      With new details, the purchase's current details are released first and
      the new lines are checked against the released stock; then the total is
      recomputed and bounded, the details replaced and the new lines reserved.
      `user_id` and `status` fall back to the stored values when null or undefined. */
  function Update(db: Db, id: PurchaseId, p: Payload): (r: Result<Db>)
    ensures r.Ok? ==> Validate(p, false).Pass? && id in db.purchases && db.purchases[id].status != Completed
    ensures r.Ok? ==>
              && r.value.nextId == db.nextId
              && r.value.purchases.Keys == db.purchases.Keys
              && r.value.stock.Keys == db.stock.Keys
              && (p.details.Lines? ==> r.value.purchases[id].total <= MaxTotal)
              && (p.details.Absent? ==> r.value.purchases[id].total == db.purchases[id].total)
  {
    match Validate(p, false)
    case Fail(e) => Err(e)
    case Pass =>
      if id !in db.purchases then Err(PurchaseNotFound)
      else
        var cur := db.purchases[id];
        if cur.status == Completed then Err(PurchaseCompleted)
        else
          var user := p.userId.GetOr(cur.userId);
          var status := p.status.GetOr(cur.status);
          match p.details
          case Absent =>
            Ok(db.(purchases := db.purchases[id := Purchase(user, status, cur.total)]))
          case NotArray => Err(DetailsNotIterable)
          case Lines(ls) =>
            var released := Release(db.stock, CurrentDetails(db, id));
            if StockFault(released, ls).Some? then Err(StockFault(released, ls).value)
            else if Total(ls) > MaxTotal then Err(TotalExceeded)
            else
              var ds := ToDetails(ls);
              Ok(db.(stock := Reserve(released, ds),
                     purchases := db.purchases[id := Purchase(user, status, Total(ls))],
                     details := db.details[id := ds]))
  }

  /** DELETE: refuse a missing or completed purchase, release its details'
      quantities, drop the purchase and (by the cascade) its details. */
  function Delete(db: Db, id: PurchaseId): (r: Result<Db>)
    ensures r.Err? <==> id !in db.purchases || db.purchases[id].status == Completed
    ensures r.Ok? ==>
              && r.value.nextId == db.nextId
              && r.value.purchases.Keys == db.purchases.Keys - {id}
              && id !in r.value.details
              && r.value.stock.Keys == db.stock.Keys
  {
    if id !in db.purchases then Err(PurchaseNotFound)
    else if db.purchases[id].status == Completed then Err(PurchaseCompleted)
    else
      Ok(db.(stock := Release(db.stock, CurrentDetails(db, id)),
             purchases := db.purchases - {id},
             details := db.details - {id}))
  }

  /** Sum of the stored subtotals. */
  function DetailsTotal(ds: seq<Detail>): Cents
  {
    if ds == [] then 0 else ds[0].subtotal + DetailsTotal(ds[1..])
  }

  /** What every committed state satisfies: ids below the counter, one detail
      list per purchase holding 1 to MaxItems rows whose subtotals are
      quantity times price and sum to the purchase's total, which is at most
      MaxTotal, and every detail naming an existing product. */
  ghost predicate Consistent(db: Db)
  {
    && db.nextId >= 1
    && db.purchases.Keys == db.details.Keys
    && (forall id :: id in db.purchases ==> 1 <= id < db.nextId)
    && (forall id :: id in db.details ==> WellFormed(db.details[id], db.purchases[id].total, db.stock))
  }

  ghost predicate WellFormed(ds: seq<Detail>, total: Cents, stock: map<ProductId, int>)
  {
    && 1 <= |ds| <= MaxItems
    && DetailsTotal(ds) == total
    && total <= MaxTotal
    && (forall d :: d in ds ==> d.subtotal == d.quantity * d.price && d.productId in stock)
  }

  /** No product's stock is negative and every stored quantity is positive. */
  ghost predicate Sound(db: Db)
  {
    && (forall q :: q in db.stock ==> db.stock[q] >= 0)
    && (forall id, d :: id in db.details && d in db.details[id] ==> d.quantity > 0)
  }

  /** Stock plus what is reserved against it, per product: the quantity that
      create, update and delete conserve. */
  function Available(db: Db, q: ProductId): int
  {
    (if q in db.stock then db.stock[q] else 0) + ReservedBelow(db.details, q, db.nextId)
  }

  predicate DistinctProducts(ls: seq<Line>)
  {
    forall i, j :: 0 <= i < j < |ls| ==> ls[i].productId != ls[j].productId
  }
}
