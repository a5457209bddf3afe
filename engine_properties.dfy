/** What the create, update and delete transitions guarantee. */
module EngineProperties {
  import opened Types
  import opened Validation
  import opened Ledger
  import opened Engine

  lemma {:induction false} ToDetailsTotal(ls: seq<Line>)
    ensures DetailsTotal(ToDetails(ls)) == Total(ls)
  {
    if ls != [] {
      assert ToDetails(ls)[1..] == ToDetails(ls[1..]);
      ToDetailsTotal(ls[1..]);
    }
  }

  /** The reserved quantity of a line list: the sum over lines naming q. */
  lemma {:induction false} ToDetailsUnreferenced(ls: seq<Line>, q: ProductId)
    requires forall k :: 0 <= k < |ls| ==> ls[k].productId != q
    ensures Qty(ToDetails(ls), q) == 0
  {
    forall d | d in ToDetails(ls) ensures d.productId != q {
      var k :| 0 <= k < |ls| && ToDetails(ls)[k] == d;
    }
    QtyUnreferenced(ToDetails(ls), q);
  }

  // ---------------------------------------------------------------------------
  // Create

  /** Create fails exactly when validation fails, a line lacks a field or has a
      non-positive quantity, the total is above MaxTotal, or some line names a
      missing product or one whose stock is below that line's quantity. */
  lemma CreateFailsWhen(db: Db, p: Payload)
    ensures Create(db, p).Err? <==>
              || Validate(p, true).Fail?
              || (exists k :: 0 <= k < |p.details.lines| && LineFault(p.details.lines[k]).Some?)
              || Total(p.details.lines) > MaxTotal
              || (exists k :: 0 <= k < |p.details.lines| &&
                    (p.details.lines[k].productId !in db.stock ||
                     db.stock[p.details.lines[k].productId] < p.details.lines[k].quantity))
  {
  }

  /** Create reports the first check that fails, in the order validation, the
      first bad line, the total, the first missing or short product. */
  lemma CreateErrorOrder(db: Db, p: Payload)
    ensures Validate(p, true).Fail? ==> Create(db, p) == Err(Validate(p, true).error)
    ensures Validate(p, true).Pass? && FirstLineFault(p.details.lines).Some? ==>
              Create(db, p) == Err(FirstLineFault(p.details.lines).value)
    ensures Validate(p, true).Pass? && FirstLineFault(p.details.lines).None? && Total(p.details.lines) > MaxTotal ==>
              Create(db, p) == Err(TotalExceeded)
    ensures Validate(p, true).Pass? && FirstLineFault(p.details.lines).None? && Total(p.details.lines) <= MaxTotal &&
            StockFault(db.stock, p.details.lines).Some? ==>
              Create(db, p) == Err(StockFault(db.stock, p.details.lines).value)
  {
  }

  /** A committed create adds exactly one purchase, under the next id and with
      the lines' total, and advances the id counter; stores one detail per line
      with its product, quantity, price and subtotal quantity times price; lowers each product's stock by the quantities of the lines naming
      it and leaves every other product and purchase as it was. */
  lemma {:induction false} CreateEffects(db: Db, p: Payload)
    requires Consistent(db)
    requires Create(db, p).Ok?
    ensures var (id, db') := Create(db, p).value;
            var ls := p.details.lines;
            && id == db.nextId && id !in db.purchases
            && db'.nextId == db.nextId + 1
            && db'.purchases.Keys == db.purchases.Keys + {id}
            && db'.purchases[id] == Purchase(p.userId.value, p.status.value, Total(ls))
            && (forall j :: j in db.purchases ==> db'.purchases[j] == db.purchases[j] && db'.details[j] == db.details[j])
            && db'.details[id] == ToDetails(ls)
            && |db'.details[id]| == |ls|
            && (forall k :: 0 <= k < |ls| ==>
                  db'.details[id][k] == Detail(ls[k].productId, ls[k].quantity, ls[k].price, ls[k].quantity * ls[k].price))
            && db'.stock.Keys == db.stock.Keys
            && (forall q :: q in db.stock ==> db'.stock[q] == db.stock[q] - Qty(db'.details[id], q))
            && (forall q :: q in db.stock && (forall k :: 0 <= k < |ls| ==> ls[k].productId != q) ==>
                  db'.stock[q] == db.stock[q])
  {
    var ls := p.details.lines;
    forall q | q in db.stock && (forall k :: 0 <= k < |ls| ==> ls[k].productId != q)
      ensures Create(db, p).value.1.stock[q] == db.stock[q]
    {
      ToDetailsUnreferenced(ls, q);
    }
  }

  lemma {:induction false} CreateKeepsConsistent(db: Db, p: Payload)
    requires Consistent(db)
    requires Create(db, p).Ok?
    ensures Consistent(Create(db, p).value.1)
  {
    var (id, db') := Create(db, p).value;
    var ls := p.details.lines;
    ToDetailsTotal(ls);
    assert WellFormed(db'.details[id], db'.purchases[id].total, db'.stock) by {
      forall d | d in ToDetails(ls) ensures d.subtotal == d.quantity * d.price && d.productId in db'.stock {
        var k :| 0 <= k < |ls| && ToDetails(ls)[k] == d;
      }
    }
  }

  /** Create conserves stock plus reservations for every product. */
  lemma {:induction false} CreateConserves(db: Db, p: Payload)
    requires Consistent(db)
    requires Create(db, p).Ok?
    ensures forall q :: q in db.stock ==> Available(Create(db, p).value.1, q) == Available(db, q)
  {
    var (id, db') := Create(db, p).value;
    var ds := ToDetails(p.details.lines);
    forall q | q in db.stock ensures Available(db', q) == Available(db, q) {
      ReservedBelowSame(db'.details, db.details, q, id);
      assert ReservedBelow(db'.details, q, id + 1) == ReservedBelow(db'.details, q, id) + Qty(ds, q);
    }
  }

  /** A line list whose products are distinct cannot overdraw: create keeps
      every stock non-negative and every stored quantity positive. */
  lemma {:induction false} CreateKeepsSound(db: Db, p: Payload)
    requires Consistent(db) && Sound(db)
    requires Create(db, p).Ok?
    requires DistinctProducts(p.details.lines)
    ensures Sound(Create(db, p).value.1)
  {
    var (id, db') := Create(db, p).value;
    var ls := p.details.lines;
    var ds := ToDetails(ls);
    forall q | q in db'.stock ensures db'.stock[q] >= 0 {
      if k :| 0 <= k < |ls| && ls[k].productId == q {
        QtyDistinct(ds, k);
      } else {
        ToDetailsUnreferenced(ls, q);
      }
    }
    forall j, d | j in db'.details && d in db'.details[j] ensures d.quantity > 0 {
      if j == id {
        var k :| 0 <= k < |ls| && ds[k] == d;
      }
    }
  }

  // ---------------------------------------------------------------------------
  // Update

  /** A committed update keeps every other purchase; without details it keeps
      the stock, the details and the total; with lines it stores their details
      and total, and each product's stock moves by its old quantities minus its
      new ones. The user and status fall back to the stored ones when omitted. */
  lemma {:induction false} UpdateEffects(db: Db, id: PurchaseId, p: Payload)
    requires Update(db, id, p).Ok?
    ensures var db' := Update(db, id, p).value;
            var cur := db.purchases[id];
            && id in db.purchases && cur.status != Completed
            && db'.purchases.Keys == db.purchases.Keys
            && db'.nextId == db.nextId
            && (forall j :: j in db.purchases && j != id ==> db'.purchases[j] == db.purchases[j])
            && (forall j :: j in db.details && j != id ==> j in db'.details && db'.details[j] == db.details[j])
            && db'.purchases[id].userId == (if p.userId.Some? then p.userId.value else cur.userId)
            && db'.purchases[id].status == (if p.status.Some? then p.status.value else cur.status)
            && (p.details.Absent? ==>
                  db'.stock == db.stock && db'.details == db.details && db'.purchases[id].total == cur.total)
            && (p.details.Lines? ==>
                  && db'.details[id] == ToDetails(p.details.lines)
                  && db'.purchases[id].total == Total(p.details.lines)
                  && db'.stock.Keys == db.stock.Keys
                  && (forall q :: q in db.stock ==>
                        db'.stock[q] == db.stock[q] + Qty(CurrentDetails(db, id), q) - Qty(db'.details[id], q)))
  {
  }

  lemma {:induction false} UpdateKeepsConsistent(db: Db, id: PurchaseId, p: Payload)
    requires Consistent(db)
    requires Update(db, id, p).Ok?
    ensures Consistent(Update(db, id, p).value)
  {
    var db' := Update(db, id, p).value;
    if p.details.Lines? {
      var ls := p.details.lines;
      ToDetailsTotal(ls);
      assert WellFormed(db'.details[id], db'.purchases[id].total, db'.stock) by {
        forall d | d in ToDetails(ls) ensures d.subtotal == d.quantity * d.price && d.productId in db'.stock {
          var k :| 0 <= k < |ls| && ToDetails(ls)[k] == d;
        }
      }
    }
  }

  /** Update conserves stock plus reservations for every product. */
  lemma {:induction false} UpdateConserves(db: Db, id: PurchaseId, p: Payload)
    requires Consistent(db)
    requires Update(db, id, p).Ok?
    ensures forall q :: q in db.stock ==> Available(Update(db, id, p).value, q) == Available(db, q)
  {
    var db' := Update(db, id, p).value;
    if p.details.Lines? {
      forall q | q in db.stock ensures Available(db', q) == Available(db, q) {
        ReservedBelowUpdate(db.details, id, ToDetails(p.details.lines), q, db.nextId);
      }
    }
  }

  /** With distinct products and positive quantities in the new lines, update
      keeps every stock non-negative and every stored quantity positive. The
      source itself does not check the quantities of an update. */
  lemma {:induction false} UpdateKeepsSound(db: Db, id: PurchaseId, p: Payload)
    requires Consistent(db) && Sound(db)
    requires Update(db, id, p).Ok?
    requires p.details.Lines? ==> DistinctProducts(p.details.lines)
    requires p.details.Lines? ==> forall k :: 0 <= k < |p.details.lines| ==> p.details.lines[k].quantity > 0
    ensures Sound(Update(db, id, p).value)
  {
    var db' := Update(db, id, p).value;
    if p.details.Lines? {
      var ls := p.details.lines;
      var ds := ToDetails(ls);
      var cur := CurrentDetails(db, id);
      forall q | q in db'.stock ensures db'.stock[q] >= 0 {
        QtyNonNegative(cur, q);
        if k :| 0 <= k < |ls| && ls[k].productId == q {
          QtyDistinct(ds, k);
        } else {
          ToDetailsUnreferenced(ls, q);
        }
      }
      forall j, d | j in db'.details && d in db'.details[j] ensures d.quantity > 0 {
        if j == id {
          var k :| 0 <= k < |ls| && ds[k] == d;
        }
      }
    }
  }

  /** Re-submitting a purchase's own lines never fails for lack of stock: the
      old reservation is released before the check, so the update commits and
      every stock ends where it was. */
  lemma {:induction false} ResubmitKeepsStock(db: Db, id: PurchaseId, ls: seq<Line>)
    requires Consistent(db) && Sound(db)
    requires id in db.purchases && db.purchases[id].status != Completed
    requires ToDetails(ls) == db.details[id]
    ensures StockFault(Release(db.stock, db.details[id]), ls).None?
    ensures Update(db, id, Payload(None, None, Lines(ls))).Ok?
    ensures Update(db, id, Payload(None, None, Lines(ls))).value.stock == db.stock
  {
    var cur := db.details[id];
    var released := Release(db.stock, cur);
    forall k | 0 <= k < |ls| ensures ls[k].productId in released && released[ls[k].productId] >= ls[k].quantity {
      assert cur[k] in cur;
      QtyCoversLine(cur, k);
    }
    ToDetailsTotal(ls);
    var db' := Update(db, id, Payload(None, None, Lines(ls))).value;
    assert db'.stock == db.stock;
  }

  /** Update fails exactly when the payload does not validate, the purchase
      is missing or COMPLETED, the details are not iterable, or the new lines
      fail the stock check against the released stock or exceed MaxTotal. The
      checks run in that order, and the error reported is that of the first
      one failing: a missing purchase is refused as not found, a completed one
      as completed, a short line by its StockFault. */
  lemma UpdateFailsWhen(db: Db, id: PurchaseId, p: Payload)
    ensures Validate(p, false).Fail? ==> Update(db, id, p) == Err(Validate(p, false).error)
    ensures Validate(p, false).Pass? && id !in db.purchases ==> Update(db, id, p) == Err(PurchaseNotFound)
    ensures Validate(p, false).Pass? && id in db.purchases && db.purchases[id].status == Completed ==>
              Update(db, id, p) == Err(PurchaseCompleted)
    ensures Validate(p, false).Pass? && id in db.purchases && db.purchases[id].status != Completed &&
            p.details.NotArray? ==>
              Update(db, id, p) == Err(DetailsNotIterable)
    ensures Validate(p, false).Pass? && id in db.purchases && db.purchases[id].status != Completed &&
            p.details.Lines? && StockFault(Release(db.stock, CurrentDetails(db, id)), p.details.lines).Some? ==>
              Update(db, id, p) == Err(StockFault(Release(db.stock, CurrentDetails(db, id)), p.details.lines).value)
    ensures Validate(p, false).Pass? && id in db.purchases && db.purchases[id].status != Completed &&
            p.details.Lines? && StockFault(Release(db.stock, CurrentDetails(db, id)), p.details.lines).None? &&
            Total(p.details.lines) > MaxTotal ==>
              Update(db, id, p) == Err(TotalExceeded)
    ensures Update(db, id, p).Err? <==>
              || Validate(p, false).Fail?
              || id !in db.purchases
              || db.purchases[id].status == Completed
              || p.details.NotArray?
              || (p.details.Lines? &&
                  ((exists k :: 0 <= k < |p.details.lines| &&
                      !InStock(Release(db.stock, CurrentDetails(db, id)), p.details.lines[k]))
                   || Total(p.details.lines) > MaxTotal))
  {
  }

  // ---------------------------------------------------------------------------
  // Delete

  /** A committed delete gives back every detail's quantity and removes the
      purchase and its details, nothing else. */
  lemma {:induction false} DeleteEffects(db: Db, id: PurchaseId)
    requires Delete(db, id).Ok?
    ensures var db' := Delete(db, id).value;
            && id in db.purchases && db.purchases[id].status != Completed
            && db'.purchases.Keys == db.purchases.Keys - {id}
            && id !in db'.details
            && (forall j :: j in db'.purchases ==> db'.purchases[j] == db.purchases[j])
            && (forall j :: j in db'.details ==> db'.details[j] == db.details[j])
            && db'.stock.Keys == db.stock.Keys
            && (forall q :: q in db.stock ==> db'.stock[q] == db.stock[q] + Qty(CurrentDetails(db, id), q))
  {
  }

  /** Delete refuses a missing purchase as not found and a COMPLETED one as
      completed, and fails in no other case. */
  lemma DeleteFailsWhen(db: Db, id: PurchaseId)
    ensures id !in db.purchases ==> Delete(db, id) == Err(PurchaseNotFound)
    ensures id in db.purchases && db.purchases[id].status == Completed ==> Delete(db, id) == Err(PurchaseCompleted)
    ensures Delete(db, id).Err? <==> id !in db.purchases || db.purchases[id].status == Completed
  {
  }

  lemma {:induction false} DeleteKeepsConsistent(db: Db, id: PurchaseId)
    requires Consistent(db)
    requires Delete(db, id).Ok?
    ensures Consistent(Delete(db, id).value)
  {
  }

  /** Delete conserves stock plus reservations for every product. */
  lemma {:induction false} DeleteConserves(db: Db, id: PurchaseId)
    requires Consistent(db)
    requires Delete(db, id).Ok?
    ensures forall q :: q in db.stock ==> Available(Delete(db, id).value, q) == Available(db, q)
  {
    forall q | q in db.stock ensures Available(Delete(db, id).value, q) == Available(db, q) {
      ReservedBelowRemove(db.details, id, q, db.nextId);
    }
  }

  lemma {:induction false} DeleteKeepsSound(db: Db, id: PurchaseId)
    requires Sound(db)
    requires Delete(db, id).Ok?
    ensures Sound(Delete(db, id).value)
  {
    var cur := CurrentDetails(db, id);
    forall q | q in db.stock ensures Delete(db, id).value.stock[q] >= 0 {
      QtyNonNegative(cur, q);
    }
  }

  // ---------------------------------------------------------------------------
  // Across operations

  /** Deleting a purchase just created restores every product's stock and
      both purchase tables; only the id counter has moved. A purchase created
      as COMPLETED cannot be deleted at all. */
  lemma {:induction false} CreateThenDelete(db: Db, p: Payload)
    requires Consistent(db)
    requires Create(db, p).Ok?
    ensures var (id, db') := Create(db, p).value;
            if p.status.value == Completed then Delete(db', id) == Err(PurchaseCompleted)
            else Delete(db', id) == Ok(db.(nextId := db.nextId + 1))
  {
    var (id, db') := Create(db, p).value;
    if p.status.value != Completed {
      var db'' := Delete(db', id).value;
      assert db''.purchases == db.purchases;
      assert db''.details == db.details;
      assert db''.stock == db.stock;
    }
  }

  /** COMPLETED is terminal: update (of a payload that validates) and delete
      are refused, and every committed create, update or delete of another
      purchase keeps the completed purchase and its details as they are. */
  lemma {:induction false} CompletedIsTerminal(db: Db, id: PurchaseId, other: PurchaseId, p: Payload)
    requires Consistent(db)
    requires id in db.purchases && db.purchases[id].status == Completed
    ensures Validate(p, false).Pass? ==> Update(db, id, p) == Err(PurchaseCompleted)
    ensures Delete(db, id) == Err(PurchaseCompleted)
    ensures Create(db, p).Ok? ==>
              var db' := Create(db, p).value.1;
              id in db'.purchases && db'.purchases[id] == db.purchases[id] && db'.details[id] == db.details[id]
    ensures Update(db, other, p).Ok? ==>
              var db' := Update(db, other, p).value;
              id in db'.purchases && db'.purchases[id] == db.purchases[id] && db'.details[id] == db.details[id]
    ensures Delete(db, other).Ok? ==>
              var db' := Delete(db, other).value;
              id in db'.purchases && db'.purchases[id] == db.purchases[id] && db'.details[id] == db.details[id]
  {
  }

  // ---------------------------------------------------------------------------
  // Worked examples

  /** Product 1 holds 10; a purchase of 3 at 5.00 totals 15.00 and leaves 7;
      deleting it brings the stock back to 10. */
  lemma CreateDeleteScenario()
    ensures var db := Db(map[1 := 10], map[], map[], 1);
            var p := Payload(Some(1), Some("OPEN"), Lines([Line(1, 3, 500)]));
            && Create(db, p).Ok?
            && Create(db, p).value.0 == 1
            && Create(db, p).value.1.purchases[1].total == 1500
            && Create(db, p).value.1.stock[1] == 7
            && Delete(Create(db, p).value.1, 1) == Ok(Db(map[1 := 10], map[], map[], 2))
  {
    var db := Db(map[1 := 10], map[], map[], 1);
    var p := Payload(Some(1), Some("OPEN"), Lines([Line(1, 3, 500)]));
    assert Total([Line(1, 3, 500)]) == 1500;
    CreateThenDelete(db, p);
  }

  /** The stock check compares each line with the stock before any write, so
      two lines of 6 against a stock of 10 both pass and leave -2. */
  lemma DuplicateLinesOverdraw()
    ensures var db := Db(map[1 := 10], map[], map[], 1);
            var p := Payload(Some(1), Some("OPEN"), Lines([Line(1, 6, 100), Line(1, 6, 100)]));
            Create(db, p).Ok? && Create(db, p).value.1.stock[1] == -2
  {
    var ls := [Line(1, 6, 100), Line(1, 6, 100)];
    assert Total(ls) == 1200;
    assert ToDetails(ls) == [Detail(1, 6, 100, 600), Detail(1, 6, 100, 600)];
  }
}
