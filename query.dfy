/** The two read routes: the purchase query ordered by id descending (joined
    with the users' names), the detail query for those ids (joined with the
    products' names), and the in-memory grouping of details under purchases. */
module Query {
  import opened Types
  import opened Engine

  /** A row of the purchase query. */
  datatype PurchaseRow = PurchaseRow(id: PurchaseId, user: string, total: Cents, status: string)
  /** A row of the detail query. */
  datatype DetailRow = DetailRow(purchaseId: PurchaseId, product: string, quantity: int, price: Cents, subtotal: Cents)

  datatype DetailView = DetailView(product: string, quantity: int, price: Cents, subtotal: Cents)
  datatype PurchaseView = PurchaseView(id: PurchaseId, user: string, total: Cents, status: string, details: seq<DetailView>)

  predicate Descending(ids: seq<PurchaseId>)
  {
    forall i, j :: 0 <= i < j < |ids| ==> ids[i] > ids[j]
  }

  /** The rows' ids are strictly descending: Descending stated on the rows
      themselves, so that its quantifier is triggered by `rows[i].id`, the
      term every proof about the list mentions. */
  predicate RowsDescending(rows: seq<PurchaseRow>)
  {
    forall i, j :: 0 <= i < j < |rows| ==> rows[i].id > rows[j].id
  }

  /** The ids in `keys` from n down to 1: `ORDER BY p.id DESC` over ids that
      the counter hands out from 1 upwards. */
  function IdsDown(n: int, keys: set<PurchaseId>): (r: seq<PurchaseId>)
    ensures Descending(r)
    ensures forall id :: id in r <==> id in keys && 1 <= id <= n
    decreases n
  {
    if n < 1 then []
    else
      var rest := IdsDown(n - 1, keys);
      assert forall i :: 0 <= i < |rest| ==> rest[i] in rest;
      if n in keys then [n] + rest else rest
  }

  /** The purchase rows for the given ids whose user exists (an inner join),
      in the order of the ids. */
  function PurchaseRows(ids: seq<PurchaseId>, db: Db, users: map<UserId, string>): (r: seq<PurchaseRow>)
    ensures forall row :: row in r ==> row.id in ids && Joined(db, users, row.id) && row == RowFor(db, users, row.id)
  {
    if ids == [] then []
    else
      var rest := PurchaseRows(ids[1..], db, users);
      assert forall id :: id in ids[1..] ==> id in ids;
      if Joined(db, users, ids[0]) then [RowFor(db, users, ids[0])] + rest else rest
  }

  /** The purchase exists and so does its user. */
  predicate Joined(db: Db, users: map<UserId, string>, id: PurchaseId)
  {
    id in db.purchases && db.purchases[id].userId in users
  }

  function RowFor(db: Db, users: map<UserId, string>, id: PurchaseId): PurchaseRow
    requires Joined(db, users, id)
  {
    var pu := db.purchases[id];
    PurchaseRow(id, users[pu.userId], pu.total, pu.status)
  }

  /** Every id whose purchase and user exist has its row. */
  lemma {:induction false} PurchaseRowsComplete(ids: seq<PurchaseId>, db: Db, users: map<UserId, string>, k: nat)
    requires k < |ids| && Joined(db, users, ids[k])
    ensures exists i :: 0 <= i < |PurchaseRows(ids, db, users)| && PurchaseRows(ids, db, users)[i].id == ids[k]
  {
    var r := PurchaseRows(ids, db, users);
    var rest := PurchaseRows(ids[1..], db, users);
    if k == 0 {
      assert r[0].id == ids[0];
    } else {
      assert ids[1..][k - 1] == ids[k];
      PurchaseRowsComplete(ids[1..], db, users, k - 1);
      var i :| 0 <= i < |rest| && rest[i].id == ids[k];
      if r != rest {
        assert r[i + 1] == rest[i];
      }
    }
  }

  /** The rows keep the (descending) order of the ids. */
  lemma {:induction false} PurchaseRowsDescending(ids: seq<PurchaseId>, db: Db, users: map<UserId, string>)
    requires Descending(ids)
    ensures RowsDescending(PurchaseRows(ids, db, users))
  {
    if ids != [] {
      var rest := PurchaseRows(ids[1..], db, users);
      assert Descending(ids[1..]) by {
        forall i, j | 0 <= i < j < |ids[1..]| ensures ids[1..][i] > ids[1..][j] {
          assert ids[1..][i] == ids[i + 1] && ids[1..][j] == ids[j + 1];
        }
      }
      PurchaseRowsDescending(ids[1..], db, users);
      if Joined(db, users, ids[0]) {
        forall i | 0 <= i < |rest| ensures rest[i].id < ids[0] {
          assert rest[i] in rest;
          var k :| 0 <= k < |ids[1..]| && ids[1..][k] == rest[i].id;
          assert ids[k + 1] == rest[i].id;
        }
        ConsDescending(RowFor(db, users, ids[0]), rest);
      }
    }
  }

  /** A row above every row of a descending list extends it. */
  lemma ConsDescending(row: PurchaseRow, rest: seq<PurchaseRow>)
    requires RowsDescending(rest)
    requires forall i :: 0 <= i < |rest| ==> rest[i].id < row.id
    ensures RowsDescending([row] + rest)
  {
    var r := [row] + rest;
    forall i, j | 0 <= i < j < |r| ensures r[i].id > r[j].id {
      assert r[j] == rest[j - 1];
      if i > 0 {
        assert r[i] == rest[i - 1];
      }
    }
  }

  function RowIds(rows: seq<PurchaseRow>): (r: seq<PurchaseId>)
    ensures |r| == |rows|
  {
    seq(|rows|, i requires 0 <= i < |rows| => rows[i].id)
  }

  /** The two descending orders agree. */
  lemma RowsDescendingIds(rows: seq<PurchaseRow>)
    ensures RowsDescending(rows) <==> Descending(RowIds(rows))
  {
    assert forall i :: 0 <= i < |rows| ==> RowIds(rows)[i] == rows[i].id;
  }

  /** A purchase's detail rows whose product exists (an inner join), in order. */
  function JoinDetails(id: PurchaseId, ds: seq<Detail>, products: map<ProductId, string>): (r: seq<DetailRow>)
    ensures |r| <= |ds|
    ensures forall k :: 0 <= k < |r| ==> r[k].purchaseId == id
  {
    if ds == [] then []
    else
      var rest := JoinDetails(id, ds[1..], products);
      var d := ds[0];
      if d.productId in products
      then [DetailRow(id, products[d.productId], d.quantity, d.price, d.subtotal)] + rest
      else rest
  }

  /** The detail query `WHERE purchase_id IN (ids)`, purchase after purchase. */
  function DetailRows(ids: seq<PurchaseId>, db: Db, products: map<ProductId, string>): seq<DetailRow>
  {
    if ids == [] then []
    else JoinDetails(ids[0], CurrentDetails(db, ids[0]), products) + DetailRows(ids[1..], db, products)
  }

  function ViewOf(d: DetailRow): DetailView
  {
    DetailView(d.product, d.quantity, d.price, d.subtotal)
  }

  function Views(drows: seq<DetailRow>): (r: seq<DetailView>)
    ensures |r| == |drows|
  {
    seq(|drows|, i requires 0 <= i < |drows| => ViewOf(drows[i]))
  }

  /** `details.filter(d => d.purchase_id === id).map(...)`: the views of the
      detail rows of purchase id, and only those. */
  function DetailsOf(id: PurchaseId, drows: seq<DetailRow>): seq<DetailView>
  {
    if drows == [] then []
    else
      var rest := DetailsOf(id, drows[1..]);
      if drows[0].purchaseId == id then [ViewOf(drows[0])] + rest else rest
  }

  /** The grouped views are exactly the views of the rows whose purchase id is
      id, as a set; a corollary of DetailsOfInOrder, proved directly. */
  lemma {:induction false} DetailsOfExactly(id: PurchaseId, drows: seq<DetailRow>)
    ensures forall v :: v in DetailsOf(id, drows) <==> exists d :: d in drows && d.purchaseId == id && ViewOf(d) == v
  {
    if drows != [] {
      DetailsOfExactly(id, drows[1..]);
      assert forall d :: d in drows <==> d == drows[0] || d in drows[1..];
    }
  }

  /** The rows of drows whose purchase id is id, in order: built from the
      last row backwards, independently of DetailsOf. Each row is kept as
      often as it occurs. */
  function RowsOf(id: PurchaseId, drows: seq<DetailRow>): (r: seq<DetailRow>)
    ensures forall d :: multiset(r)[d] == if d.purchaseId == id then multiset(drows)[d] else 0
    decreases |drows|
  {
    if drows == [] then []
    else
      var init := drows[..|drows| - 1];
      var last := drows[|drows| - 1];
      assert drows == init + [last];
      RowsOf(id, init) + (if last.purchaseId == id then [last] else [])
  }

  /** Grouping keeps every row of the purchase, in order and with repeats. */
  lemma {:induction false} DetailsOfInOrder(id: PurchaseId, drows: seq<DetailRow>)
    ensures DetailsOf(id, drows) == Views(RowsOf(id, drows))
    decreases |drows|
  {
    if drows != [] {
      var init := drows[..|drows| - 1];
      var last := drows[|drows| - 1];
      var tail := if last.purchaseId == id then [last] else [];
      assert drows == init + [last];
      DetailsOfConcat(id, init, [last]);
      DetailsOfInOrder(id, init);
      assert DetailsOf(id, [last]) == Views(tail);
      ViewsConcat(RowsOf(id, init), tail);
    }
  }

  lemma ViewsConcat(a: seq<DetailRow>, b: seq<DetailRow>)
    ensures Views(a + b) == Views(a) + Views(b)
  {
  }

  /** When every detail's product has a name, the join keeps every detail,
      in order, with its product's name. */
  lemma {:induction false} JoinDetailsAll(id: PurchaseId, ds: seq<Detail>, products: map<ProductId, string>)
    requires forall d :: d in ds ==> d.productId in products
    ensures |JoinDetails(id, ds, products)| == |ds|
    ensures forall k :: 0 <= k < |ds| ==>
              JoinDetails(id, ds, products)[k] ==
                DetailRow(id, products[ds[k].productId], ds[k].quantity, ds[k].price, ds[k].subtotal)
  {
    if ds != [] {
      assert ds[0] in ds;
      assert forall d :: d in ds[1..] ==> d in ds;
      JoinDetailsAll(id, ds[1..], products);
      forall k | 1 <= k < |ds| ensures ds[k] == ds[1..][k - 1] { }
    }
  }

  /** `rows.map(...)`: each purchase row with the details grouped under it. */
  function Assemble(rows: seq<PurchaseRow>, drows: seq<DetailRow>): (r: seq<PurchaseView>)
    ensures |r| == |rows|
  {
    seq(|rows|, i requires 0 <= i < |rows| =>
      PurchaseView(rows[i].id, rows[i].user, rows[i].total, rows[i].status, DetailsOf(rows[i].id, drows)))
  }

  /** GET /purchases. */
  function List(db: Db, users: map<UserId, string>, products: map<ProductId, string>): (r: seq<PurchaseView>)
    ensures forall i :: 0 <= i < |r| ==> Joined(db, users, r[i].id) && r[i].total == db.purchases[r[i].id].total
  {
    var rows := PurchaseRows(IdsDown(db.nextId - 1, db.purchases.Keys), db, users);
    Assemble(rows, DetailRows(RowIds(rows), db, products))
  }

  /** GET /purchases/{id}. */
  function Get(db: Db, users: map<UserId, string>, products: map<ProductId, string>, id: PurchaseId): (r: Option<PurchaseView>)
    ensures r.Some? <==> id in db.purchases && db.purchases[id].userId in users
    ensures r.Some? ==>
              var pu := db.purchases[id];
              && r.value.id == id && r.value.user == users[pu.userId]
              && r.value.total == pu.total && r.value.status == pu.status
              && |r.value.details| <= |CurrentDetails(db, id)|
  {
    if Joined(db, users, id) then
      var row := RowFor(db, users, id);
      Some(PurchaseView(id, row.user, row.total, row.status, Views(JoinDetails(id, CurrentDetails(db, id), products))))
    else None
  }

  /** In a consistent database whose product names cover the products, the
      single-purchase read shows one view per stored detail, in order, with
      the product's name, quantity, price and subtotal. */
  lemma GetShowsDetails(db: Db, users: map<UserId, string>, products: map<ProductId, string>, id: PurchaseId)
    requires Consistent(db) && products.Keys == db.stock.Keys
    requires Joined(db, users, id)
    ensures var cur := db.details[id];
            var v := Get(db, users, products, id).value.details;
            && |v| == |cur|
            && forall k :: 0 <= k < |cur| ==>
                 v[k] == DetailView(products[cur[k].productId], cur[k].quantity, cur[k].price, cur[k].subtotal)
  {
    var cur := db.details[id];
    assert WellFormed(cur, db.purchases[id].total, db.stock);
    JoinDetailsAll(id, cur, products);
  }

  // ---------------------------------------------------------------------------

  lemma {:induction false} DetailsOfConcat(id: PurchaseId, a: seq<DetailRow>, b: seq<DetailRow>)
    ensures DetailsOf(id, a + b) == DetailsOf(id, a) + DetailsOf(id, b)
  {
    if a == [] {
      assert a + b == b;
    } else {
      var ab := a + b;
      assert ab[0] == a[0];
      assert ab[1..] == a[1..] + b;
      DetailsOfConcat(id, a[1..], b);
      var tail := DetailsOf(id, a[1..]) + DetailsOf(id, b);
      if a[0].purchaseId == id {
        calc {
          DetailsOf(id, ab);
          [ViewOf(a[0])] + DetailsOf(id, ab[1..]);
          [ViewOf(a[0])] + tail;
          ([ViewOf(a[0])] + DetailsOf(id, a[1..])) + DetailsOf(id, b);
        }
      }
    }
  }

  /** Grouping one purchase's joined rows under id keeps them all when the ids
      match and none otherwise. */
  lemma {:induction false} DetailsOfJoin(id: PurchaseId, j: PurchaseId, ds: seq<Detail>, products: map<ProductId, string>)
    ensures DetailsOf(id, JoinDetails(j, ds, products)) == if id == j then Views(JoinDetails(j, ds, products)) else []
  {
    if ds != [] {
      DetailsOfJoin(id, j, ds[1..], products);
      var rest := JoinDetails(j, ds[1..], products);
      if ds[0].productId in products {
        var row := DetailRow(j, products[ds[0].productId], ds[0].quantity, ds[0].price, ds[0].subtotal);
        assert ([row] + rest)[1..] == rest;
        assert Views([row] + rest) == [ViewOf(row)] + Views(rest);
      }
    }
  }

  /** Grouping the whole detail query under one of its ids yields exactly that
      purchase's joined details. */
  lemma {:induction false} DetailsOfRows(id: PurchaseId, ids: seq<PurchaseId>, db: Db, products: map<ProductId, string>)
    requires forall i, j :: 0 <= i < j < |ids| ==> ids[i] != ids[j]
    ensures DetailsOf(id, DetailRows(ids, db, products)) ==
              if id in ids then Views(JoinDetails(id, CurrentDetails(db, id), products)) else []
  {
    if ids != [] {
      var head := JoinDetails(ids[0], CurrentDetails(db, ids[0]), products);
      DetailsOfConcat(id, head, DetailRows(ids[1..], db, products));
      DetailsOfJoin(id, ids[0], CurrentDetails(db, ids[0]), products);
      DetailsOfRows(id, ids[1..], db, products);
      forall k | 0 <= k < |ids[1..]| ensures ids[1..][k] != ids[0] {
        assert ids[1..][k] == ids[k + 1];
      }
    }
  }

  /** The rows of the list query: descending ids, one row per purchase whose
      user exists. */
  lemma {:induction false} ListRows(db: Db, users: map<UserId, string>)
    requires Consistent(db)
    ensures var rows := PurchaseRows(IdsDown(db.nextId - 1, db.purchases.Keys), db, users);
            && RowsDescending(rows)
            && (forall i :: 0 <= i < |rows| ==> Joined(db, users, rows[i].id) && rows[i] == RowFor(db, users, rows[i].id))
            && (forall id :: Joined(db, users, id) ==> exists i :: 0 <= i < |rows| && rows[i].id == id)
  {
    var ids := IdsDown(db.nextId - 1, db.purchases.Keys);
    var rows := PurchaseRows(ids, db, users);
    PurchaseRowsDescending(ids, db, users);
    forall i | 0 <= i < |rows| ensures Joined(db, users, rows[i].id) && rows[i] == RowFor(db, users, rows[i].id) {
      assert rows[i] in rows;
    }
    forall id | Joined(db, users, id) ensures exists i :: 0 <= i < |rows| && rows[i].id == id {
      assert id in ids;
      var k :| 0 <= k < |ids| && ids[k] == id;
      PurchaseRowsComplete(ids, db, users, k);
    }
  }

  /** One entry of the list is what the single-purchase query returns. */
  lemma {:induction false} ListEntry(db: Db, users: map<UserId, string>, products: map<ProductId, string>,
                                     rows: seq<PurchaseRow>, i: nat)
    requires i < |rows|
    requires RowsDescending(rows)
    requires Joined(db, users, rows[i].id) && rows[i] == RowFor(db, users, rows[i].id)
    ensures Get(db, users, products, rows[i].id) == Some(Assemble(rows, DetailRows(RowIds(rows), db, products))[i])
  {
    var rids := RowIds(rows);
    assert rids[i] == rows[i].id;
    DetailsOfRows(rows[i].id, rids, db, products);
  }

  /** The list is ordered by id descending, holds exactly the purchases whose
      user exists, and shows each one exactly as the single-purchase query
      does, with its own details grouped under it. */
  lemma {:induction false} ListIsGrouped(db: Db, users: map<UserId, string>, products: map<ProductId, string>)
    requires Consistent(db)
    ensures var r := List(db, users, products);
            && (forall i, j :: 0 <= i < j < |r| ==> r[i].id > r[j].id)
            && (forall i :: 0 <= i < |r| ==> Get(db, users, products, r[i].id) == Some(r[i]))
            && (forall id :: Get(db, users, products, id).Some? ==> exists i :: 0 <= i < |r| && r[i].id == id)
  {
    ListRows(db, users);
    var rows := PurchaseRows(IdsDown(db.nextId - 1, db.purchases.Keys), db, users);
    var r := Assemble(rows, DetailRows(RowIds(rows), db, products));
    assert List(db, users, products) == r;
    forall i | 0 <= i < |r| ensures r[i].id == rows[i].id && Get(db, users, products, r[i].id) == Some(r[i]) {
      ListEntry(db, users, products, rows, i);
    }
    forall id | Get(db, users, products, id).Some? ensures exists i :: 0 <= i < |r| && r[i].id == id {
      var i :| 0 <= i < |rows| && rows[i].id == id;
      assert r[i].id == id;
    }
  }
}
