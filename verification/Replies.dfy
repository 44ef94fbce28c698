/** What each request is answered, spelled out on the rows. */
module Replies {
  import opened Ledger
  import opened Endpoints

  /** Exactly which sales orders are accepted, and what is stored: every line as it was sent, repeated products
      included, and the order open. */
  lemma SaleAcceptedIff(db: Store, lines: seq<Line>)
    requires WellFormed(db)
    ensures var acceptable :=
              |lines| > 0 && forall i :: 0 <= i < |lines| ==>
                lines[i].quantity >= 1 && lines[i].product < |db.active| && db.active[lines[i].product];
            Serve(db, CreateSale(lines), [])
            == if acceptable then Outcome(Created(|db.sales|), db.(sales := db.sales + [SalesOrder(lines, false)]))
               else Outcome(BadRequest, db)
  {
    LinesByIndex(lines, db.active);
  }

  /** The same for purchase orders, whose supplier must exist and be active. */
  lemma PurchaseAcceptedIff(db: Store, supplier: nat, lines: seq<Line>)
    requires WellFormed(db)
    ensures var acceptable :=
              && supplier < |db.suppliers| && db.suppliers[supplier]
              && |lines| > 0 && forall i :: 0 <= i < |lines| ==>
                lines[i].quantity >= 1 && lines[i].product < |db.active| && db.active[lines[i].product];
            Serve(db, CreatePurchase(supplier, lines), [])
            == if acceptable then
                 Outcome(
                   Created(|db.purchases|),
                   db.(purchases := db.purchases + [PurchaseOrder(supplier, lines, false)]))
               else Outcome(BadRequest, db)
  {
    LinesByIndex(lines, db.active);
  }

  lemma LinesByIndex(lines: seq<Line>, active: seq<bool>)
    ensures LinesAccepted(lines, active) <==>
            |lines| > 0 && forall i :: 0 <= i < |lines| ==>
              lines[i].quantity >= 1 && lines[i].product < |active| && active[lines[i].product]
  {
    if LinesAccepted(lines, active) {
      forall i | 0 <= i < |lines|
        ensures lines[i].quantity >= 1 && lines[i].product < |active| && active[lines[i].product]
      {
        assert lines[i] in lines;
      }
    } else if forall i :: 0 <= i < |lines| ==>
        lines[i].quantity >= 1 && lines[i].product < |active| && active[lines[i].product] {
      forall line | line in lines ensures line.product < |active| && active[line.product] && line.quantity >= 1 {
        var i :| 0 <= i < |lines| && lines[i] == line;
      }
    }
  }

  /** The reply to a receive, a complete and an approve, and with it whether anything happens. */
  lemma ClosingReplies(db: Store, id: nat, items: seq<Line>)
    requires WellFormed(db)
    ensures Serve(db, Receive(id), items).reply
         == if id >= |db.purchases| then Missing else if db.purchases[id].received then Conflict else Ok
    ensures Fetched(db, Complete(id), items) ==>
              Serve(db, Complete(id), items).reply
              == if id >= |db.sales| then Missing
                 else if db.sales[id].completed then Conflict
                 else if exists i :: 0 <= i < |db.sales[id].lines|
                           && db.sales[id].lines[i].quantity > db.stock[db.sales[id].lines[i].product] then Conflict
                 else Ok
    ensures Serve(db, Approve(id), items).reply
         == if id >= |db.notes| then Missing else if db.notes[id].approved then Conflict else Ok
  {
    if id < |db.sales| && !db.sales[id].completed && multiset(items) == multiset(db.sales[id].lines) {
      var lines := db.sales[id].lines;
      MembersPermuted(items, lines);
      if !CanFulfil(db.stock, items) {
        var line :| line in items && !(line.product < |db.stock| && line.quantity <= db.stock[line.product]);
        assert line in lines;
        var i :| 0 <= i < |lines| && lines[i] == line;
      } else {
        forall i | 0 <= i < |lines| ensures lines[i].quantity <= db.stock[lines[i].product] {
          assert lines[i] in items;
        }
      }
    }
  }

  /** The reply to a write-off: 400 for a bad quantity or product, 409 beyond the stock. */
  lemma WriteOffReplies(db: Store, product: nat, amount: int)
    requires WellFormed(db)
    ensures Serve(db, WriteOff(product, amount), []).reply
         == if amount <= 0 || product >= |db.stock| || !db.active[product] then BadRequest
            else if amount > db.stock[product] then Conflict
            else Ok
  {
  }

  /** The reply to a filed return: a sale that is not there is an error, an open one, an unsold product or too large a
      quantity is 400, and the database refuses a negative one. */
  lemma FilingReplies(db: Store, sale: nat, p: nat, amount: int)
    requires WellFormed(db)
    ensures Serve(db, FileReturn(sale, p, amount), []).reply
         == if sale >= |db.sales| then Missing
            else if !db.sales[sale].completed then BadRequest
            else if forall i :: 0 <= i < |db.sales[sale].lines| ==> db.sales[sale].lines[i].product != p then BadRequest
            else if amount + Reserved(db.notes, sale, p) > Qty(db.sales[sale].lines, p) then BadRequest
            else if amount < 0 then Rejected
            else Created(|db.notes|)
  {
    if sale < |db.sales| {
      var lines := db.sales[sale].lines;
      assert db.sales[sale] in db.sales;
      QtyBounds(lines, p);
      if forall i :: 0 <= i < |lines| ==> lines[i].product != p {
        assert p !in Products(lines);
      } else {
        var k :| 0 <= k < |lines| && lines[k].product == p;
        assert lines[k] in lines;
      }
    }
  }
}
