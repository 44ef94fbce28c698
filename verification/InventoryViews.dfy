/** The endpoint bodies as they run: loops over fetched lines that save product rows and append ledger rows. */
module InventoryViews {
  import opened Sums
  import opened Ledger
  import opened Endpoints

  function ProductIds(items: seq<Line>): seq<nat> {
    seq(|items|, i requires 0 <= i < |items| => items[i].product)
  }

  class Inventory {
    var stock: seq<int>
    var active: seq<bool>
    var suppliers: seq<bool>
    var purchases: seq<PurchaseOrder>
    var sales: seq<SalesOrder>
    var notes: seq<ReturnNote>
    var ledger: seq<Entry>

    function View(): Store
      reads this
    {
      Store(stock, active, suppliers, purchases, sales, notes, ledger)
    }

    ghost predicate Valid()
      reads this
    {
      WellFormed(View())
    }

    constructor (stock: seq<int>, active: seq<bool>, suppliers: seq<bool>)
      requires |stock| == |active|
      ensures Valid() && View() == Store(stock, active, suppliers, [], [], [], [])
    {
      this.stock, this.active, this.suppliers := stock, active, suppliers;
      purchases, sales, notes, ledger := [], [], [], [];
    }

    /** Puts a line behind those of smaller or equal products. */
    method Insert(items: seq<Line>, line: Line, ghost lines: seq<Line>) returns (longer: seq<Line>)
      requires OrderedBy(items, lines)
      ensures OrderedBy(longer, lines + [line])
    {
      var k := 0;
      while k < |items| && items[k].product <= line.product
        invariant k <= |items|
        invariant forall i :: 0 <= i < k ==> items[i].product <= line.product
      {
        k := k + 1;
      }
      InsertedInOrder(items, k, line);
      InsertedLines(items, k, line, lines);
      longer := items[..k] + [line] + items[k..];
    }

    /** `order_by("product_id")`: ascending products, ties as the database likes. */
    method OrderByProduct(lines: seq<Line>) returns (items: seq<Line>)
      ensures OrderedBy(items, lines)
    {
      items := [];
      for n := 0 to |lines|
        invariant OrderedBy(items, lines[..n])
      {
        PrefixSnoc(lines, n);
        items := Insert(items, lines[n], lines[..n]);
      }
      assert lines[..|lines|] == lines;
    }

    method CreatePurchase(supplier: nat, lines: seq<Line>) returns (reply: Reply)
      requires Valid()
      modifies this
      ensures Valid()
      ensures Serve(old(View()), Request.CreatePurchase(supplier, lines), []) == Outcome(reply, View())
    {
      if supplier >= |suppliers| || !suppliers[supplier] {
        return BadRequest;
      }
      if !LinesAccepted(lines, active) {
        return BadRequest;
      }
      reply := Created(|purchases|);
      purchases := purchases + [PurchaseOrder(supplier, lines, false)];
    }

    method CreateSale(lines: seq<Line>) returns (reply: Reply)
      requires Valid()
      modifies this
      ensures Valid()
      ensures Serve(old(View()), Request.CreateSale(lines), []) == Outcome(reply, View())
    {
      if !LinesAccepted(lines, active) {
        return BadRequest;
      }
      reply := Created(|sales|);
      sales := sales + [SalesOrder(lines, false)];
    }

    /** The loop of `Receive`: reads, raises and saves the product of each line, and appends its ledger row. */
    method AddStock(id: nat, fetched: seq<Line>) returns (productIds: seq<nat>, quantityDelta: int)
      requires forall line <- fetched :: line.product < |stock|
      modifies `stock, `ledger
      ensures stock == Restocked(old(stock), fetched)
      ensures ledger == old(ledger) + Rows(fetched, Purchase, PurchaseRef(id))
      ensures productIds == ProductIds(fetched)
      ensures quantityDelta == Sum(LineQuantity(), fetched)
    {
      productIds, quantityDelta := [], 0;
      for i := 0 to |fetched|
        invariant stock == Restocked(old(stock), fetched[..i])
        invariant ledger == old(ledger) + Rows(fetched[..i], Purchase, PurchaseRef(id))
        invariant productIds == ProductIds(fetched[..i])
        invariant quantityDelta == Sum(LineQuantity(), fetched[..i])
      {
        var line := fetched[i];
        assert line in fetched;
        var currentStock := stock[line.product];
        currentStock := currentStock + line.quantity;
        PrefixSnoc(fetched, i);
        RestockedSnoc(old(stock), fetched[..i], line);
        RowsSnoc(fetched, i, Purchase, PurchaseRef(id));
        SumSnoc(LineQuantity(), fetched[..i], line);
        stock := stock[line.product := currentStock];
        ledger := ledger + [Entry(line.product, line.quantity, Purchase, PurchaseRef(id))];
        productIds := productIds + [line.product];
        quantityDelta := quantityDelta + line.quantity;
      }
      assert fetched[..|fetched|] == fetched;
    }

    /** Re-reads the product row for every line, so repeated products accumulate. */
    method Receive(id: nat) returns (reply: Reply, productIds: seq<nat>, quantityDelta: int, ghost items: seq<Line>)
      requires Valid()
      modifies this
      ensures Valid()
      ensures Fetched(old(View()), Request.Receive(id), items)
      ensures Serve(old(View()), Request.Receive(id), items) == Outcome(reply, View())
      ensures reply.Ok? ==>
                && InProductOrder(items)
                && |productIds| == |items| && (forall i :: 0 <= i < |items| ==> productIds[i] == items[i].product)
                && quantityDelta == QtyOfFirst(old(purchases)[id].lines, old(|stock|))
    {
      productIds, quantityDelta, items := [], 0, [];
      if id >= |purchases| {
        return Missing, [], 0, [];
      }
      if purchases[id].received {
        return Conflict, [], 0, [];
      }
      assert purchases[id] in purchases;
      var fetched := OrderByProduct(purchases[id].lines);
      MembersPermuted(fetched, purchases[id].lines);
      UnitsFetched(fetched, purchases[id].lines, |stock|);
      productIds, quantityDelta := AddStock(id, fetched);
      purchases := purchases[id := purchases[id].(received := true)];
      reply, items := Ok, fetched;
    }

    /** The first loop of `Complete`: one copy of the product row per line, stopping at the first short one. */
    method CheckStock(fetched: seq<Line>) returns (enough: bool, productsByItem: map<nat, int>)
      requires forall line <- fetched :: line.product < |stock|
      ensures enough <==> CanFulfil(stock, fetched)
      ensures enough ==> forall j :: 0 <= j < |fetched| ==>
                j in productsByItem && productsByItem[j] == stock[fetched[j].product]
    {
      productsByItem := map[];
      for i := 0 to |fetched|
        invariant forall j :: 0 <= j < i ==>
                    j in productsByItem && fetched[j].quantity <= productsByItem[j] == stock[fetched[j].product]
      {
        var line := fetched[i];
        assert line in fetched;
        var currentStock := stock[line.product];
        if currentStock < line.quantity {
          return false, productsByItem;
        }
        productsByItem := productsByItem[i := currentStock];
      }
      enough := true;
    }

    /** The second loop of `Complete`: saves each line's own copy of the product, minus the line. */
    method Deduct(id: nat, fetched: seq<Line>, productsByItem: map<nat, int>)
      returns (productIds: seq<nat>, quantityDelta: int)
      requires forall j :: 0 <= j < |fetched| ==>
                 && fetched[j].product < |stock|
                 && j in productsByItem && productsByItem[j] == stock[fetched[j].product]
      modifies `stock, `ledger
      ensures stock == Deducted(old(stock), fetched)
      ensures ledger == old(ledger) + Rows(fetched, Sale, SaleRef(id))
      ensures productIds == ProductIds(fetched)
      ensures quantityDelta == -Sum(LineQuantity(), fetched)
    {
      productIds, quantityDelta := [], 0;
      for i := 0 to |fetched|
        invariant stock == Deducted(old(stock), fetched[..i])
        invariant ledger == old(ledger) + Rows(fetched[..i], Sale, SaleRef(id))
        invariant productIds == ProductIds(fetched[..i])
        invariant quantityDelta == -Sum(LineQuantity(), fetched[..i])
      {
        var line := fetched[i];
        var currentStock := productsByItem[i];
        currentStock := currentStock - line.quantity;
        PrefixSnoc(fetched, i);
        DeductedSnoc(old(stock), fetched[..i], line);
        RowsSnoc(fetched, i, Sale, SaleRef(id));
        SumSnoc(LineQuantity(), fetched[..i], line);
        stock := stock[line.product := currentStock];
        ledger := ledger + [Entry(line.product, line.quantity, Sale, SaleRef(id))];
        productIds := productIds + [line.product];
        quantityDelta := quantityDelta - line.quantity;
      }
      assert fetched[..|fetched|] == fetched;
    }

    /** Checks every line first, each against its own copy of the product, then saves those copies. */
    method Complete(id: nat) returns (reply: Reply, productIds: seq<nat>, quantityDelta: int, ghost items: seq<Line>)
      requires Valid()
      modifies this
      ensures Valid()
      ensures Fetched(old(View()), Request.Complete(id), items)
      ensures Serve(old(View()), Request.Complete(id), items) == Outcome(reply, View())
      ensures reply.Ok? ==>
                && InProductOrder(items)
                && |productIds| == |items| && (forall i :: 0 <= i < |items| ==> productIds[i] == items[i].product)
                && quantityDelta == -QtyOfFirst(old(sales)[id].lines, old(|stock|))
    {
      productIds, quantityDelta, items := [], 0, [];
      if id >= |sales| {
        return Missing, [], 0, [];
      }
      if sales[id].completed {
        return Conflict, [], 0, [];
      }
      assert sales[id] in sales;
      var fetched := OrderByProduct(sales[id].lines);
      MembersPermuted(fetched, sales[id].lines);
      items := fetched;
      var enough, productsByItem := CheckStock(fetched);
      if !enough {
        return Conflict, [], 0, fetched;
      }
      UnitsFetched(fetched, sales[id].lines, |stock|);
      productIds, quantityDelta := Deduct(id, fetched, productsByItem);
      sales := sales[id := sales[id].(completed := true)];
      reply := Ok;
      assert View() == ServeComplete(old(View()), id, items).store;
    }

    method FileReturn(sale: nat, product: nat, amount: int) returns (reply: Reply)
      requires Valid()
      modifies this
      ensures Valid()
      ensures Serve(old(View()), Request.FileReturn(sale, product, amount), []) == Outcome(reply, View())
    {
      if sale >= |sales| {
        return Missing;
      }
      if !sales[sale].completed {
        return BadRequest;
      }
      assert sales[sale] in sales;
      var lines := sales[sale].lines;
      var sold := 0;
      for i := 0 to |lines|
        invariant View() == old(View())
        invariant sold == Qty(lines[..i], product)
      {
        PrefixSnoc(lines, i);
        SumSnoc(OfProduct(product), lines[..i], lines[i]);
        if lines[i].product == product {
          sold := sold + lines[i].quantity;
        }
      }
      assert lines[..|lines|] == lines;
      if sold == 0 {
        return BadRequest;
      }
      var reserved := 0;
      for i := 0 to |notes|
        invariant View() == old(View())
        invariant reserved == Reserved(notes[..i], sale, product)
      {
        PrefixSnoc(notes, i);
        SumSnoc(ReservedBy(sale, product), notes[..i], notes[i]);
        if notes[i].sale == sale && notes[i].product == product {
          reserved := reserved + notes[i].quantity;
        }
      }
      assert notes[..|notes|] == notes;
      var remaining := sold - reserved;
      if amount > remaining {
        return BadRequest;
      }
      if amount < 0 {
        return Rejected;
      }
      QtyBounds(lines, product);
      reply := Created(|notes|);
      notes := notes + [ReturnNote(sale, product, amount, false)];
    }

    method Approve(id: nat) returns (reply: Reply)
      requires Valid()
      modifies this
      ensures Valid()
      ensures Serve(old(View()), Request.Approve(id), []) == Outcome(reply, View())
    {
      if id >= |notes| {
        return Missing;
      }
      if notes[id].approved {
        return Conflict;
      }
      assert notes[id] in notes;
      var note := notes[id];
      stock := stock[note.product := stock[note.product] + note.quantity];
      ledger := ledger + [Entry(note.product, note.quantity, Return, ReturnRef(id))];
      notes := notes[id := note.(approved := true)];
      reply := Ok;
    }

    method WriteOff(product: nat, amount: int) returns (reply: Reply)
      requires Valid()
      modifies this
      ensures Valid()
      ensures Serve(old(View()), Request.WriteOff(product, amount), []) == Outcome(reply, View())
    {
      if amount < 1 {
        return BadRequest;
      }
      if product >= |active| || !active[product] {
        return BadRequest;
      }
      if stock[product] < amount {
        return Conflict;
      }
      stock := stock[product := stock[product] - amount];
      ledger := ledger + [Entry(product, amount, Damage, NoRef)];
      reply := Ok;
    }
  }

  lemma UnitsFetched(fetched: seq<Line>, lines: seq<Line>, n: nat)
    requires multiset(fetched) == multiset(lines) && forall line <- lines :: line.product < n
    ensures Sum(LineQuantity(), fetched) == QtyOfFirst(lines, n)
  {
    SumPermuted(LineQuantity(), fetched, lines);
    UnitsByProduct(lines, n);
  }

  lemma RestockedSnoc(stock: seq<int>, items: seq<Line>, line: Line)
    requires line.product < |stock|
    ensures Restocked(stock, items + [line])
         == Restocked(stock, items)[line.product := Restocked(stock, items)[line.product] + line.quantity]
  {
    forall p: nat | p < |stock|
      ensures Qty(items + [line], p) == Qty(items, p) + if p == line.product then line.quantity else 0
    {
      SumSnoc(OfProduct(p), items, line);
    }
  }

  /** Saving a copy read before any deduction leaves the product at its old stock minus this one line. */
  lemma DeductedSnoc(stock: seq<int>, items: seq<Line>, line: Line)
    requires line.product < |stock|
    ensures Deducted(stock, items + [line])
         == Deducted(stock, items)[line.product := stock[line.product] - line.quantity]
  {
    assert (items + [line])[..|items|] == items;
  }
}
