/** Order lines, the append-only ledger, and what a list of lines or ledger rows amounts to per product. */
module Ledger {
  import opened Sums

  /** A product, purchase-order or sales-order line; `product` is the rank of the product's id. */
  datatype Line = Line(product: nat, quantity: nat)

  datatype Kind = Purchase | Sale | Return | Damage

  /** What `reference_id` points at. */
  datatype Ref = PurchaseRef(id: nat) | SaleRef(id: nat) | ReturnRef(id: nat) | NoRef

  /** One InventoryTransaction row. */
  datatype Entry = Entry(product: nat, quantity: nat, kind: Kind, ref: Ref)

  /******* Lines *******/

  function OfProduct(p: nat): Line -> int {
    (line: Line) => if line.product == p then line.quantity else 0
  }

  /** The quantity of product `p` over all lines. */
  function Qty(lines: seq<Line>, p: nat): int {
    Sum(OfProduct(p), lines)
  }

  function LineQuantity(): Line -> int {
    (line: Line) => line.quantity
  }

  /** The quantity on the last line of product `p`, 0 when there is none. */
  function LastQty(lines: seq<Line>, p: nat): (q: nat) {
    if lines == [] then 0
    else
      var last := lines[|lines| - 1];
      if last.product == p then last.quantity else LastQty(lines[..|lines| - 1], p)
  }

  /** The quantity of product `p` on all its lines but the last one. */
  function Overhang(lines: seq<Line>, p: nat): int {
    Qty(lines, p) - LastQty(lines, p)
  }

  function Products(lines: seq<Line>): set<nat> {
    set line <- lines :: line.product
  }

  predicate DistinctProducts(lines: seq<Line>) {
    forall i, j :: 0 <= i < j < |lines| ==> lines[i].product != lines[j].product
  }

  predicate InProductOrder(lines: seq<Line>) {
    forall i, j :: 0 <= i < j < |lines| ==> lines[i].product <= lines[j].product
  }

  /** What `order_by("product_id")` may return: the lines in ascending product order, ties in any order. */
  ghost predicate OrderedBy(items: seq<Line>, lines: seq<Line>) {
    multiset(items) == multiset(lines) && InProductOrder(items)
  }

  lemma PrefixSnoc<T>(s: seq<T>, i: nat)
    requires i < |s|
    ensures s[..i + 1] == s[..i] + [s[i]]
  {
  }

  lemma QtyBounds(lines: seq<Line>, p: nat)
    ensures 0 <= LastQty(lines, p) <= Qty(lines, p)
    ensures p !in Products(lines) ==> Qty(lines, p) == 0
    ensures forall k :: 0 <= k < |lines| && lines[k].product == p ==> lines[k].quantity <= Qty(lines, p)
  {
    SumBounds(OfProduct(p), lines);
    if lines != [] {
      var init, last := lines[..|lines| - 1], lines[|lines| - 1];
      QtyBounds(init, p);
      assert lines == init + [last];
      if p !in Products(lines) {
        assert last in lines;
        assert Products(init) <= Products(lines);
      }
    }
  }

  lemma QtyPermuted(items: seq<Line>, lines: seq<Line>, p: nat)
    requires multiset(items) == multiset(lines)
    ensures Qty(items, p) == Qty(lines, p)
  {
    SumPermuted(OfProduct(p), items, lines);
  }

  lemma MembersPermuted(items: seq<Line>, lines: seq<Line>)
    requires multiset(items) == multiset(lines)
    ensures forall line :: line in items <==> line in lines
    ensures |items| == |lines|
  {
    forall line ensures line in items <==> line in lines {
      assert line in multiset(items) <==> line in multiset(lines);
    }
    assert |multiset(items)| == |items| && |multiset(lines)| == |lines|;
  }

  /** `LastQty` is the quantity of some line of the product, when there is one. */
  lemma LastQtyIsALine(lines: seq<Line>, p: nat) returns (k: nat)
    requires p in Products(lines)
    ensures k < |lines| && lines[k] == Line(p, LastQty(lines, p))
  {
    var last := |lines| - 1;
    if lines[last].product == p {
      k := last;
    } else {
      var line :| line in lines && line.product == p;
      assert lines == lines[..last] + [lines[last]];
      assert line in lines[..last];
      k := LastQtyIsALine(lines[..last], p);
    }
  }

  /** With positive quantities, nothing hangs over exactly when no product is repeated. */
  lemma {:induction false} NoOverhangIffDistinct(lines: seq<Line>)
    requires forall line <- lines :: line.quantity > 0
    ensures DistinctProducts(lines) <==> forall p: nat :: Overhang(lines, p) == 0
  {
    if lines != [] {
      var init, last := lines[..|lines| - 1], lines[|lines| - 1];
      assert lines == init + [last];
      NoOverhangIffDistinct(init);
      forall p: nat
        ensures Overhang(lines, p) == if p == last.product then Qty(init, p) else Overhang(init, p)
      {
      }
      QtyBounds(init, last.product);
      if last.product in Products(init) {
        var line :| line in init && line.product == last.product;
        var k :| 0 <= k < |init| && init[k] == line;
        assert line in lines;
        assert Overhang(lines, last.product) > 0;
        assert lines[k].product == lines[|lines| - 1].product;
      } else {
        forall k | 0 <= k < |init| ensures lines[k].product != last.product {
          assert init[k] in init;
        }
        assert Overhang(init, last.product) == 0;
        assert DistinctProducts(lines) <==> DistinctProducts(init);
        assert (forall p: nat :: Overhang(init, p) == 0) ==> forall p: nat :: Overhang(lines, p) == 0;
        if forall p: nat :: Overhang(lines, p) == 0 {
          forall p: nat ensures Overhang(init, p) == 0 {
            assert Overhang(lines, p) == 0;
          }
        }
      }
    }
  }

  /** The quantities of the first `n` products together. */
  function QtyOfFirst(lines: seq<Line>, n: nat): int {
    if n == 0 then 0 else QtyOfFirst(lines, n - 1) + Qty(lines, n - 1)
  }

  function QuantityBelow(n: nat): Line -> int {
    (line: Line) => if line.product < n then line.quantity else 0
  }

  lemma {:induction false} QtyOfFirstIs(lines: seq<Line>, n: nat)
    ensures QtyOfFirst(lines, n) == Sum(QuantityBelow(n), lines)
  {
    if n == 0 {
      SumSame(QuantityBelow(0), (line: Line) => 0, lines);
      SumOfZeros(lines);
    } else {
      QtyOfFirstIs(lines, n - 1);
      SumAdd(QuantityBelow(n - 1), OfProduct(n - 1), QuantityBelow(n), lines);
    }
  }

  lemma {:induction false} SumOfZeros(lines: seq<Line>)
    ensures Sum((line: Line) => 0, lines) == 0
  {
    if lines != [] {
      SumOfZeros(lines[..|lines| - 1]);
    }
  }

  /** The units on all lines are the quantities of all products. */
  lemma UnitsByProduct(lines: seq<Line>, n: nat)
    requires forall line <- lines :: line.product < n
    ensures Sum(LineQuantity(), lines) == QtyOfFirst(lines, n)
  {
    QtyOfFirstIs(lines, n);
    SumSame(LineQuantity(), QuantityBelow(n), lines);
  }

  /** Inserting a line before the first greater one keeps the product order. */
  lemma InsertedInOrder(items: seq<Line>, k: nat, line: Line)
    requires InProductOrder(items) && k <= |items|
    requires forall i :: 0 <= i < k ==> items[i].product <= line.product
    requires k < |items| ==> line.product < items[k].product
    ensures InProductOrder(items[..k] + [line] + items[k..])
  {
    var placed := items[..k] + [line] + items[k..];
    forall i, j | 0 <= i < j < |placed| ensures placed[i].product <= placed[j].product {
      assert placed[i] == if i < k then items[i] else if i == k then line else items[i - 1];
      assert placed[j] == if j < k then items[j] else if j == k then line else items[j - 1];
      if i == k {
        assert items[k].product <= items[j - 1].product;
      }
    }
  }

  lemma InsertedLines(items: seq<Line>, k: nat, line: Line, lines: seq<Line>)
    requires multiset(items) == multiset(lines) && k <= |items|
    ensures multiset(items[..k] + [line] + items[k..]) == multiset(lines + [line])
  {
    assert items == items[..k] + items[k..];
  }

  /** Every list of lines can be put in product order. */
  lemma {:induction false} SomeOrdering(lines: seq<Line>) returns (items: seq<Line>)
    ensures OrderedBy(items, lines)
  {
    if lines == [] {
      items := [];
    } else {
      var init, last := lines[..|lines| - 1], lines[|lines| - 1];
      assert lines == init + [last];
      var rest := SomeOrdering(init);
      var k := InsertionPoint(rest, last);
      InsertedInOrder(rest, k, last);
      InsertedLines(rest, k, last, init);
      items := rest[..k] + [last] + rest[k..];
    }
  }

  lemma InsertionPoint(items: seq<Line>, line: Line) returns (k: nat)
    ensures k <= |items| && (forall i :: 0 <= i < k ==> items[i].product <= line.product)
    ensures k < |items| ==> line.product < items[k].product
  {
    k := 0;
    while k < |items| && items[k].product <= line.product
      invariant k <= |items|
      invariant forall i :: 0 <= i < k ==> items[i].product <= line.product
    {
      k := k + 1;
    }
  }

  /******* Ledger rows *******/

  /** One row per line. */
  function Rows(lines: seq<Line>, kind: Kind, ref: Ref): (rows: seq<Entry>) {
    if lines == [] then []
    else
      var last := lines[|lines| - 1];
      Rows(lines[..|lines| - 1], kind, ref) + [Entry(last.product, last.quantity, kind, ref)]
  }

  function Sign(kind: Kind): int {
    match kind
    case Purchase => 1
    case Return => 1
    case Sale => -1
    case Damage => -1
  }

  function SignedFor(p: nat): Entry -> int {
    (row: Entry) => if row.product == p then Sign(row.kind) * row.quantity else 0
  }

  /** Purchases and returns minus sales and damage of product `p`. */
  function Balance(ledger: seq<Entry>, p: nat): int {
    Sum(SignedFor(p), ledger)
  }

  function OfKind(kind: Kind, p: nat): Entry -> int {
    (row: Entry) => if row.product == p && row.kind == kind then row.quantity else 0
  }

  /** The quantity of product `p` over all ledger rows of one kind. */
  function Total(ledger: seq<Entry>, kind: Kind, p: nat): int {
    Sum(OfKind(kind, p), ledger)
  }

  lemma TotalGrows(ledger: seq<Entry>, rows: seq<Entry>, kind: Kind, p: nat)
    ensures Total(ledger + rows, kind, p) == Total(ledger, kind, p) + Total(rows, kind, p)
  {
    SumConcat(OfKind(kind, p), ledger, rows);
  }

  /** The ledger rows that reference one order or return. */
  function Posted(ledger: seq<Entry>, ref: Ref): seq<Entry> {
    if ledger == [] then []
    else
      var last := ledger[|ledger| - 1];
      Posted(ledger[..|ledger| - 1], ref) + if last.ref == ref then [last] else []
  }

  lemma RowsSnoc(lines: seq<Line>, i: nat, kind: Kind, ref: Ref)
    requires i < |lines|
    ensures Rows(lines[..i + 1], kind, ref)
         == Rows(lines[..i], kind, ref) + [Entry(lines[i].product, lines[i].quantity, kind, ref)]
  {
    assert lines[..i + 1][..i] == lines[..i];
  }

  lemma {:induction false} RowsConcat(a: seq<Line>, b: seq<Line>, kind: Kind, ref: Ref)
    ensures Rows(a + b, kind, ref) == Rows(a, kind, ref) + Rows(b, kind, ref)
  {
    if b == [] {
      assert a + b == a;
    } else {
      assert (a + b)[..|a + b| - 1] == a + b[..|b| - 1];
      RowsConcat(a, b[..|b| - 1], kind, ref);
    }
  }

  /** Taking out a line takes out its row. */
  lemma RowsWithout(lines: seq<Line>, k: nat, kind: Kind, ref: Ref)
    requires k < |lines|
    ensures multiset(Rows(lines, kind, ref))
         == multiset(Rows(lines[..k] + lines[k + 1..], kind, ref))
            + multiset{Entry(lines[k].product, lines[k].quantity, kind, ref)}
  {
    assert lines == lines[..k] + [lines[k]] + lines[k + 1..];
    assert (lines[..k] + [lines[k]])[..k] == lines[..k];
    RowsConcat(lines[..k] + [lines[k]], lines[k + 1..], kind, ref);
    RowsConcat(lines[..k], lines[k + 1..], kind, ref);
  }

  lemma {:induction false} RowsPermuted(items: seq<Line>, lines: seq<Line>, kind: Kind, ref: Ref)
    requires multiset(items) == multiset(lines)
    ensures multiset(Rows(items, kind, ref)) == multiset(Rows(lines, kind, ref))
  {
    if items == [] {
      assert |multiset(lines)| == 0;
    } else {
      var n := |items| - 1;
      var k := WithoutLast(items, lines);
      RowsPermuted(items[..n], lines[..k] + lines[k + 1..], kind, ref);
      RowsWithout(lines, k, kind, ref);
      assert Rows(items, kind, ref)
          == Rows(items[..n], kind, ref) + [Entry(items[n].product, items[n].quantity, kind, ref)];
    }
  }

  /** The rows written for a list of lines weigh what the lines weigh, and they all carry the reference. */
  lemma {:induction false} RowsAmount(lines: seq<Line>, kind: Kind, ref: Ref, p: nat)
    ensures |Rows(lines, kind, ref)| == |lines|
    ensures Balance(Rows(lines, kind, ref), p) == Sign(kind) * Qty(lines, p)
    ensures forall k: Kind :: Total(Rows(lines, kind, ref), k, p) == if k == kind then Qty(lines, p) else 0
    ensures forall r: Ref :: Posted(Rows(lines, kind, ref), r) == if r == ref then Rows(lines, kind, ref) else []
  {
    if lines != [] {
      var init, rows := lines[..|lines| - 1], Rows(lines, kind, ref);
      RowsAmount(init, kind, ref, p);
      assert rows[..|rows| - 1] == Rows(init, kind, ref);
      forall k: Kind
        ensures Total(rows, k, p) == if k == kind then Qty(lines, p) else 0
      {
        assert Total(Rows(init, kind, ref), k, p) == if k == kind then Qty(init, p) else 0;
      }
    }
  }

  lemma {:induction false} PostedConcat(a: seq<Entry>, b: seq<Entry>, ref: Ref)
    ensures Posted(a + b, ref) == Posted(a, ref) + Posted(b, ref)
  {
    if b == [] {
      assert a + b == a;
    } else {
      assert (a + b)[..|a + b| - 1] == a + b[..|b| - 1];
      PostedConcat(a, b[..|b| - 1], ref);
    }
  }

  /** The balance is the four kind totals, signed. */
  lemma {:induction false} BalanceIsTotals(ledger: seq<Entry>, p: nat)
    ensures Balance(ledger, p)
         == Total(ledger, Purchase, p) + Total(ledger, Return, p) - Total(ledger, Sale, p) - Total(ledger, Damage, p)
  {
    if ledger != [] {
      BalanceIsTotals(ledger[..|ledger| - 1], p);
    }
  }
}
