/** create_sale as a statement about the database: when a request is accepted, what the database
    is afterwards and why a refused request is refused. Nothing here depends on the order of the lines. */
module Sales {
  import opened Prelude
  import opened Model

  datatype SaleError =
    | CustomerNotFound
    | NoteNotFound
    | NoteNotPending
    | NoteCustomerMismatch
    | ProductNotFound
    | ProductNotActive
    | VariantNotFound
    | VariantProductMismatch
    | InsufficientStock
    | InsufficientCredit

  /** The line can be sold as far as the catalogue is concerned. */
  predicate Sellable(db: Db, l: Line)
  {
    Quotable(db, l) && db.products[l.product].active
  }

  predicate NoteReady(db: Db, req: SaleRequest)
  {
    req.note.Some? ==>
      && req.note.value < |db.notes|
      && db.notes[req.note.value].status.Pending?
      && db.notes[req.note.value].customer == req.customer
  }

  /** Every line can be sold and no cell is asked for more than it holds. */
  predicate LinesFit(db: Db, items: seq<Line>)
  {
    && (forall l :: l in items ==> Sellable(db, l))
    && (forall l :: l in items ==> Demand(items, CellOf(l)) <= StockOf(db, CellOf(l)))
  }

  predicate Bookable(db: Db, req: SaleRequest)
  {
    NoteReady(db, req) && LinesFit(db, req.items)
  }

  predicate WithinCredit(db: Db, customer: Customer, req: SaleRequest)
    requires Bookable(db, req)
  {
    req.payment == ACCOUNT && customer.creditLimit.Some? ==>
      Balance(db.movements, req.customer) + TotalOf(Priced(db, customer, req.items)) <= customer.creditLimit.value
  }

  predicate Accepted(db: Db, req: SaleRequest)
  {
    && req.customer in db.customers
    && Bookable(db, req)
    && WithinCredit(db, db.customers[req.customer], req)
  }

  function EventLines(items: seq<PricedLine>): (r: seq<EventLine>)
    ensures |r| == |items|
  {
    seq(|items|, i requires 0 <= i < |items| => EventLine(items[i].line.product, items[i].line.quantity))
  }

  function EventOf(tenant: Id, s: Sale): OutboxRow
  {
    OutboxRow(SALE_EVENT, tenant, s.createdAt, Some(EventLines(s.items)))
  }

  /** The catalogue after taking what the lines ask for. */
  function ProductsLess(db: Db, items: seq<Line>): map<Id, Product>
  {
    map p | p in db.products :: db.products[p].(stock := db.products[p].stock - Demand(items, ProductCell(p)))
  }

  function VariantsLess(db: Db, items: seq<Line>): map<Id, Variant>
  {
    map v | v in db.variants :: db.variants[v].(stock := db.variants[v].stock - Demand(items, VariantCell(v)))
  }

  /** A sale on account is a debit of its customer. */
  function PostedDebit(movements: seq<AccountMovement>, req: SaleRequest, total: Cents, sale: Id): seq<AccountMovement>
  {
    if req.payment != ACCOUNT then movements
    else movements + [AccountMovement(req.customer, Debit, total, Some(sale))]
  }

  /** A cash sale is income of the open session, if there is one. */
  function PostedIncome(cash: seq<CashMovement>, req: SaleRequest, till: Option<Id>, total: Cents, sale: Id): seq<CashMovement>
  {
    if req.payment != CASH || till.None? then cash
    else cash + [CashMovement(till.value, Income, total, Some(sale))]
  }

  /** The note a sale was made from becomes invoiced and points at the sale. */
  function InvoicedNote(notes: seq<OrderNote>, req: SaleRequest, sale: Id): seq<OrderNote>
    requires req.note.Some? ==> req.note.value < |notes|
  {
    if req.note.None? then notes
    else notes[req.note.value := notes[req.note.value].(status := Invoiced, saleId := Some(sale))]
  }

  /** The rows a sale writes, given the stock it leaves, its priced lines and its number. */
  function Recorded(db: Db, products: map<Id, Product>, variants: map<Id, Variant>, req: SaleRequest,
                    items: seq<PricedLine>, number: int, till: Option<Id>, at: int): Db
    requires req.note.Some? ==> req.note.value < |db.notes|
  {
    var id, total := |db.sales|, TotalOf(items);
    var sale := Sale(req.customer, number, items, total, req.payment, req.note, at);
    db.(products := products,
        variants := variants,
        nextSale := number + 1,
        sales := db.sales + [sale],
        notes := InvoicedNote(db.notes, req, id),
        movements := PostedDebit(db.movements, req, total, id),
        cash := PostedIncome(db.cash, req, till, total, id),
        outbox := db.outbox + [EventOf(db.tenant, sale)])
  }

  /** The database with one more sale. The customer row and the cash session are the ones the
      transaction read without a lock; `at` is its clock reading. */
  function Booked(db: Db, customer: Customer, req: SaleRequest, till: Option<Id>, at: int): Db
    requires Bookable(db, req)
  {
    Recorded(db, ProductsLess(db, req.items), VariantsLess(db, req.items), req,
             Priced(db, customer, req.items), db.nextSale, till, at)
  }

  /** What is wrong with line k once the lines before it have been taken. */
  function LineFault(db: Db, items: seq<Line>, k: nat): Option<SaleError>
    requires k < |items|
  {
    var l := items[k];
    if l.product !in db.products then Some(ProductNotFound)
    else if !db.products[l.product].active then Some(ProductNotActive)
    else if l.variant.Some? && l.variant.value !in db.variants then Some(VariantNotFound)
    else if l.variant.Some? && db.variants[l.variant.value].product != l.product then Some(VariantProductMismatch)
    else if StockOf(db, CellOf(l)) < Demand(items[..k + 1], CellOf(l)) then Some(InsufficientStock)
    else None
  }

  /** The error is the first thing that is wrong with the request. */
  ghost predicate Explains(db: Db, req: SaleRequest, e: SaleError)
  {
    match e
    case CustomerNotFound => req.customer !in db.customers
    case NoteNotFound => req.customer in db.customers && req.note.Some? && |db.notes| <= req.note.value
    case NoteNotPending =>
      && req.customer in db.customers && req.note.Some? && req.note.value < |db.notes|
      && !db.notes[req.note.value].status.Pending?
    case NoteCustomerMismatch =>
      && req.customer in db.customers && req.note.Some? && req.note.value < |db.notes|
      && db.notes[req.note.value].status.Pending?
      && db.notes[req.note.value].customer != req.customer
    case InsufficientCredit =>
      && req.customer in db.customers && Bookable(db, req)
      && !WithinCredit(db, db.customers[req.customer], req)
    case _ =>
      && req.customer in db.customers && NoteReady(db, req)
      && exists k :: 0 <= k < |req.items| && LinesFit(db, req.items[..k]) && LineFault(db, req.items, k) == Some(e)
  }

  /** One faulty line refuses the whole request. */
  lemma FaultRefuses(db: Db, items: seq<Line>, k: nat)
    requires k < |items| && LineFault(db, items, k).Some?
    ensures !LinesFit(db, items)
  {
    assert items[k] in items;
    DemandGrows(items, k + 1, CellOf(items[k]));
  }

  /** Lines that fit, followed by a line with no fault, still fit. */
  lemma FitExtends(db: Db, items: seq<Line>, k: nat)
    requires k < |items| && LinesFit(db, items[..k]) && LineFault(db, items, k).None?
    ensures LinesFit(db, items[..k + 1])
  {
    var l := items[k];
    assert items[..k + 1] == items[..k] + [l];
    forall x | x in items[..k + 1]
      ensures Sellable(db, x) && Demand(items[..k + 1], CellOf(x)) <= StockOf(db, CellOf(x))
    {
      DemandAppend(items[..k], l, CellOf(x));
    }
  }

  lemma PricedPrefix(db: Db, c: Customer, items: seq<Line>, k: nat)
    requires k < |items| && forall l :: l in items[..k + 1] ==> Quotable(db, l)
    ensures forall l :: l in items[..k] ==> Quotable(db, l)
    ensures items[k] in items[..k + 1]
    ensures Priced(db, c, items[..k + 1])
         == Priced(db, c, items[..k]) + [PricedLine(items[k], UnitPrice(c, db.products[items[k].product]))]
  {
    assert items[..k + 1] == items[..k] + [items[k]];
    assert items[..k + 1][k] in items[..k + 1];
  }

  /** Taking one more line changes one cell: the variant's if the line names one, otherwise the product's. */
  lemma ProductsStep(db: Db, taken: seq<Line>, l: Line)
    requires l.product in db.products
    ensures var p := ProductsLess(db, taken);
      ProductsLess(db, taken + [l]) ==
        if l.variant.Some? then p else p[l.product := p[l.product].(stock := p[l.product].stock - l.quantity)]
  {
    forall q | q in db.products
      ensures Demand(taken + [l], ProductCell(q))
           == Demand(taken, ProductCell(q)) + if CellOf(l) == ProductCell(q) then l.quantity else 0
    {
      DemandAppend(taken, l, ProductCell(q));
    }
  }

  lemma VariantsStep(db: Db, taken: seq<Line>, l: Line)
    requires l.variant.Some? ==> l.variant.value in db.variants
    ensures var v := VariantsLess(db, taken);
      VariantsLess(db, taken + [l]) ==
        if l.variant.None? then v
        else v[l.variant.value := v[l.variant.value].(stock := v[l.variant.value].stock - l.quantity)]
  {
    forall q | q in db.variants
      ensures Demand(taken + [l], VariantCell(q))
           == Demand(taken, VariantCell(q)) + if CellOf(l) == VariantCell(q) then l.quantity else 0
    {
      DemandAppend(taken, l, VariantCell(q));
    }
  }

  lemma DiscountStep(db: Db, items: seq<Line>, k: nat)
    requires k < |items| && Sellable(db, items[k])
    ensures var l, p, v := items[k], ProductsLess(db, items[..k]), VariantsLess(db, items[..k]);
      && l.product in p && p[l.product].active == db.products[l.product].active
      && (l.variant.None? ==>
            && p[l.product].stock == StockOf(db, CellOf(l)) - Demand(items[..k], CellOf(l))
            && ProductsLess(db, items[..k + 1]) == p[l.product := p[l.product].(stock := p[l.product].stock - l.quantity)]
            && VariantsLess(db, items[..k + 1]) == v)
      && (l.variant.Some? ==>
            && l.variant.value in v
            && v[l.variant.value].stock == StockOf(db, CellOf(l)) - Demand(items[..k], CellOf(l))
            && VariantsLess(db, items[..k + 1])
               == v[l.variant.value := v[l.variant.value].(stock := v[l.variant.value].stock - l.quantity)]
            && ProductsLess(db, items[..k + 1]) == p)
  {
    assert items[..k + 1] == items[..k] + [items[k]];
    ProductsStep(db, items[..k], items[k]);
    VariantsStep(db, items[..k], items[k]);
  }

  // ---- The order of the lines does not matter ----

  lemma {:induction false} DemandOfRemoval(items: seq<Line>, k: nat, c: Cell)
    requires k < |items|
    ensures Demand(items, c)
         == Demand(items[..k] + items[k + 1..], c) + if CellOf(items[k]) == c then items[k].quantity else 0
  {
    var front, last := items[..|items| - 1], items[|items| - 1];
    if k == |items| - 1 {
      assert items[..k] + items[k + 1..] == front;
    } else {
      DemandOfRemoval(front, k, c);
      assert items[..k] + items[k + 1..] == (front[..k] + front[k + 1..]) + [last];
      DemandAppend(front[..k] + front[k + 1..], last, c);
    }
  }

  lemma {:induction false} DemandOfPermutation(a: seq<Line>, b: seq<Line>, c: Cell)
    requires multiset(a) == multiset(b)
    ensures Demand(a, c) == Demand(b, c)
    decreases |a|
  {
    assert |a| == |multiset(a)| == |multiset(b)| == |b|;
    if a != [] {
      var k := Occurrence(a, b);
      DemandOfRemoval(b, k, c);
      DemandOfPermutation(a[..|a| - 1], b[..k] + b[k + 1..], c);
    }
  }

  lemma {:induction false} TotalOfRemoval(items: seq<PricedLine>, k: nat)
    requires k < |items|
    ensures TotalOf(items)
         == TotalOf(items[..k] + items[k + 1..]) + items[k].unitPrice * items[k].line.quantity
  {
    var front, last := items[..|items| - 1], items[|items| - 1];
    if k == |items| - 1 {
      assert items[..k] + items[k + 1..] == front;
    } else {
      TotalOfRemoval(front, k);
      assert items[..k] + items[k + 1..] == (front[..k] + front[k + 1..]) + [last];
      TotalAppend(front[..k] + front[k + 1..], last);
    }
  }

  lemma PricedRemoval(db: Db, c: Customer, items: seq<Line>, k: nat)
    requires k < |items| && forall l :: l in items ==> Quotable(db, l)
    ensures var rest := items[..k] + items[k + 1..];
      && (forall l :: l in rest ==> Quotable(db, l))
      && items[k] in items
      && TotalOf(Priced(db, c, items)) == TotalOf(Priced(db, c, rest))
           + UnitPrice(c, db.products[items[k].product]) * items[k].quantity
  {
    var rest, p := items[..k] + items[k + 1..], Priced(db, c, items);
    assert forall l :: l in rest ==> l in items;
    TotalOfRemoval(p, k);
    assert p[..k] + p[k + 1..] == Priced(db, c, rest);
  }

  lemma {:induction false} TotalOfPermutation(db: Db, c: Customer, a: seq<Line>, b: seq<Line>)
    requires multiset(a) == multiset(b)
    requires forall l :: l in a ==> Quotable(db, l)
    requires forall l :: l in b ==> Quotable(db, l)
    ensures TotalOf(Priced(db, c, a)) == TotalOf(Priced(db, c, b))
    decreases |a|
  {
    assert |a| == |multiset(a)| == |multiset(b)| == |b|;
    if a != [] {
      var k := Occurrence(a, b);
      var rest := b[..k] + b[k + 1..];
      PricedRemoval(db, c, b, k);
      PricedRemoval(db, c, a, |a| - 1);
      assert a[..|a| - 1] + a[|a|..] == a[..|a| - 1];
      TotalOfPermutation(db, c, a[..|a| - 1], rest);
    }
  }

  /** The last line of `a` occurs in `b`; taking it out of both leaves permutations. */
  lemma Occurrence(a: seq<Line>, b: seq<Line>) returns (k: nat)
    requires multiset(a) == multiset(b) && a != []
    ensures k < |b| && b[k] == a[|a| - 1]
    ensures multiset(a[..|a| - 1]) == multiset(b[..k] + b[k + 1..])
  {
    var last := a[|a| - 1];
    assert last in multiset(a);
    assert last in multiset(b);
    k :| 0 <= k < |b| && b[k] == last;
    assert a == a[..|a| - 1] + [last];
    assert b == b[..k] + [last] + b[k + 1..];
    assert multiset(a[..|a| - 1]) == multiset(a) - multiset{last};
    assert multiset(b[..k] + b[k + 1..]) == multiset(b) - multiset{last};
  }

  lemma PermutationFits(db: Db, a: seq<Line>, b: seq<Line>)
    requires multiset(a) == multiset(b)
    ensures forall l :: l in a <==> l in b
    ensures LinesFit(db, a) <==> LinesFit(db, b)
  {
    assert forall l :: l in a <==> l in multiset(a);
    assert forall l :: l in b <==> l in multiset(b);
    forall c ensures Demand(a, c) == Demand(b, c) {
      DemandOfPermutation(a, b, c);
    }
  }

  lemma PermutationAccepted(db: Db, a: SaleRequest, b: SaleRequest)
    requires multiset(a.items) == multiset(b.items) && b == a.(items := b.items)
    ensures Accepted(db, a) <==> Accepted(db, b)
    ensures Bookable(db, a) ==>
      && Bookable(db, b)
      && forall c :: TotalOf(Priced(db, c, a.items)) == TotalOf(Priced(db, c, b.items))
  {
    PermutationFits(db, a.items, b.items);
    if Bookable(db, a) {
      forall c ensures TotalOf(Priced(db, c, a.items)) == TotalOf(Priced(db, c, b.items)) {
        TotalOfPermutation(db, c, a.items, b.items);
      }
    }
  }

  lemma PermutationStock(db: Db, a: seq<Line>, b: seq<Line>)
    requires multiset(a) == multiset(b)
    ensures ProductsLess(db, a) == ProductsLess(db, b) && VariantsLess(db, a) == VariantsLess(db, b)
  {
    forall c ensures Demand(a, c) == Demand(b, c) {
      DemandOfPermutation(a, b, c);
    }
  }

  /** The two databases differ at most in the lines of the given sale and in the events. */
  predicate SameButLines(x: Db, y: Db, sale: Id)
  {
    && sale < |x.sales| && sale < |y.sales| && |x.outbox| == |y.outbox|
    && x == y.(outbox := x.outbox, sales := y.sales[sale := y.sales[sale].(items := x.sales[sale].items)])
  }

  /** Reordering the lines of a request changes neither whether it is accepted, nor its total,
      nor anything else it leaves behind but the order of the lines in the sale and its event. */
  lemma LineOrderIrrelevant(db: Db, a: SaleRequest, b: SaleRequest, till: Option<Id>, at: int)
    requires multiset(a.items) == multiset(b.items) && b == a.(items := b.items)
    ensures Accepted(db, a) <==> Accepted(db, b)
    ensures Accepted(db, a) ==>
      var c := db.customers[a.customer];
      && TotalOf(Priced(db, c, a.items)) == TotalOf(Priced(db, c, b.items))
      && SameButLines(Booked(db, c, a, till, at), Booked(db, c, b, till, at), |db.sales|)
  {
    PermutationAccepted(db, a, b);
    PermutationStock(db, a.items, b.items);
    if Accepted(db, a) {
      var c := db.customers[a.customer];
      var x, y := Booked(db, c, a, till, at), Booked(db, c, b, till, at);
      assert x.sales == y.sales[|db.sales| := y.sales[|db.sales|].(items := x.sales[|db.sales|].items)];
    }
  }

  /** The total is above zero, as the CHECK constraints on the total and the ledger require. */
  lemma {:induction false} TotalPositive(items: seq<PricedLine>)
    requires items != []
    ensures 0 < TotalOf(items)
  {
    var last := items[|items| - 1];
    assert 0 < last.unitPrice * last.line.quantity;
    if |items| > 1 {
      TotalPositive(items[..|items| - 1]);
    }
  }
}
