/** The rows one tenant owns. Row identifiers of the tables that only grow are positions
    in those tables, so "no such row" is a position past the end. */
module Model {
  import opened Prelude

  type Id = nat
  type Cents = int

  const ACCOUNT := "account"
  const CASH := "cash"
  const SALE_EVENT := "VentaRealizada"
  const PURCHASE_EVENT := "OrdenCompraGenerada"

  datatype Product = Product(active: bool, price: Positive, wholesale: Option<Positive>, stock: int)
  datatype Variant = Variant(product: Id, stock: int)

  /** customerType is None, or whether the type is a wholesale one. */
  datatype Customer = Customer(customerType: Option<bool>, creditLimit: Option<Cents>)

  /** A place where stock is counted. */
  datatype Cell = ProductCell(product: Id) | VariantCell(variant: Id)

  datatype Line = Line(product: Id, variant: Option<Id>, quantity: Positive)
  datatype PricedLine = PricedLine(line: Line, unitPrice: Positive)

  datatype SaleRequest = SaleRequest(customer: Id, items: seq<Line>, payment: string, note: Option<Id>)
  datatype DocumentRequest = DocumentRequest(customer: Id, items: seq<Line>)

  /** fromNote repeats the order_note_id of the request that made the sale. */
  datatype Sale = Sale(customer: Id, number: int, items: seq<PricedLine>, total: Cents, payment: string,
                       fromNote: Option<Id>, createdAt: int)

  datatype NoteStatus = Pending | Invoiced | Cancelled
  datatype OrderNote = OrderNote(customer: Id, number: int, items: seq<PricedLine>, total: Cents,
                                 status: NoteStatus, saleId: Option<Id>)
  datatype Quote = Quote(customer: Id, number: int, items: seq<PricedLine>, total: Cents)

  datatype AccountKind = Debit | Credit
  datatype AccountMovement = AccountMovement(customer: Id, kind: AccountKind, amount: Cents, saleId: Option<Id>)

  datatype CashKind = Income | Expense
  datatype CashMovement = CashMovement(till: Id, kind: CashKind, amount: Cents, saleId: Option<Id>)
  datatype CashSession = CashSession(opening: Cents, openedAt: int, closedAt: Option<int>,
                                     declared: Option<Cents>, expected: Option<Cents>)

  datatype EventLine = EventLine(product: Id, quantity: Positive)

  /** lines is None when the payload does not validate as a sales event. */
  datatype OutboxRow = OutboxRow(eventType: string, aggregate: Id, at: int, lines: Option<seq<EventLine>>)

  datatype Db = Db(
    tenant: Id,
    products: map<Id, Product>,
    variants: map<Id, Variant>,
    customers: map<Id, Customer>,
    notes: seq<OrderNote>,
    quotes: seq<Quote>,
    sales: seq<Sale>,
    movements: seq<AccountMovement>,
    tills: seq<CashSession>,
    cash: seq<CashMovement>,
    outbox: seq<OutboxRow>,
    nextSale: int,
    nextQuote: int,
    nextNote: int)

  function IsWholesale(c: Customer): (r: bool)
  {
    c.customerType.Some? && c.customerType.value
  }

  /** Only wholesale customers pay a wholesale price, and they do whenever there is one. */
  function UnitPrice(c: Customer, p: Product): (r: Positive)
    ensures c.customerType != Some(true) ==> r == p.price
    ensures c.customerType == Some(true) && p.wholesale.Some? ==> Some(r) == p.wholesale
    ensures p.wholesale.None? ==> r == p.price
  {
    if IsWholesale(c) && p.wholesale.Some? then p.wholesale.value else p.price
  }

  function CellOf(l: Line): Cell
  {
    if l.variant.Some? then VariantCell(l.variant.value) else ProductCell(l.product)
  }

  function StockOf(db: Db, c: Cell): int
  {
    match c
    case ProductCell(p) => if p in db.products then db.products[p].stock else 0
    case VariantCell(v) => if v in db.variants then db.variants[v].stock else 0
  }

  /** Units of one cell that a list of lines asks for. */
  function Demand(items: seq<Line>, c: Cell): (d: int)
    ensures 0 <= d
  {
    if items == [] then 0
    else
      var last := items[|items| - 1];
      Demand(items[..|items| - 1], c) + if CellOf(last) == c then last.quantity else 0
  }

  function TotalOf(items: seq<PricedLine>): Cents
  {
    if items == [] then 0
    else
      var last := items[|items| - 1];
      TotalOf(items[..|items| - 1]) + last.unitPrice * last.line.quantity
  }

  /** The line names a product, and a variant of that product if it names a variant. */
  predicate Quotable(db: Db, l: Line)
  {
    && l.product in db.products
    && (l.variant.Some? ==> l.variant.value in db.variants && db.variants[l.variant.value].product == l.product)
  }

  function Priced(db: Db, c: Customer, items: seq<Line>): (r: seq<PricedLine>)
    requires forall l :: l in items ==> Quotable(db, l)
    ensures |r| == |items|
  {
    seq(|items|, i requires 0 <= i < |items| =>
      assert items[i] in items && Quotable(db, items[i]);
      PricedLine(items[i], UnitPrice(c, db.products[items[i].product])))
  }

  lemma DemandAppend(items: seq<Line>, l: Line, c: Cell)
    ensures Demand(items + [l], c) == Demand(items, c) + if CellOf(l) == c then l.quantity else 0
  {
    assert (items + [l])[..|items|] == items;
  }

  lemma TotalAppend(items: seq<PricedLine>, p: PricedLine)
    ensures TotalOf(items + [p]) == TotalOf(items) + p.unitPrice * p.line.quantity
  {
    assert (items + [p])[..|items|] == items;
  }

  /** A longer list asks for at least as much. */
  lemma {:induction false} DemandGrows(items: seq<Line>, k: nat, c: Cell)
    requires k <= |items|
    ensures Demand(items[..k], c) <= Demand(items, c)
  {
    if k == |items| {
      assert items[..k] == items;
    } else {
      var front := items[..|items| - 1];
      DemandGrows(front, k, c);
      assert front[..k] == items[..k];
    }
  }

  /** A cell that some line names is asked for at least once. */
  lemma {:induction false} DemandPositive(items: seq<Line>, k: nat)
    requires k < |items|
    ensures 0 < Demand(items, CellOf(items[k]))
  {
    if k < |items| - 1 {
      DemandPositive(items[..|items| - 1], k);
    }
  }

  /** A cell that no line names is not asked for. */
  lemma {:induction false} DemandZero(items: seq<Line>, c: Cell)
    requires forall l :: l in items ==> CellOf(l) != c
    ensures Demand(items, c) == 0
  {
    if items != [] {
      DemandZero(items[..|items| - 1], c);
    }
  }

  /** The customer's balance: debits less credits. */
  function Balance(movements: seq<AccountMovement>, customer: Id): Cents
  {
    if movements == [] then 0
    else
      var m := movements[|movements| - 1];
      Balance(movements[..|movements| - 1], customer)
      + if m.customer != customer then 0 else if m.kind.Debit? then m.amount else -m.amount
  }

  lemma BalanceAppend(movements: seq<AccountMovement>, m: AccountMovement, customer: Id)
    ensures Balance(movements + [m], customer) == Balance(movements, customer)
      + if m.customer != customer then 0 else if m.kind.Debit? then m.amount else -m.amount
  {
    assert (movements + [m])[..|movements|] == movements;
  }

  /** The tenant's open cash session; the partial unique index allows at most one. */
  function OpenTill(tills: seq<CashSession>): (r: Option<Id>)
    ensures r.Some? ==> r.value < |tills| && tills[r.value].closedAt.None?
    ensures r.None? ==> forall i :: 0 <= i < |tills| ==> tills[i].closedAt.Some?
  {
    if tills == [] then None
    else if tills[|tills| - 1].closedAt.None? then Some(|tills| - 1)
    else OpenTill(tills[..|tills| - 1])
  }

  predicate OneOpenTill(tills: seq<CashSession>)
  {
    forall i, j :: 0 <= i < |tills| && 0 <= j < |tills| && tills[i].closedAt.None? && tills[j].closedAt.None? ==> i == j
  }
}
