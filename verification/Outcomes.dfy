/** What every service call promises, said on the rows and columns themselves: when it is accepted, which
    rows it writes with which values, and where the money in the till comes from. */
module Outcomes {
  import opened Prelude
  import opened Model
  import opened Sales
  import opened Effects
  import opened Treasury

  // ---- Prices and sums ----

  /** Appending adds, and one line is its price times its quantity: totals are the sums over the lines. */
  lemma TotalsAdd(a: seq<PricedLine>, b: seq<PricedLine>, p: PricedLine)
    ensures TotalOf(a + b) == TotalOf(a) + TotalOf(b)
    ensures TotalOf([]) == 0 && TotalOf([p]) == p.unitPrice * p.line.quantity
  {
    TotalOfConcat(a, b);
    TotalAppend([], p);
    assert [] + [p] == [p];
  }

  lemma {:induction false} TotalOfConcat(a: seq<PricedLine>, b: seq<PricedLine>)
    ensures TotalOf(a + b) == TotalOf(a) + TotalOf(b)
  {
    if b == [] {
      assert a + b == a;
    } else {
      var front, last := b[..|b| - 1], b[|b| - 1];
      TotalOfConcat(a, front);
      TotalAppend(a + front, last);
      assert a + b == (a + front) + [last];
    }
  }

  /** Every line keeps its product, variant and quantity and carries the wholesale price of its product if the
      customer's type is a wholesale one and the product has such a price, the list price otherwise. */
  lemma PricesOf(db: Db, c: Customer, items: seq<Line>, i: nat)
    requires i < |items| && forall l :: l in items ==> Quotable(db, l)
    ensures items[i].product in db.products
    ensures var p, product := Priced(db, c, items)[i], db.products[items[i].product];
      && p.line == items[i]
      && p.unitPrice == if c.customerType == Some(true) && product.wholesale.Some? then product.wholesale.value else product.price
  {
    assert items[i] in items;
  }

  /** What a customer who is not a wholesale one pays depends on the list prices alone. */
  lemma RetailIgnoresWholesale(db: Db, other: Db, c: Customer, items: seq<Line>)
    requires c.customerType != Some(true)
    requires forall l :: l in items ==>
      Quotable(db, l) && Quotable(other, l) && db.products[l.product].price == other.products[l.product].price
    ensures Priced(db, c, items) == Priced(other, c, items)
  {
    forall i | 0 <= i < |items| ensures Priced(db, c, items)[i] == Priced(other, c, items)[i] {
      assert items[i] in items;
    }
  }

  /** Units the lines ask for of a product itself: those of lines without a variant. */
  function UnitsOfProduct(items: seq<Line>, p: Id): int
  {
    if items == [] then 0
    else
      var l := items[|items| - 1];
      UnitsOfProduct(items[..|items| - 1], p) + if l.product == p && l.variant.None? then l.quantity else 0
  }

  function UnitsOfVariant(items: seq<Line>, v: Id): int
  {
    if items == [] then 0
    else
      var l := items[|items| - 1];
      UnitsOfVariant(items[..|items| - 1], v) + if l.variant == Some(v) then l.quantity else 0
  }

  lemma {:induction false} DemandIsUnits(items: seq<Line>, id: Id)
    ensures Demand(items, ProductCell(id)) == UnitsOfProduct(items, id)
    ensures Demand(items, VariantCell(id)) == UnitsOfVariant(items, id)
  {
    if items != [] {
      DemandIsUnits(items[..|items| - 1], id);
    }
  }

  // ---- When a sale is accepted ----

  /** The product is active; a variant, if named, is one of that product. */
  predicate OnSale(db: Db, l: Line)
  {
    && l.product in db.products && db.products[l.product].active
    && (l.variant.Some? ==> l.variant.value in db.variants && db.variants[l.variant.value].product == l.product)
  }

  /** What the whole request takes leaves no stock below zero. */
  predicate StockSuffices(db: Db, items: seq<Line>)
  {
    && (forall p :: p in db.products ==> UnitsOfProduct(items, p) <= db.products[p].stock)
    && (forall v :: v in db.variants ==> UnitsOfVariant(items, v) <= db.variants[v].stock)
  }

  /** Lines fit exactly when every one is on sale and the request as a whole leaves no stock below zero. */
  lemma LinesFitExactly(db: Db, items: seq<Line>)
    requires StockSound(db)
    ensures LinesFit(db, items) <==> (forall l :: l in items ==> OnSale(db, l)) && StockSuffices(db, items)
  {
    forall id ensures Demand(items, ProductCell(id)) == UnitsOfProduct(items, id)
      && Demand(items, VariantCell(id)) == UnitsOfVariant(items, id)
    {
      DemandIsUnits(items, id);
    }
    if LinesFit(db, items) {
      forall p | p in db.products ensures UnitsOfProduct(items, p) <= db.products[p].stock {
        CellSuffices(db, items, ProductCell(p));
      }
      forall v | v in db.variants ensures UnitsOfVariant(items, v) <= db.variants[v].stock {
        CellSuffices(db, items, VariantCell(v));
      }
    }
    if (forall l :: l in items ==> OnSale(db, l)) && StockSuffices(db, items) {
      forall l | l in items ensures Sellable(db, l) && Demand(items, CellOf(l)) <= StockOf(db, CellOf(l)) {
        assert OnSale(db, l);
      }
    }
  }

  lemma CellSuffices(db: Db, items: seq<Line>, c: Cell)
    requires LinesFit(db, items) && 0 <= StockOf(db, c)
    ensures Demand(items, c) <= StockOf(db, c)
  {
    if l :| l in items && CellOf(l) == c {
      assert Demand(items, CellOf(l)) <= StockOf(db, CellOf(l));
    } else {
      DemandZero(items, c);
    }
  }

  /** Which error a line is refused with: each means exactly what it says, in this order of precedence, stock being
      what the lines before have left. */
  lemma LineErrorsSay(db: Db, items: seq<Line>, k: nat)
    requires k < |items|
    ensures var l, fault := items[k], LineFault(db, items, k);
      var known := l.product in db.products && db.products[l.product].active;
      var fitting := l.variant.Some? ==> l.variant.value in db.variants && db.variants[l.variant.value].product == l.product;
      && (fault == Some(ProductNotFound) <==> l.product !in db.products)
      && (fault == Some(ProductNotActive) <==> l.product in db.products && !db.products[l.product].active)
      && (fault == Some(VariantNotFound) <==> known && l.variant.Some? && l.variant.value !in db.variants)
      && (fault == Some(VariantProductMismatch) <==>
            known && l.variant.Some? && l.variant.value in db.variants
            && db.variants[l.variant.value].product != l.product)
      && (fault == Some(InsufficientStock) <==>
            && known && fitting
            && if l.variant.Some? then db.variants[l.variant.value].stock < UnitsOfVariant(items[..k + 1], l.variant.value)
               else db.products[l.product].stock < UnitsOfProduct(items[..k + 1], l.product))
      && (fault.Some? ==> fault.value in {ProductNotFound, ProductNotActive, VariantNotFound, VariantProductMismatch,
                                          InsufficientStock})
  {
    var l := items[k];
    DemandIsUnits(items[..k + 1], if l.variant.Some? then l.variant.value else l.product);
  }

  lemma DocumentErrorsSay(db: Db, l: Line)
    ensures DocumentFault(db, l) != Some(NoCustomer)
    ensures DocumentFault(db, l) == Some(NoProduct) <==> l.product !in db.products
    ensures DocumentFault(db, l) == Some(NoVariant) <==>
      l.product in db.products && l.variant.Some? && l.variant.value !in db.variants
    ensures DocumentFault(db, l) == Some(WrongProduct) <==>
      && l.product in db.products && l.variant.Some? && l.variant.value in db.variants
      && db.variants[l.variant.value].product != l.product
  {
  }

  /** The note, if the request names one, is pending and the customer's own. */
  predicate NoteUsable(db: Db, req: SaleRequest)
  {
    req.note.Some? ==>
      && req.note.value < |db.notes| && db.notes[req.note.value].status == Pending
      && db.notes[req.note.value].customer == req.customer
  }

  /** A request is refused for credit exactly when booking it would put a debit on the ledger that takes the
      balance of a customer with a limit above it. */
  lemma CreditRefusedExactly(db: Db, req: SaleRequest, till: Option<Id>, at: int)
    requires req.customer in db.customers && Bookable(db, req)
    ensures var c := db.customers[req.customer];
      var after := Booked(db, c, req, till, at).movements;
      !Accepted(db, req) <==>
        after != db.movements && c.creditLimit.Some? && c.creditLimit.value < Balance(after, req.customer)
  {
    var c := db.customers[req.customer];
    var total := TotalOf(Priced(db, c, req.items));
    BalanceAppend(db.movements, AccountMovement(req.customer, Debit, total, Some(|db.sales|)), req.customer);
  }

  /** The whole rule of acceptance: a known customer, a usable note, lines on sale, stock for the whole request,
      and, for a sale on account by a customer with a limit, a balance within it afterwards. */
  lemma AcceptedExactly(db: Db, req: SaleRequest)
    requires StockSound(db)
    ensures Accepted(db, req) <==>
      && req.customer in db.customers && NoteUsable(db, req)
      && (forall l :: l in req.items ==> OnSale(db, l)) && StockSuffices(db, req.items)
      && (req.payment == "account" && db.customers[req.customer].creditLimit.Some? ==>
            Balance(db.movements, req.customer) + TotalOf(Priced(db, db.customers[req.customer], req.items))
              <= db.customers[req.customer].creditLimit.value)
  {
    LinesFitExactly(db, req.items);
  }

  // ---- What a sale writes ----

  ghost predicate StockTaken(before: Db, after: Db, items: seq<Line>)
  {
    && after.products.Keys == before.products.Keys && after.variants.Keys == before.variants.Keys
    && (forall p :: p in before.products ==>
          after.products[p] == before.products[p].(stock := before.products[p].stock - UnitsOfProduct(items, p)))
    && (forall v :: v in before.variants ==>
          after.variants[v] == before.variants[v].(stock := before.variants[v].stock - UnitsOfVariant(items, v)))
  }

  lemma SaleTakesStock(db: Db, req: SaleRequest, now: int)
    requires Accepted(db, req)
    ensures StockTaken(db, Apply(db, CreateSale(req), now), req.items)
  {
    forall id ensures Demand(req.items, ProductCell(id)) == UnitsOfProduct(req.items, id)
      && Demand(req.items, VariantCell(id)) == UnitsOfVariant(req.items, id)
    {
      DemandIsUnits(req.items, id);
    }
  }

  /** The rows an accepted sale writes: itself with the next number, a debit if it is on account, income of the
      open session if it is paid in cash, the note's new status and link, and one event with its lines. Nothing
      else changes but the stock. */
  lemma SaleWrites(db: Db, req: SaleRequest, now: int)
    requires Accepted(db, req)
    ensures var after, id := Apply(db, CreateSale(req), now), |db.sales|;
      var items := Priced(db, db.customers[req.customer], req.items);
      var total, till := TotalOf(items), OpenTill(db.tills);
      && after.sales == db.sales + [Sale(req.customer, db.nextSale, items, total, req.payment, req.note, now)]
      && after.nextSale == db.nextSale + 1
      && after.movements == db.movements
           + (if req.payment == "account" then [AccountMovement(req.customer, Debit, total, Some(id))] else [])
      && after.cash == db.cash
           + (if req.payment == "cash" && till.Some? then [CashMovement(till.value, Income, total, Some(id))] else [])
      && |after.notes| == |db.notes|
      && (forall n :: 0 <= n < |db.notes| ==>
            after.notes[n] == if req.note == Some(n) then db.notes[n].(status := Invoiced, saleId := Some(id)) else db.notes[n])
      && |after.outbox| == |db.outbox| + 1 && after.outbox[..|db.outbox|] == db.outbox
      && after.tenant == db.tenant && after.customers == db.customers && after.quotes == db.quotes
      && after.tills == db.tills && after.nextQuote == db.nextQuote && after.nextNote == db.nextNote
  {
  }

  /** The event a sale announces: its type, its tenant, its time, and product and quantity of every line in order. */
  lemma SaleAnnounces(db: Db, req: SaleRequest, now: int)
    requires Accepted(db, req)
    ensures var after := Apply(db, CreateSale(req), now);
      && |after.outbox| == |db.outbox| + 1
      && var row := after.outbox[|db.outbox|];
      && row.eventType == "VentaRealizada" && row.aggregate == db.tenant && row.at == now
      && row.lines.Some? && |row.lines.value| == |req.items|
      && forall i :: 0 <= i < |req.items| ==>
           row.lines.value[i] == EventLine(req.items[i].product, req.items[i].quantity)
  {
  }

  lemma RefusedWritesNothing(db: Db, req: SaleRequest, now: int)
    ensures Apply(db, CreateSale(req), now) == db <==> !Accepted(db, req)
  {
    if Accepted(db, req) {
      SaleWrites(db, req, now);
      assert |Apply(db, CreateSale(req), now).sales| == |db.sales| + 1;
    }
  }

  // ---- Quotes and order notes ----

  /** A document is accepted exactly when customer, products and variants exist and belong together; neither
      stock nor whether a product is active matters. */
  predicate Resolves(db: Db, doc: DocumentRequest)
  {
    && doc.customer in db.customers
    && forall l :: l in doc.items ==>
         && l.product in db.products
         && (l.variant.Some? ==> l.variant.value in db.variants && db.variants[l.variant.value].product == l.product)
  }

  lemma QuoteWrites(db: Db, doc: DocumentRequest, now: int)
    ensures Resolves(db, doc) <==> DocumentAccepted(db, doc)
    ensures var after := Apply(db, CreateQuote(doc), now);
      if Resolves(db, doc) then
        var items := Priced(db, db.customers[doc.customer], doc.items);
        after == db.(quotes := db.quotes + [Quote(doc.customer, db.nextQuote, items, TotalOf(items))],
                     nextQuote := db.nextQuote + 1)
      else after == db
  {
  }

  lemma NoteWrites(db: Db, doc: DocumentRequest, now: int)
    ensures var after := Apply(db, CreateOrderNote(doc), now);
      if Resolves(db, doc) then
        var items := Priced(db, db.customers[doc.customer], doc.items);
        after == db.(notes := db.notes + [OrderNote(doc.customer, db.nextNote, items, TotalOf(items), Pending, None)],
                     nextNote := db.nextNote + 1)
      else after == db
  {
    QuoteWrites(db, doc, now);
  }

  lemma CancelWrites(db: Db, n: Id, now: int)
    ensures var after := Apply(db, CancelOrderNote(n), now);
      if n < |db.notes| && db.notes[n].status == Pending
      then after == db.(notes := db.notes[n := db.notes[n].(status := Cancelled)]) else after == db
  {
  }

  // ---- Manual changes of the catalogue ----

  /** A column keeps its value unless the PATCH sends one. */
  predicate Set<T(==)>(before: T, sent: Option<T>, after: T)
  {
    match sent
    case Some(x) => after == x
    case None => after == before
  }

  /** A PATCH writes the columns it sends and no other, on one product. */
  lemma ProductWrites(db: Db, p: Id, patch: ProductPatch, now: int)
    requires p in db.products
    ensures var after, row := Apply(db, UpdateProduct(p, patch), now), db.products[p];
      && p in after.products
      && after == db.(products := db.products[p := after.products[p]])
      && Set(row.active, patch.active, after.products[p].active)
      && Set(row.price, patch.price, after.products[p].price)
      && Set(row.wholesale, patch.wholesale, after.products[p].wholesale)
      && (patch.stock.Some? ==> after.products[p].stock == patch.stock.value)
      && (patch.stock.None? ==> after.products[p].stock == row.stock)
  {
  }

  lemma VariantStockWrites(db: Db, p: Id, v: Id, stock: nat, now: int)
    ensures var after := Apply(db, UpdateVariantStock(p, v, stock), now);
      if v in db.variants && db.variants[v].product == p
      then after == db.(variants := db.variants[v := Variant(p, stock)]) else after == db
  {
  }

  // ---- The till ----

  /** A payment by a known customer is a credit of its amount; if it is in cash and a session is open it is also
      income of that session, and in no other case does it touch the cash. */
  lemma PaymentWrites(db: Db, c: Id, amount: Positive, payment: string, now: int)
    ensures var after, till := Apply(db, RecordPayment(c, amount, payment), now), OpenTill(db.tills);
      if c in db.customers then
        after == db.(movements := db.movements + [AccountMovement(c, Credit, amount, None)],
                     cash := if payment == "cash" && till.Some?
                             then db.cash + [CashMovement(till.value, Income, amount, None)] else db.cash)
      else after == db
  {
  }

  /** So a cash payment raises what the open session should hold by its amount. */
  lemma CashPaymentRaisesTill(db: Db, c: Id, amount: Positive, payment: string, now: int)
    requires c in db.customers && OpenTill(db.tills).Some?
    ensures var after, till := Apply(db, RecordPayment(c, amount, payment), now), OpenTill(db.tills).value;
      CashTotal(after.cash, till) == CashTotal(db.cash, till) + if payment == "cash" then amount else 0
  {
    var till := OpenTill(db.tills).value;
    PaymentWrites(db, c, amount, payment, now);
    MovementAppend(db.cash, CashMovement(till, Income, amount, None), till);
  }

  /** A session starts with the amount counted at its opening and with the clock's time, and only if none is open. */
  lemma OpeningWrites(db: Db, opening: nat, now: int)
    ensures var after := Apply(db, OpenCashSession(opening), now);
      if forall i :: 0 <= i < |db.tills| ==> db.tills[i].closedAt.Some?
      then after == db.(tills := db.tills + [CashSession(opening, now, None, None, None)]) else after == db
  {
    if OpenTill(db.tills).Some? {
      assert db.tills[OpenTill(db.tills).value].closedAt.None?;
    }
  }

  /** A manual movement goes to the open session it names, with its kind and amount. */
  lemma MovementWrites(db: Db, s: Id, kind: CashKind, amount: Positive, now: int)
    ensures var after := Apply(db, AddCashMovement(s, kind, amount), now);
      if s < |db.tills| && db.tills[s].closedAt == None
      then after == db.(cash := db.cash + [CashMovement(s, kind, amount, None)]) else after == db
  {
  }

  /** What the movements of one kind of a session add up to. */
  function KindTotal(cash: seq<CashMovement>, session: Id, kind: CashKind): Cents
  {
    if cash == [] then 0
    else
      var m := cash[|cash| - 1];
      KindTotal(cash[..|cash| - 1], session, kind) + if m.till == session && m.kind == kind then m.amount else 0
  }

  lemma {:induction false} CashTotalIs(cash: seq<CashMovement>, session: Id)
    ensures CashTotal(cash, session) == KindTotal(cash, session, Income) - KindTotal(cash, session, Expense)
  {
    if cash != [] {
      CashTotalIs(cash[..|cash| - 1], session);
    }
  }

  /** Closing records the time, what was counted, and opening plus incomes less expenses. */
  lemma ClosingWrites(db: Db, s: Id, declared: nat, now: int)
    ensures var after := Apply(db, CloseCashSession(s, declared), now);
      if s < |db.tills| && db.tills[s].closedAt == None then
        var expected := db.tills[s].opening + KindTotal(db.cash, s, Income) - KindTotal(db.cash, s, Expense);
        after == db.(tills := db.tills[s := CashSession(db.tills[s].opening, db.tills[s].openedAt, Some(now),
                                                        Some(declared), Some(expected))])
      else after == db
  {
    CashTotalIs(db.cash, s);
  }

  /** Amounts of the movements of one kind that a session has without a sale, in order. */
  function WithoutSale(cash: seq<CashMovement>, session: Id, kind: CashKind): seq<Cents>
  {
    if cash == [] then []
    else
      var m := cash[|cash| - 1];
      WithoutSale(cash[..|cash| - 1], session, kind)
      + if m.till == session && m.kind == kind && m.saleId.None? then [m.amount] else []
  }

  /** What one call puts into a session or takes out of it by hand: a cash payment of a known customer while it is
      open, or a manual movement of that kind while it is open. */
  function ByHand(db: Db, call: Call, session: Id, kind: CashKind): seq<Cents>
  {
    match call
    case RecordPayment(c, amount, payment) =>
      if kind == Income && payment == "cash" && c in db.customers && OpenTill(db.tills) == Some(session)
      then [amount] else []
    case AddCashMovement(s, k, amount) =>
      if k == kind && s == session && s < |db.tills| && db.tills[s].closedAt.None? then [amount] else []
    case _ => []
  }

  function AllByHand(db: Db, calls: seq<TimedCall>, session: Id, kind: CashKind): seq<Cents>
  {
    if calls == [] then []
    else
      var front := calls[..|calls| - 1];
      AllByHand(db, front, session, kind) + ByHand(ApplyAll(db, front), calls[|calls| - 1].call, session, kind)
  }

  lemma WithoutSaleAppend(cash: seq<CashMovement>, m: CashMovement, session: Id, kind: CashKind)
    ensures WithoutSale(cash + [m], session, kind) == WithoutSale(cash, session, kind)
      + if m.till == session && m.kind == kind && m.saleId.None? then [m.amount] else []
  {
    assert (cash + [m])[..|cash|] == cash;
  }

  lemma SaleByHand(db: Db, req: SaleRequest, now: int, session: Id, kind: CashKind)
    ensures WithoutSale(Apply(db, CreateSale(req), now).cash, session, kind) == WithoutSale(db.cash, session, kind)
  {
    var cash := Apply(db, CreateSale(req), now).cash;
    if Accepted(db, req) {
      SaleWrites(db, req, now);
      if cash != db.cash {
        assert cash == db.cash + [cash[|db.cash|]] && cash[|db.cash|].saleId.Some?;
        WithoutSaleAppend(db.cash, cash[|db.cash|], session, kind);
      }
    }
  }

  lemma PaymentByHand(db: Db, c: Id, amount: Positive, payment: string, now: int, session: Id, kind: CashKind)
    ensures WithoutSale(Apply(db, RecordPayment(c, amount, payment), now).cash, session, kind)
         == WithoutSale(db.cash, session, kind) + ByHand(db, RecordPayment(c, amount, payment), session, kind)
  {
    PaymentWrites(db, c, amount, payment, now);
    if OpenTill(db.tills).Some? {
      WithoutSaleAppend(db.cash, CashMovement(OpenTill(db.tills).value, Income, amount, None), session, kind);
    }
  }

  lemma MovementByHand(db: Db, s: Id, k: CashKind, amount: Positive, now: int, session: Id, kind: CashKind)
    ensures WithoutSale(Apply(db, AddCashMovement(s, k, amount), now).cash, session, kind)
         == WithoutSale(db.cash, session, kind) + ByHand(db, AddCashMovement(s, k, amount), session, kind)
  {
    MovementWrites(db, s, k, amount, now);
    WithoutSaleAppend(db.cash, CashMovement(s, k, amount, None), session, kind);
  }

  /** The other calls do not touch the cash. */
  lemma OthersKeepCash(db: Db, call: Call, now: int)
    requires !call.CreateSale? && !call.RecordPayment? && !call.AddCashMovement?
    ensures Apply(db, call, now).cash == db.cash
  {
  }

  lemma CallByHand(db: Db, call: Call, now: int, session: Id, kind: CashKind)
    ensures WithoutSale(Apply(db, call, now).cash, session, kind)
         == WithoutSale(db.cash, session, kind) + ByHand(db, call, session, kind)
  {
    if call.CreateSale? {
      SaleByHand(db, call.req, now, session, kind);
    } else if call.RecordPayment? {
      PaymentByHand(db, call.customer, call.amount, call.payment, now, session, kind);
    } else if call.AddCashMovement? {
      MovementByHand(db, call.session, call.kind, call.amount, now, session, kind);
    } else {
      OthersKeepCash(db, call, now);
    }
  }

  /** Where the money that no sale brought comes from: over any calls, a session's incomes without a sale are, one by
      one and in order, the cash payments and manual incomes made while it was open, and its expenses the manual
      expenses made while it was open. */
  lemma {:induction false} TillMoneyExplained(db: Db, calls: seq<TimedCall>, session: Id, kind: CashKind)
    ensures WithoutSale(ApplyAll(db, calls).cash, session, kind)
         == WithoutSale(db.cash, session, kind) + AllByHand(db, calls, session, kind)
  {
    if calls != [] {
      var front, c := calls[..|calls| - 1], calls[|calls| - 1];
      TillMoneyExplained(db, front, session, kind);
      CallByHand(ApplyAll(db, front), c.call, c.now, session, kind);
    }
  }

  // ---- The sales summary of a session ----

  /** The sales of a payment method from the opening of a session to its close, or to now while it is open. */
  function SummarySales(sales: seq<Sale>, till: CashSession, now: int, payment: string): set<nat>
  {
    set i | 0 <= i < |sales| && sales[i].payment == payment && till.openedAt <= sales[i].createdAt
      && sales[i].createdAt <= (if till.closedAt.Some? then till.closedAt.value else now)
  }

  function SumOf(sales: seq<Sale>, picked: set<nat>): Cents
  {
    if sales == [] then 0
    else SumOf(sales[..|sales| - 1], picked) + if |sales| - 1 in picked then sales[|sales| - 1].total else 0
  }

  lemma {:induction false} SumOfFront(sales: seq<Sale>, a: set<nat>, b: set<nat>)
    requires forall i :: 0 <= i < |sales| ==> (i in a <==> i in b)
    ensures SumOf(sales, a) == SumOf(sales, b)
  {
    if sales != [] {
      SumOfFront(sales[..|sales| - 1], a, b);
    }
  }

  /** Every row of the summary, whatever its payment method, counts and adds up exactly those sales. */
  lemma {:induction false} SummaryIsTally(sales: seq<Sale>, till: CashSession, now: int, payment: string)
    ensures var picked := SummarySales(sales, till, now, payment);
      Summary(sales, till, now, payment) == Tally(|picked|, SumOf(sales, picked))
  {
    if sales != [] {
      var front, k := sales[..|sales| - 1], |sales| - 1;
      SummaryIsTally(front, till, now, payment);
      var picked, before := SummarySales(sales, till, now, payment), SummarySales(front, till, now, payment);
      SumOfFront(front, picked, before);
      assert k !in before;
      assert picked == if k in picked then before + {k} else before;
    }
  }
}
