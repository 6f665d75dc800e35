/** The service methods over one tenant's tables, each one transaction: its writes stay in local
    variables until the end, so a refused call leaves the tables as they were. */
module Services {
  import opened Prelude
  import opened Model
  import opened Sales
  import opened Effects
  import opened Treasury

  datatype NoteError = CannotSetInvoiced | NoNote | NoteResolved
  datatype TillError = AlreadyOpen | NoSession | AlreadyClosed
  datatype RowError = NoRow

  class TenantStore {
    const tenant: Id
    var products: map<Id, Product>
    var variants: map<Id, Variant>
    var customers: map<Id, Customer>
    var notes: seq<OrderNote>
    var quotes: seq<Quote>
    var sales: seq<Sale>
    var movements: seq<AccountMovement>
    var tills: seq<CashSession>
    var cash: seq<CashMovement>
    var outbox: seq<OutboxRow>
    var nextSale: int
    var nextQuote: int
    var nextNote: int

    ghost function State(): Db
      reads this
    {
      Db(tenant, products, variants, customers, notes, quotes, sales, movements, tills, cash, outbox,
         nextSale, nextQuote, nextNote)
    }

    constructor (tenant: Id)
      ensures State() == Db(tenant, map[], map[], map[], [], [], [], [], [], [], [], 1, 1, 1)
    {
      this.tenant := tenant;
      products, variants, customers := map[], map[], map[];
      notes, quotes, sales, movements, tills, cash, outbox := [], [], [], [], [], [], [];
      nextSale, nextQuote, nextNote := 1, 1, 1;
    }

    /** The loop of create_sale: price each line and take it from the pending rows. */
    method TakeLines(customer: Customer, items: seq<Line>)
      returns (fault: Option<SaleError>, priced: seq<PricedLine>, event: seq<EventLine>, total: Cents,
               pendingProducts: map<Id, Product>, pendingVariants: map<Id, Variant>)
      ensures fault.None? <==> LinesFit(State(), items)
      ensures fault.None? ==>
        && priced == Priced(State(), customer, items) && total == TotalOf(priced) && event == EventLines(priced)
        && pendingProducts == ProductsLess(State(), items) && pendingVariants == VariantsLess(State(), items)
      ensures fault.Some? ==>
        exists k :: 0 <= k < |items| && LinesFit(State(), items[..k]) && LineFault(State(), items, k) == fault
    {
      fault, priced, event, total := None, [], [], 0;
      pendingProducts, pendingVariants := products, variants;
      var i := 0;
      while i < |items|
        invariant i <= |items| && fault.None?
        invariant LinesFit(State(), items[..i])
        invariant priced == Priced(State(), customer, items[..i])
        invariant total == TotalOf(priced) && event == EventLines(priced)
        invariant pendingProducts == ProductsLess(State(), items[..i])
        invariant pendingVariants == VariantsLess(State(), items[..i])
      {
        var item := items[i];
        fault := TakeFault(item, pendingProducts, pendingVariants, items, i);
        if fault.Some? {
          FaultRefuses(State(), items, i);
          return;
        }
        FitExtends(State(), items, i);
        PricedPrefix(State(), customer, items, i);
        pendingProducts, pendingVariants := DiscountStock(item, pendingProducts, pendingVariants, items, i);
        var unitPrice := UnitPrice(customer, products[item.product]);
        TotalAppend(priced, PricedLine(item, unitPrice));
        priced := priced + [PricedLine(item, unitPrice)];
        event := event + [EventLine(item.product, item.quantity)];
        total := total + unitPrice * item.quantity;
        i := i + 1;
      }
      assert items[..i] == items;
    }

    /** _discount_stock: the line comes off its variant if it names one, otherwise off its product. */
    method DiscountStock(item: Line, pendingProducts: map<Id, Product>, pendingVariants: map<Id, Variant>,
                         ghost items: seq<Line>, ghost i: nat)
      returns (newProducts: map<Id, Product>, newVariants: map<Id, Variant>)
      requires i < |items| && item == items[i] && Sellable(State(), item)
      requires pendingProducts == ProductsLess(State(), items[..i])
      requires pendingVariants == VariantsLess(State(), items[..i])
      ensures newProducts == ProductsLess(State(), items[..i + 1])
      ensures newVariants == VariantsLess(State(), items[..i + 1])
    {
      DiscountStep(State(), items, i);
      newProducts, newVariants := pendingProducts, pendingVariants;
      if item.variant.Some? {
        var variant := pendingVariants[item.variant.value];
        newVariants := pendingVariants[item.variant.value := variant.(stock := variant.stock - item.quantity)];
      } else {
        var product := pendingProducts[item.product];
        newProducts := pendingProducts[item.product := product.(stock := product.stock - item.quantity)];
      }
    }

    /** The checks on one line against the pending rows, in the order they are made. */
    method TakeFault(item: Line, pendingProducts: map<Id, Product>, pendingVariants: map<Id, Variant>,
                     ghost items: seq<Line>, ghost i: nat) returns (fault: Option<SaleError>)
      requires i < |items| && item == items[i]
      requires pendingProducts == ProductsLess(State(), items[..i])
      requires pendingVariants == VariantsLess(State(), items[..i])
      ensures fault == LineFault(State(), items, i)
    {
      assert items[..i + 1] == items[..i] + [item];
      DemandAppend(items[..i], item, CellOf(item));
      if item.product !in pendingProducts {
        return Some(ProductNotFound);
      }
      var product := pendingProducts[item.product];
      if !product.active {
        return Some(ProductNotActive);
      }
      if item.variant.Some? {
        if item.variant.value !in pendingVariants {
          return Some(VariantNotFound);
        }
        var variant := pendingVariants[item.variant.value];
        if variant.product != item.product {
          return Some(VariantProductMismatch);
        }
        return if variant.stock < item.quantity then Some(InsufficientStock) else None;
      }
      return if product.stock < item.quantity then Some(InsufficientStock) else None;
    }

    /** The checks on the order note a sale is made from. */
    method CheckNote(req: SaleRequest) returns (fault: Option<SaleError>)
      ensures fault.None? <==> NoteReady(State(), req)
      ensures fault.Some? && req.customer in customers ==> Explains(State(), req, fault.value)
    {
      if req.note.None? {
        return None;
      }
      if |notes| <= req.note.value {
        return Some(NoteNotFound);
      }
      var note := notes[req.note.value];
      if !note.status.Pending? {
        return Some(NoteNotPending);
      }
      return if note.customer != req.customer then Some(NoteCustomerMismatch) else None;
    }

    method RecordSaleOnAccount(customer: Id, total: Cents, sale: Id)
      modifies this`movements
      ensures movements == old(movements) + [AccountMovement(customer, Debit, total, Some(sale))]
    {
      movements := movements + [AccountMovement(customer, Debit, total, Some(sale))];
    }

    /** With no open session a cash sale records no income. */
    method RecordCashIncomeFromSale(total: Cents, sale: Id)
      modifies this`cash
      ensures cash == if OpenTill(tills).None? then old(cash)
                      else old(cash) + [CashMovement(OpenTill(tills).value, Income, total, Some(sale))]
    {
      var till := OpenTill(tills);
      if till.Some? {
        cash := cash + [CashMovement(till.value, Income, total, Some(sale))];
      }
    }

    /** The hooks into the treasury: a sale on account is a debit, a cash sale is income of the open session. */
    method RecordInTreasury(req: SaleRequest, total: Cents, id: Id)
      modifies this`movements, this`cash
      ensures movements == PostedDebit(old(movements), req, total, id)
      ensures cash == PostedIncome(old(cash), req, OpenTill(tills), total, id)
    {
      if req.payment == ACCOUNT {
        RecordSaleOnAccount(req.customer, total, id);
      } else if req.payment == CASH {
        RecordCashIncomeFromSale(total, id);
      }
    }

    method InvoiceNote(req: SaleRequest, id: Id)
      requires req.note.Some? ==> req.note.value < |notes|
      modifies this`notes
      ensures notes == InvoicedNote(old(notes), req, id)
    {
      if req.note.Some? {
        notes := notes[req.note.value := notes[req.note.value].(status := Invoiced, saleId := Some(id))];
      }
    }

    /** Everything an accepted sale writes, table by table. */
    method WriteRows(req: SaleRequest, priced: seq<PricedLine>, event: seq<EventLine>, total: Cents,
                     pendingProducts: map<Id, Product>, pendingVariants: map<Id, Variant>, now: int)
      requires req.note.Some? ==> req.note.value < |notes|
      requires total == TotalOf(priced) && event == EventLines(priced)
      modifies this`products, this`variants, this`nextSale, this`sales, this`notes, this`movements, this`cash, this`outbox
      ensures products == pendingProducts && variants == pendingVariants && nextSale == old(nextSale) + 1
      ensures sales == old(sales) + [Sale(req.customer, old(nextSale), priced, total, req.payment, req.note, now)]
      ensures notes == InvoicedNote(old(notes), req, |old(sales)|)
      ensures movements == PostedDebit(old(movements), req, total, |old(sales)|)
      ensures cash == PostedIncome(old(cash), req, OpenTill(tills), total, |old(sales)|)
      ensures outbox == old(outbox) + [EventOf(tenant, sales[|old(sales)|])]
    {
      var id := |sales|;
      var sale := Sale(req.customer, nextSale, priced, total, req.payment, req.note, now);
      products, variants, nextSale := pendingProducts, pendingVariants, nextSale + 1;
      sales := sales + [sale];
      InvoiceNote(req, id);
      RecordInTreasury(req, total, id);
      outbox := outbox + [OutboxRow(SALE_EVENT, tenant, now, Some(event))];
    }

    method WriteSale(req: SaleRequest, priced: seq<PricedLine>, event: seq<EventLine>, total: Cents,
                     pendingProducts: map<Id, Product>, pendingVariants: map<Id, Variant>, now: int)
      requires req.note.Some? ==> req.note.value < |notes|
      requires total == TotalOf(priced) && event == EventLines(priced)
      modifies this
      ensures State() == Recorded(old(State()), pendingProducts, pendingVariants, req, priced, old(nextSale),
                                  OpenTill(old(tills)), now)
    {
      ghost var db := State();
      WriteRows(req, priced, event, total, pendingProducts, pendingVariants, now);
      AssembleRecorded(db, State(), req, priced, now);
    }

    /** create_sale: accepted exactly when the request fits the database as a whole, and then the database
        is the booked one; otherwise nothing changes and the error is the first thing wrong. */
    method CreateSale(req: SaleRequest, now: int) returns (r: Result<Id, SaleError>)
      modifies this
      ensures r.Ok? <==> Accepted(old(State()), req)
      ensures r.Ok? ==> r.value == |old(sales)|
      ensures State() == Apply(old(State()), Call.CreateSale(req), now)
      ensures r.Err? ==> Explains(old(State()), req, r.error)
    {
      if req.customer !in customers {
        return Err(CustomerNotFound);
      }
      var customer := customers[req.customer];
      var fault := CheckNote(req);
      if fault.Some? {
        return Err(fault.value);
      }
      var priced, event, total, pendingProducts, pendingVariants;
      fault, priced, event, total, pendingProducts, pendingVariants := TakeLines(customer, req.items);
      if fault.Some? {
        return Err(fault.value);
      }
      if req.payment == ACCOUNT && customer.creditLimit.Some? {
        var balance := Balance(movements, req.customer);
        if balance + total > customer.creditLimit.value {
          return Err(InsufficientCredit);
        }
      }
      r := Ok(|sales|);
      WriteSale(req, priced, event, total, pendingProducts, pendingVariants, now);
    }

    /** The pricing loop that quotes and order notes share: no stock, no active check. */
    method PriceItems(doc: DocumentRequest) returns (r: Result<(seq<PricedLine>, Cents), DocumentError>)
      ensures r.Ok? <==> DocumentAccepted(State(), doc)
      ensures r.Ok? ==>
        && r.value.0 == Priced(State(), customers[doc.customer], doc.items)
        && r.value.1 == TotalOf(r.value.0)
      ensures r.Err? ==> DocumentExplains(State(), doc, r.error)
    {
      if doc.customer !in customers {
        return Err(NoCustomer);
      }
      var customer := customers[doc.customer];
      var priced, total := [], 0;
      var i := 0;
      while i < |doc.items|
        invariant i <= |doc.items|
        invariant forall l :: l in doc.items[..i] ==> Quotable(State(), l)
        invariant priced == Priced(State(), customer, doc.items[..i]) && total == TotalOf(priced)
      {
        var item := doc.items[i];
        assert doc.items[..i + 1] == doc.items[..i] + [item];
        assert forall j :: 0 <= j < i ==> doc.items[j] in doc.items[..i];
        if item.product !in products {
          assert DocumentFault(State(), item) == Some(NoProduct);
          return Err(NoProduct);
        }
        var product := products[item.product];
        if item.variant.Some? {
          if item.variant.value !in variants {
            assert DocumentFault(State(), item) == Some(NoVariant);
            return Err(NoVariant);
          }
          if variants[item.variant.value].product != item.product {
            assert DocumentFault(State(), item) == Some(WrongProduct);
            return Err(WrongProduct);
          }
        }
        PricedPrefix(State(), customer, doc.items, i);
        var unitPrice := UnitPrice(customer, product);
        TotalAppend(priced, PricedLine(item, unitPrice));
        priced := priced + [PricedLine(item, unitPrice)];
        total := total + unitPrice * item.quantity;
        i := i + 1;
      }
      assert doc.items[..i] == doc.items;
      return Ok((priced, total));
    }

    method CreateQuote(doc: DocumentRequest, now: int) returns (r: Result<Id, DocumentError>)
      modifies this
      ensures r.Ok? <==> DocumentAccepted(old(State()), doc)
      ensures r.Ok? ==> r.value == |old(quotes)|
      ensures r.Err? ==> DocumentExplains(old(State()), doc, r.error)
      ensures State() == Apply(old(State()), Call.CreateQuote(doc), now)
    {
      var items := PriceItems(doc);
      if items.Err? {
        return Err(items.error);
      }
      var number := nextQuote;
      nextQuote := number + 1;
      quotes := quotes + [Quote(doc.customer, number, items.value.0, items.value.1)];
      return Ok(|quotes| - 1);
    }

    method CreateOrderNote(doc: DocumentRequest, now: int) returns (r: Result<Id, DocumentError>)
      modifies this
      ensures r.Ok? <==> DocumentAccepted(old(State()), doc)
      ensures r.Ok? ==> r.value == |old(notes)|
      ensures r.Err? ==> DocumentExplains(old(State()), doc, r.error)
      ensures State() == Apply(old(State()), Call.CreateOrderNote(doc), now)
    {
      var items := PriceItems(doc);
      if items.Err? {
        return Err(items.error);
      }
      var number := nextNote;
      nextNote := number + 1;
      notes := notes + [OrderNote(doc.customer, number, items.value.0, items.value.1, Pending, None)];
      return Ok(|notes| - 1);
    }

    /** Only a pending note can be resolved by hand, and never to INVOICED; PENDING over PENDING changes nothing. */
    method UpdateOrderNoteStatus(note: Id, status: NoteStatus, now: int) returns (r: Result<Id, NoteError>)
      modifies this`notes
      ensures r.Ok? <==> !status.Invoiced? && note < |old(notes)| && old(notes)[note].status.Pending?
      ensures State() == if status.Cancelled? then Apply(old(State()), Call.CancelOrderNote(note), now) else old(State())
      ensures r.Err? && r.error.CannotSetInvoiced? <==> status.Invoiced?
      ensures r.Err? && r.error.NoNote? <==> !status.Invoiced? && |old(notes)| <= note
    {
      if status.Invoiced? {
        return Err(CannotSetInvoiced);
      }
      if |notes| <= note {
        return Err(NoNote);
      }
      if !notes[note].status.Pending? {
        return Err(NoteResolved);
      }
      notes := notes[note := notes[note].(status := status)];
      return Ok(note);
    }

    method RecordCustomerPayment(customer: Id, amount: Positive, payment: string, now: int)
      returns (r: Result<Id, DocumentError>)
      modifies this`movements, this`cash
      ensures r == if customer in customers then Ok(|old(movements)|) else Err(NoCustomer)
      ensures State() == Apply(old(State()), Call.RecordPayment(customer, amount, payment), now)
    {
      if customer !in customers {
        return Err(NoCustomer);
      }
      movements := movements + [AccountMovement(customer, Credit, amount, None)];
      if payment == CASH {
        var till := OpenTill(tills);
        if till.Some? {
          cash := cash + [CashMovement(till.value, Income, amount, None)];
        }
      }
      return Ok(|movements| - 1);
    }

    method OpenCashSession(opening: nat, now: int) returns (r: Result<Id, TillError>)
      modifies this`tills
      ensures r.Ok? <==> OpenTill(old(tills)).None?
      ensures r.Ok? ==> r.value == |old(tills)|
      ensures State() == Apply(old(State()), Call.OpenCashSession(opening), now)
      ensures r.Err? ==> r.error.AlreadyOpen?
    {
      var existing := OpenTill(tills);
      if existing.Some? {
        return Err(AlreadyOpen);
      }
      tills := tills + [CashSession(opening, now, None, None, None)];
      return Ok(|tills| - 1);
    }

    method AddCashMovement(session: Id, kind: CashKind, amount: Positive, now: int) returns (r: Result<Id, TillError>)
      modifies this`cash
      ensures r.Ok? <==> session < |tills| && tills[session].closedAt.None?
      ensures r.Ok? ==> r.value == |old(cash)|
      ensures State() == Apply(old(State()), Call.AddCashMovement(session, kind, amount), now)
      ensures r.Err? ==> (r.error.NoSession? <==> |tills| <= session)
      ensures r.Err? ==> !r.error.AlreadyOpen?
    {
      if |tills| <= session {
        return Err(NoSession);
      }
      if tills[session].closedAt.Some? {
        return Err(AlreadyClosed);
      }
      cash := cash + [CashMovement(session, kind, amount, None)];
      return Ok(|cash| - 1);
    }

    /** Closing sums the session's incomes and its expenses over all its movements. */
    method CloseCashSession(session: Id, declared: nat, now: int) returns (r: Result<Cents, TillError>)
      modifies this`tills
      ensures r.Ok? <==> session < |old(tills)| && old(tills)[session].closedAt.None?
      ensures State() == Apply(old(State()), Call.CloseCashSession(session, declared), now)
      ensures r.Ok? ==> r.value == old(tills)[session].opening + CashTotal(cash, session)
      ensures r.Err? ==> (r.error.NoSession? <==> |old(tills)| <= session)
      ensures r.Err? ==> !r.error.AlreadyOpen?
    {
      if |tills| <= session {
        return Err(NoSession);
      }
      if tills[session].closedAt.Some? {
        return Err(AlreadyClosed);
      }
      var income, expense := 0, 0;
      for i := 0 to |cash|
        invariant tills == old(tills) && income - expense == CashTotal(cash[..i], session)
      {
        MovementAppend(cash[..i], cash[i], session);
        assert cash[..i + 1] == cash[..i] + [cash[i]];
        if cash[i].till == session {
          if cash[i].kind.Income? {
            income := income + cash[i].amount;
          } else {
            expense := expense + cash[i].amount;
          }
        }
      }
      assert cash[..|cash|] == cash;
      var expected := tills[session].opening + income - expense;
      tills := tills[session := tills[session].(closedAt := Some(now), declared := Some(declared), expected := Some(expected))];
      return Ok(expected);
    }

    method UpdateProduct(product: Id, patch: ProductPatch, now: int) returns (r: Result<Id, RowError>)
      modifies this`products
      ensures r.Ok? <==> product in old(products)
      ensures State() == Apply(old(State()), Call.UpdateProduct(product, patch), now)
    {
      if product !in products {
        return Err(NoRow);
      }
      var p := products[product];
      if patch.active.Some? { p := p.(active := patch.active.value); }
      if patch.price.Some? { p := p.(price := patch.price.value); }
      if patch.wholesale.Some? { p := p.(wholesale := patch.wholesale.value); }
      if patch.stock.Some? { p := p.(stock := patch.stock.value); }
      products := products[product := p];
      return Ok(product);
    }

    /** A variant of another product is not found. */
    method UpdateVariantStock(product: Id, variant: Id, stock: nat, now: int) returns (r: Result<Id, RowError>)
      modifies this`variants
      ensures r.Ok? <==> variant in old(variants) && old(variants)[variant].product == product
      ensures State() == Apply(old(State()), Call.UpdateVariantStock(product, variant, stock), now)
    {
      if variant !in variants || variants[variant].product != product {
        return Err(NoRow);
      }
      variants := variants[variant := variants[variant].(stock := stock)];
      return Ok(variant);
    }
  }

  /** The tables, put together, are the database with the sale recorded. */
  lemma AssembleRecorded(db: Db, after: Db, req: SaleRequest, items: seq<PricedLine>, now: int)
    requires req.note.Some? ==> req.note.value < |db.notes|
    requires after.tenant == db.tenant && after.customers == db.customers && after.quotes == db.quotes
    requires after.tills == db.tills && after.nextQuote == db.nextQuote && after.nextNote == db.nextNote
    requires after.nextSale == db.nextSale + 1
    requires after.sales ==
      db.sales + [Sale(req.customer, db.nextSale, items, TotalOf(items), req.payment, req.note, now)]
    requires after.notes == InvoicedNote(db.notes, req, |db.sales|)
    requires after.movements == PostedDebit(db.movements, req, TotalOf(items), |db.sales|)
    requires after.cash == PostedIncome(db.cash, req, OpenTill(db.tills), TotalOf(items), |db.sales|)
    requires after.outbox == db.outbox + [EventOf(db.tenant, after.sales[|db.sales|])]
    ensures after == Recorded(db, after.products, after.variants, req, items, db.nextSale, OpenTill(db.tills), now)
  {
  }

  /** A request that can be sold can be quoted, at the same unit prices and total. */
  lemma SaleAndQuoteAgree(db: Db, req: SaleRequest, till: Option<Id>, now: int)
    requires Accepted(db, req)
    ensures var doc := DocumentRequest(req.customer, req.items);
      && DocumentAccepted(db, doc)
      && var sale := Booked(db, db.customers[req.customer], req, till, now).sales[|db.sales|];
      && var quoted := Apply(db, Call.CreateQuote(doc), now).quotes;
      && var noted := Apply(db, Call.CreateOrderNote(doc), now).notes;
      && quoted[|db.quotes|].items == noted[|db.notes|].items == sale.items
      && quoted[|db.quotes|].total == noted[|db.notes|].total == sale.total
  {
  }
}
