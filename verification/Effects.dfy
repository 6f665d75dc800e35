/** What a committed transaction does to the database. The concurrent machine and the atomic service
    calls both change the database only through `Perform`, so what every effect keeps holds in both. */
module Effects {
  import opened Prelude
  import opened Model
  import opened Sales

  /** The columns a PATCH on a product sets; None leaves a column alone. */
  datatype ProductPatch = ProductPatch(active: Option<bool>, price: Option<Positive>,
                                       wholesale: Option<Option<Positive>>, stock: Option<nat>)

  datatype Effect =
    | Book(buyer: Customer, req: SaleRequest, till: Option<Id>, at: int)
    | Pay(payer: Id, amount: Positive, till: Option<Id>)
    | PatchProduct(product: Id, patch: ProductPatch)
    | PatchVariant(variant: Id, stock: nat)
    | SetCustomer(customer: Id, row: Customer)
    | CancelNote(note: Id)
    | AddQuote(customer: Id, items: seq<PricedLine>)
    | AddNote(customer: Id, items: seq<PricedLine>)
    | AddPurchaseEvent(event: OutboxRow)
    | OpenSession(opening: nat, at: int)
    | MoveCash(session: Id, kind: CashKind, amount: Positive)
    | CloseSession(session: Id, declared: nat, at: int)

  predicate Legal(db: Db, e: Effect)
  {
    match e
    case Book(_, req, till, _) => Bookable(db, req) && (till.Some? ==> till.value < |db.tills|)
    case Pay(_, _, till) => till.Some? ==> till.value < |db.tills|
    case PatchProduct(p, _) => p in db.products
    case PatchVariant(v, _) => v in db.variants
    case CancelNote(n) => n < |db.notes|
    case AddPurchaseEvent(event) => event.eventType != SALE_EVENT
    case OpenSession(_, _) => OpenTill(db.tills).None?
    case MoveCash(s, _, _) => s < |db.tills| && db.tills[s].closedAt.None?
    case CloseSession(s, _, _) => s < |db.tills| && db.tills[s].closedAt.None?
    case _ => true
  }

  function Patched(p: Product, patch: ProductPatch): Product
  {
    Product(if patch.active.Some? then patch.active.value else p.active,
            if patch.price.Some? then patch.price.value else p.price,
            if patch.wholesale.Some? then patch.wholesale.value else p.wholesale,
            if patch.stock.Some? then patch.stock.value else p.stock)
  }

  /** Income less expense over the movements of one cash session. */
  function CashTotal(cash: seq<CashMovement>, session: Id): Cents
  {
    if cash == [] then 0
    else
      var m := cash[|cash| - 1];
      CashTotal(cash[..|cash| - 1], session)
      + if m.till != session then 0 else if m.kind.Income? then m.amount else -m.amount
  }

  function Perform(db: Db, e: Effect): Db
    requires Legal(db, e)
  {
    match e
    case Book(buyer, req, till, at) => Booked(db, buyer, req, till, at)
    case Pay(payer, amount, till) =>
      db.(movements := db.movements + [AccountMovement(payer, Credit, amount, None)],
          cash := if till.None? then db.cash else db.cash + [CashMovement(till.value, Income, amount, None)])
    case PatchProduct(p, patch) => db.(products := db.products[p := Patched(db.products[p], patch)])
    case PatchVariant(v, stock) => db.(variants := db.variants[v := db.variants[v].(stock := stock)])
    case SetCustomer(c, row) => db.(customers := db.customers[c := row])
    case CancelNote(n) => db.(notes := db.notes[n := db.notes[n].(status := Cancelled)])
    case AddQuote(c, items) =>
      db.(quotes := db.quotes + [Quote(c, db.nextQuote, items, TotalOf(items))], nextQuote := db.nextQuote + 1)
    case AddNote(c, items) =>
      db.(notes := db.notes + [OrderNote(c, db.nextNote, items, TotalOf(items), Pending, None)],
          nextNote := db.nextNote + 1)
    case AddPurchaseEvent(event) => db.(outbox := db.outbox + [event])
    case OpenSession(opening, at) => db.(tills := db.tills + [CashSession(opening, at, None, None, None)])
    case MoveCash(s, kind, amount) => db.(cash := db.cash + [CashMovement(s, kind, amount, None)])
    case CloseSession(s, declared, at) =>
      db.(tills := db.tills[s := db.tills[s].(closedAt := Some(at), declared := Some(declared),
                                              expected := Some(db.tills[s].opening + CashTotal(db.cash, s)))])
  }

  // ---- Histories: effects performed one after another ----

  ghost predicate LegalHistory(db: Db, es: seq<Effect>)
    decreases |es|, 0
  {
    es == []
    || (LegalHistory(db, es[..|es| - 1]) && Legal(Replay(db, es[..|es| - 1]), es[|es| - 1]))
  }

  ghost function Replay(db: Db, es: seq<Effect>): Db
    requires LegalHistory(db, es)
    decreases |es|, 1
  {
    if es == [] then db else Perform(Replay(db, es[..|es| - 1]), es[|es| - 1])
  }

  lemma ReplayAppend(db: Db, es: seq<Effect>, e: Effect)
    requires LegalHistory(db, es) && Legal(Replay(db, es), e)
    ensures LegalHistory(db, es + [e]) && Replay(db, es + [e]) == Perform(Replay(db, es), e)
  {
    assert (es + [e])[..|es|] == es;
  }

  // ---- Stock ----

  function LinesOf(items: seq<PricedLine>): (r: seq<Line>)
    ensures |r| == |items|
  {
    seq(|items|, i requires 0 <= i < |items| => items[i].line)
  }

  /** Units of a cell over all committed sale lines. */
  function Sold(sales: seq<Sale>, c: Cell): int
  {
    if sales == [] then 0
    else Sold(sales[..|sales| - 1], c) + Demand(LinesOf(sales[|sales| - 1].items), c)
  }

  /** By how much a manual adjustment changes a cell. */
  function Adjustment(db: Db, e: Effect, c: Cell): int
    requires Legal(db, e)
  {
    match e
    case PatchProduct(p, patch) =>
      if c == ProductCell(p) && patch.stock.Some? then patch.stock.value - db.products[p].stock else 0
    case PatchVariant(v, stock) => if c == VariantCell(v) then stock - db.variants[v].stock else 0
    case _ => 0
  }

  ghost function NetAdjustment(db: Db, es: seq<Effect>, c: Cell): int
    requires LegalHistory(db, es)
  {
    if es == [] then 0
    else
      NetAdjustment(db, es[..|es| - 1], c) + Adjustment(Replay(db, es[..|es| - 1]), es[|es| - 1], c)
  }

  predicate StockSound(db: Db)
  {
    && (forall p :: p in db.products ==> 0 <= db.products[p].stock)
    && (forall v :: v in db.variants ==> 0 <= db.variants[v].stock)
  }

  /** A sale takes from each cell exactly what its lines ask for, and never more than is there. */
  lemma BookingMovesStock(db: Db, e: Effect, c: Cell)
    requires e.Book? && Legal(db, e)
    ensures StockOf(Perform(db, e), c) == StockOf(db, c) - Demand(e.req.items, c)
    ensures Sold(Perform(db, e).sales, c) == Sold(db.sales, c) + Demand(e.req.items, c)
    ensures 0 <= StockOf(db, c) ==> 0 <= StockOf(Perform(db, e), c)
  {
    var items := e.req.items;
    assert LinesOf(Priced(db, e.buyer, items)) == items;
    assert Perform(db, e).sales[..|db.sales|] == db.sales;
    if k :| 0 <= k < |items| && CellOf(items[k]) == c {
      assert items[k] in items;
    } else {
      DemandZero(items, c);
    }
  }

  lemma EffectMovesStock(db: Db, e: Effect, c: Cell)
    requires Legal(db, e)
    ensures StockOf(Perform(db, e), c) + Sold(Perform(db, e).sales, c)
         == StockOf(db, c) + Sold(db.sales, c) + Adjustment(db, e, c)
    ensures 0 <= StockOf(db, c) ==> 0 <= StockOf(Perform(db, e), c)
  {
    if e.Book? {
      BookingMovesStock(db, e, c);
    }
  }

  /** Stock conservation over a whole history: what a cell holds plus what was sold from it is what it
      held at the start plus the net manual adjustments, and it never goes below zero. */
  lemma {:induction false} StockConserved(db: Db, es: seq<Effect>, c: Cell)
    requires LegalHistory(db, es)
    ensures StockOf(Replay(db, es), c) + Sold(Replay(db, es).sales, c)
         == StockOf(db, c) + Sold(db.sales, c) + NetAdjustment(db, es, c)
    ensures 0 <= StockOf(db, c) ==> 0 <= StockOf(Replay(db, es), c)
  {
    if es != [] {
      StockConserved(db, es[..|es| - 1], c);
      EffectMovesStock(Replay(db, es[..|es| - 1]), es[|es| - 1], c);
    }
  }

  // ---- Numbering ----

  /** The numbers given out are exactly 1, ..., next - 1, each once. */
  ghost predicate Gapless(numbers: seq<int>, next: int)
  {
    1 <= next && NoDuplicates(numbers) && forall n :: n in numbers <==> 1 <= n < next
  }

  lemma GaplessAppend(numbers: seq<int>, next: int)
    requires Gapless(numbers, next)
    ensures Gapless(numbers + [next], next + 1)
  {
    NoDuplicatesAppend(numbers, next);
    forall n ensures n in numbers + [next] <==> 1 <= n < next + 1 {
      assert n in numbers + [next] <==> n in numbers || n == next;
    }
  }

  function SaleNumbers(db: Db): seq<int> { seq(|db.sales|, i requires 0 <= i < |db.sales| => db.sales[i].number) }
  function QuoteNumbers(db: Db): seq<int> { seq(|db.quotes|, i requires 0 <= i < |db.quotes| => db.quotes[i].number) }
  function NoteNumbers(db: Db): seq<int> { seq(|db.notes|, i requires 0 <= i < |db.notes| => db.notes[i].number) }

  ghost predicate Numbered(db: Db)
  {
    && Gapless(SaleNumbers(db), db.nextSale)
    && Gapless(QuoteNumbers(db), db.nextQuote)
    && Gapless(NoteNumbers(db), db.nextNote)
  }

  lemma EffectKeepsNumbered(db: Db, e: Effect)
    requires Legal(db, e) && Numbered(db)
    ensures Numbered(Perform(db, e))
  {
    var after := Perform(db, e);
    if e.Book? {
      GaplessAppend(SaleNumbers(db), db.nextSale);
      assert SaleNumbers(after) == SaleNumbers(db) + [db.nextSale];
    } else {
      assert SaleNumbers(after) == SaleNumbers(db);
    }
    if e.AddQuote? {
      GaplessAppend(QuoteNumbers(db), db.nextQuote);
      assert QuoteNumbers(after) == QuoteNumbers(db) + [db.nextQuote];
    } else {
      assert QuoteNumbers(after) == QuoteNumbers(db);
    }
    if e.AddNote? {
      GaplessAppend(NoteNumbers(db), db.nextNote);
      assert NoteNumbers(after) == NoteNumbers(db) + [db.nextNote];
    } else {
      assert NoteNumbers(after) == NoteNumbers(db);
    }
  }

  // ---- Order notes ----

  /** Sales made from notes and the links on the notes are the same pairs; a pending note has no link. */
  ghost predicate Linked(notes: seq<OrderNote>, sales: seq<Sale>)
  {
    && (forall n :: 0 <= n < |notes| ==>
          && (notes[n].status.Pending? ==> notes[n].saleId.None?)
          && (notes[n].status.Invoiced? ==> notes[n].saleId.Some?)
          && (notes[n].saleId.Some? ==>
                notes[n].saleId.value < |sales| && sales[notes[n].saleId.value].fromNote == Some(n)))
    && (forall s :: 0 <= s < |sales| && sales[s].fromNote.Some? ==>
          var n := sales[s].fromNote.value;
          n < |notes| && notes[n].saleId == Some(s) && notes[n].customer == sales[s].customer)
  }

  ghost predicate NotesLinked(db: Db)
  {
    Linked(db.notes, db.sales)
  }

  /** Both directions between the status and the link; a cancel that lands late breaks it. */
  predicate InvoicedIffLinked(db: Db)
  {
    forall n :: 0 <= n < |db.notes| ==> (db.notes[n].status.Invoiced? <==> db.notes[n].saleId.Some?)
  }

  /** What no effect does to a note: drop or change its link, or make it pending again. */
  predicate NotesOnlyAdvance(before: seq<OrderNote>, after: seq<OrderNote>)
  {
    && |before| <= |after|
    && forall n :: 0 <= n < |before| ==>
         && after[n].customer == before[n].customer
         && (before[n].saleId.Some? ==> after[n].saleId == before[n].saleId)
         && (!before[n].status.Pending? ==> !after[n].status.Pending?)
  }

  lemma InvoicingKeepsLinked(notes: seq<OrderNote>, sales: seq<Sale>, n: Id, sale: Sale)
    requires Linked(notes, sales)
    requires n < |notes| && notes[n].status.Pending? && sale.fromNote == Some(n) && sale.customer == notes[n].customer
    ensures Linked(notes[n := notes[n].(status := Invoiced, saleId := Some(|sales|))], sales + [sale])
  {
  }

  lemma PlainSaleKeepsLinked(notes: seq<OrderNote>, sales: seq<Sale>, sale: Sale)
    requires Linked(notes, sales) && sale.fromNote.None?
    ensures Linked(notes, sales + [sale])
  {
  }

  lemma BookingKeepsNotesLinked(db: Db, e: Effect)
    requires e.Book? && Legal(db, e) && NotesLinked(db)
    ensures NotesLinked(Perform(db, e))
  {
    var sale := Perform(db, e).sales[|db.sales|];
    if e.req.note.Some? {
      InvoicingKeepsLinked(db.notes, db.sales, e.req.note.value, sale);
    } else {
      PlainSaleKeepsLinked(db.notes, db.sales, sale);
    }
  }

  lemma EffectKeepsNotesLinked(db: Db, e: Effect)
    requires Legal(db, e) && NotesLinked(db)
    ensures NotesLinked(Perform(db, e))
    ensures NotesOnlyAdvance(db.notes, Perform(db, e).notes)
  {
    if e.Book? {
      BookingKeepsNotesLinked(db, e);
    } else {
      assert Perform(db, e).sales == db.sales;
    }
  }

  /** Read off the links: two committed sales never come from the same note. */
  lemma NoteSoldOnce(db: Db, i: nat, j: nat)
    requires NotesLinked(db)
    requires i < |db.sales| && j < |db.sales|
    requires db.sales[i].fromNote.Some? && db.sales[i].fromNote == db.sales[j].fromNote
    ensures i == j
  {
    assert db.notes[db.sales[i].fromNote.value].saleId == Some(i);
  }

  // ---- Ledger ----

  function Debits(movements: seq<AccountMovement>): seq<AccountMovement>
  {
    if movements == [] then []
    else
      var m := movements[|movements| - 1];
      Debits(movements[..|movements| - 1]) + if m.kind.Debit? then [m] else []
  }

  /** The debit each sale on account calls for, in the order of the sales. */
  function AccountDebits(sales: seq<Sale>): seq<AccountMovement>
  {
    if sales == [] then []
    else
      var id := |sales| - 1;
      AccountDebits(sales[..id])
      + if sales[id].payment == ACCOUNT
        then [AccountMovement(sales[id].customer, Debit, sales[id].total, Some(id))] else []
  }

  ghost predicate LedgerMatchesSales(db: Db)
  {
    Debits(db.movements) == AccountDebits(db.sales)
  }

  lemma DebitsAppend(movements: seq<AccountMovement>, m: AccountMovement)
    ensures Debits(movements + [m]) == Debits(movements) + if m.kind.Debit? then [m] else []
  {
    assert (movements + [m])[..|movements|] == movements;
  }

  lemma AccountDebitsAppend(sales: seq<Sale>, s: Sale)
    ensures AccountDebits(sales + [s]) == AccountDebits(sales)
      + if s.payment == ACCOUNT then [AccountMovement(s.customer, Debit, s.total, Some(|sales|))] else []
  {
    assert (sales + [s])[..|sales|] == sales;
  }

  lemma BookingKeepsLedger(movements: seq<AccountMovement>, sales: seq<Sale>, req: SaleRequest, s: Sale)
    requires Debits(movements) == AccountDebits(sales) && s.customer == req.customer && s.payment == req.payment
    ensures Debits(PostedDebit(movements, req, s.total, |sales|)) == AccountDebits(sales + [s])
  {
    AccountDebitsAppend(sales, s);
    if req.payment == ACCOUNT {
      DebitsAppend(movements, AccountMovement(req.customer, Debit, s.total, Some(|sales|)));
    }
  }

  lemma EffectKeepsLedger(db: Db, e: Effect)
    requires Legal(db, e) && LedgerMatchesSales(db)
    ensures LedgerMatchesSales(Perform(db, e))
  {
    var after := Perform(db, e);
    if e.Book? {
      BookingKeepsLedger(db.movements, db.sales, e.req, after.sales[|db.sales|]);
    } else if e.Pay? {
      DebitsAppend(db.movements, AccountMovement(e.payer, Credit, e.amount, None));
      assert after.sales == db.sales;
    } else {
      assert after.movements == db.movements && after.sales == db.sales;
    }
  }

  // ---- Events ----

  function SaleRows(outbox: seq<OutboxRow>): seq<OutboxRow>
  {
    if outbox == [] then []
    else
      var row := outbox[|outbox| - 1];
      SaleRows(outbox[..|outbox| - 1]) + if row.eventType == SALE_EVENT then [row] else []
  }

  /** No sale without its event and no sale event without its sale. */
  ghost predicate EventsMatchSales(db: Db)
  {
    SaleRows(db.outbox) == EventsOf(db.tenant, db.sales)
  }

  function EventsOf(tenant: Id, sales: seq<Sale>): seq<OutboxRow>
  {
    seq(|sales|, i requires 0 <= i < |sales| => EventOf(tenant, sales[i]))
  }

  lemma SaleRowsAppend(outbox: seq<OutboxRow>, row: OutboxRow)
    ensures SaleRows(outbox + [row]) == SaleRows(outbox) + if row.eventType == SALE_EVENT then [row] else []
  {
    assert (outbox + [row])[..|outbox|] == outbox;
  }

  lemma EffectKeepsEvents(db: Db, e: Effect)
    requires Legal(db, e) && EventsMatchSales(db)
    ensures EventsMatchSales(Perform(db, e))
  {
    var after := Perform(db, e);
    if e.Book? {
      var s := after.sales[|db.sales|];
      SaleRowsAppend(db.outbox, EventOf(db.tenant, s));
      assert EventsOf(db.tenant, db.sales + [s]) == EventsOf(db.tenant, db.sales) + [EventOf(db.tenant, s)];
    } else if e.AddPurchaseEvent? {
      SaleRowsAppend(db.outbox, e.event);
      assert after.sales == db.sales;
    } else {
      assert after.outbox == db.outbox && after.sales == db.sales;
    }
  }

  // ---- All of it, over histories ----

  ghost predicate Consistent(db: Db)
  {
    StockSound(db) && Numbered(db) && NotesLinked(db) && LedgerMatchesSales(db) && EventsMatchSales(db)
  }

  lemma EffectKeepsConsistent(db: Db, e: Effect)
    requires Legal(db, e) && Consistent(db)
    ensures Consistent(Perform(db, e))
  {
    EffectKeepsNumbered(db, e);
    EffectKeepsNotesLinked(db, e);
    EffectKeepsLedger(db, e);
    EffectKeepsEvents(db, e);
    var after := Perform(db, e);
    forall p | p in after.products ensures 0 <= after.products[p].stock {
      EffectMovesStock(db, e, ProductCell(p));
      assert StockOf(after, ProductCell(p)) == after.products[p].stock;
      assert StockOf(db, ProductCell(p)) == db.products[p].stock;
    }
    forall v | v in after.variants ensures 0 <= after.variants[v].stock {
      EffectMovesStock(db, e, VariantCell(v));
      assert StockOf(after, VariantCell(v)) == after.variants[v].stock;
      assert StockOf(db, VariantCell(v)) == db.variants[v].stock;
    }
  }

  lemma {:induction false} HistoryKeepsConsistent(db: Db, es: seq<Effect>)
    requires LegalHistory(db, es) && Consistent(db)
    ensures Consistent(Replay(db, es))
  {
    if es != [] {
      HistoryKeepsConsistent(db, es[..|es| - 1]);
      EffectKeepsConsistent(Replay(db, es[..|es| - 1]), es[|es| - 1]);
    }
  }

  /** Between any two points of a history no note loses or changes its link or becomes pending again. */
  lemma {:induction false} HistoryAdvancesNotes(db: Db, es: seq<Effect>, k: nat)
    requires LegalHistory(db, es) && NotesLinked(db) && k <= |es|
    ensures LegalHistory(db, es[..k])
    ensures NotesLinked(Replay(db, es)) && NotesOnlyAdvance(Replay(db, es[..k]).notes, Replay(db, es).notes)
  {
    if k == |es| {
      assert es[..k] == es;
    }
    if es != [] {
      var front := es[..|es| - 1];
      HistoryAdvancesNotes(db, front, if k == |es| then k - 1 else k);
      EffectKeepsNotesLinked(Replay(db, front), es[|es| - 1]);
      if k < |es| {
        assert front[..k] == es[..k];
      }
    }
  }
}
