/** Concurrent transactions over a READ COMMITTED database with row locks. Each transaction keeps its
    writes to itself until it commits, waits for a row another transaction has locked, and may abort
    at any point. The result: what the committed transactions did is what they would have done one
    after another in the order they committed. */
module Transactions {
  import opened Prelude
  import opened Model
  import opened Sales
  import opened Effects

  type TxnId = nat

  datatype Row = ProductRow(product: Id) | VariantRow(variant: Id) | NoteRow(note: Id) | CustomerRow(customer: Id) | TenantRow

  datatype SaleStage = LockingNote | TakingLines | LockingVariant | LockingCustomer | CheckingCredit | ReadingTill | Ready

  /** What a transaction has read and what it will write. */
  datatype Txn =
    | SaleTxn(req: SaleRequest, buyer: Customer, at: int, stage: SaleStage, priced: seq<PricedLine>,
              pend: map<Cell, int>, number: int, till: Option<Id>)
    | PatchProductTxn(product: Id, patch: ProductPatch, locked: bool)
    | PatchVariantTxn(variant: Id, stock: nat, locked: bool)
    | PaymentTxn(payer: Id, amount: Positive, payment: string, locked: bool, asked: bool, till: Option<Id>)
    | CancelTxn(note: Id)
    | QuoteTxn(customer: Id, items: seq<PricedLine>, taken: Option<int>)
    | NoteTxn(customer: Id, items: seq<PricedLine>, taken: Option<int>)

  /** history lists the effects committed so far; it is not part of the system. */
  datatype World = World(db: Db, locks: map<Row, TxnId>, txns: map<TxnId, Txn>, history: seq<Effect>)

  datatype Label =
    | Begin(t: TxnId, txn: Txn)
    | LockNote(t: TxnId)
    | LockProduct(t: TxnId)
    | LockVariant(t: TxnId)
    | LockTenant(t: TxnId)
    | LockCustomer(t: TxnId)
    | CheckCredit(t: TxnId)
    | ReadTill(t: TxnId)
    | Commit(t: TxnId)
    | Abort(t: TxnId)
    | Direct(effect: Effect)

  predicate CanLock(w: World, t: TxnId, r: Row)
  {
    r !in w.locks || w.locks[r] == t
  }

  function Held(locks: map<Row, TxnId>, t: TxnId): set<Row>
  {
    set r | r in locks && locks[r] == t
  }

  /** A transaction right after its first, unlocked read. */
  predicate Fresh(db: Db, x: Txn)
  {
    match x
    case SaleTxn(req, buyer, _, stage, priced, pend, _, till) =>
      && req.customer in db.customers && buyer == db.customers[req.customer]
      && stage == (if req.note.Some? then LockingNote else TakingLines)
      && priced == [] && pend == map[] && till.None?
    case PatchProductTxn(_, _, locked) => !locked
    case PatchVariantTxn(_, _, locked) => !locked
    case PaymentTxn(_, _, _, locked, asked, till) => !locked && !asked && till.None?
    case CancelTxn(n) => n < |db.notes| && db.notes[n].status.Pending?
    case QuoteTxn(_, _, taken) => taken.None?
    case NoteTxn(_, _, taken) => taken.None?
  }

  /** Calls that read and write in one statement, or whose interleavings are not modelled. */
  predicate Immediate(w: World, e: Effect)
  {
    && Legal(w.db, e)
    && (e.SetCustomer? || e.AddPurchaseEvent? || e.OpenSession? || e.MoveCash? || e.CloseSession?)
    && (e.SetCustomer? ==> CustomerRow(e.customer) !in w.locks)
  }

  function Current(db: Db, pend: map<Cell, int>, c: Cell): int
  {
    if c in pend then pend[c] else StockOf(db, c)
  }

  /** The discount of the next line against the stock this transaction sees. */
  predicate CanTake(db: Db, x: Txn)
    requires x.SaleTxn? && |x.priced| < |x.req.items|
  {
    var l := x.req.items[|x.priced|];
    l.product in db.products && l.quantity <= Current(db, x.pend, CellOf(l))
  }

  function TakeLine(db: Db, x: Txn): Txn
    requires x.SaleTxn? && |x.priced| < |x.req.items| && CanTake(db, x)
  {
    var l := x.req.items[|x.priced|];
    x.(stage := TakingLines,
       priced := x.priced + [PricedLine(l, UnitPrice(x.buyer, db.products[l.product]))],
       pend := x.pend[CellOf(l) := Current(db, x.pend, CellOf(l)) - l.quantity])
  }

  function AfterNumber(x: Txn): SaleStage
    requires x.SaleTxn?
  {
    if x.req.payment == ACCOUNT && x.buyer.creditLimit.Some? then LockingCustomer
    else if x.req.payment == CASH then ReadingTill
    else Ready
  }

  function WithTill(x: Txn, till: Option<Id>): Txn
    requires x.SaleTxn?
  {
    SaleTxn(x.req, x.buyer, x.at, Ready, x.priced, x.pend, x.number, till)
  }

  predicate CanCommit(w: World, t: TxnId, x: Txn)
  {
    match x
    case SaleTxn(_, _, _, stage, _, _, _, _) => stage.Ready?
    case PatchProductTxn(_, _, locked) => locked
    case PatchVariantTxn(_, _, locked) => locked
    case PaymentTxn(_, _, payment, locked, asked, _) => locked && (payment == CASH ==> asked)
    case CancelTxn(n) => CanLock(w, t, NoteRow(n))
    case QuoteTxn(_, _, taken) => taken.Some?
    case NoteTxn(_, _, taken) => taken.Some?
  }

  predicate Enabled(w: World, l: Label)
  {
    match l
    case Begin(t, x) => t !in w.txns && Fresh(w.db, x)
    case Direct(e) => Immediate(w, e)
    case Abort(t) => t in w.txns
    case Commit(t) => t in w.txns && CanCommit(w, t, w.txns[t])
    case LockNote(t) =>
      && t in w.txns && w.txns[t].SaleTxn? && w.txns[t].stage.LockingNote? && w.txns[t].req.note.Some?
      && CanLock(w, t, NoteRow(w.txns[t].req.note.value))
      && NoteReady(w.db, w.txns[t].req)
    case LockProduct(t) =>
      && t in w.txns
      && var x := w.txns[t];
      && (x.PatchProductTxn? ==> x.product in w.db.products && CanLock(w, t, ProductRow(x.product)))
      && (x.SaleTxn? ==>
            && x.stage.TakingLines? && |x.priced| < |x.req.items|
            && var line := x.req.items[|x.priced|];
            && CanLock(w, t, ProductRow(line.product))
            && line.product in w.db.products && w.db.products[line.product].active
            && (line.variant.None? ==> CanTake(w.db, x)))
      && (x.SaleTxn? || x.PatchProductTxn?)
    case LockVariant(t) =>
      && t in w.txns
      && var x := w.txns[t];
      && (x.PatchVariantTxn? ==> x.variant in w.db.variants && CanLock(w, t, VariantRow(x.variant)))
      && (x.SaleTxn? ==>
            && x.stage.LockingVariant? && |x.priced| < |x.req.items|
            && var line := x.req.items[|x.priced|];
            && line.variant.Some? && line.variant.value in w.db.variants
            && CanLock(w, t, VariantRow(line.variant.value))
            && w.db.variants[line.variant.value].product == line.product
            && CanTake(w.db, x))
      && (x.SaleTxn? || x.PatchVariantTxn?)
    case LockTenant(t) =>
      && t in w.txns && CanLock(w, t, TenantRow)
      && var x := w.txns[t];
      && (x.SaleTxn? ==> x.stage.TakingLines? && |x.priced| == |x.req.items|)
      && (x.SaleTxn? || x.QuoteTxn? || x.NoteTxn?)
    case LockCustomer(t) =>
      && t in w.txns
      && var x := w.txns[t];
      && (x.PaymentTxn? ==> x.payer in w.db.customers && CanLock(w, t, CustomerRow(x.payer)))
      && (x.SaleTxn? ==> x.stage.LockingCustomer? && CanLock(w, t, CustomerRow(x.req.customer)))
      && (x.SaleTxn? || x.PaymentTxn?)
    case CheckCredit(t) =>
      && t in w.txns && w.txns[t].SaleTxn? && w.txns[t].stage.CheckingCredit?
      && var x := w.txns[t];
      && x.buyer.creditLimit.Some?
      && Balance(w.db.movements, x.req.customer) + TotalOf(x.priced) <= x.buyer.creditLimit.value
    case ReadTill(t) =>
      && t in w.txns
      && var x := w.txns[t];
      || (x.SaleTxn? && x.stage.ReadingTill?)
      || (x.PaymentTxn? && x.locked && x.payment == CASH)
  }

  function FlushProducts(db: Db, pend: map<Cell, int>): map<Id, Product>
  {
    map p | p in db.products ::
      if ProductCell(p) in pend then db.products[p].(stock := pend[ProductCell(p)]) else db.products[p]
  }

  function FlushVariants(db: Db, pend: map<Cell, int>): map<Id, Variant>
  {
    map v | v in db.variants ::
      if VariantCell(v) in pend then db.variants[v].(stock := pend[VariantCell(v)]) else db.variants[v]
  }

  /** The write buffer of a sale applied to the committed database. */
  function CommitSale(db: Db, x: Txn): Db
    requires x.SaleTxn? && (x.req.note.Some? ==> x.req.note.value < |db.notes|)
  {
    Recorded(db, FlushProducts(db, x.pend), FlushVariants(db, x.pend), x.req, x.priced, x.number, x.till, x.at)
  }

  function EffectOf(x: Txn): Effect
  {
    match x
    case SaleTxn(req, buyer, at, _, _, _, _, till) => Book(buyer, req, till, at)
    case PatchProductTxn(p, patch, _) => PatchProduct(p, patch)
    case PatchVariantTxn(v, stock, _) => PatchVariant(v, stock)
    case PaymentTxn(payer, amount, _, _, _, till) => Pay(payer, amount, till)
    case CancelTxn(n) => CancelNote(n)
    case QuoteTxn(c, items, _) => AddQuote(c, items)
    case NoteTxn(c, items, _) => AddNote(c, items)
  }

  function CommitDb(db: Db, x: Txn): Db
  {
    match x
    case SaleTxn(req, _, _, _, _, _, _, _) =>
      if req.note.Some? && |db.notes| <= req.note.value then db else CommitSale(db, x)
    case QuoteTxn(c, items, taken) =>
      if taken.None? then db
      else db.(quotes := db.quotes + [Quote(c, taken.value, items, TotalOf(items))], nextQuote := taken.value + 1)
    case NoteTxn(c, items, taken) =>
      if taken.None? then db
      else db.(notes := db.notes + [OrderNote(c, taken.value, items, TotalOf(items), Pending, None)],
               nextNote := taken.value + 1)
    case _ => if Legal(db, EffectOf(x)) then Perform(db, EffectOf(x)) else db
  }

  function Release(locks: map<Row, TxnId>, t: TxnId): map<Row, TxnId>
  {
    map r | r in locks && locks[r] != t :: locks[r]
  }

  function SetTxn(w: World, t: TxnId, x: Txn): World
  {
    w.(txns := w.txns[t := x])
  }

  function LockRow(w: World, t: TxnId, r: Row, x: Txn): World
  {
    w.(locks := w.locks[r := t], txns := w.txns[t := x])
  }

  function Do(w: World, l: Label): World
    requires Enabled(w, l)
  {
    match l
    case Begin(t, x) => SetTxn(w, t, x)
    case Direct(e) => w.(db := Perform(w.db, e), history := w.history + [e])
    case Abort(t) => w.(locks := Release(w.locks, t), txns := w.txns - {t})
    case Commit(t) =>
      World(CommitDb(w.db, w.txns[t]), Release(w.locks, t), w.txns - {t}, w.history + [EffectOf(w.txns[t])])
    case LockNote(t) =>
      var x := w.txns[t];
      LockRow(w, t, NoteRow(x.req.note.value), x.(stage := TakingLines))
    case LockProduct(t) =>
      var x := w.txns[t];
      if x.PatchProductTxn? then LockRow(w, t, ProductRow(x.product), PatchProductTxn(x.product, x.patch, true))
      else
        var line := x.req.items[|x.priced|];
        LockRow(w, t, ProductRow(line.product),
                if line.variant.None? then TakeLine(w.db, x) else x.(stage := LockingVariant))
    case LockVariant(t) =>
      var x := w.txns[t];
      if x.PatchVariantTxn? then LockRow(w, t, VariantRow(x.variant), PatchVariantTxn(x.variant, x.stock, true))
      else LockRow(w, t, VariantRow(x.req.items[|x.priced|].variant.value), TakeLine(w.db, x))
    case LockTenant(t) =>
      var x := w.txns[t];
      LockRow(w, t, TenantRow,
              if x.SaleTxn? then x.(number := w.db.nextSale, stage := AfterNumber(x))
              else if x.QuoteTxn? then QuoteTxn(x.customer, x.items, Some(w.db.nextQuote))
              else NoteTxn(x.customer, x.items, Some(w.db.nextNote)))
    case LockCustomer(t) =>
      var x := w.txns[t];
      if x.PaymentTxn? then LockRow(w, t, CustomerRow(x.payer),
                                    PaymentTxn(x.payer, x.amount, x.payment, true, x.asked, x.till))
      else LockRow(w, t, CustomerRow(x.req.customer), x.(stage := CheckingCredit))
    case CheckCredit(t) => SetTxn(w, t, w.txns[t].(stage := Ready))
    case ReadTill(t) =>
      var x := w.txns[t];
      SetTxn(w, t, if x.SaleTxn? then WithTill(x, OpenTill(w.db.tills))
                   else PaymentTxn(x.payer, x.amount, x.payment, x.locked, true, OpenTill(w.db.tills)))
  }

  // ---- What a transaction knows is still true while it holds its locks ----

  function RowOf(c: Cell): Row
  {
    match c
    case ProductCell(p) => ProductRow(p)
    case VariantCell(v) => VariantRow(v)
  }

  /** The part of the database a row lock protects is the same in both. */
  predicate SameRow(a: Db, b: Db, r: Row)
  {
    match r
    case ProductRow(p) =>
      (p in a.products <==> p in b.products) && (p in a.products ==> a.products[p] == b.products[p])
    case VariantRow(v) =>
      (v in a.variants <==> v in b.variants) && (v in a.variants ==> a.variants[v] == b.variants[v])
    case NoteRow(n) => n < |a.notes| ==> n < |b.notes| && a.notes[n] == b.notes[n]
    case TenantRow => a.nextSale == b.nextSale && a.nextQuote == b.nextQuote && a.nextNote == b.nextNote
    case CustomerRow(_) => true
  }

  ghost predicate LineKnown(db: Db, held: set<Row>, buyer: Customer, l: Line, p: PricedLine)
  {
    && Sellable(db, l)
    && ProductRow(l.product) in held
    && (l.variant.Some? ==> VariantRow(l.variant.value) in held)
    && p == PricedLine(l, UnitPrice(buyer, db.products[l.product]))
  }

  ghost predicate BufferKnown(db: Db, held: set<Row>, taken: seq<Line>, pend: map<Cell, int>)
  {
    && (forall c :: c !in pend ==> Demand(taken, c) == 0)
    && (forall c :: c in pend ==>
          RowOf(c) in held && 0 <= pend[c] && pend[c] == StockOf(db, c) - Demand(taken, c))
  }

  ghost predicate SaleKnown(db: Db, held: set<Row>, x: Txn)
    requires x.SaleTxn?
  {
    var items, k := x.req.items, |x.priced|;
    && k <= |items|
    && (forall j :: 0 <= j < k ==> LineKnown(db, held, x.buyer, items[j], x.priced[j]))
    && BufferKnown(db, held, items[..k], x.pend)
    && (x.stage.LockingVariant? ==>
          && k < |items| && items[k].variant.Some?
          && items[k].product in db.products && db.products[items[k].product].active
          && ProductRow(items[k].product) in held)
    && (x.req.note.Some? && !x.stage.LockingNote? ==> NoteReady(db, x.req) && NoteRow(x.req.note.value) in held)
    && (!x.stage.LockingNote? && !x.stage.TakingLines? && !x.stage.LockingVariant? ==>
          k == |items| && TenantRow in held && x.number == db.nextSale)
    && (x.till.Some? ==> x.till.value < |db.tills|)
  }

  ghost predicate Known(db: Db, held: set<Row>, x: Txn)
  {
    match x
    case SaleTxn(_, _, _, _, _, _, _, _) => SaleKnown(db, held, x)
    case PatchProductTxn(p, _, locked) => locked ==> p in db.products && ProductRow(p) in held
    case PatchVariantTxn(v, _, locked) => locked ==> v in db.variants && VariantRow(v) in held
    case PaymentTxn(payer, _, _, locked, _, till) =>
      (till.Some? ==> till.value < |db.tills|) && (locked ==> CustomerRow(payer) in held)
    case CancelTxn(n) => n < |db.notes|
    case QuoteTxn(_, _, taken) => taken.Some? ==> TenantRow in held && taken.value == db.nextQuote
    case NoteTxn(_, _, taken) => taken.Some? ==> TenantRow in held && taken.value == db.nextNote
  }

  ghost predicate Inv(start: Db, w: World)
  {
    && LegalHistory(start, w.history) && Replay(start, w.history) == w.db
    && (forall t :: t in w.txns ==> Known(w.db, Held(w.locks, t), w.txns[t]))
    && (forall r :: r in w.locks ==> w.locks[r] in w.txns)
  }

  lemma KnowledgeKept(a: Db, b: Db, held: set<Row>, x: Txn)
    requires Known(a, held, x)
    requires forall r :: r in held ==> SameRow(a, b, r)
    requires |a.tills| <= |b.tills| && |a.notes| <= |b.notes|
    ensures Known(b, held, x)
  {
    assert x.QuoteTxn? && x.taken.Some? ==> SameRow(a, b, TenantRow);
    if x.SaleTxn? {
      var items, k := x.req.items, |x.priced|;
      forall j | 0 <= j < k
        ensures LineKnown(b, held, x.buyer, items[j], x.priced[j])
      {
        assert LineKnown(a, held, x.buyer, items[j], x.priced[j]);
        assert SameRow(a, b, ProductRow(items[j].product));
        if items[j].variant.Some? {
          assert SameRow(a, b, VariantRow(items[j].variant.value));
        }
      }
      BufferKept(a, b, held, items[..k], x.pend);
    }
  }

  lemma BufferKept(a: Db, b: Db, held: set<Row>, taken: seq<Line>, pend: map<Cell, int>)
    requires BufferKnown(a, held, taken, pend)
    requires forall r :: r in held ==> SameRow(a, b, r)
    ensures BufferKnown(b, held, taken, pend)
  {
    forall c | c in pend ensures StockOf(b, c) == StockOf(a, c) {
      assert SameRow(a, b, RowOf(c));
    }
  }
}
