/** The sale protocol is not too strict: whatever the checks accept, the steps can carry through. */
module Progress {
  import opened Prelude
  import opened Model
  import opened Sales
  import opened Effects
  import opened Transactions
  import opened Serializability
  import opened Treasury

  /** The sale is the only open transaction; nothing has been committed since db, and only it holds locks. */
  ghost predicate Going(db: Db, w: World, t: TxnId, req: SaleRequest, at: int)
  {
    && Inv(db, w) && w.db == db && w.history == [] && w.txns.Keys == {t}
    && (forall r :: r in w.locks ==> w.locks[r] == t)
    && Accepted(db, req)
    && w.txns[t].SaleTxn? && w.txns[t].req == req && w.txns[t].at == at
    && w.txns[t].buyer == db.customers[req.customer]
  }

  /** Some run from here ends with nothing open and the database at the given state. */
  ghost predicate Finishes(w: World, end: Db)
  {
    exists ls :: Run(w, ls) && EndsAt(Last(w, ls), end)
  }

  predicate EndsAt(w: World, end: Db)
  {
    w.db == end && w.txns == map[] && w.locks == map[]
  }

  lemma StepFinishes(w: World, l: Label, end: Db)
    requires Enabled(w, l) && Finishes(Do(w, l), end)
    ensures Finishes(w, end)
  {
    var ls :| Run(Do(w, l), ls) && EndsAt(Last(Do(w, l), ls), end);
    RunStep(w, l, ls);
  }

  predicate OwnStep(l: Label, t: TxnId)
  {
    !l.Begin? && !l.Commit? && !l.Abort? && !l.Direct? && l.t == t
  }

  /** A step of the sale itself leaves the database alone and only takes locks. */
  lemma OwnStepQuiet(w: World, l: Label, t: TxnId)
    requires Enabled(w, l) && OwnStep(l, t) && t in w.txns && w.txns[t].SaleTxn?
    requires forall r :: r in w.locks ==> w.locks[r] == t
    ensures var v := Do(w, l);
      && v.db == w.db && v.history == w.history && v.txns.Keys == w.txns.Keys
      && (forall r :: r in v.locks ==> v.locks[r] == t)
      && v.txns[t].SaleTxn? && v.txns[t].req == w.txns[t].req && v.txns[t].at == w.txns[t].at
      && v.txns[t].buyer == w.txns[t].buyer
  {
    match l
    case LockNote(_) =>
    case LockProduct(_) =>
    case LockVariant(_) =>
    case LockTenant(_) =>
    case LockCustomer(_) =>
    case CheckCredit(_) =>
    case ReadTill(_) =>
  }

  lemma StaysGoing(db: Db, w: World, l: Label, t: TxnId, req: SaleRequest, at: int)
    requires Going(db, w, t, req, at) && Enabled(w, l) && OwnStep(l, t)
    ensures Going(db, Do(w, l), t, req, at)
  {
    StepKeepsInv(db, w, l);
    OwnStepQuiet(w, l, t);
  }

  // ---- From the last stage back to the first ----

  /** The session a sale read matters only if it is paid in cash. */
  lemma SessionMattersForCash(db: Db, buyer: Customer, req: SaleRequest, a: Option<Id>, b: Option<Id>, at: int)
    requires Bookable(db, req) && (req.payment == CASH ==> a == b)
    ensures Booked(db, buyer, req, a, at) == Booked(db, buyer, req, b, at)
  {
  }

  lemma ReadyFinishes(db: Db, w: World, t: TxnId, req: SaleRequest, at: int)
    requires Going(db, w, t, req, at) && w.txns[t].stage.Ready?
    requires req.payment == CASH ==> w.txns[t].till == OpenTill(db.tills)
    ensures Finishes(w, Apply(db, Call.CreateSale(req), at))
  {
    var x := w.txns[t];
    CommitIsEffect(w.db, Held(w.locks, t), x);
    SessionMattersForCash(db, x.buyer, req, x.till, OpenTill(db.tills), at);
    var v := Do(w, Commit(t));
    assert v.txns == map[] && v.locks == map[];
    assert v.db == Apply(db, Call.CreateSale(req), at);
    assert Run(v, []) && EndsAt(Last(v, []), v.db);
    StepFinishes(w, Commit(t), v.db);
  }

  /** A sale that has its number and only waits for a check is as good as ready. */
  lemma PricedWhenNumbered(db: Db, held: set<Row>, x: Txn)
    requires x.SaleTxn? && SaleKnown(db, held, x)
    requires x.stage.CheckingCredit? || x.stage.LockingCustomer? || x.stage.ReadingTill?
    ensures LinesFit(db, x.req.items) && Priced(db, x.buyer, x.req.items) == x.priced
  {
    var ready := x.(stage := Ready);
    assert SaleKnown(db, held, ready);
    ReadySaleFits(db, held, ready);
  }

  lemma CreditFinishes(db: Db, w: World, t: TxnId, req: SaleRequest, at: int)
    requires Going(db, w, t, req, at) && w.txns[t].stage.LockingCustomer?
    requires req.payment == ACCOUNT && w.txns[t].buyer.creditLimit.Some?
    ensures Finishes(w, Apply(db, Call.CreateSale(req), at))
  {
    StaysGoing(db, w, LockCustomer(t), t, req, at);
    var v := Do(w, LockCustomer(t));
    PricedWhenNumbered(db, Held(v.locks, t), v.txns[t]);
    StaysGoing(db, v, CheckCredit(t), t, req, at);
    ReadyFinishes(db, Do(v, CheckCredit(t)), t, req, at);
    StepFinishes(v, CheckCredit(t), Apply(db, Call.CreateSale(req), at));
    StepFinishes(w, LockCustomer(t), Apply(db, Call.CreateSale(req), at));
  }

  lemma CashFinishes(db: Db, w: World, t: TxnId, req: SaleRequest, at: int)
    requires Going(db, w, t, req, at) && w.txns[t].stage.ReadingTill?
    ensures Finishes(w, Apply(db, Call.CreateSale(req), at))
  {
    StaysGoing(db, w, ReadTill(t), t, req, at);
    ReadyFinishes(db, Do(w, ReadTill(t)), t, req, at);
    StepFinishes(w, ReadTill(t), Apply(db, Call.CreateSale(req), at));
  }

  lemma NumberFinishes(db: Db, w: World, t: TxnId, req: SaleRequest, at: int)
    requires Going(db, w, t, req, at) && w.txns[t].stage.TakingLines? && |w.txns[t].priced| == |req.items|
    ensures Finishes(w, Apply(db, Call.CreateSale(req), at))
  {
    StaysGoing(db, w, LockTenant(t), t, req, at);
    var v := Do(w, LockTenant(t));
    assert v.txns[t].stage == AfterNumber(w.txns[t]);
    if v.txns[t].stage.LockingCustomer? {
      CreditFinishes(db, v, t, req, at);
    } else if v.txns[t].stage.ReadingTill? {
      CashFinishes(db, v, t, req, at);
    } else {
      ReadyFinishes(db, v, t, req, at);
    }
    StepFinishes(w, LockTenant(t), Apply(db, Call.CreateSale(req), at));
  }

  /** What is left of the cell after the lines taken is enough for the next one. */
  lemma NextLineFits(db: Db, held: set<Row>, x: Txn)
    requires x.SaleTxn? && SaleKnown(db, held, x) && LinesFit(db, x.req.items) && |x.priced| < |x.req.items|
    ensures Sellable(db, x.req.items[|x.priced|]) && CanTake(db, x)
  {
    var items, k := x.req.items, |x.priced|;
    var l := items[k];
    assert l in items;
    assert items[..k + 1] == items[..k] + [l];
    DemandAppend(items[..k], l, CellOf(l));
    DemandGrows(items, k + 1, CellOf(l));
  }

  lemma LineEnabled(db: Db, w: World, t: TxnId, req: SaleRequest, at: int)
    requires Going(db, w, t, req, at) && |w.txns[t].priced| < |req.items|
    ensures w.txns[t].stage.TakingLines? ==> Enabled(w, LockProduct(t))
    ensures w.txns[t].stage.LockingVariant? ==> Enabled(w, LockVariant(t))
  {
    NextLineFits(db, Held(w.locks, t), w.txns[t]);
  }

  lemma {:induction false} LinesFinish(db: Db, w: World, t: TxnId, req: SaleRequest, at: int)
    requires Going(db, w, t, req, at) && w.txns[t].stage.TakingLines?
    ensures Finishes(w, Apply(db, Call.CreateSale(req), at))
    decreases |req.items| - |w.txns[t].priced|
  {
    var x := w.txns[t];
    assert |x.priced| <= |req.items|;
    if |x.priced| == |req.items| {
      NumberFinishes(db, w, t, req, at);
    } else {
      LineEnabled(db, w, t, req, at);
      StaysGoing(db, w, LockProduct(t), t, req, at);
      var v := Do(w, LockProduct(t));
      if req.items[|x.priced|].variant.None? {
        LinesFinish(db, v, t, req, at);
      } else {
        LineEnabled(db, v, t, req, at);
        StaysGoing(db, v, LockVariant(t), t, req, at);
        LinesFinish(db, Do(v, LockVariant(t)), t, req, at);
        StepFinishes(v, LockVariant(t), Apply(db, Call.CreateSale(req), at));
      }
      StepFinishes(w, LockProduct(t), Apply(db, Call.CreateSale(req), at));
    }
  }

  lemma StartedFinishes(db: Db, w: World, t: TxnId, req: SaleRequest, at: int)
    requires Going(db, w, t, req, at)
    requires w.txns[t].stage == if req.note.Some? then LockingNote else TakingLines
    ensures Finishes(w, Apply(db, Call.CreateSale(req), at))
  {
    if req.note.Some? {
      StaysGoing(db, w, LockNote(t), t, req, at);
      LinesFinish(db, Do(w, LockNote(t)), t, req, at);
      StepFinishes(w, LockNote(t), Apply(db, Call.CreateSale(req), at));
    } else {
      LinesFinish(db, w, t, req, at);
    }
  }

  /** Every accepted request, with variants, repeated products, a note, account credit or cash, has a run from
      a quiet world that commits it and ends exactly where the atomic call does. */
  lemma AcceptedSaleCommits(w: World, t: TxnId, req: SaleRequest, at: int) returns (ls: seq<Label>)
    requires Quiet(w) && Accepted(w.db, req)
    ensures Run(w, ls) && Last(w, ls).db == Apply(w.db, Call.CreateSale(req), at)
    ensures Last(w, ls).txns == map[] && Last(w, ls).locks == map[]
  {
    var stage := if req.note.Some? then LockingNote else TakingLines;
    var x := SaleTxn(req, w.db.customers[req.customer], at, stage, [], map[], 0, None);
    assert Inv(w.db, w);
    StepKeepsInv(w.db, w, Begin(t, x));
    var v := Do(w, Begin(t, x));
    StartedFinishes(w.db, v, t, req, at);
    StepFinishes(w, Begin(t, x), Apply(w.db, Call.CreateSale(req), at));
    ls :| Run(w, ls) && EndsAt(Last(w, ls), Apply(w.db, Call.CreateSale(req), at));
  }

  // ---- The other calls ----

  lemma ThreeFinish(w: World, a: Label, b: Label, c: Label, end: Db)
    requires Enabled(w, a) && Enabled(Do(w, a), b) && Enabled(Do(Do(w, a), b), c)
    requires EndsAt(Do(Do(Do(w, a), b), c), end)
    ensures Finishes(w, end)
  {
    var w1 := Do(w, a);
    var w2 := Do(w1, b);
    var w3 := Do(w2, c);
    assert Run(w3, []) && EndsAt(Last(w3, []), end);
    StepFinishes(w2, c, end);
    StepFinishes(w1, b, end);
    StepFinishes(w, a, end);
  }

  /** The transaction alone in the system, with the locks it holds. */
  function Alone(db: Db, t: TxnId, x: Txn, locks: map<Row, TxnId>): World
  {
    World(db, locks, map[t := x], [])
  }

  lemma BeginsAlone(w: World, t: TxnId, x: Txn)
    requires Quiet(w) && Fresh(w.db, x)
    ensures Enabled(w, Begin(t, x)) && Do(w, Begin(t, x)) == Alone(w.db, t, x, map[])
  {
  }

  /** Committing alone leaves nothing open and no lock. */
  lemma CommitsAlone(db: Db, t: TxnId, x: Txn, locks: map<Row, TxnId>)
    requires (forall r :: r in locks ==> locks[r] == t) && CanCommit(Alone(db, t, x, locks), t, x)
    ensures Enabled(Alone(db, t, x, locks), Commit(t))
    ensures EndsAt(Do(Alone(db, t, x, locks), Commit(t)), CommitDb(db, x))
  {
  }

  /** A payment by a known customer: its row is locked and, for cash, the open session asked for. */
  lemma PaymentCommits(w: World, t: TxnId, c: Id, amount: Positive, payment: string, now: int)
    requires Quiet(w) && c in w.db.customers
    ensures Finishes(w, Apply(w.db, RecordPayment(c, amount, payment), now))
  {
    var end := Apply(w.db, RecordPayment(c, amount, payment), now);
    var x := PaymentTxn(c, amount, payment, false, false, None);
    BeginsAlone(w, t, x);
    if payment == CASH {
      CashPaymentFinishes(w.db, t, c, amount, now);
      StepFinishes(w, Begin(t, x), end);
    } else {
      var y, locks := PaymentTxn(c, amount, payment, true, false, None), map[CustomerRow(c) := t];
      assert Do(Alone(w.db, t, x, map[]), LockCustomer(t)) == Alone(w.db, t, y, locks);
      CommitsAlone(w.db, t, y, locks);
      assert CommitDb(w.db, y) == end;
      ThreeFinish(w, Begin(t, x), LockCustomer(t), Commit(t), end);
    }
  }

  lemma CashPaymentFinishes(db: Db, t: TxnId, c: Id, amount: Positive, now: int)
    requires c in db.customers
    ensures Finishes(Alone(db, t, PaymentTxn(c, amount, CASH, false, false, None), map[]),
                     Apply(db, RecordPayment(c, amount, CASH), now))
  {
    var locks := map[CustomerRow(c) := t];
    var x, y := PaymentTxn(c, amount, CASH, false, false, None), PaymentTxn(c, amount, CASH, true, false, None);
    var z := PaymentTxn(c, amount, CASH, true, true, OpenTill(db.tills));
    assert Do(Alone(db, t, x, map[]), LockCustomer(t)) == Alone(db, t, y, locks);
    assert Do(Alone(db, t, y, locks), ReadTill(t)) == Alone(db, t, z, locks);
    CommitsAlone(db, t, z, locks);
    assert CommitDb(db, z) == Apply(db, RecordPayment(c, amount, CASH), now);
    ThreeFinish(Alone(db, t, x, map[]), LockCustomer(t), ReadTill(t), Commit(t), CommitDb(db, z));
  }

  lemma ProductPatchCommits(w: World, t: TxnId, p: Id, patch: ProductPatch, now: int)
    requires Quiet(w) && p in w.db.products
    ensures Finishes(w, Apply(w.db, UpdateProduct(p, patch), now))
  {
    var x, y, locks := PatchProductTxn(p, patch, false), PatchProductTxn(p, patch, true), map[ProductRow(p) := t];
    BeginsAlone(w, t, x);
    assert Do(Alone(w.db, t, x, map[]), LockProduct(t)) == Alone(w.db, t, y, locks);
    CommitsAlone(w.db, t, y, locks);
    assert CommitDb(w.db, y) == Apply(w.db, UpdateProduct(p, patch), now);
    ThreeFinish(w, Begin(t, x), LockProduct(t), Commit(t), CommitDb(w.db, y));
  }

  lemma VariantStockCommits(w: World, t: TxnId, p: Id, v: Id, stock: nat, now: int)
    requires Quiet(w) && v in w.db.variants && w.db.variants[v].product == p
    ensures Finishes(w, Apply(w.db, UpdateVariantStock(p, v, stock), now))
  {
    var x, y, locks := PatchVariantTxn(v, stock, false), PatchVariantTxn(v, stock, true), map[VariantRow(v) := t];
    BeginsAlone(w, t, x);
    assert Do(Alone(w.db, t, x, map[]), LockVariant(t)) == Alone(w.db, t, y, locks);
    CommitsAlone(w.db, t, y, locks);
    assert CommitDb(w.db, y) == Apply(w.db, UpdateVariantStock(p, v, stock), now);
    ThreeFinish(w, Begin(t, x), LockVariant(t), Commit(t), CommitDb(w.db, y));
  }

  lemma CancelCallCommits(w: World, t: TxnId, n: Id, now: int)
    requires Quiet(w) && n < |w.db.notes| && w.db.notes[n].status.Pending?
    ensures Finishes(w, Apply(w.db, CancelOrderNote(n), now))
  {
    var end, x := Apply(w.db, CancelOrderNote(n), now), CancelTxn(n);
    BeginsAlone(w, t, x);
    CommitsAlone(w.db, t, x, map[]);
    var v := Do(Alone(w.db, t, x, map[]), Commit(t));
    assert Run(v, []) && EndsAt(Last(v, []), end);
    StepFinishes(Alone(w.db, t, x, map[]), Commit(t), end);
    StepFinishes(w, Begin(t, x), end);
  }

  lemma QuoteCommits(w: World, t: TxnId, doc: DocumentRequest, now: int)
    requires Quiet(w) && DocumentAccepted(w.db, doc)
    ensures Finishes(w, Apply(w.db, CreateQuote(doc), now))
  {
    var items := Priced(w.db, w.db.customers[doc.customer], doc.items);
    var x, y := QuoteTxn(doc.customer, items, None), QuoteTxn(doc.customer, items, Some(w.db.nextQuote));
    BeginsAlone(w, t, x);
    assert Do(Alone(w.db, t, x, map[]), LockTenant(t)) == Alone(w.db, t, y, map[TenantRow := t]);
    CommitsAlone(w.db, t, y, map[TenantRow := t]);
    assert CommitDb(w.db, y) == Apply(w.db, CreateQuote(doc), now);
    ThreeFinish(w, Begin(t, x), LockTenant(t), Commit(t), CommitDb(w.db, y));
  }

  lemma NoteCommits(w: World, t: TxnId, doc: DocumentRequest, now: int)
    requires Quiet(w) && DocumentAccepted(w.db, doc)
    ensures Finishes(w, Apply(w.db, CreateOrderNote(doc), now))
  {
    var items := Priced(w.db, w.db.customers[doc.customer], doc.items);
    var x, y := NoteTxn(doc.customer, items, None), NoteTxn(doc.customer, items, Some(w.db.nextNote));
    BeginsAlone(w, t, x);
    assert Do(Alone(w.db, t, x, map[]), LockTenant(t)) == Alone(w.db, t, y, map[TenantRow := t]);
    CommitsAlone(w.db, t, y, map[TenantRow := t]);
    assert CommitDb(w.db, y) == Apply(w.db, CreateOrderNote(doc), now);
    ThreeFinish(w, Begin(t, x), LockTenant(t), Commit(t), CommitDb(w.db, y));
  }
}
