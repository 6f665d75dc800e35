/** The main results about concurrent transactions, for every interleaving and every pattern of aborts. */
module Serializability {
  import opened Prelude
  import opened Model
  import opened Sales
  import opened Effects
  import opened Transactions

  // ---- A commit is one effect on the committed database ----

  lemma ReadySaleFits(db: Db, held: set<Row>, x: Txn)
    requires x.SaleTxn? && x.stage.Ready? && SaleKnown(db, held, x)
    ensures LinesFit(db, x.req.items)
    ensures Priced(db, x.buyer, x.req.items) == x.priced
  {
    var items := x.req.items;
    assert items[..|items|] == items;
    forall l | l in items
      ensures Sellable(db, l) && Demand(items, CellOf(l)) <= StockOf(db, CellOf(l))
    {
      var j :| 0 <= j < |items| && items[j] == l;
      assert LineKnown(db, held, x.buyer, items[j], x.priced[j]);
      DemandPositive(items, j);
      assert CellOf(l) in x.pend;
    }
    forall j | 0 <= j < |items|
      ensures Priced(db, x.buyer, items)[j] == x.priced[j]
    {
      assert LineKnown(db, held, x.buyer, items[j], x.priced[j]);
    }
  }

  lemma SaleCommitIsBooking(db: Db, held: set<Row>, x: Txn)
    requires x.SaleTxn? && x.stage.Ready? && SaleKnown(db, held, x)
    ensures Legal(db, EffectOf(x)) && CommitDb(db, x) == Perform(db, EffectOf(x))
  {
    ReadySaleFits(db, held, x);
    assert x.req.items[..|x.req.items|] == x.req.items;
    BufferIsDiscount(db, held, x.req.items, x.pend);
  }

  /** The buffered stock values, written over the committed rows, are the rows less what the lines ask for. */
  lemma BufferIsDiscount(db: Db, held: set<Row>, items: seq<Line>, pend: map<Cell, int>)
    requires BufferKnown(db, held, items, pend)
    ensures ProductsLess(db, items) == FlushProducts(db, pend)
    ensures VariantsLess(db, items) == FlushVariants(db, pend)
  {
    forall p | p in db.products && ProductCell(p) in pend
      ensures pend[ProductCell(p)] == db.products[p].stock - Demand(items, ProductCell(p))
    {
      assert StockOf(db, ProductCell(p)) == db.products[p].stock;
    }
    forall v | v in db.variants && VariantCell(v) in pend
      ensures pend[VariantCell(v)] == db.variants[v].stock - Demand(items, VariantCell(v))
    {
      assert StockOf(db, VariantCell(v)) == db.variants[v].stock;
    }
  }

  lemma CommitIsEffect(db: Db, held: set<Row>, x: Txn)
    requires Known(db, held, x)
    requires x.SaleTxn? ==> x.stage.Ready?
    requires x.PatchProductTxn? || x.PatchVariantTxn? ==> x.locked
    requires x.QuoteTxn? || x.NoteTxn? ==> x.taken.Some?
    ensures Legal(db, EffectOf(x)) && CommitDb(db, x) == Perform(db, EffectOf(x))
  {
    if x.SaleTxn? {
      SaleCommitIsBooking(db, held, x);
    }
  }

  /** A commit changes no row its transaction has not locked. */
  lemma CommitStaysInside(db: Db, held: set<Row>, x: Txn, r: Row)
    requires Known(db, held, x)
    requires x.SaleTxn? ==> x.stage.Ready?
    requires x.PatchProductTxn? || x.PatchVariantTxn? ==> x.locked
    requires x.QuoteTxn? || x.NoteTxn? ==> x.taken.Some?
    requires r !in held && (x.CancelTxn? ==> r != NoteRow(x.note))
    ensures SameRow(db, CommitDb(db, x), r)
  {
    CommitIsEffect(db, held, x);
    if x.SaleTxn? {
      match r
      case ProductRow(p) => assert RowOf(ProductCell(p)) == r; assert ProductCell(p) !in x.pend;
      case VariantRow(v) => assert RowOf(VariantCell(v)) == r; assert VariantCell(v) !in x.pend;
      case _ =>
    }
  }

  // ---- Every step keeps what the transactions know ----

  /** A step that changes only transaction t and adds at most one lock for t. */
  lemma LocalStepKeepsInv(start: Db, w: World, v: World, t: TxnId)
    requires Inv(start, w)
    requires v.db == w.db && v.history == w.history && t in v.txns
    requires v.txns.Keys == w.txns.Keys + {t}
    requires forall u :: u in w.txns && u != t ==> v.txns[u] == w.txns[u]
    requires forall u :: u != t ==> Held(v.locks, u) == Held(w.locks, u)
    requires forall r :: r in v.locks ==> r in w.locks || v.locks[r] == t
    requires forall r :: r in v.locks && r in w.locks ==> v.locks[r] == w.locks[r]
    requires Known(v.db, Held(v.locks, t), v.txns[t])
    ensures Inv(start, v)
  {
    forall u | u in v.txns ensures Known(v.db, Held(v.locks, u), v.txns[u]) {
    }
  }

  /** Taking a lock adds it to what t holds and to nobody else's. */
  lemma LockAdds(w: World, t: TxnId, r: Row, x: Txn)
    requires CanLock(w, t, r)
    ensures var v := LockRow(w, t, r, x);
      && Held(v.locks, t) == Held(w.locks, t) + {r}
      && (forall u :: u != t ==> Held(v.locks, u) == Held(w.locks, u))
  {
  }

  /** Holding more rows loses no knowledge. */
  lemma MoreLocks(db: Db, held: set<Row>, more: set<Row>, x: Txn)
    requires Known(db, held, x) && held <= more
    ensures Known(db, more, x)
  {
    if x.SaleTxn? {
      forall j | 0 <= j < |x.priced|
        ensures LineKnown(db, more, x.buyer, x.req.items[j], x.priced[j])
      {
        assert LineKnown(db, held, x.buyer, x.req.items[j], x.priced[j]);
      }
    }
  }

  lemma TakeLineKnown(db: Db, held: set<Row>, x: Txn)
    requires x.SaleTxn? && SaleKnown(db, held, x) && |x.priced| < |x.req.items| && CanTake(db, x)
    requires x.stage.TakingLines? || x.stage.LockingVariant?
    requires Sellable(db, x.req.items[|x.priced|])
    requires RowOf(CellOf(x.req.items[|x.priced|])) in held && ProductRow(x.req.items[|x.priced|].product) in held
    ensures SaleKnown(db, held, TakeLine(db, x))
  {
    var k, items, y := |x.priced|, x.req.items, TakeLine(db, x);
    var l := items[k];
    assert items[..k + 1] == items[..k] + [l];
    forall c ensures Demand(items[..k + 1], c) == Demand(items[..k], c) + if CellOf(l) == c then l.quantity else 0 {
      DemandAppend(items[..k], l, c);
    }
    forall j | 0 <= j < k + 1
      ensures LineKnown(db, held, y.buyer, items[j], y.priced[j])
    {
      if j < k {
        assert LineKnown(db, held, x.buyer, items[j], x.priced[j]);
        assert y.priced[j] == x.priced[j];
      }
    }
  }

  lemma LockProductKeepsInv(start: Db, w: World, t: TxnId)
    requires Inv(start, w) && Enabled(w, LockProduct(t))
    ensures Inv(start, Do(w, LockProduct(t)))
  {
    var x, v := w.txns[t], Do(w, LockProduct(t));
    if x.SaleTxn? {
      var r := ProductRow(x.req.items[|x.priced|].product);
      LockAdds(w, t, r, v.txns[t]);
      MoreLocks(w.db, Held(w.locks, t), Held(v.locks, t), x);
      if x.req.items[|x.priced|].variant.None? {
        TakeLineKnown(w.db, Held(v.locks, t), x);
      }
    } else {
      LockAdds(w, t, ProductRow(x.product), v.txns[t]);
    }
    LocalStepKeepsInv(start, w, v, t);
  }

  lemma LockVariantKeepsInv(start: Db, w: World, t: TxnId)
    requires Inv(start, w) && Enabled(w, LockVariant(t))
    ensures Inv(start, Do(w, LockVariant(t)))
  {
    var x, v := w.txns[t], Do(w, LockVariant(t));
    if x.SaleTxn? {
      LockAdds(w, t, VariantRow(x.req.items[|x.priced|].variant.value), v.txns[t]);
      MoreLocks(w.db, Held(w.locks, t), Held(v.locks, t), x);
      TakeLineKnown(w.db, Held(v.locks, t), x);
    } else {
      LockAdds(w, t, VariantRow(x.variant), v.txns[t]);
    }
    LocalStepKeepsInv(start, w, v, t);
  }

  lemma LockNoteKeepsInv(start: Db, w: World, t: TxnId)
    requires Inv(start, w) && Enabled(w, LockNote(t))
    ensures Inv(start, Do(w, LockNote(t)))
  {
    var x, v := w.txns[t], Do(w, LockNote(t));
    LockAdds(w, t, NoteRow(x.req.note.value), v.txns[t]);
    MoreLocks(w.db, Held(w.locks, t), Held(v.locks, t), x);
    LocalStepKeepsInv(start, w, v, t);
  }

  lemma LockTenantKeepsInv(start: Db, w: World, t: TxnId)
    requires Inv(start, w) && Enabled(w, LockTenant(t))
    ensures Inv(start, Do(w, LockTenant(t)))
  {
    var x, v := w.txns[t], Do(w, LockTenant(t));
    LockAdds(w, t, TenantRow, v.txns[t]);
    MoreLocks(w.db, Held(w.locks, t), Held(v.locks, t), x);
    LocalStepKeepsInv(start, w, v, t);
  }

  lemma LockCustomerKeepsInv(start: Db, w: World, t: TxnId)
    requires Inv(start, w) && Enabled(w, LockCustomer(t))
    ensures Inv(start, Do(w, LockCustomer(t)))
  {
    var x, v := w.txns[t], Do(w, LockCustomer(t));
    var r := CustomerRow(if x.PaymentTxn? then x.payer else x.req.customer);
    LockAdds(w, t, r, v.txns[t]);
    MoreLocks(w.db, Held(w.locks, t), Held(v.locks, t), x);
    LocalStepKeepsInv(start, w, v, t);
  }

  lemma ReleaseFrees(locks: map<Row, TxnId>, t: TxnId, u: TxnId)
    requires u != t
    ensures Held(Release(locks, t), u) == Held(locks, u)
  {
  }

  /** Another transaction's commit leaves a transaction's knowledge true. */
  lemma CommitSparesOthers(start: Db, w: World, t: TxnId, u: TxnId)
    requires Inv(start, w) && Enabled(w, Commit(t)) && u in w.txns && u != t
    ensures Known(CommitDb(w.db, w.txns[t]), Held(w.locks, u), w.txns[u])
  {
    var x, after := w.txns[t], CommitDb(w.db, w.txns[t]);
    CommitIsEffect(w.db, Held(w.locks, t), x);
    forall r | r in Held(w.locks, u) ensures SameRow(w.db, after, r) {
      CommitStaysInside(w.db, Held(w.locks, t), x, r);
    }
    EffectsOnlyAdd(w.db, EffectOf(x));
    KnowledgeKept(w.db, after, Held(w.locks, u), w.txns[u]);
  }

  lemma EffectsOnlyAdd(db: Db, e: Effect)
    requires Legal(db, e)
    ensures |db.tills| <= |Perform(db, e).tills| && |db.notes| <= |Perform(db, e).notes|
  {
  }

  lemma CommitKeepsInv(start: Db, w: World, t: TxnId)
    requires Inv(start, w) && Enabled(w, Commit(t))
    ensures Inv(start, Do(w, Commit(t)))
  {
    var v := Do(w, Commit(t));
    CommitIsEffect(w.db, Held(w.locks, t), w.txns[t]);
    ReplayAppend(start, w.history, EffectOf(w.txns[t]));
    forall u | u in v.txns ensures Known(v.db, Held(v.locks, u), v.txns[u]) {
      ReleaseFrees(w.locks, t, u);
      CommitSparesOthers(start, w, t, u);
    }
  }

  lemma DirectSparesRows(db: Db, e: Effect, r: Row)
    requires Legal(db, e)
    requires e.SetCustomer? || e.AddPurchaseEvent? || e.OpenSession? || e.MoveCash? || e.CloseSession?
    ensures SameRow(db, Perform(db, e), r)
  {
  }

  lemma DirectKeepsInv(start: Db, w: World, e: Effect)
    requires Inv(start, w) && Enabled(w, Direct(e))
    ensures Inv(start, Do(w, Direct(e)))
  {
    var v := Do(w, Direct(e));
    ReplayAppend(start, w.history, e);
    EffectsOnlyAdd(w.db, e);
    forall r ensures SameRow(w.db, v.db, r) {
      DirectSparesRows(w.db, e, r);
    }
    forall u | u in v.txns ensures Known(v.db, Held(v.locks, u), v.txns[u]) {
      KnowledgeKept(w.db, v.db, Held(w.locks, u), v.txns[u]);
    }
  }

  lemma AbortKeepsInv(start: Db, w: World, t: TxnId)
    requires Inv(start, w) && Enabled(w, Abort(t))
    ensures Inv(start, Do(w, Abort(t)))
  {
    var v := Do(w, Abort(t));
    forall u | u in v.txns ensures Known(v.db, Held(v.locks, u), v.txns[u]) {
      ReleaseFrees(w.locks, t, u);
    }
  }

  lemma BeginKeepsInv(start: Db, w: World, t: TxnId, x: Txn)
    requires Inv(start, w) && Enabled(w, Begin(t, x))
    ensures Inv(start, Do(w, Begin(t, x)))
  {
    assert forall r :: r !in Held(w.locks, t);
    LocalStepKeepsInv(start, w, Do(w, Begin(t, x)), t);
  }

  lemma CheckCreditKeepsInv(start: Db, w: World, t: TxnId)
    requires Inv(start, w) && Enabled(w, CheckCredit(t))
    ensures Inv(start, Do(w, CheckCredit(t)))
  {
    LocalStepKeepsInv(start, w, Do(w, CheckCredit(t)), t);
  }

  lemma ReadTillKnown(db: Db, held: set<Row>, x: Txn)
    requires Known(db, held, x)
    requires x.SaleTxn? ==> x.stage.ReadingTill?
    requires x.SaleTxn? || x.PaymentTxn?
    ensures Known(db, held, if x.SaleTxn? then WithTill(x, OpenTill(db.tills))
                            else PaymentTxn(x.payer, x.amount, x.payment, x.locked, true, OpenTill(db.tills)))
  {
  }

  lemma ReadTillKeepsInv(start: Db, w: World, t: TxnId)
    requires Inv(start, w) && Enabled(w, ReadTill(t))
    ensures Inv(start, Do(w, ReadTill(t)))
  {
    ReadTillKnown(w.db, Held(w.locks, t), w.txns[t]);
    LocalStepKeepsInv(start, w, Do(w, ReadTill(t)), t);
  }

  lemma StepKeepsInv(start: Db, w: World, l: Label)
    requires Inv(start, w) && Enabled(w, l)
    ensures Inv(start, Do(w, l))
  {
    match l
    case Begin(t, x) => BeginKeepsInv(start, w, t, x);
    case LockNote(t) => LockNoteKeepsInv(start, w, t);
    case LockProduct(t) => LockProductKeepsInv(start, w, t);
    case LockVariant(t) => LockVariantKeepsInv(start, w, t);
    case LockTenant(t) => LockTenantKeepsInv(start, w, t);
    case LockCustomer(t) => LockCustomerKeepsInv(start, w, t);
    case CheckCredit(t) => CheckCreditKeepsInv(start, w, t);
    case ReadTill(t) => ReadTillKeepsInv(start, w, t);
    case Commit(t) => CommitKeepsInv(start, w, t);
    case Abort(t) => AbortKeepsInv(start, w, t);
    case Direct(e) => DirectKeepsInv(start, w, e);
  }

  // ---- Runs ----

  ghost predicate Run(w: World, ls: seq<Label>)
    decreases |ls|
  {
    ls == [] || (Enabled(w, ls[0]) && Run(Do(w, ls[0]), ls[1..]))
  }

  ghost function Last(w: World, ls: seq<Label>): World
    requires Run(w, ls)
    decreases |ls|
  {
    if ls == [] then w else Last(Do(w, ls[0]), ls[1..])
  }

  /** No transaction is open and nothing has been committed yet. */
  predicate Quiet(w: World)
  {
    w.locks == map[] && w.txns == map[] && w.history == []
  }

  lemma {:induction false} RunKeepsInv(start: Db, w: World, ls: seq<Label>)
    requires Inv(start, w) && Run(w, ls)
    ensures Inv(start, Last(w, ls))
    decreases |ls|
  {
    if ls != [] {
      StepKeepsInv(start, w, ls[0]);
      RunKeepsInv(start, Do(w, ls[0]), ls[1..]);
    }
  }

  /** Serializability: whatever the interleaving and whoever aborts, the database is the one reached by
      performing the committed transactions one after another, each on the result of the ones before. */
  lemma CommitsAreSerial(w: World, ls: seq<Label>)
    requires Quiet(w) && Run(w, ls)
    ensures var end := Last(w, ls);
      LegalHistory(w.db, end.history) && Replay(w.db, end.history) == end.db
  {
    RunKeepsInv(w.db, w, ls);
  }

  /** Every interleaving conserves stock, cell by cell, and keeps it from going below zero. */
  lemma InterleavingsConserveStock(w: World, ls: seq<Label>, c: Cell)
    requires Quiet(w) && Run(w, ls) && StockSound(w.db)
    ensures var end := Last(w, ls);
      && LegalHistory(w.db, end.history)
      && StockOf(end.db, c) + Sold(end.db.sales, c)
         == StockOf(w.db, c) + Sold(w.db.sales, c) + NetAdjustment(w.db, end.history, c)
      && 0 <= StockOf(end.db, c)
  {
    CommitsAreSerial(w, ls);
    StockConserved(w.db, Last(w, ls).history, c);
  }

  /** Every interleaving keeps the numbers of sales, quotes and notes gapless, the links between notes
      and sales one to one, the ledger equal to the sales on account and the events equal to the sales. */
  lemma InterleavingsKeepConsistent(w: World, ls: seq<Label>)
    requires Quiet(w) && Run(w, ls) && Consistent(w.db)
    ensures Consistent(Last(w, ls).db)
  {
    CommitsAreSerial(w, ls);
    HistoryKeepsConsistent(w.db, Last(w, ls).history);
  }

  lemma StepAdvancesNotes(w: World, l: Label)
    requires Enabled(w, l) && NotesLinked(w.db)
    requires l.Commit? ==> Known(w.db, Held(w.locks, l.t), w.txns[l.t])
    ensures NotesLinked(Do(w, l).db) && NotesOnlyAdvance(w.db.notes, Do(w, l).db.notes)
  {
    if l.Commit? {
      CommitIsEffect(w.db, Held(w.locks, l.t), w.txns[l.t]);
      EffectKeepsNotesLinked(w.db, EffectOf(w.txns[l.t]));
    } else if l.Direct? {
      EffectKeepsNotesLinked(w.db, l.effect);
    } else {
      assert Do(w, l).db == w.db;
    }
  }

  lemma AdvanceFurther(a: seq<OrderNote>, b: seq<OrderNote>, c: seq<OrderNote>)
    requires NotesOnlyAdvance(a, b) && NotesOnlyAdvance(b, c)
    ensures NotesOnlyAdvance(a, c)
  {
  }

  /** From any reachable state on, a note keeps its link once it has one and is never pending again. */
  lemma {:induction false} InterleavingsAdvanceNotes(start: Db, w: World, ls: seq<Label>)
    requires Inv(start, w) && NotesLinked(w.db) && Run(w, ls)
    ensures NotesOnlyAdvance(w.db.notes, Last(w, ls).db.notes)
    decreases |ls|
  {
    if ls != [] {
      var v := Do(w, ls[0]);
      StepAdvancesNotes(w, ls[0]);
      StepKeepsInv(start, w, ls[0]);
      InterleavingsAdvanceNotes(start, v, ls[1..]);
      AdvanceFurther(w.db.notes, v.db.notes, Last(v, ls[1..]).db.notes);
    }
  }

  /** A transaction may abort at any point, and then it was never there: the database, the other transactions and
      their locks are as they were, and its own locks are free. */
  lemma AbortLeavesNothing(w: World, t: TxnId)
    requires t in w.txns
    ensures Enabled(w, Abort(t))
    ensures var v := Do(w, Abort(t));
      && v.db == w.db && v.history == w.history && v.txns == w.txns - {t}
      && Held(v.locks, t) == {} && forall u :: u != t ==> Held(v.locks, u) == Held(w.locks, u)
  {
    forall u | u != t ensures Held(Do(w, Abort(t)).locks, u) == Held(w.locks, u) {
      ReleaseFrees(w.locks, t, u);
    }
  }

  // ---- The credit limit ----

  predicate LimitSet(customer: Customer, limit: Cents)
  {
    customer.creditLimit.Some? && customer.creditLimit.value <= limit
  }

  ghost predicate LimitWithin(w: World, c: Id, limit: Cents)
  {
    c in w.db.customers && LimitSet(w.db.customers[c], limit)
  }

  /** In every state of the run the customer's limit is set and at most the given one. */
  ghost predicate LimitsWithin(w: World, ls: seq<Label>, c: Id, limit: Cents)
    requires Run(w, ls)
    decreases |ls|
  {
    LimitWithin(w, c, limit) && (ls != [] ==> LimitsWithin(Do(w, ls[0]), ls[1..], c, limit))
  }

  /** A sale on account past its check holds the customer's row, so the balance it checked still stands. */
  ghost predicate SaleWithinLimit(w: World, t: TxnId, c: Id, limit: Cents)
    requires t in w.txns
  {
    var x := w.txns[t];
    x.SaleTxn? && x.req.customer == c ==>
      && LimitSet(x.buyer, limit)
      && (x.req.payment == ACCOUNT ==> !x.stage.ReadingTill?)
      && (x.req.payment == ACCOUNT && (x.stage.CheckingCredit? || x.stage.Ready?) ==>
            CustomerRow(c) in w.locks && w.locks[CustomerRow(c)] == t)
      && (x.req.payment == ACCOUNT && x.stage.Ready? ==>
            Balance(w.db.movements, c) + TotalOf(x.priced) <= limit)
  }

  ghost predicate CreditInv(w: World, c: Id, limit: Cents)
  {
    && Balance(w.db.movements, c) <= limit
    && (forall t :: t in w.txns ==> SaleWithinLimit(w, t, c, limit))
    && (forall t :: t in w.txns && w.txns[t].PaymentTxn? && w.txns[t].locked ==>
          CustomerRow(w.txns[t].payer) in w.locks && w.locks[CustomerRow(w.txns[t].payer)] == t)
  }

  lemma CommitKeepsCredit(start: Db, w: World, t: TxnId, c: Id, limit: Cents)
    requires Inv(start, w) && CreditInv(w, c, limit) && Enabled(w, Commit(t))
    ensures CreditInv(Do(w, Commit(t)), c, limit)
  {
    var x, v := w.txns[t], Do(w, Commit(t));
    assert SaleWithinLimit(w, t, c, limit);
    CommitIsEffect(w.db, Held(w.locks, t), x);
    ReadyPriced(w, t);
    var changes := v.db.movements != w.db.movements;
    if changes {
      BalanceAppend(w.db.movements, v.db.movements[|w.db.movements|], c);
      assert v.db.movements == w.db.movements + [v.db.movements[|w.db.movements|]];
    }
    forall u | u in v.txns ensures SaleWithinLimit(v, u, c, limit) {
      assert SaleWithinLimit(w, u, c, limit);
    }
  }

  lemma ReadyPriced(w: World, t: TxnId)
    requires t in w.txns && Known(w.db, Held(w.locks, t), w.txns[t])
    ensures w.txns[t].SaleTxn? && w.txns[t].stage.Ready? ==>
      Bookable(w.db, w.txns[t].req) && Priced(w.db, w.txns[t].buyer, w.txns[t].req.items) == w.txns[t].priced
  {
    if w.txns[t].SaleTxn? && w.txns[t].stage.Ready? {
      ReadySaleFits(w.db, Held(w.locks, t), w.txns[t]);
    }
  }

  /** A step of one transaction does not disturb a sale of another that is past its check. */
  lemma OthersWithinLimit(w: World, l: Label, u: TxnId, c: Id, limit: Cents)
    requires Enabled(w, l) && !l.Commit? && (l.Direct? || l.t != u)
    requires u in w.txns && SaleWithinLimit(w, u, c, limit)
    ensures u in Do(w, l).txns && SaleWithinLimit(Do(w, l), u, c, limit)
  {
    var v := Do(w, l);
    assert v.txns[u] == w.txns[u];
    assert v.db.movements == w.db.movements;
    if CustomerRow(c) in w.locks && w.locks[CustomerRow(c)] == u {
      assert CustomerRow(c) in v.locks && v.locks[CustomerRow(c)] == u;
    }
  }

  lemma OwnWithinLimit(w: World, l: Label, c: Id, limit: Cents)
    requires Enabled(w, l) && !l.Commit? && !l.Direct? && !l.Abort?
    requires LimitWithin(w, c, limit)
    requires l.t in w.txns ==> SaleWithinLimit(w, l.t, c, limit)
    ensures SaleWithinLimit(Do(w, l), l.t, c, limit)
  {
    match l
    case Begin(t, x) =>
    case LockNote(t) =>
    case LockProduct(t) =>
    case LockVariant(t) =>
    case LockTenant(t) =>
    case LockCustomer(t) =>
    case CheckCredit(t) =>
    case ReadTill(t) =>
  }

  lemma StepKeepsCredit(start: Db, w: World, l: Label, c: Id, limit: Cents)
    requires Inv(start, w) && Enabled(w, l)
    requires CreditInv(w, c, limit) && LimitWithin(w, c, limit)
    ensures CreditInv(Do(w, l), c, limit)
  {
    if l.Commit? {
      CommitKeepsCredit(start, w, l.t, c, limit);
    } else {
      var v := Do(w, l);
      assert v.db.movements == w.db.movements;
      forall u | u in v.txns ensures SaleWithinLimit(v, u, c, limit) {
        if l.Direct? || l.t != u {
          OthersWithinLimit(w, l, u, c, limit);
        } else {
          OwnWithinLimit(w, l, c, limit);
        }
      }
      forall u | u in v.txns && v.txns[u].PaymentTxn? && v.txns[u].locked
        ensures CustomerRow(v.txns[u].payer) in v.locks && v.locks[CustomerRow(v.txns[u].payer)] == u
      {
        PaymentHoldsRow(w, l, u);
      }
    }
  }

  lemma PaymentHoldsRow(w: World, l: Label, u: TxnId)
    requires Enabled(w, l) && !l.Commit?
    requires u in w.txns && w.txns[u].PaymentTxn? && w.txns[u].locked ==>
      CustomerRow(w.txns[u].payer) in w.locks && w.locks[CustomerRow(w.txns[u].payer)] == u
    requires u in Do(w, l).txns && Do(w, l).txns[u].PaymentTxn? && Do(w, l).txns[u].locked
    ensures var r := CustomerRow(Do(w, l).txns[u].payer); r in Do(w, l).locks && Do(w, l).locks[r] == u
  {
    match l
    case Begin(t, x) =>
    case LockNote(t) =>
    case LockProduct(t) =>
    case LockVariant(t) =>
    case LockTenant(t) =>
    case LockCustomer(t) =>
    case CheckCredit(t) =>
    case ReadTill(t) =>
    case Abort(t) =>
    case Direct(e) =>
  }

  lemma {:induction false} RunKeepsCredit(start: Db, w: World, ls: seq<Label>, c: Id, limit: Cents)
    requires Inv(start, w) && Run(w, ls) && LimitsWithin(w, ls, c, limit)
    requires CreditInv(w, c, limit)
    ensures CreditInv(Last(w, ls), c, limit)
    decreases |ls|
  {
    if ls != [] {
      StepKeepsInv(start, w, ls[0]);
      StepKeepsCredit(start, w, ls[0], c, limit);
      RunKeepsCredit(start, Do(w, ls[0]), ls[1..], c, limit);
    }
  }

  /** A customer who starts within it never exceeds the largest limit that is set for them during the run,
      whatever sales, payments, changes of the limit and aborts run concurrently. With a limit that does not
      change, that is the limit itself. */
  lemma BalanceWithinLimit(w: World, ls: seq<Label>, c: Id, limit: Cents)
    requires Quiet(w) && Run(w, ls) && LimitsWithin(w, ls, c, limit)
    requires Balance(w.db.movements, c) <= limit
    ensures Balance(Last(w, ls).db.movements, c) <= limit
  {
    RunKeepsCredit(w.db, w, ls, c, limit);
  }

  // ---- The late cancel ----

  /** The status and the link agree after an effect exactly when it is not a cancel of a linked note. */
  lemma StatusAgreesUnlessLateCancel(db: Db, e: Effect)
    requires Legal(db, e) && NotesLinked(db) && InvoicedIffLinked(db)
    ensures InvoicedIffLinked(Perform(db, e)) <==> (e.CancelNote? ==> db.notes[e.note].saleId.None?)
  {
    var after := Perform(db, e);
    if e.CancelNote? {
      assert after.notes[e.note].status.Cancelled? && after.notes[e.note].saleId == db.notes[e.note].saleId;
    } else if e.Book? {
      assert forall n :: 0 <= n < |db.notes| && Some(n) != e.req.note ==> after.notes[n] == db.notes[n];
    }
  }

  /** No effect of the history cancels a note that is linked by then. */
  ghost predicate NoLateCancel(db: Db, es: seq<Effect>)
    requires LegalHistory(db, es)
  {
    es == []
    || (var front, e := es[..|es| - 1], es[|es| - 1];
        NoLateCancel(db, front) && (e.CancelNote? ==> Replay(db, front).notes[e.note].saleId.None?))
  }

  predicate CancelledLinked(note: OrderNote)
  {
    note.status.Cancelled? && note.saleId.Some?
  }

  /** A note that is cancelled and linked stays so. */
  lemma CancelledStays(db: Db, e: Effect, n: nat)
    requires Legal(db, e) && n < |db.notes| && CancelledLinked(db.notes[n])
    ensures n < |Perform(db, e).notes| && CancelledLinked(Perform(db, e).notes[n])
  {
    if e.Book? {
      assert e.req.note != Some(n);
      assert Perform(db, e).notes == InvoicedNote(db.notes, e.req, |db.sales|);
    }
  }

  lemma DisagreementStays(db: Db, e: Effect)
    requires Legal(db, e) && NotesLinked(db) && !InvoicedIffLinked(db)
    ensures !InvoicedIffLinked(Perform(db, e))
  {
    var n :| 0 <= n < |db.notes| && !(db.notes[n].status.Invoiced? <==> db.notes[n].saleId.Some?);
    CancelledStays(db, e, n);
  }

  lemma {:induction false} HistoryKeepsStatus(db: Db, es: seq<Effect>)
    requires LegalHistory(db, es) && NotesLinked(db) && InvoicedIffLinked(db)
    ensures InvoicedIffLinked(Replay(db, es)) <==> NoLateCancel(db, es)
  {
    if es != [] {
      var front, e := es[..|es| - 1], es[|es| - 1];
      HistoryKeepsStatus(db, front);
      HistoryAdvancesNotes(db, front, 0);
      if NoLateCancel(db, front) {
        StatusAgreesUnlessLateCancel(Replay(db, front), e);
      } else {
        DisagreementStays(Replay(db, front), e);
      }
    }
  }

  /** Whatever the interleaving, status and link of every note agree at its end exactly when none of the
      committed cancels hit a note that was linked by then. */
  lemma StatusAgreesExactly(w: World, ls: seq<Label>)
    requires Quiet(w) && Run(w, ls) && NotesLinked(w.db) && InvoicedIffLinked(w.db)
    ensures LegalHistory(w.db, Last(w, ls).history)
    ensures InvoicedIffLinked(Last(w, ls).db) <==> NoLateCancel(w.db, Last(w, ls).history)
  {
    CommitsAreSerial(w, ls);
    HistoryKeepsStatus(w.db, Last(w, ls).history);
  }

  lemma RunStep(w: World, l: Label, ls: seq<Label>)
    requires Enabled(w, l) && Run(Do(w, l), ls)
    ensures Run(w, [l] + ls) && Last(w, [l] + ls) == Last(Do(w, l), ls)
  {
    assert ([l] + ls)[1..] == ls;
  }

  lemma ThreeSteps(w: World, a: Label, b: Label, c: Label)
    requires Enabled(w, a) && Enabled(Do(w, a), b) && Enabled(Do(Do(w, a), b), c)
    ensures Run(w, [a] + ([b] + [c])) && Last(w, [a] + ([b] + [c])) == Do(Do(Do(w, a), b), c)
  {
    var w1 := Do(w, a);
    var w2 := Do(w1, b);
    assert Run(Do(w2, c), []);
    RunStep(w2, c, []);
    assert [c] + [] == [c];
    RunStep(w1, b, [c]);
    RunStep(w, a, [b] + [c]);
  }

  lemma ReadsNote(w: World, u: TxnId, x: Txn, note: Id)
    requires w.locks == map[] && u !in w.txns
    requires x.SaleTxn? && Fresh(w.db, x) && x.req.note == Some(note) && NoteReady(w.db, x.req)
    ensures Enabled(w, Begin(u, x)) && Enabled(Do(w, Begin(u, x)), LockNote(u))
    ensures Do(Do(w, Begin(u, x)), LockNote(u))
         == World(w.db, map[NoteRow(note) := u], w.txns[u := x.(stage := TakingLines)], w.history)
  {
    var w1 := Do(w, Begin(u, x));
    assert w1.txns[u] == x && w1.db == w.db;
    assert w.txns[u := x][u := x.(stage := TakingLines)] == w.txns[u := x.(stage := TakingLines)];
  }

  lemma TakesOneLine(w: World, u: TxnId, line: Line)
    requires u in w.txns && w.txns[u].SaleTxn? && w.txns[u].stage.TakingLines? && w.txns[u].priced == []
    requires w.txns[u].pend == map[] && w.txns[u].req.items == [line] && line.variant.None?
    requires ProductRow(line.product) !in w.locks && LinesFit(w.db, [line])
    ensures Enabled(w, LockProduct(u))
    ensures Do(w, LockProduct(u))
         == World(w.db, w.locks[ProductRow(line.product) := u], w.txns[u := TakeLine(w.db, w.txns[u])], w.history)
  {
    assert line in [line] && Sellable(w.db, line);
    assert [line] == [] + [line];
    DemandAppend([], line, CellOf(line));
  }

  /** A one-line sale from a note, from its first read until its line is taken. */
  lemma OneLineReads(w: World, u: TxnId, x: Txn, line: Line, note: Id) returns (v: World, ls: seq<Label>)
    requires w.locks == map[] && u !in w.txns && line.variant.None?
    requires x.SaleTxn? && Fresh(w.db, x) && x.req.items == [line] && x.req.note == Some(note) && Bookable(w.db, x.req)
    ensures Run(w, ls) && v == Last(w, ls)
    ensures v.db == w.db && v.history == w.history && v.txns.Keys == w.txns.Keys + {u}
    ensures v.locks == map[NoteRow(note) := u, ProductRow(line.product) := u]
    ensures forall t :: t in w.txns ==> v.txns[t] == w.txns[t]
    ensures v.txns[u].SaleTxn? && v.txns[u].stage.TakingLines? && |v.txns[u].priced| == 1
    ensures v.txns[u].req == x.req && v.txns[u].buyer == x.buyer && v.txns[u].till == x.till && v.txns[u].at == x.at
  {
    ReadsNote(w, u, x, note);
    var w2 := Do(Do(w, Begin(u, x)), LockNote(u));
    TakesOneLine(w2, u, line);
    v := Do(w2, LockProduct(u));
    ThreeSteps(w, Begin(u, x), LockNote(u), LockProduct(u));
    ls := [Begin(u, x)] + ([LockNote(u)] + [LockProduct(u)]);
  }

  /** A commit as a run of one step. */
  lemma CommitRun(start: Db, w: World, u: TxnId)
    requires Inv(start, w) && Enabled(w, Commit(u))
    ensures Run(w, [Commit(u)])
    ensures Legal(w.db, EffectOf(w.txns[u]))
    ensures Last(w, [Commit(u)]) == World(Perform(w.db, EffectOf(w.txns[u])), Release(w.locks, u), w.txns - {u},
                                          w.history + [EffectOf(w.txns[u])])
  {
    CommitIsEffect(w.db, Held(w.locks, u), w.txns[u]);
    assert Run(Do(w, Commit(u)), []);
    RunStep(w, Commit(u), []);
    assert [Commit(u)] + [] == [Commit(u)];
  }

  /** The rest of that sale: number and commit. */
  lemma OneLineCommits(start: Db, w: World, u: TxnId)
    requires Inv(start, w) && u in w.txns && w.txns[u].SaleTxn? && w.txns[u].stage.TakingLines?
    requires |w.txns[u].priced| == |w.txns[u].req.items| && w.txns[u].req.payment == "transfer"
    requires CanLock(w, u, TenantRow)
    ensures Run(w, [LockTenant(u)] + [Commit(u)]) && Legal(w.db, EffectOf(w.txns[u]))
    ensures var v := Last(w, [LockTenant(u)] + [Commit(u)]);
      && v.txns == w.txns - {u} && v.locks == Release(w.locks[TenantRow := u], u)
      && v.db == Perform(w.db, EffectOf(w.txns[u]))
  {
    var w1 := Do(w, LockTenant(u));
    assert w1.txns[u].stage.Ready? && EffectOf(w1.txns[u]) == EffectOf(w.txns[u]);
    LockTenantKeepsInv(start, w, u);
    CommitRun(start, w1, u);
    RunStep(w, LockTenant(u), [Commit(u)]);
    assert w1.txns - {u} == w.txns - {u};
  }

  /** A cancel that reads the note before a sale invoices it and writes after leaves a cancelled note
      that is linked to a sale. */
  lemma LateCancelRun(db: Db, t: TxnId, u: TxnId, note: Id, buyer: Id, line: Line)
    returns (w: World, ls: seq<Label>)
    requires t != u && buyer in db.customers && line.variant.None?
    requires Bookable(db, SaleRequest(buyer, [line], "transfer", Some(note)))
    ensures w.db == db && Quiet(w) && Run(w, ls)
    ensures var notes := Last(w, ls).db.notes;
      note < |notes| && notes[note].status.Cancelled? && notes[note].saleId == Some(|db.sales|)
  {
    w := World(db, map[], map[], []);
    var begin := Begin(t, CancelTxn(note));
    var w1 := Do(w, begin);
    StepKeepsInv(db, w, begin);
    var sale := SaleTxn(SaleRequest(buyer, [line], "transfer", Some(note)), db.customers[buyer], 0, LockingNote, [],
                        map[], 0, None);
    var w2, taking := OneLineReads(w1, u, sale, line, note);
    RunKeepsInv(db, w1, taking);
    OneLineCommits(db, w2, u);
    var commits := [LockTenant(u)] + [Commit(u)];
    var w3 := Last(w2, commits);
    CancelCommits(w3, t, note);
    RunConcat(w2, commits, [Commit(t)]);
    RunConcat(w1, taking, commits + [Commit(t)]);
    ls := [begin] + (taking + (commits + [Commit(t)]));
    RunStep(w, begin, taking + (commits + [Commit(t)]));
  }

  lemma CancelCommits(w: World, t: TxnId, note: Id)
    requires t in w.txns && w.txns[t] == CancelTxn(note) && note < |w.db.notes| && NoteRow(note) !in w.locks
    ensures Run(w, [Commit(t)])
    ensures Last(w, [Commit(t)]).db.notes == w.db.notes[note := w.db.notes[note].(status := Cancelled)]
  {
    assert Run(Do(w, Commit(t)), []);
    RunStep(w, Commit(t), []);
    assert [Commit(t)] + [] == [Commit(t)];
  }

  lemma {:induction false} RunConcat(w: World, a: seq<Label>, b: seq<Label>)
    requires Run(w, a) && Run(Last(w, a), b)
    ensures Run(w, a + b) && Last(w, a + b) == Last(Last(w, a), b)
    decreases |a|
  {
    if a == [] {
      assert a + b == b;
    } else {
      assert (a + b)[1..] == a[1..] + b;
      RunConcat(Do(w, a[0]), a[1..], b);
    }
  }
}
