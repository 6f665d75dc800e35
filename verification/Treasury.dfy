/** The service calls taken one at a time, each with a later clock reading than the one before, and what
    that gives for cash sessions and customer ledgers. */
module Treasury {
  import opened Prelude
  import opened Model
  import opened Sales
  import opened Effects

  datatype Call =
    | CreateSale(req: SaleRequest)
    | CreateQuote(doc: DocumentRequest)
    | CreateOrderNote(doc: DocumentRequest)
    | CancelOrderNote(note: Id)
    | RecordPayment(customer: Id, amount: Positive, payment: string)
    | OpenCashSession(opening: nat)
    | AddCashMovement(session: Id, kind: CashKind, amount: Positive)
    | CloseCashSession(session: Id, declared: nat)
    | UpdateProduct(product: Id, patch: ProductPatch)
    | UpdateVariantStock(product: Id, variant: Id, stock: nat)

  predicate DocumentAccepted(db: Db, doc: DocumentRequest)
  {
    doc.customer in db.customers && forall l :: l in doc.items ==> Quotable(db, l)
  }

  datatype DocumentError = NoCustomer | NoProduct | NoVariant | WrongProduct

  /** What keeps a line from being quoted. */
  function DocumentFault(db: Db, l: Line): (r: Option<DocumentError>)
    ensures r.None? <==> Quotable(db, l)
  {
    if l.product !in db.products then Some(NoProduct)
    else if l.variant.Some? && l.variant.value !in db.variants then Some(NoVariant)
    else if l.variant.Some? && db.variants[l.variant.value].product != l.product then Some(WrongProduct)
    else None
  }

  /** The error is the first thing that is wrong with the document. */
  ghost predicate DocumentExplains(db: Db, doc: DocumentRequest, e: DocumentError)
  {
    if e.NoCustomer? then doc.customer !in db.customers
    else
      && doc.customer in db.customers
      && exists k :: 0 <= k < |doc.items| && DocumentFault(db, doc.items[k]) == Some(e)
           && forall j :: 0 <= j < k ==> Quotable(db, doc.items[j])
  }

  /** The effect of a call, or None when the service refuses it and rolls back. */
  function EffectOfCall(db: Db, call: Call, now: int): (r: Option<Effect>)
    ensures r.Some? ==> Legal(db, r.value)
  {
    match call
    case CreateSale(req) =>
      if Accepted(db, req) then Some(Book(db.customers[req.customer], req, OpenTill(db.tills), now)) else None
    case CreateQuote(doc) =>
      if DocumentAccepted(db, doc)
      then Some(AddQuote(doc.customer, Priced(db, db.customers[doc.customer], doc.items))) else None
    case CreateOrderNote(doc) =>
      if DocumentAccepted(db, doc)
      then Some(AddNote(doc.customer, Priced(db, db.customers[doc.customer], doc.items))) else None
    case CancelOrderNote(n) =>
      if n < |db.notes| && db.notes[n].status.Pending? then Some(CancelNote(n)) else None
    case RecordPayment(c, amount, payment) =>
      if c in db.customers
      then Some(Pay(c, amount, if payment == CASH then OpenTill(db.tills) else None)) else None
    case OpenCashSession(opening) =>
      if OpenTill(db.tills).None? then Some(OpenSession(opening, now)) else None
    case AddCashMovement(s, kind, amount) =>
      if s < |db.tills| && db.tills[s].closedAt.None? then Some(MoveCash(s, kind, amount)) else None
    case CloseCashSession(s, declared) =>
      if s < |db.tills| && db.tills[s].closedAt.None? then Some(CloseSession(s, declared, now)) else None
    case UpdateProduct(p, patch) => if p in db.products then Some(PatchProduct(p, patch)) else None
    case UpdateVariantStock(p, v, stock) =>
      if v in db.variants && db.variants[v].product == p then Some(PatchVariant(v, stock)) else None
  }

  function Apply(db: Db, call: Call, now: int): Db
  {
    var e := EffectOfCall(db, call, now);
    if e.None? then db else Perform(db, e.value)
  }

  datatype TimedCall = TimedCall(call: Call, now: int)

  function ApplyAll(db: Db, calls: seq<TimedCall>): Db
  {
    if calls == [] then db
    else Apply(ApplyAll(db, calls[..|calls| - 1]), calls[|calls| - 1].call, calls[|calls| - 1].now)
  }

  /** Clock readings after `first`, each later than the one before. */
  predicate Ticking(first: int, calls: seq<TimedCall>)
  {
    calls == []
    || (Ticking(first, calls[..|calls| - 1]) && LastTick(first, calls[..|calls| - 1]) < calls[|calls| - 1].now)
  }

  function LastTick(first: int, calls: seq<TimedCall>): int
  {
    if calls == [] then first else calls[|calls| - 1].now
  }

  // ---- Sales summary of a cash session ----

  datatype Tally = Tally(count: nat, total: Cents)

  predicate InWindow(s: Sale, till: CashSession, now: int)
  {
    till.openedAt <= s.createdAt <= if till.closedAt.Some? then till.closedAt.value else now
  }

  /** The row of the summary for one payment method: sales created while the session was open. */
  function Summary(sales: seq<Sale>, till: CashSession, now: int, payment: string): Tally
  {
    if sales == [] then Tally(0, 0)
    else
      var s, t := sales[|sales| - 1], Summary(sales[..|sales| - 1], till, now, payment);
      if s.payment == payment && InWindow(s, till, now) then Tally(t.count + 1, t.total + s.total) else t
  }

  /** The income movements of one session that come from a sale. */
  function SaleIncome(cash: seq<CashMovement>, session: Id): Tally
  {
    if cash == [] then Tally(0, 0)
    else
      var m, t := cash[|cash| - 1], SaleIncome(cash[..|cash| - 1], session);
      if m.till == session && m.kind.Income? && m.saleId.Some? then Tally(t.count + 1, t.total + m.amount) else t
  }

  lemma {:induction false} SummaryStable(sales: seq<Sale>, a: CashSession, now: int, b: CashSession, later: int, payment: string)
    requires forall s :: s in sales ==> (InWindow(s, a, now) <==> InWindow(s, b, later))
    ensures Summary(sales, a, now, payment) == Summary(sales, b, later, payment)
  {
    if sales != [] {
      assert sales[|sales| - 1] in sales;
      SummaryStable(sales[..|sales| - 1], a, now, b, later, payment);
    }
  }

  lemma {:induction false} SummaryEmpty(sales: seq<Sale>, till: CashSession, now: int, payment: string)
    requires forall s :: s in sales ==> !InWindow(s, till, now)
    ensures Summary(sales, till, now, payment) == Tally(0, 0)
  {
    if sales != [] {
      assert sales[|sales| - 1] in sales;
      SummaryEmpty(sales[..|sales| - 1], till, now, payment);
    }
  }

  lemma {:induction false} NoMovements(cash: seq<CashMovement>, session: Id)
    requires forall m :: m in cash ==> m.till != session
    ensures SaleIncome(cash, session) == Tally(0, 0) && CashTotal(cash, session) == 0
  {
    if cash != [] {
      assert cash[|cash| - 1] in cash;
      NoMovements(cash[..|cash| - 1], session);
    }
  }

  lemma MovementAppend(cash: seq<CashMovement>, m: CashMovement, session: Id)
    ensures CashTotal(cash + [m], session) == CashTotal(cash, session)
      + if m.till != session then 0 else if m.kind.Income? then m.amount else -m.amount
    ensures SaleIncome(cash + [m], session)
      == (var t := SaleIncome(cash, session);
          if m.till == session && m.kind.Income? && m.saleId.Some? then Tally(t.count + 1, t.total + m.amount) else t)
  {
    assert (cash + [m])[..|cash|] == cash;
  }

  lemma SummaryAppend(sales: seq<Sale>, s: Sale, till: CashSession, now: int, payment: string)
    ensures Summary(sales + [s], till, now, payment)
      == (var t := Summary(sales, till, now, payment);
          if s.payment == payment && InWindow(s, till, now) then Tally(t.count + 1, t.total + s.total) else t)
  {
    assert (sales + [s])[..|sales|] == sales;
  }

  // ---- Cash sessions ----

  predicate Precedes(a: CashSession, b: CashSession)
  {
    a.closedAt.Some? && a.closedAt.value < b.openedAt
  }

  /** Sessions do not overlap and only the newest may be open. */
  ghost predicate TillsOrdered(tills: seq<CashSession>, last: int)
  {
    && (forall i, j :: 0 <= i < j < |tills| ==> Precedes(tills[i], tills[j]))
    && (forall i :: 0 <= i < |tills| ==>
          && tills[i].openedAt <= last
          && (tills[i].closedAt.Some? ==> tills[i].openedAt <= tills[i].closedAt.value <= last))
  }

  /** The expected amount of a closed session accounts for every movement the session has. */
  ghost predicate ExpectedAddsUp(tills: seq<CashSession>, cash: seq<CashMovement>)
  {
    && (forall m :: m in cash ==> m.till < |tills|)
    && (forall i :: 0 <= i < |tills| && tills[i].closedAt.Some? ==>
          tills[i].expected == Some(tills[i].opening + CashTotal(cash, i)))
  }

  ghost predicate TillsSound(db: Db, last: int)
  {
    && TillsOrdered(db.tills, last)
    && ExpectedAddsUp(db.tills, db.cash)
    && forall s :: s in db.sales ==> s.createdAt <= last
  }

  /** The cash row of every session's summary tallies the session's own sale movements. */
  ghost predicate SummariesAgree(db: Db, last: int)
  {
    forall i :: 0 <= i < |db.tills| ==> Summary(db.sales, db.tills[i], last, CASH) == SaleIncome(db.cash, i)
  }

  /** The effects the calls have on cash sessions use the session that is open at the call. */
  ghost predicate AtomicTill(db: Db, e: Effect, now: int)
  {
    && (e.Book? ==> e.till == OpenTill(db.tills) && e.at == now)
    && (e.Pay? ==> e.till.Some? ==> e.till == OpenTill(db.tills))
    && (e.OpenSession? || e.CloseSession? ==> e.at == now)
  }

  lemma CashAppended(db: Db, e: Effect)
    requires Legal(db, e)
    ensures var after := Perform(db, e);
      after.cash == db.cash || (|after.cash| == |db.cash| + 1 && after.cash == db.cash + [after.cash[|db.cash|]])
  {
  }

  /** A movement of the open session leaves the closed sessions' sums alone. */
  lemma MovementKeepsExpected(tills: seq<CashSession>, cash: seq<CashMovement>, m: CashMovement)
    requires ExpectedAddsUp(tills, cash) && m.till < |tills| && tills[m.till].closedAt.None?
    ensures ExpectedAddsUp(tills, cash + [m])
  {
    forall i {
      MovementAppend(cash, m, i);
    }
  }

  lemma EffectKeepsExpected(db: Db, e: Effect, last: int, now: int)
    requires Legal(db, e) && AtomicTill(db, e, now) && TillsSound(db, last) && last < now
    ensures ExpectedAddsUp(Perform(db, e).tills, Perform(db, e).cash)
  {
    CashAppended(db, e);
    var cash := Perform(db, e).cash;
    if cash != db.cash {
      MovementKeepsExpected(db.tills, db.cash, cash[|db.cash|]);
    }
  }

  lemma EffectKeepsTills(db: Db, e: Effect, last: int, now: int)
    requires Legal(db, e) && AtomicTill(db, e, now) && TillsSound(db, last) && last < now
    ensures TillsSound(Perform(db, e), now)
  {
    EffectKeepsExpected(db, e, last, now);
    EffectKeepsOrder(db, e, last, now);
    if e.Book? {
      assert Perform(db, e).sales == db.sales + [Perform(db, e).sales[|db.sales|]];
    }
  }

  /** A session opened when none is open comes after all the others. */
  lemma OpenKeepsOrder(tills: seq<CashSession>, last: int, now: int, opening: nat)
    requires TillsOrdered(tills, last) && OpenTill(tills).None? && last < now
    ensures TillsOrdered(tills + [CashSession(opening, now, None, None, None)], now)
  {
    var after := tills + [CashSession(opening, now, None, None, None)];
    forall i, j | 0 <= i < j < |after| ensures Precedes(after[i], after[j]) {
      assert after[i] == tills[i] && tills[i].closedAt.Some?;
      if j < |tills| {
        assert Precedes(tills[i], tills[j]);
      }
    }
  }

  lemma CloseKeepsOrder(tills: seq<CashSession>, last: int, now: int, s: Id, row: CashSession)
    requires TillsOrdered(tills, last) && last < now && s < |tills| && tills[s].closedAt.None?
    requires row.openedAt == tills[s].openedAt && row.closedAt == Some(now)
    ensures TillsOrdered(tills[s := row], now)
  {
    assert !Precedes(tills[s], tills[|tills| - 1]);
    var after := tills[s := row];
    forall i, j | 0 <= i < j < |after| ensures Precedes(after[i], after[j]) {
      assert Precedes(tills[i], tills[j]);
    }
  }

  lemma EffectKeepsOrder(db: Db, e: Effect, last: int, now: int)
    requires Legal(db, e) && AtomicTill(db, e, now) && TillsOrdered(db.tills, last) && last < now
    ensures TillsOrdered(Perform(db, e).tills, now)
  {
    var after := Perform(db, e).tills;
    if e.OpenSession? {
      OpenKeepsOrder(db.tills, last, now, e.opening);
    } else if e.CloseSession? {
      CloseKeepsOrder(db.tills, last, now, e.session, after[e.session]);
    } else {
      OrderLater(db.tills, last, now);
    }
  }

  lemma OrderLater(tills: seq<CashSession>, last: int, now: int)
    requires TillsOrdered(tills, last) && last <= now
    ensures TillsOrdered(tills, now)
  {
  }

  lemma EffectKeepsSummaries(db: Db, e: Effect, last: int, now: int)
    requires Legal(db, e) && AtomicTill(db, e, now) && TillsSound(db, last) && last < now
    requires SummariesAgree(db, last)
    ensures SummariesAgree(Perform(db, e), now)
  {
    var after := Perform(db, e);
    CashAppended(db, e);
    forall i | 0 <= i < |after.tills|
      ensures Summary(after.sales, after.tills[i], now, CASH) == SaleIncome(after.cash, i)
    {
      if i < |db.tills| {
        SummaryStable(db.sales, db.tills[i], last, after.tills[i], now, CASH);
      } else {
        SummaryEmpty(db.sales, after.tills[i], now, CASH);
        NoMovements(db.cash, i);
      }
      if after.cash != db.cash {
        MovementAppend(db.cash, after.cash[|db.cash|], i);
      }
      if e.Book? {
        assert after.sales == db.sales + [after.sales[|db.sales|]];
        SummaryAppend(db.sales, after.sales[|db.sales|], after.tills[i], now, CASH);
      }
    }
  }

  lemma CallKeepsTills(db: Db, call: Call, last: int, now: int)
    requires TillsSound(db, last) && SummariesAgree(db, last) && last < now
    ensures TillsSound(Apply(db, call, now), now) && SummariesAgree(Apply(db, call, now), now)
  {
    var e := EffectOfCall(db, call, now);
    if e.Some? {
      EffectKeepsTills(db, e.value, last, now);
      EffectKeepsSummaries(db, e.value, last, now);
    } else {
      forall i | 0 <= i < |db.tills|
        ensures Summary(db.sales, db.tills[i], now, CASH) == SaleIncome(db.cash, i)
      {
        SummaryStable(db.sales, db.tills[i], last, db.tills[i], now, CASH);
      }
    }
  }

  lemma {:induction false} CallsKeepTills(db: Db, first: int, calls: seq<TimedCall>)
    requires TillsSound(db, first) && SummariesAgree(db, first) && Ticking(first, calls)
    ensures TillsSound(ApplyAll(db, calls), LastTick(first, calls))
    ensures SummariesAgree(ApplyAll(db, calls), LastTick(first, calls))
  {
    if calls != [] {
      var front, c := calls[..|calls| - 1], calls[|calls| - 1];
      CallsKeepTills(db, first, front);
      CallKeepsTills(ApplyAll(db, front), c.call, LastTick(first, front), c.now);
    }
  }

  lemma OrderedOneOpen(tills: seq<CashSession>, last: int)
    requires TillsOrdered(tills, last)
    ensures OneOpenTill(tills)
  {
    forall i | 0 <= i < |tills| - 1 ensures tills[i].closedAt.Some? {
      assert Precedes(tills[i], tills[|tills| - 1]);
    }
  }

  /** After any calls: at most one open session, and a closed one expects opening plus income less expense. */
  lemma TillsBalance(db: Db, first: int, calls: seq<TimedCall>, session: Id)
    requires TillsSound(db, first) && SummariesAgree(db, first) && Ticking(first, calls)
    ensures OneOpenTill(ApplyAll(db, calls).tills)
    ensures var end := ApplyAll(db, calls);
      session < |end.tills| && end.tills[session].closedAt.Some? ==>
        end.tills[session].expected == Some(end.tills[session].opening + CashTotal(end.cash, session))
  {
    CallsKeepTills(db, first, calls);
    OrderedOneOpen(ApplyAll(db, calls).tills, LastTick(first, calls));
  }

  /** The cash row of the summary, selected by time, and the sale movements, selected by session, agree
      in count and total whenever it is asked for. */
  lemma CashRowMatchesMovements(db: Db, first: int, calls: seq<TimedCall>, session: Id, asked: int)
    requires TillsSound(db, first) && SummariesAgree(db, first) && Ticking(first, calls)
    requires session < |ApplyAll(db, calls).tills| && LastTick(first, calls) <= asked
    ensures var end := ApplyAll(db, calls);
      Summary(end.sales, end.tills[session], asked, CASH) == SaleIncome(end.cash, session)
  {
    CallsKeepTills(db, first, calls);
    var end := ApplyAll(db, calls);
    SummaryStable(end.sales, end.tills[session], LastTick(first, calls), end.tills[session], asked, CASH);
  }

  // ---- What holds in every interleaving holds for calls one at a time, and a little more ----

  lemma CallKeepsConsistent(db: Db, call: Call, now: int)
    requires Consistent(db) && InvoicedIffLinked(db)
    ensures Consistent(Apply(db, call, now)) && InvoicedIffLinked(Apply(db, call, now))
  {
    var e := EffectOfCall(db, call, now);
    if e.Some? {
      EffectKeepsConsistent(db, e.value);
      CallKeepsStatus(db, e.value);
    }
  }

  lemma {:induction false} CallsKeepConsistent(db: Db, calls: seq<TimedCall>)
    requires Consistent(db) && InvoicedIffLinked(db)
    ensures Consistent(ApplyAll(db, calls)) && InvoicedIffLinked(ApplyAll(db, calls))
  {
    if calls != [] {
      CallsKeepConsistent(db, calls[..|calls| - 1]);
      CallKeepsConsistent(ApplyAll(db, calls[..|calls| - 1]), calls[|calls| - 1].call, calls[|calls| - 1].now);
    }
  }

  lemma CallKeepsStatus(db: Db, e: Effect)
    requires Legal(db, e) && NotesLinked(db) && InvoicedIffLinked(db)
    requires e.CancelNote? ==> db.notes[e.note].status.Pending?
    ensures InvoicedIffLinked(Perform(db, e))
  {
    var after := Perform(db, e);
    if e.Book? {
      assert forall n :: 0 <= n < |db.notes| && Some(n) != e.req.note ==> after.notes[n] == db.notes[n];
    }
  }

  /** With calls taken one at a time, a note is invoiced exactly when it has a link, and the linked sale
      was made from it for the same customer. */
  lemma InvoicedNoteHasItsSale(db: Db, calls: seq<TimedCall>, n: Id)
    requires Consistent(db) && InvoicedIffLinked(db) && n < |ApplyAll(db, calls).notes|
    ensures var end := ApplyAll(db, calls);
      && (end.notes[n].status.Invoiced? <==> end.notes[n].saleId.Some?)
      && (end.notes[n].saleId.Some? ==>
            && end.notes[n].saleId.value < |end.sales|
            && end.sales[end.notes[n].saleId.value].fromNote == Some(n)
            && end.sales[end.notes[n].saleId.value].customer == end.notes[n].customer)
  {
    CallsKeepConsistent(db, calls);
  }

  // ---- Ledgers ----

  function DebitTotal(debits: seq<AccountMovement>, c: Id): Cents
  {
    if debits == [] then 0
    else
      var m := debits[|debits| - 1];
      DebitTotal(debits[..|debits| - 1], c) + if m.customer == c then m.amount else 0
  }

  function Payments(movements: seq<AccountMovement>, c: Id): Cents
  {
    if movements == [] then 0
    else
      var m := movements[|movements| - 1];
      Payments(movements[..|movements| - 1], c) + if m.customer == c && m.kind.Credit? then m.amount else 0
  }

  function AccountSales(sales: seq<Sale>, c: Id): Cents
  {
    if sales == [] then 0
    else
      var s := sales[|sales| - 1];
      AccountSales(sales[..|sales| - 1], c) + if s.customer == c && s.payment == ACCOUNT then s.total else 0
  }

  lemma DebitTotalAppend(debits: seq<AccountMovement>, m: AccountMovement, c: Id)
    ensures DebitTotal(debits + [m], c) == DebitTotal(debits, c) + if m.customer == c then m.amount else 0
  {
    assert (debits + [m])[..|debits|] == debits;
  }

  lemma {:induction false} BalanceSplits(movements: seq<AccountMovement>, c: Id)
    ensures Balance(movements, c) == DebitTotal(Debits(movements), c) - Payments(movements, c)
  {
    if movements != [] {
      var front, m := movements[..|movements| - 1], movements[|movements| - 1];
      BalanceSplits(front, c);
      if m.kind.Debit? {
        assert Debits(movements) == Debits(front) + [m];
        DebitTotalAppend(Debits(front), m, c);
      } else {
        assert Debits(movements) == Debits(front);
      }
    }
  }

  lemma {:induction false} DebitsOfSales(sales: seq<Sale>, c: Id)
    ensures DebitTotal(AccountDebits(sales), c) == AccountSales(sales, c)
  {
    if sales != [] {
      var id := |sales| - 1;
      DebitsOfSales(sales[..id], c);
      DebitTotalAppend(AccountDebits(sales[..id]),
                       AccountMovement(sales[id].customer, Debit, sales[id].total, Some(id)), c);
      assert AccountDebits(sales[..id]) + [] == AccountDebits(sales[..id]);
    }
  }

  /** A customer owes what was sold to them on account less what they paid. */
  lemma BalanceIsSalesLessPayments(db: Db, c: Id)
    requires LedgerMatchesSales(db)
    ensures Balance(db.movements, c) == AccountSales(db.sales, c) - Payments(db.movements, c)
  {
    BalanceSplits(db.movements, c);
    DebitsOfSales(db.sales, c);
  }

  /** The rows the outer join yields for a customer: their movements, or one row of nulls. */
  function JoinRows(movements: seq<AccountMovement>, c: Id): seq<Option<AccountMovement>>
  {
    var own := Matching(movements, c);
    if own == [] then [None] else own
  }

  function Matching(movements: seq<AccountMovement>, c: Id): seq<Option<AccountMovement>>
  {
    if movements == [] then []
    else
      var m := movements[|movements| - 1];
      Matching(movements[..|movements| - 1], c) + if m.customer == c then [Some(m)] else []
  }

  /** SUM(CASE WHEN type = kind THEN amount ELSE 0 END); a row of nulls falls to the ELSE. */
  function SumCase(rows: seq<Option<AccountMovement>>, kind: AccountKind): Cents
  {
    if rows == [] then 0
    else
      var r := rows[|rows| - 1];
      SumCase(rows[..|rows| - 1], kind) + if r.Some? && r.value.kind == kind then r.value.amount else 0
  }

  function ListBalances(db: Db): map<Id, Cents>
  {
    map c | c in db.customers ::
      SumCase(JoinRows(db.movements, c), Debit) - SumCase(JoinRows(db.movements, c), Credit)
  }

  lemma SumCaseAppend(rows: seq<Option<AccountMovement>>, m: AccountMovement, kind: AccountKind)
    ensures SumCase(rows + [Some(m)], kind) == SumCase(rows, kind) + if m.kind == kind then m.amount else 0
  {
    assert (rows + [Some(m)])[..|rows|] == rows;
  }

  lemma {:induction false} MatchingBalance(movements: seq<AccountMovement>, c: Id)
    ensures SumCase(Matching(movements, c), Debit) - SumCase(Matching(movements, c), Credit) == Balance(movements, c)
  {
    if movements != [] {
      var front, m := movements[..|movements| - 1], movements[|movements| - 1];
      MatchingBalance(front, c);
      if m.customer == c {
        SumCaseAppend(Matching(front, c), m, Debit);
        SumCaseAppend(Matching(front, c), m, Credit);
        assert Matching(movements, c) == Matching(front, c) + [Some(m)];
      } else {
        assert Matching(movements, c) == Matching(front, c);
      }
    }
  }

  /** The one-query listing has every customer, movements or not, with the balance the per-customer query gives. */
  lemma ListingMatchesBalances(db: Db)
    ensures ListBalances(db).Keys == db.customers.Keys
    ensures forall c :: c in db.customers ==> ListBalances(db)[c] == Balance(db.movements, c)
  {
    forall c | c in db.customers ensures ListBalances(db)[c] == Balance(db.movements, c) {
      MatchingBalance(db.movements, c);
      var nulls: seq<Option<AccountMovement>> := [None];
      assert nulls[..0] == [];
      assert SumCase(nulls, Debit) == 0 && SumCase(nulls, Credit) == 0;
    }
  }
}
