/** From the committed sales to the daily counters: the database and the pipeline put together. */
module EndToEnd {
  import opened Prelude
  import opened Model
  import opened Sales
  import opened Effects
  import opened Pipeline
  import opened Counting

  /** Units of a product over the first k lines of a sale. */
  function UnitsIn(items: seq<PricedLine>, k: nat, product: Id): int
    requires k <= |items|
  {
    if k == 0 then 0
    else UnitsIn(items, k - 1, product) + if items[k - 1].line.product == product then items[k - 1].line.quantity else 0
  }

  /** Between midnight and midnight of a calendar day. */
  predicate OnDay(at: int, day: int)
  {
    day * (24 * 3600 * 1_000_000) <= at < (day + 1) * (24 * 3600 * 1_000_000)
  }

  /** Units of the key's product over the tenant's sales of the key's calendar day. */
  function SoldOnDay(tenant: Id, sales: seq<Sale>, key: DailyKey): int
  {
    if sales == [] then 0
    else
      var s := sales[|sales| - 1];
      SoldOnDay(tenant, sales[..|sales| - 1], key)
      + if tenant == key.tenant && OnDay(s.createdAt, key.day) then UnitsIn(s.items, |s.items|, key.product) else 0
  }

  lemma {:induction false} EventUnits(tenant: Id, s: Sale, k: nat, key: DailyKey)
    requires k <= |s.items|
    ensures Units(EventOf(tenant, s), k, key)
         == if tenant == key.tenant && OnDay(s.createdAt, key.day) then UnitsIn(s.items, k, key.product) else 0
  {
    DayIs(s.createdAt, key.day);
    if k > 0 {
      EventUnits(tenant, s, k - 1, key);
    }
  }

  lemma {:induction false} EventTotals(tenant: Id, sales: seq<Sale>, key: DailyKey)
    ensures Total(EventsOf(tenant, sales), key) == SoldOnDay(tenant, sales, key)
  {
    if sales != [] {
      var front, s := sales[..|sales| - 1], sales[|sales| - 1];
      EventTotals(tenant, front, key);
      assert EventsOf(tenant, sales)[..|front|] == EventsOf(tenant, front);
      EventUnits(tenant, s, |s.items|, key);
    }
  }

  /** The tenant's sale events in an outbox that all tenants share. */
  function TenantSaleRows(rows: seq<OutboxRow>, tenant: Id): seq<OutboxRow>
  {
    if rows == [] then []
    else
      var row := rows[|rows| - 1];
      TenantSaleRows(rows[..|rows| - 1], tenant)
      + if row.eventType == SALE_EVENT && row.aggregate == tenant then [row] else []
  }

  lemma TotalAppend(rows: seq<OutboxRow>, row: OutboxRow, key: DailyKey)
    ensures Total(rows + [row], key) == Total(rows, key) + if SaleRow(row) then Units(row, |row.lines.value|, key) else 0
  {
    assert (rows + [row])[..|rows|] == rows;
  }

  /** Rows of other types and of other tenants count for nothing. */
  lemma {:induction false} OtherRowsCountNothing(rows: seq<OutboxRow>, key: DailyKey)
    ensures Total(rows, key) == Total(TenantSaleRows(rows, key.tenant), key)
  {
    if rows != [] {
      var front, row := rows[..|rows| - 1], rows[|rows| - 1];
      OtherRowsCountNothing(front, key);
      assert rows == front + [row];
      TotalAppend(front, row, key);
      if row.eventType == SALE_EVENT && row.aggregate == key.tenant {
        TotalAppend(TenantSaleRows(front, key.tenant), row, key);
        assert TenantSaleRows(rows, key.tenant) == TenantSaleRows(front, key.tenant) + [row];
      } else {
        assert TenantSaleRows(rows, key.tenant) == TenantSaleRows(front, key.tenant);
        if SaleRow(row) {
          ForeignUnits(row, |row.lines.value|, key);
        }
      }
    }
  }

  /** What the shared outbox announces for a tenant is what the tenant sold. */
  lemma OutboxTotals(db: Db, rows: seq<OutboxRow>, key: DailyKey)
    requires EventsMatchSales(db) && key.tenant == db.tenant && TenantSaleRows(rows, db.tenant) == SaleRows(db.outbox)
    ensures Total(rows, key) == SoldOnDay(db.tenant, db.sales, key)
  {
    OtherRowsCountNothing(rows, key);
    EventTotals(db.tenant, db.sales, key);
  }

  ghost predicate CountersAreSales(db: Db, s: Sys)
  {
    forall key: DailyKey :: key.tenant == db.tenant ==>
      Counter(s, key) == SoldOnDay(db.tenant, db.sales, key)
  }

  /** From an empty pipeline, with any number of tenants sharing the outbox: any history of committed
      transactions on a tenant's consistent database and any timely run that drains an outbox whose sale
      events of that tenant are, in order, the ones it wrote. Each of the tenant's daily counters equals the
      units of its committed sale lines, exactly when no handling of its events was cut short and none of its
      products with additions was ever idle for 180 days. */
  lemma SalesReachCounters(start: Db, es: seq<Effect>, s: Sys, ls: seq<Label>)
    requires Consistent(start) && LegalHistory(start, es)
    requires Empty(s) && Run(s, ls) && TimelyRun(s, ls) && Drained(Last(s, ls))
    requires TenantSaleRows(Last(s, ls).rows, Replay(start, es).tenant) == SaleRows(Replay(start, es).outbox)
    ensures var db, end := Replay(start, es), Last(s, ls);
      CountersAreSales(db, end) <==> Unbroken(end, db.tenant) && AllRetained(end, db.tenant)
  {
    HistoryKeepsConsistent(start, es);
    DrainedTotals(s, ls);
    var db, end := Replay(start, es), Last(s, ls);
    forall key: DailyKey | key.tenant == db.tenant ensures Total(end.rows, key) == SoldOnDay(db.tenant, db.sales, key) {
      OutboxTotals(db, end.rows, key);
    }
    assert CountersAreSales(db, end) <==> TotalsRight(end, db.tenant);
  }
}
