/** The migration that numbers the sales a database already holds, for all tenants at once. */
module Migration {
  import opened Prelude
  import opened Model
  import opened Effects

  /** number is the new column, null until it is filled. */
  datatype SaleRow = SaleRow(tenant: Id, createdAt: int, number: Option<int>)

  type Ranks = map<Id, int>

  function Count(counts: map<Id, nat>, t: Id): nat
  {
    if t in counts then counts[t] else 0
  }

  predicate HasRank(sales: map<Id, SaleRow>, ranks: Ranks, t: Id, n: int)
  {
    exists id :: id in ranks && id in sales && sales[id].tenant == t && ranks[id] == n
  }

  predicate RanksBounded(sales: map<Id, SaleRow>, ranks: Ranks, counts: map<Id, nat>)
    requires ranks.Keys <= sales.Keys
  {
    forall id :: id in ranks ==> 1 <= ranks[id] <= Count(counts, sales[id].tenant)
  }

  predicate RanksOrdered(sales: map<Id, SaleRow>, ranks: Ranks)
    requires ranks.Keys <= sales.Keys
  {
    forall a, b :: a in ranks && b in ranks && a != b && sales[a].tenant == sales[b].tenant ==>
      ranks[a] != ranks[b] && (sales[a].createdAt < sales[b].createdAt ==> ranks[a] < ranks[b])
  }

  ghost predicate RanksComplete(sales: map<Id, SaleRow>, ranks: Ranks, counts: map<Id, nat>)
  {
    forall t, n :: 1 <= n <= Count(counts, t) ==> HasRank(sales, ranks, t, n)
  }

  /** Every tenant's ranked sales carry 1, ..., count, each once, in the order of their dates. */
  ghost predicate Ranked(sales: map<Id, SaleRow>, ranks: Ranks, counts: map<Id, nat>)
  {
    && ranks.Keys <= sales.Keys && RanksBounded(sales, ranks, counts)
    && RanksOrdered(sales, ranks) && RanksComplete(sales, ranks, counts)
  }

  ghost predicate Earliest(sales: map<Id, SaleRow>, ids: set<Id>, id: Id)
    requires ids <= sales.Keys
  {
    id in ids && forall j :: j in ids ==> sales[id].createdAt <= sales[j].createdAt
  }

  lemma {:induction false} EarliestExists(sales: map<Id, SaleRow>, ids: set<Id>)
    requires ids <= sales.Keys && ids != {}
    ensures exists id :: Earliest(sales, ids, id)
  {
    var x :| x in ids;
    var rest := ids - {x};
    if rest == {} {
      assert ids == {x};
      assert Earliest(sales, ids, x);
    } else {
      EarliestExists(sales, rest);
      var y :| Earliest(sales, rest, y);
      assert forall j :: j in ids ==> j == x || j in rest;
      assert Earliest(sales, ids, if sales[x].createdAt <= sales[y].createdAt then x else y);
    }
  }

  lemma NextBounded(sales: map<Id, SaleRow>, ranks: Ranks, counts: map<Id, nat>, id: Id)
    requires ranks.Keys <= sales.Keys && RanksBounded(sales, ranks, counts) && id in sales && id !in ranks
    ensures var t := sales[id].tenant;
      RanksBounded(sales, ranks[id := Count(counts, t) + 1], counts[t := Count(counts, t) + 1])
  {
  }

  lemma NextOrdered(sales: map<Id, SaleRow>, ranks: Ranks, id: Id, rank: int)
    requires ranks.Keys <= sales.Keys && RanksOrdered(sales, ranks) && id in sales && id !in ranks
    requires forall a :: a in ranks && sales[a].tenant == sales[id].tenant ==> ranks[a] < rank
    requires forall a :: a in ranks ==> sales[a].createdAt <= sales[id].createdAt
    ensures RanksOrdered(sales, ranks[id := rank])
  {
  }

  lemma NextComplete(sales: map<Id, SaleRow>, ranks: Ranks, counts: map<Id, nat>, id: Id)
    requires RanksComplete(sales, ranks, counts) && id in sales && id !in ranks
    ensures var t := sales[id].tenant;
      RanksComplete(sales, ranks[id := Count(counts, t) + 1], counts[t := Count(counts, t) + 1])
  {
    var t := sales[id].tenant;
    var ranks', counts' := ranks[id := Count(counts, t) + 1], counts[t := Count(counts, t) + 1];
    forall u, n | 1 <= n <= Count(counts', u) ensures HasRank(sales, ranks', u, n) {
      if u == t && n == Count(counts, t) + 1 {
        assert ranks'[id] == n;
      } else {
        assert HasRank(sales, ranks, u, n);
        var a :| a in ranks && a in sales && sales[a].tenant == u && ranks[a] == n;
        assert ranks'[a] == n;
      }
    }
  }

  lemma RankNext(sales: map<Id, SaleRow>, ranks: Ranks, counts: map<Id, nat>, id: Id)
    requires Ranked(sales, ranks, counts) && id in sales && id !in ranks
    requires forall a :: a in ranks ==> sales[a].createdAt <= sales[id].createdAt
    ensures var t := sales[id].tenant;
      Ranked(sales, ranks[id := Count(counts, t) + 1], counts[t := Count(counts, t) + 1])
  {
    NextBounded(sales, ranks, counts, id);
    NextOrdered(sales, ranks, id, Count(counts, sales[id].tenant) + 1);
    NextComplete(sales, ranks, counts, id);
  }

  /** ROW_NUMBER() OVER (PARTITION BY tenant_id ORDER BY created_at): equal dates in any order. */
  method RowNumbers(sales: map<Id, SaleRow>) returns (ranks: Ranks, ghost counts: map<Id, nat>)
    ensures ranks.Keys == sales.Keys && Ranked(sales, ranks, counts)
  {
    ranks := map[];
    var seen: map<Id, nat> := map[];
    var remaining := sales.Keys;
    while remaining != {}
      invariant remaining <= sales.Keys && ranks.Keys == sales.Keys - remaining
      invariant Ranked(sales, ranks, seen)
      invariant forall a, b :: a in ranks && b in remaining ==> sales[a].createdAt <= sales[b].createdAt
      decreases remaining
    {
      EarliestExists(sales, remaining);
      ghost var e :| Earliest(sales, remaining, e);
      assert e in remaining && forall j :: j in remaining ==> sales[e].createdAt <= sales[j].createdAt;
      var id :| id in remaining && forall j :: j in remaining ==> sales[id].createdAt <= sales[j].createdAt;
      var t := sales[id].tenant;
      RankNext(sales, ranks, seen, id);
      ranks := ranks[id := Count(seen, t) + 1];
      seen := seen[t := Count(seen, t) + 1];
      remaining := remaining - {id};
    }
    counts := seen;
  }

  predicate HasNumber(sales: map<Id, SaleRow>, t: Id, n: int)
  {
    exists id :: id in sales && sales[id].tenant == t && sales[id].number == Some(n)
  }

  /** The tenant's sales carry exactly 1, ..., next - 1, each once, in the order of their dates. */
  ghost predicate NumberedFor(sales: map<Id, SaleRow>, t: Id, next: int)
  {
    && 1 <= next
    && (forall id :: id in sales && sales[id].tenant == t ==>
          sales[id].number.Some? && 1 <= sales[id].number.value < next)
    && (forall a, b :: a in sales && b in sales && a != b && sales[a].tenant == t == sales[b].tenant ==>
          sales[a].number != sales[b].number
          && (sales[a].createdAt < sales[b].createdAt ==> sales[a].number.value < sales[b].number.value))
    && (forall n :: 1 <= n < next ==> HasNumber(sales, t, n))
  }

  /** Listed in any order, the tenant's numbers are gapless up to its counter: the state from which every
      later sale keeps them so. */
  lemma MigratedIsGapless(sales: map<Id, SaleRow>, t: Id, next: int, ids: seq<Id>)
    requires NumberedFor(sales, t, next)
    requires NoDuplicates(ids) && forall id :: id in ids <==> id in sales && sales[id].tenant == t
    ensures Gapless(NumbersOf(sales, ids), next)
  {
    var numbers := NumbersOf(sales, ids);
    forall i, j | 0 <= i < j < |numbers| ensures numbers[i] != numbers[j] {
      assert ids[i] in ids && ids[j] in ids;
    }
    forall n ensures n in numbers <==> 1 <= n < next {
      if 1 <= n < next {
        assert HasNumber(sales, t, n);
        var id :| id in sales && sales[id].tenant == t && sales[id].number == Some(n);
        var i :| 0 <= i < |ids| && ids[i] == id;
        assert numbers[i] == n;
      }
      if n in numbers {
        var i :| 0 <= i < |numbers| && numbers[i] == n;
        assert ids[i] in ids;
      }
    }
  }

  function NumbersOf(sales: map<Id, SaleRow>, ids: seq<Id>): (r: seq<int>)
    ensures |r| == |ids|
  {
    seq(|ids|, i requires 0 <= i < |ids| =>
      if ids[i] in sales && sales[ids[i]].number.Some? then sales[ids[i]].number.value else 0)
  }

  /** The rows with their ranks filled in. */
  function Filled(sales: map<Id, SaleRow>, ranks: Ranks): map<Id, SaleRow>
  {
    map id | id in sales :: if id in ranks then sales[id].(number := Some(ranks[id])) else sales[id]
  }

  lemma RankedIsNumbered(sales: map<Id, SaleRow>, ranks: Ranks, counts: map<Id, nat>, t: Id)
    requires ranks.Keys == sales.Keys && Ranked(sales, ranks, counts)
    ensures NumberedFor(Filled(sales, ranks), t, Count(counts, t) + 1)
  {
    var filled := Filled(sales, ranks);
    forall n | 1 <= n < Count(counts, t) + 1 ensures HasNumber(filled, t, n) {
      assert HasRank(sales, ranks, t, n);
      var id :| id in ranks && id in sales && sales[id].tenant == t && ranks[id] == n;
      assert filled[id].number == Some(n);
    }
  }

  /** m is MAX(sale_number) of the tenant's group. */
  ghost predicate IsMax(sales: map<Id, SaleRow>, t: Id, m: int)
  {
    HasNumber(sales, t, m) && forall n :: HasNumber(sales, t, n) ==> n <= m
  }

  /** The counter is one more than the largest number, or stays at its default without sales. */
  lemma MaxIsLast(sales: map<Id, SaleRow>, t: Id, next: int)
    requires NumberedFor(sales, t, next)
    ensures (exists id :: id in sales && sales[id].tenant == t) <==> 1 < next
    ensures forall m :: IsMax(sales, t, m) ==> m + 1 == next
    ensures 1 < next ==> IsMax(sales, t, next - 1)
  {
    if 1 < next {
      assert HasNumber(sales, t, next - 1);
    }
  }

  ghost predicate MaxOf(sales: map<Id, SaleRow>, t: Id, max: Option<int>)
  {
    && (max.None? <==> forall id :: id in sales ==> sales[id].tenant != t)
    && (max.Some? ==> IsMax(sales, t, max.value))
  }

  /** One more than the tenant's largest number, or the default without sales. */
  ghost predicate IsCounter(sales: map<Id, SaleRow>, t: Id, next: int)
  {
    (MaxOf(sales, t, None) && next == 1) || MaxOf(sales, t, Some(next - 1))
  }

  lemma CounterIsNext(sales: map<Id, SaleRow>, t: Id, next: int, counter: int)
    requires NumberedFor(sales, t, next) && IsCounter(sales, t, counter)
    ensures counter == next
  {
    MaxIsLast(sales, t, next);
  }

  /** MAX(sale_number) over the tenant's group, found by going through the rows. */
  method MaxNumber(sales: map<Id, SaleRow>, t: Id) returns (max: Option<int>)
    requires forall id :: id in sales ==> sales[id].number.Some?
    ensures MaxOf(sales, t, max)
  {
    max := None;
    var remaining := sales.Keys;
    while remaining != {}
      invariant remaining <= sales.Keys
      invariant max.None? <==> forall id :: id in sales.Keys - remaining ==> sales[id].tenant != t
      invariant max.Some? ==> HasNumber(sales, t, max.value)
      invariant max.Some? ==> forall id :: id in sales.Keys - remaining && sales[id].tenant == t ==>
        sales[id].number.value <= max.value
      decreases remaining
    {
      var id :| id in remaining;
      if sales[id].tenant == t && (max.None? || max.value < sales[id].number.value) {
        max := sales[id].number;
      }
      remaining := remaining - {id};
    }
  }

  /** The second UPDATE: each tenant with sales gets its largest number plus one, the others keep the default. */
  method FillCounters(sales: map<Id, SaleRow>, tenants: set<Id>) returns (next: map<Id, int>)
    requires forall id :: id in sales ==> sales[id].number.Some?
    ensures next.Keys == tenants && forall t :: t in tenants ==> IsCounter(sales, t, next[t])
  {
    next := map[];
    var remaining := tenants;
    while remaining != {}
      invariant remaining <= tenants && next.Keys == tenants - remaining
      invariant forall t :: t in next ==> IsCounter(sales, t, next[t])
      decreases remaining
    {
      var t :| t in remaining;
      var max := MaxNumber(sales, t);
      next := next[t := if max.Some? then max.value + 1 else 1];
      remaining := remaining - {t};
    }
  }

  class Database {
    var tenants: set<Id>
    var sales: map<Id, SaleRow>
    var nextSaleNumber: map<Id, int>

    /** upgrade: from any sales of any tenants, each tenant ends with its sales numbered 1..N by date and its
        counter at N + 1. */
    method Upgrade()
      modifies this`sales, this`nextSaleNumber
      ensures sales.Keys == old(sales).Keys && nextSaleNumber.Keys == tenants
      ensures forall id :: id in sales ==> sales[id] == old(sales)[id].(number := sales[id].number)
      ensures forall t :: t in tenants ==> NumberedFor(sales, t, nextSaleNumber[t])
    {
      var ranks, counts := RowNumbers(sales);
      var filled := Filled(sales, ranks);
      forall t | t in tenants ensures NumberedFor(filled, t, Count(counts, t) + 1) {
        RankedIsNumbered(sales, ranks, counts, t);
      }
      nextSaleNumber := FillCounters(filled, tenants);
      forall t | t in tenants ensures nextSaleNumber[t] == Count(counts, t) + 1 {
        CounterIsNext(filled, t, Count(counts, t) + 1, nextSaleNumber[t]);
      }
      sales := filled;
    }
  }
}
