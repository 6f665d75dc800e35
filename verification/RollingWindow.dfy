/** The rolling sales window: a hash of minute buckets whose expiry is refreshed on every write. Times are
    in microseconds, the resolution of the event timestamps. */
module RollingWindow {
  import opened Prelude
  import opened Expiring
  import opened Pipeline

  const BUCKET := 60 * SECOND
  const WINDOW := 15 * 60 * SECOND
  const VELOCITY_TTL := WINDOW + 5 * BUCKET
  const BUCKETS_PER_WINDOW := 15

  /** How far ahead of the clock an event timestamp may be for expiry to go unnoticed. */
  const LEAD := 5 * BUCKET

  /** One sale recorded at `now` for an event that happened at `at`. */
  datatype Write = Write(at: int, quantity: Positive, now: int)

  function BucketOf(at: int): int
  {
    at / BUCKET
  }

  /** The sum of n buckets ending with bucket `last`. */
  function SumBuckets(fields: map<int, int>, last: int, n: nat): int
  {
    if n == 0 then 0 else SumBuckets(fields, last, n - 1) + Field(fields, last - (n - 1))
  }

  function Velocity(fields: map<int, int>, now: int): int
  {
    SumBuckets(fields, BucketOf(now), BUCKETS_PER_WINDOW)
  }

  // ---- The hash Redis keeps and one that never expires ----

  function EntryOf(w: Write): Entry
  {
    Entry(BucketOf(w.at), w.quantity, w.now)
  }

  function Entries(writes: seq<Write>): (r: seq<Entry>)
    ensures |r| == |writes|
  {
    seq(|writes|, i requires 0 <= i < |writes| => EntryOf(writes[i]))
  }

  function KeptMinutes(writes: seq<Write>): Option<Hash>
  {
    Kept(Entries(writes), VELOCITY_TTL)
  }

  function AllMinutes(writes: seq<Write>): map<int, int>
  {
    Forever(Entries(writes))
  }

  lemma LastWrite(writes: seq<Write>)
    requires writes != []
    ensures var front, w := writes[..|writes| - 1], writes[|writes| - 1];
      && KeptMinutes(writes) == Some(Bump(KeptMinutes(front), BucketOf(w.at), w.quantity, w.now, VELOCITY_TTL))
      && AllMinutes(writes) == AllMinutes(front)[BucketOf(w.at) := Field(AllMinutes(front), BucketOf(w.at)) + w.quantity]
  {
    assert Entries(writes)[..|writes| - 1] == Entries(writes[..|writes| - 1]);
  }

  /** The clock does not run backwards and no event is more than five minutes ahead of it. */
  predicate Orderly(writes: seq<Write>)
  {
    && (forall i, j :: 0 <= i < j < |writes| ==> writes[i].now <= writes[j].now)
    && (forall i :: 0 <= i < |writes| ==> writes[i].at <= writes[i].now + 300 * 1_000_000)
  }

  predicate ReadAfter(writes: seq<Write>, now: int)
  {
    writes == [] || writes[|writes| - 1].now <= now
  }

  lemma BucketsOrdered(a: int, b: int)
    requires a <= b
    ensures BucketOf(a) <= BucketOf(b)
  {
  }

  lemma WindowStart(now: int)
    ensures BucketOf(now - WINDOW) == BucketOf(now) - BUCKETS_PER_WINDOW
  {
  }

  /** No bucket after the one LEAD past the last write has anything in it. */
  lemma {:induction false} NothingAhead(writes: seq<Write>, b: int)
    requires Orderly(writes) && writes != [] && BucketOf(writes[|writes| - 1].now + LEAD) < b
    ensures Field(AllMinutes(writes), b) == 0
  {
    var front, w := writes[..|writes| - 1], writes[|writes| - 1];
    LastWrite(writes);
    BucketsOrdered(w.at, w.now + LEAD);
    if front != [] {
      BucketsOrdered(front[|front| - 1].now + LEAD, w.now + LEAD);
      NothingAhead(front, b);
    }
  }

  /** Inside the window of any read after the last write the two hashes hold the same. */
  lemma {:induction false} WindowAgrees(writes: seq<Write>, now: int, b: int)
    requires Orderly(writes) && ReadAfter(writes, now) && BucketOf(now) - BUCKETS_PER_WINDOW < b
    ensures Field(LiveFields(KeptMinutes(writes), now), b) == Field(AllMinutes(writes), b)
  {
    if writes != [] {
      var front, w := writes[..|writes| - 1], writes[|writes| - 1];
      LastWrite(writes);
      if now < w.now + VELOCITY_TTL {
        BucketsOrdered(w.now, now);
        WindowAgrees(front, w.now, b);
      } else {
        WindowStart(now);
        BucketsOrdered(w.now + LEAD, now - WINDOW);
        NothingAhead(writes, b);
      }
    }
  }

  lemma {:induction false} SumsAgree(a: map<int, int>, b: map<int, int>, last: int, n: nat)
    requires forall f :: last - n < f <= last ==> Field(a, f) == Field(b, f)
    ensures SumBuckets(a, last, n) == SumBuckets(b, last, n)
  {
    if n > 0 {
      SumsAgree(a, b, last, n - 1);
    }
  }

  /** Expiry cannot be seen: every read gives what a hash that never expires would give, before and after
      the hash has expired and been created again. */
  lemma ExpiryInvisible(writes: seq<Write>, now: int)
    requires Orderly(writes) && ReadAfter(writes, now)
    ensures Velocity(LiveFields(KeptMinutes(writes), now), now) == Velocity(AllMinutes(writes), now)
  {
    forall b | BucketOf(now) - BUCKETS_PER_WINDOW < b
      ensures Field(LiveFields(KeptMinutes(writes), now), b) == Field(AllMinutes(writes), b)
    {
      WindowAgrees(writes, now, b);
    }
    SumsAgree(LiveFields(KeptMinutes(writes), now), AllMinutes(writes), BucketOf(now), BUCKETS_PER_WINDOW);
  }

  /** A single sale written at w for an event `lead` ahead reads the same as without expiry. */
  predicate Harmless(lead: int, w: int, now: int)
  {
    var one := [Write(w + lead, 1, w)];
    Velocity(LiveFields(KeptMinutes(one), now), now) == Velocity(AllMinutes(one), now)
  }

  lemma {:induction false} OneBucketSum(b: int, last: int, n: nat)
    ensures SumBuckets(map[b := 1], last, n) == if last - n < b <= last then 1 else 0
  {
    if n > 0 {
      OneBucketSum(b, last, n - 1);
    }
  }

  lemma {:induction false} EmptySum(last: int, n: nat)
    ensures SumBuckets(map[], last, n) == 0
  {
    if n > 0 {
      EmptySum(last, n - 1);
    }
  }

  /** The bound is exact: expiry goes unnoticed for every write and every read exactly when events are at
      most five minutes ahead. */
  lemma LeadIsExact(lead: int)
    ensures (forall w, now :: w <= now ==> Harmless(lead, w, now)) <==> lead <= 300 * 1_000_000
  {
    if lead <= LEAD {
      forall w, now | w <= now ensures Harmless(lead, w, now) {
        ExpiryInvisible([Write(w + lead, 1, w)], now);
      }
    } else {
      // Written in the last microsecond of a minute, read when the hash has just expired.
      var w := BUCKET - 1;
      var now := w + if lead < VELOCITY_TTL then VELOCITY_TTL else lead;
      var one := [Write(w + lead, 1, w)];
      assert one[..0] == [];
      LastWrite(one);
      assert AllMinutes(one) == map[BucketOf(w + lead) := 1];
      assert LiveFields(KeptMinutes(one), now) == map[];
      BucketsOrdered(BUCKET + LEAD, w + lead);
      BucketsOrdered(w + lead, now);
      OneBucketSum(BucketOf(w + lead), BucketOf(now), BUCKETS_PER_WINDOW);
      EmptySum(BucketOf(now), BUCKETS_PER_WINDOW);
      assert !Harmless(lead, w, now);
    }
  }

  // ---- What the window sums ----

  /** Units of the recorded sales whose timestamps lie from lo to hi. */
  function UnitsBetween(writes: seq<Write>, lo: int, hi: int): (u: int)
    ensures 0 <= u
  {
    if writes == [] then 0
    else
      var w := writes[|writes| - 1];
      UnitsBetween(writes[..|writes| - 1], lo, hi) + if lo <= w.at <= hi then w.quantity else 0
  }

  lemma {:induction false} OneMore(fields: map<int, int>, b: int, q: int, last: int, n: nat)
    ensures SumBuckets(fields[b := Field(fields, b) + q], last, n)
         == SumBuckets(fields, last, n) + if last - n < b <= last then q else 0
  {
    if n > 0 {
      OneMore(fields, b, q, last, n - 1);
    }
  }

  /** Summing n buckets is summing the sales whose timestamps fall into those minutes. */
  lemma {:induction false} BucketsAreSales(writes: seq<Write>, last: int, n: nat)
    ensures SumBuckets(AllMinutes(writes), last, n)
         == UnitsBetween(writes, (last - n + 1) * (60 * 1_000_000), (last + 1) * (60 * 1_000_000) - 1)
  {
    if writes == [] {
      EmptySum(last, n);
    } else {
      var front, w := writes[..|writes| - 1], writes[|writes| - 1];
      LastWrite(writes);
      BucketsAreSales(front, last, n);
      OneMore(AllMinutes(front), BucketOf(w.at), w.quantity, last, n);
      assert last - n < BucketOf(w.at) <= last <==> (last - n + 1) * BUCKET <= w.at <= (last + 1) * BUCKET - 1;
    }
  }

  lemma {:induction false} WiderWindow(writes: seq<Write>, lo: int, hi: int, lo': int, hi': int)
    requires forall i :: 0 <= i < |writes| && lo <= writes[i].at <= hi ==> lo' <= writes[i].at <= hi'
    ensures UnitsBetween(writes, lo, hi) <= UnitsBetween(writes, lo', hi')
  {
    if writes != [] {
      WiderWindow(writes[..|writes| - 1], lo, hi, lo', hi');
    }
  }

  function FirstInstant(now: int): int { (BucketOf(now) - BUCKETS_PER_WINDOW + 1) * BUCKET }
  function LastInstant(now: int): int { (BucketOf(now) + 1) * BUCKET - 1 }

  /** The fifteen buckets reach back at least 14 and less than 15 minutes. */
  lemma WindowBounds(now: int)
    ensures now - WINDOW + 1 <= FirstInstant(now) <= now - 840 * SECOND && now <= LastInstant(now)
  {
  }

  /** Window sandwich: with nothing recorded for later than now, the velocity counts at least the sales of
      the last 14 minutes and at most those of less than 15 minutes. */
  lemma WindowSandwich(writes: seq<Write>, now: int)
    requires Orderly(writes) && ReadAfter(writes, now)
    requires forall i :: 0 <= i < |writes| ==> writes[i].at <= now
    ensures var v := Velocity(LiveFields(KeptMinutes(writes), now), now);
      UnitsBetween(writes, now - 840 * 1_000_000, now) <= v <= UnitsBetween(writes, now - 900 * 1_000_000 + 1, now)
  {
    ExpiryInvisible(writes, now);
    BucketsAreSales(writes, BucketOf(now), BUCKETS_PER_WINDOW);
    WindowBounds(now);
    Squeezed(writes, now, now - WINDOW + 1, FirstInstant(now), now - 840 * SECOND, LastInstant(now));
  }

  /** Nothing is recorded after now, so only the start of a window matters. */
  lemma Squeezed(writes: seq<Write>, now: int, earliest: int, lo: int, latest: int, hi: int)
    requires earliest <= lo <= latest && now <= hi
    requires forall i :: 0 <= i < |writes| ==> writes[i].at <= now
    ensures UnitsBetween(writes, latest, now) <= UnitsBetween(writes, lo, hi) <= UnitsBetween(writes, earliest, now)
  {
    WiderWindow(writes, latest, now, lo, hi);
    WiderWindow(writes, lo, hi, earliest, now);
  }
}
