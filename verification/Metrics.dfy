/** The consumer's Redis state and the two operations on it: handling one message and reading the window. */
module Metrics {
  import opened Prelude
  import opened Model
  import opened Expiring
  import opened Pipeline
  import opened Counting
  import opened RollingWindow

  /** The hashes after the first n lines of a row have been recorded in one field. */
  function AfterLines(hashes: map<ProductKey, Hash>, row: OutboxRow, n: nat, field: int, now: int, ttl: nat)
    : map<ProductKey, Hash>
    requires row.lines.Some? && n <= |row.lines.value|
  {
    if n == 0 then hashes
    else
      var line := row.lines.value[n - 1];
      BumpIn(AfterLines(hashes, row, n - 1, field, now, ttl), ProductKey(row.aggregate, line.product), field,
             line.quantity, now, ttl)
  }

  /** Every field of every hash has grown by what the first n lines of the row add to its product, in the one
      field that belongs to the row's time. */
  ghost predicate Added(before: map<ProductKey, Hash>, after: map<ProductKey, Hash>, row: OutboxRow, n: nat,
                        field: int, now: int)
    requires row.lines.Some? && n <= |row.lines.value|
  {
    forall k: ProductKey, f: int ::
      Live(after, k, f, now) == Live(before, k, f, now)
        + if f == field then Units(row, n, DailyKey(k.tenant, k.product, DayOf(row.at))) else 0
  }

  lemma AddedStep(before: map<ProductKey, Hash>, cur: map<ProductKey, Hash>, after: map<ProductKey, Hash>,
                  row: OutboxRow, n: nat, field: int, now: int, ttl: nat)
    requires row.lines.Some? && n < |row.lines.value| && 0 < ttl && Added(before, cur, row, n, field, now)
    requires var line := row.lines.value[n];
      Bumped(cur, after, ProductKey(row.aggregate, line.product), field, line.quantity, now, ttl)
    ensures Added(before, after, row, n + 1, field, now)
  {
    var line := row.lines.value[n];
    var key := ProductKey(row.aggregate, line.product);
    forall k: ProductKey, f: int
      ensures Live(after, k, f, now) == Live(before, k, f, now)
        + if f == field then Units(row, n + 1, DailyKey(k.tenant, k.product, DayOf(row.at))) else 0
    {
      assert Live(after, k, f, now) == Live(cur, k, f, now) + if k == key && f == field then line.quantity else 0;
      assert Units(row, n + 1, DailyKey(k.tenant, k.product, DayOf(row.at)))
        == Units(row, n, DailyKey(k.tenant, k.product, DayOf(row.at))) + if k == key then line.quantity else 0;
    }
  }

  /** Recording a row adds exactly its lines. */
  lemma {:induction false} LinesAdded(hashes: map<ProductKey, Hash>, row: OutboxRow, n: nat, field: int, now: int, ttl: nat)
    requires row.lines.Some? && n <= |row.lines.value| && 0 < ttl
    ensures Added(hashes, AfterLines(hashes, row, n, field, now, ttl), row, n, field, now)
  {
    if n > 0 {
      LinesAdded(hashes, row, n - 1, field, now, ttl);
      AddedStep(hashes, AfterLines(hashes, row, n - 1, field, now, ttl), AfterLines(hashes, row, n, field, now, ttl),
                row, n - 1, field, now, ttl);
    }
  }

  class Redis {
    var processed: map<nat, int>
    var velocity: map<ProductKey, Hash>
    var daily: map<ProductKey, Hash>

    /** record_sale: the quantity shows in the minute and in the day of the event, and both hashes live on. */
    method RecordSale(key: ProductKey, quantity: Positive, at: int, now: int)
      modifies this`velocity, this`daily
      ensures velocity == BumpIn(old(velocity), key, BucketOf(at), quantity, now, VELOCITY_TTL)
      ensures daily == BumpIn(old(daily), key, DayOf(at), quantity, now, DAILY_RETENTION)
      ensures Bumped(old(velocity), velocity, key, BucketOf(at), quantity, now, VELOCITY_TTL)
      ensures Bumped(old(daily), daily, key, DayOf(at), quantity, now, DAILY_RETENTION)
    {
      velocity := velocity[key := Bump(At(velocity, key), BucketOf(at), quantity, now, VELOCITY_TTL)];
      daily := daily[key := Bump(At(daily, key), DayOf(at), quantity, now, DAILY_RETENTION)];
    }

    /** handle_message: an invalid event and one whose dedup key is live change nothing; any other sets its
        key and records its lines, which adds exactly them to each product's day and minute. */
    method HandleMessage(row: OutboxRow, event: nat, now: int) returns (counted: bool)
      modifies this
      ensures counted <==> ValidEvent(row) && !(event in old(processed) && now < old(processed)[event])
      ensures !counted ==> processed == old(processed) && velocity == old(velocity) && daily == old(daily)
      ensures counted ==> processed == old(processed)[event := now + DEDUP_TTL]
      ensures counted ==> daily == AfterLines(old(daily), row, |row.lines.value|, DayOf(row.at), now, DAILY_RETENTION)
      ensures counted ==> velocity == AfterLines(old(velocity), row, |row.lines.value|, BucketOf(row.at), now, VELOCITY_TTL)
      ensures counted ==> Added(old(daily), daily, row, |row.lines.value|, DayOf(row.at), now)
      ensures counted ==> Added(old(velocity), velocity, row, |row.lines.value|, BucketOf(row.at), now)
    {
      if !ValidEvent(row) {
        return false;
      }
      if event in processed && now < processed[event] {
        return false;
      }
      processed := processed[event := now + DEDUP_TTL];
      var lines := row.lines.value;
      for i := 0 to |lines|
        invariant processed == old(processed)[event := now + DEDUP_TTL]
        invariant daily == AfterLines(old(daily), row, i, DayOf(row.at), now, DAILY_RETENTION)
        invariant velocity == AfterLines(old(velocity), row, i, BucketOf(row.at), now, VELOCITY_TTL)
      {
        RecordSale(ProductKey(row.aggregate, lines[i].product), lines[i].quantity, row.at, now);
      }
      LinesAdded(old(daily), row, |lines|, DayOf(row.at), now, DAILY_RETENTION);
      LinesAdded(old(velocity), row, |lines|, BucketOf(row.at), now, VELOCITY_TTL);
      return true;
    }

    /** sales_velocity: one HMGET of fifteen fields, summed. */
    method SalesVelocity(key: ProductKey, now: int) returns (units: int)
      ensures units == Velocity(LiveFields(At(velocity, key), now), now)
    {
      var fields := LiveFields(At(velocity, key), now);
      var current := BucketOf(now);
      units := 0;
      for i := 0 to BUCKETS_PER_WINDOW
        invariant units == SumBuckets(fields, current, i)
      {
        if current - i in fields {
          units := units + fields[current - i];
        }
      }
    }
  }

  // ---- The same handling as a run of the pipeline ----

  /** The consumer is about to add line k of the row, or to commit after the last one, and the daily hashes are
      those of `before` with the lines up to there recorded. */
  predicate AtLine(s: Sys, before: map<ProductKey, Hash>, row: OutboxRow, k: nat)
  {
    && s.consumer.Handling? && s.consumer.next == k && s.consumer.row < |s.rows| && s.rows[s.consumer.row] == row
    && row.lines.Some? && k <= |row.lines.value|
    && s.daily == AfterLines(before, row, k, DayOf(row.at), s.now, DAILY_RETENTION)
  }

  /** The whole event has been recorded and its offset committed. */
  predicate Handled(s: Sys, end: Sys, before: map<ProductKey, Hash>, row: OutboxRow)
  {
    && end.consumer.Idle? && end.offset == s.offset + 1 && end.dedup == s.dedup && end.now == s.now && row.lines.Some?
    && end.daily == AfterLines(before, row, |row.lines.value|, DayOf(row.at), s.now, DAILY_RETENTION)
  }

  lemma OneLine(s: Sys, before: map<ProductKey, Hash>, row: OutboxRow, k: nat)
    requires AtLine(s, before, row, k) && k < |row.lines.value|
    ensures Enabled(s, RecordLine) && AtLine(Do(s, RecordLine), before, row, k + 1)
    ensures var t := Do(s, RecordLine); t.offset == s.offset && t.dedup == s.dedup && t.now == s.now
  {
  }

  lemma CommitRun(s: Sys)
    requires Enabled(s, CommitOffset)
    ensures Run(s, [CommitOffset]) && Last(s, [CommitOffset]) == s.(offset := s.offset + 1, consumer := Idle)
  {
    assert Run(Do(s, CommitOffset), []);
    RunStep(s, CommitOffset, []);
    assert [CommitOffset] + [] == [CommitOffset];
  }

  lemma {:induction false} LinesRun(s: Sys, before: map<ProductKey, Hash>, row: OutboxRow, k: nat) returns (ls: seq<Label>)
    requires AtLine(s, before, row, k)
    ensures Run(s, ls) && Handled(s, Last(s, ls), before, row)
    decreases |row.lines.value| - k
  {
    if k == |row.lines.value| {
      CommitRun(s);
      ls := [CommitOffset];
    } else {
      OneLine(s, before, row, k);
      var rest := LinesRun(Do(s, RecordLine), before, row, k + 1);
      RunStep(s, RecordLine, rest);
      ls := [RecordLine] + rest;
    }
  }

  lemma NewIsRun(s: Sys) returns (ls: seq<Label>)
    requires Enabled(s, Receive)
    requires var r := SaleLog(s.sent)[s.offset]; ValidEvent(s.rows[r]) && !Seen(s, r)
    ensures var r := SaleLog(s.sent)[s.offset];
      Run(s, ls) && Handled(StartEvent(s, r), Last(s, ls), s.daily, s.rows[r])
  {
    var r := SaleLog(s.sent)[s.offset];
    var t := StartEvent(s, r);
    assert Do(s, Receive) == t;
    var rest := LinesRun(t, s.daily, s.rows[r], 0);
    RunStep(s, Receive, rest);
    ls := [Receive] + rest;
  }

  lemma IgnoredIsRun(s: Sys)
    requires Enabled(s, Receive)
    requires var r := SaleLog(s.sent)[s.offset]; !ValidEvent(s.rows[r]) || Seen(s, r)
    ensures Run(s, [Receive] + [CommitOffset])
    ensures Last(s, [Receive] + [CommitOffset]) == s.(offset := s.offset + 1, consumer := Idle)
  {
    var t := s.(consumer := Finished);
    assert Do(s, Receive) == t;
    CommitRun(t);
    RunStep(s, Receive, [CommitOffset]);
  }

  /** What handling row r does to the dedup keys and the daily hashes, as the method above does it to its own. */
  predicate AsHandled(s: Sys, r: nat, dedup: map<nat, int>, daily: map<ProductKey, Hash>)
  {
    && r < |s.rows|
    && var row := s.rows[r];
    if ValidEvent(row) && !Seen(s, r) then
      && dedup == s.dedup[r := s.now + DEDUP_TTL]
      && daily == AfterLines(s.daily, row, |row.lines.value|, DayOf(row.at), s.now, DAILY_RETENTION)
    else dedup == s.dedup && daily == s.daily
  }

  /** Handling a message from its delivery to its offset commit without a crash is a run that moves the offset by
      one and does to the dedup keys and the daily hashes exactly what the method above does to its own: nothing
      for an invalid event or a live key, otherwise the new key and the recorded lines. */
  lemma HandlingIsRun(s: Sys) returns (ls: seq<Label>)
    requires Enabled(s, Receive)
    ensures Run(s, ls)
    ensures var end := Last(s, ls);
      && end.consumer.Idle? && end.offset == s.offset + 1 && end.now == s.now
      && AsHandled(s, SaleLog(s.sent)[s.offset], end.dedup, end.daily)
  {
    var r := SaleLog(s.sent)[s.offset];
    if ValidEvent(s.rows[r]) && !Seen(s, r) {
      ls := NewIsRun(s);
      assert StartEvent(s, r).dedup == s.dedup[r := s.now + DEDUP_TTL];
    } else {
      IgnoredIsRun(s);
      ls := [Receive] + [CommitOffset];
    }
  }
}
