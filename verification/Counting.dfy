/** At-most-once counting and what a drained pipeline has counted, over every run of the pipeline. */
module Counting {
  import opened Prelude
  import opened Model
  import opened Expiring
  import opened Pipeline

  // ---- Redelivery in time ----

  /** The assumption: an event handed out again is handed out within a day of being taken first. */
  predicate Timely(s: Sys, l: Label)
  {
    l.Receive? && Enabled(s, l) ==>
      var r := SaleLog(s.sent)[s.offset];
      r in s.first ==> s.now < s.first[r] + 24 * 3600 * 1_000_000
  }

  ghost predicate TimelyRun(s: Sys, ls: seq<Label>)
    requires Run(s, ls)
    decreases |ls|
  {
    ls == [] || (Timely(s, ls[0]) && TimelyRun(Do(s, ls[0]), ls[1..]))
  }

  // ---- Sums over lines and rows ----

  /** Units the first k lines of a row add to one counter. */
  function Units(row: OutboxRow, k: nat, key: DailyKey): (u: int)
    requires row.lines.Some? ==> k <= |row.lines.value|
    ensures 0 <= u
  {
    if row.lines.None? || k == 0 then 0
    else
      var line := row.lines.value[k - 1];
      Units(row, k - 1, key) + if KeyOf(row, line) == key then line.quantity else 0
  }

  function Taken(taken: map<nat, nat>, r: nat): nat
  {
    if r in taken then taken[r] else 0
  }

  predicate Within(rows: seq<OutboxRow>, taken: map<nat, nat>)
  {
    forall r :: r in taken ==> r < |rows| && ValidEvent(rows[r]) && taken[r] <= |rows[r].lines.value|
  }

  /** Units that the lines taken so far of the first n rows add to one counter. */
  function UnitsTaken(rows: seq<OutboxRow>, n: nat, taken: map<nat, nat>, key: DailyKey): int
    requires n <= |rows| && Within(rows, taken)
  {
    if n == 0 then 0
    else UnitsTaken(rows, n - 1, taken, key) + Units(rows[n - 1], Taken(taken, n - 1), key)
  }

  predicate SaleRow(row: OutboxRow)
  {
    row.eventType == SALE_EVENT && ValidEvent(row)
  }

  /** Units of all committed sale lines for one counter. */
  function Total(rows: seq<OutboxRow>, key: DailyKey): int
  {
    if rows == [] then 0
    else
      var row := rows[|rows| - 1];
      Total(rows[..|rows| - 1], key) + if SaleRow(row) then Units(row, |row.lines.value|, key) else 0
  }

  lemma {:induction false} UnitsTakenUpdate(rows: seq<OutboxRow>, n: nat, taken: map<nat, nat>, r: nat, k: nat, key: DailyKey)
    requires n <= |rows| && Within(rows, taken) && r < |rows| && ValidEvent(rows[r]) && k <= |rows[r].lines.value|
    ensures UnitsTaken(rows, n, taken[r := k], key) == UnitsTaken(rows, n, taken, key)
      + if r < n then Units(rows[r], k, key) - Units(rows[r], Taken(taken, r), key) else 0
  {
    if n > 0 {
      UnitsTakenUpdate(rows, n - 1, taken, r, k, key);
    }
  }

  lemma {:induction false} UnitsTakenFrame(rows: seq<OutboxRow>, more: seq<OutboxRow>, n: nat, taken: map<nat, nat>, key: DailyKey)
    requires n <= |rows| && rows <= more && Within(rows, taken)
    ensures UnitsTaken(more, n, taken, key) == UnitsTaken(rows, n, taken, key)
  {
    if n > 0 {
      UnitsTakenFrame(rows, more, n - 1, taken, key);
    }
  }

  // ---- The worker's side ----

  function RowsOf(b: Batch): set<nat>
  {
    set r | r in b.rows
  }

  predicate MessagesSound(rows: seq<OutboxRow>, sent: seq<Message>)
  {
    forall k :: 0 <= k < |sent| ==>
      sent[k].row < |rows| && TopicFor(rows[sent[k].row].eventType) == Some(sent[k].topic)
  }

  /** A batch holds pending rows and has marked only rows of its own that were published. */
  predicate BatchSound(n: nat, processed: set<nat>, published: set<nat>, b: Batch)
  {
    && b.marked <= published
    && b.marked <= RowsOf(b)
    && forall r :: r in RowsOf(b) ==> r < n && r !in processed
  }

  /** Published messages and marked rows come from committed rows; no row is in two open batches. */
  ghost predicate WorkersSound(s: Sys)
  {
    && MessagesSound(s.rows, s.sent) && s.processed <= RowsSent(s.sent)
    && BatchesSound(|s.rows|, s.processed, RowsSent(s.sent), s.batches)
  }

  predicate BatchesSound(n: nat, processed: set<nat>, published: set<nat>, batches: map<WorkerId, Batch>)
  {
    && (forall w :: w in batches ==> BatchSound(n, processed, published, batches[w]))
    && (forall w, v :: w in batches && v in batches && w != v ==> RowsOf(batches[w]) !! RowsOf(batches[v]))
  }

  lemma SentGrows(sent: seq<Message>, m: Message)
    ensures RowsSent(sent + [m]) == RowsSent(sent) + {m.row}
  {
    forall r | r in RowsSent(sent) + {m.row} ensures r in RowsSent(sent + [m]) {
      if r == m.row {
        assert m in sent + [m];
      } else {
        var x :| x in sent && x.row == r;
        assert x in sent + [m];
      }
    }
  }

  lemma SendKeepsWorkersSound(s: Sys, l: Label)
    requires WorkersSound(s) && Enabled(s, l) && (l.SendOk? || l.SendFailed?)
    ensures WorkersSound(Do(s, l))
  {
    var t, r := Do(s, l), Current(s, l.w);
    var m := Message(TopicFor(s.rows[r].eventType).value, r);
    assert BatchSound(|s.rows|, s.processed, RowsSent(s.sent), s.batches[l.w]);
    SentGrows(s.sent, m);
    assert r in RowsOf(s.batches[l.w]);
    assert RowsOf(t.batches[l.w]) == RowsOf(s.batches[l.w]);
    forall w | w in t.batches
      ensures BatchSound(|t.rows|, t.processed, RowsSent(t.sent), t.batches[w])
    {
      assert BatchSound(|s.rows|, s.processed, RowsSent(s.sent), s.batches[w]);
    }
  }

  lemma BeginKeepsWorkersSound(s: Sys, w: WorkerId, rows: seq<nat>)
    requires WorkersSound(s) && Enabled(s, BeginBatch(w, rows))
    ensures WorkersSound(Do(s, BeginBatch(w, rows)))
  {
    var t := Do(s, BeginBatch(w, rows));
    assert t.batches[w].rows == rows;
    forall v | v in s.batches ensures RowsOf(s.batches[v]) <= Locked(s.batches) {
    }
  }

  lemma CommitKeepsWorkersSound(s: Sys, w: WorkerId)
    requires WorkersSound(s) && Enabled(s, CommitBatch(w))
    ensures WorkersSound(Do(s, CommitBatch(w)))
  {
    var t := Do(s, CommitBatch(w));
    assert BatchSound(|s.rows|, s.processed, RowsSent(s.sent), s.batches[w]);
    forall v | v in t.batches
      ensures BatchSound(|t.rows|, t.processed, RowsSent(t.sent), t.batches[v])
    {
      assert BatchSound(|s.rows|, s.processed, RowsSent(s.sent), s.batches[v]);
      assert RowsOf(s.batches[v]) !! RowsOf(s.batches[w]);
    }
  }

  lemma SkipKeepsWorkersSound(s: Sys, w: WorkerId)
    requires WorkersSound(s) && Enabled(s, SkipRow(w))
    ensures WorkersSound(Do(s, SkipRow(w)))
  {
    var t := Do(s, SkipRow(w));
    assert RowsOf(t.batches[w]) == RowsOf(s.batches[w]);
    forall v | v in t.batches
      ensures BatchSound(|t.rows|, t.processed, RowsSent(t.sent), t.batches[v])
    {
      assert BatchSound(|s.rows|, s.processed, RowsSent(s.sent), s.batches[v]);
    }
  }

  lemma FewerBatches(n: nat, m: nat, processed: set<nat>, published: set<nat>, batches: map<WorkerId, Batch>,
                     fewer: map<WorkerId, Batch>)
    requires BatchesSound(n, processed, published, batches) && n <= m
    requires forall w :: w in fewer ==> w in batches && fewer[w] == batches[w]
    ensures BatchesSound(m, processed, published, fewer)
  {
    forall w | w in fewer ensures BatchSound(m, processed, published, fewer[w]) {
      assert BatchSound(n, processed, published, batches[w]);
    }
  }

  /** What the worker's side keeps: the log, the PROCESSED rows, the rows there were, and no new batch. */
  predicate WorkersUntouched(s: Sys, t: Sys)
  {
    && s.rows <= t.rows && t.processed == s.processed && t.sent == s.sent
    && forall w :: w in t.batches ==> w in s.batches && t.batches[w] == s.batches[w]
  }

  lemma ReceiveQuiet(s: Sys)
    requires Enabled(s, Receive)
    ensures WorkersUntouched(s, Do(s, Receive))
  {
    var r := SaleLog(s.sent)[s.offset];
    assert Do(s, Receive) == TakeMessage(s);
    assert TakeMessage(s) == s.(consumer := Finished) || TakeMessage(s) == StartEvent(s, r);
  }

  lemma LineQuiet(s: Sys)
    requires Enabled(s, RecordLine)
    ensures WorkersUntouched(s, Do(s, RecordLine))
  {
  }

  /** Steps that touch neither the log nor what is PROCESSED, add rows at most, and open no batch. */
  lemma QuietStep(s: Sys, l: Label)
    requires Enabled(s, l)
    requires !l.SendOk? && !l.SendFailed? && !l.BeginBatch? && !l.CommitBatch? && !l.SkipRow?
    ensures WorkersUntouched(s, Do(s, l))
  {
    if l.Receive? {
      ReceiveQuiet(s);
    } else if l.RecordLine? {
      LineQuiet(s);
    }
  }

  lemma QuietKeepsWorkersSound(s: Sys, l: Label)
    requires WorkersSound(s) && Enabled(s, l)
    requires !l.SendOk? && !l.SendFailed? && !l.BeginBatch? && !l.CommitBatch? && !l.SkipRow?
    ensures WorkersSound(Do(s, l))
  {
    var t := Do(s, l);
    QuietStep(s, l);
    FewerBatches(|s.rows|, |t.rows|, s.processed, RowsSent(s.sent), s.batches, t.batches);
  }

  lemma StepKeepsWorkersSound(s: Sys, l: Label)
    requires WorkersSound(s) && Enabled(s, l)
    ensures WorkersSound(Do(s, l))
  {
    match l
    case SendOk(w) => SendKeepsWorkersSound(s, l);
    case SendFailed(w, _) => SendKeepsWorkersSound(s, l);
    case BeginBatch(w, rows) => BeginKeepsWorkersSound(s, w, rows);
    case CommitBatch(w) => CommitKeepsWorkersSound(s, w);
    case SkipRow(w) => SkipKeepsWorkersSound(s, w);
    case _ => QuietKeepsWorkersSound(s, l);
  }

  // ---- The consumer's side ----

  /** A message the consumer is done with: not a valid event, or taken at some time. */
  predicate Dealt(rows: seq<OutboxRow>, first: map<nat, int>, r: nat)
  {
    r < |rows| && (ValidEvent(rows[r]) ==> r in first)
  }

  /** Dedup keys are set once, when an event is first taken, and the events taken are valid rows. */
  predicate KeysAgree(s: Sys)
  {
    && s.dedup.Keys == s.first.Keys == s.taken.Keys
    && Within(s.rows, s.taken)
    && (forall r :: r in s.first ==> s.dedup[r] == s.first[r] + DEDUP_TTL)
  }

  /** No message before the committed offset has been left out. */
  predicate OffsetSound(rows: seq<OutboxRow>, first: map<nat, int>, log: seq<nat>, offset: nat)
  {
    offset <= |log| && forall i :: 0 <= i < offset ==> Dealt(rows, first, log[i])
  }

  /** The consumer is at the message after the committed offset. */
  predicate MessageSound(s: Sys, log: seq<nat>)
  {
    && (s.consumer.Handling? ==>
          && s.offset < |log| && log[s.offset] == s.consumer.row
          && s.consumer.row in s.taken && s.taken[s.consumer.row] == s.consumer.next
          && s.consumer.row !in s.broken)
    && (s.consumer.Finished? ==> s.offset < |log| && Dealt(s.rows, s.first, log[s.offset]))
  }

  /** An event not being handled is complete unless its handling was cut short. */
  predicate CompleteUnlessBroken(s: Sys)
  {
    && s.taken.Keys == s.first.Keys && Within(s.rows, s.taken)
    && s.broken <= s.first.Keys
    && (forall r :: r in s.broken ==> s.taken[r] < |s.rows[r].lines.value|)
    && (forall r :: r in s.first && r !in s.broken && !(s.consumer.Handling? && s.consumer.row == r) ==>
          s.taken[r] == |s.rows[r].lines.value|)
  }

  ghost predicate ConsumerSound(s: Sys)
  {
    && KeysAgree(s)
    && OffsetSound(s.rows, s.first, SaleLog(s.sent), s.offset)
    && MessageSound(s, SaleLog(s.sent))
    && CompleteUnlessBroken(s)
  }

  /** Everything ever added to one counter. */
  function Ever(entries: map<ProductKey, seq<Entry>>, key: DailyKey): int
  {
    Field(Forever(EntriesOf(entries, ProductOf(key))), key.day)
  }

  /** What was added to the counters is exactly the lines taken. */
  ghost predicate CountersExact(rows: seq<OutboxRow>, taken: map<nat, nat>, entries: map<ProductKey, seq<Entry>>)
  {
    && Within(rows, taken)
    && forall key :: Ever(entries, key) == UnitsTaken(rows, |rows|, taken, key)
  }

  /** Every daily hash is the one its additions leave behind. */
  ghost predicate HashesKept(daily: map<ProductKey, Hash>, entries: map<ProductKey, seq<Entry>>)
  {
    forall p :: At(daily, p) == Kept(EntriesOf(entries, p), DAILY_RETENTION)
  }

  /** Line k of an event has been added once if it has been taken and not at all otherwise. */
  ghost predicate AdditionsExact(taken: map<nat, nat>, added: multiset<LineId>)
  {
    forall r: nat, k: nat :: added[(r, k)] == if k < Taken(taken, r) then 1 else 0
  }

  ghost predicate CountsExact(s: Sys)
  {
    && CountersExact(s.rows, s.taken, s.entries)
    && AdditionsExact(s.taken, s.added)
    && HashesKept(s.daily, s.entries)
  }

  lemma LogGrows(sent: seq<Message>, m: Message)
    ensures SaleLog(sent + [m]) == SaleLog(sent) + if m.topic == SALE_TOPIC then [m.row] else []
  {
    assert (sent + [m])[..|sent|] == sent;
  }

  /** Steps of the producers only make the log and the table longer. */
  lemma OutsideKeepsConsumerSound(s: Sys, t: Sys)
    requires ConsumerSound(s)
    requires s.rows <= t.rows && SaleLog(s.sent) <= SaleLog(t.sent)
    requires t.offset == s.offset && t.consumer == s.consumer && t.dedup == s.dedup
    requires t.first == s.first && t.taken == s.taken && t.broken == s.broken
    ensures ConsumerSound(t)
  {
    var a, b := SaleLog(s.sent), SaleLog(t.sent);
    assert forall i :: 0 <= i < |a| ==> b[i] == a[i];
    assert forall r :: 0 <= r < |s.rows| ==> t.rows[r] == s.rows[r];
    forall i | 0 <= i < s.offset ensures Dealt(t.rows, t.first, b[i]) {
      assert Dealt(s.rows, s.first, a[i]);
    }
  }

  lemma AppendKeepsCounters(rows: seq<OutboxRow>, taken: map<nat, nat>, entries: map<ProductKey, seq<Entry>>, row: OutboxRow)
    requires CountersExact(rows, taken, entries)
    ensures CountersExact(rows + [row], taken, entries)
  {
    var more := rows + [row];
    assert forall r :: r in taken ==> more[r] == rows[r];
    forall key ensures Ever(entries, key) == UnitsTaken(more, |more|, taken, key) {
      UnitsTakenFrame(rows, more, |rows|, taken, key);
      assert Taken(taken, |rows|) == 0;
    }
  }

  lemma RestartKeepsCounters(rows: seq<OutboxRow>, taken: map<nat, nat>, entries: map<ProductKey, seq<Entry>>, r: nat)
    requires CountersExact(rows, taken, entries) && r !in taken && r < |rows| && ValidEvent(rows[r])
    ensures CountersExact(rows, taken[r := 0], entries)
  {
    forall key ensures Ever(entries, key) == UnitsTaken(rows, |rows|, taken[r := 0], key) {
      UnitsTakenUpdate(rows, |rows|, taken, r, 0, key);
    }
  }

  /** One more entry of a product. */
  function Extended(entries: map<ProductKey, seq<Entry>>, p: ProductKey, e: Entry): map<ProductKey, seq<Entry>>
  {
    entries[p := EntriesOf(entries, p) + [e]]
  }

  lemma EntryAdds(entries: map<ProductKey, seq<Entry>>, p: ProductKey, e: Entry, key: DailyKey)
    ensures Ever(Extended(entries, p, e), key)
         == Ever(entries, key) + if ProductOf(key) == p && key.day == e.field then e.quantity else 0
  {
    KeptAppend(EntriesOf(entries, p), e, DAILY_RETENTION);
  }

  lemma EntryKeepsHashes(daily: map<ProductKey, Hash>, entries: map<ProductKey, seq<Entry>>, p: ProductKey, e: Entry)
    requires HashesKept(daily, entries)
    ensures HashesKept(BumpIn(daily, p, e.field, e.quantity, e.now, DAILY_RETENTION), Extended(entries, p, e))
  {
    KeptAppend(EntriesOf(entries, p), e, DAILY_RETENTION);
    assert At(daily, p) == Kept(EntriesOf(entries, p), DAILY_RETENTION);
    forall q | q != p
      ensures At(BumpIn(daily, p, e.field, e.quantity, e.now, DAILY_RETENTION), q) == At(daily, q)
      ensures EntriesOf(Extended(entries, p, e), q) == EntriesOf(entries, q)
    {
    }
  }

  lemma RecordKeepsCounters(rows: seq<OutboxRow>, taken: map<nat, nat>, entries: map<ProductKey, seq<Entry>>, r: nat,
                            k: nat, now: int)
    requires CountersExact(rows, taken, entries) && r in taken && taken[r] == k && k < |rows[r].lines.value|
    ensures var line := rows[r].lines.value[k];
      var p := ProductKey(rows[r].aggregate, line.product);
      CountersExact(rows, taken[r := k + 1], Extended(entries, p, Entry(DayOf(rows[r].at), line.quantity, now)))
  {
    var line := rows[r].lines.value[k];
    var p, e := ProductKey(rows[r].aggregate, line.product), Entry(DayOf(rows[r].at), line.quantity, now);
    forall key ensures Ever(Extended(entries, p, e), key) == UnitsTaken(rows, |rows|, taken[r := k + 1], key) {
      UnitsTakenUpdate(rows, |rows|, taken, r, k + 1, key);
      EntryAdds(entries, p, e, key);
      assert KeyOf(rows[r], line) == key <==> ProductOf(key) == p && key.day == e.field;
    }
  }

  lemma RecordKeepsAdditions(taken: map<nat, nat>, added: multiset<LineId>, r: nat, k: nat)
    requires AdditionsExact(taken, added) && Taken(taken, r) == k
    ensures AdditionsExact(taken[r := k + 1], added + multiset{(r, k)})
  {
    forall q: nat, j: nat
      ensures (added + multiset{(r, k)})[(q, j)] == if j < Taken(taken[r := k + 1], q) then 1 else 0
    {
      assert added[(q, j)] == if j < Taken(taken, q) then 1 else 0;
    }
  }

  lemma TakenKeepsOffset(rows: seq<OutboxRow>, first: map<nat, int>, log: seq<nat>, offset: nat, r: nat, now: int)
    requires OffsetSound(rows, first, log, offset)
    ensures OffsetSound(rows, first[r := now], log, offset)
  {
    forall i | 0 <= i < offset ensures Dealt(rows, first[r := now], log[i]) {
      assert Dealt(rows, first, log[i]);
    }
  }

  lemma TakenKeepsWithin(rows: seq<OutboxRow>, taken: map<nat, nat>, r: nat)
    requires Within(rows, taken) && r < |rows| && ValidEvent(rows[r])
    ensures Within(rows, taken[r := 0])
  {
  }

  lemma StartKeepsKeys(s: Sys, r: nat)
    requires KeysAgree(s) && r !in s.first && r < |s.rows| && ValidEvent(s.rows[r])
    ensures KeysAgree(StartEvent(s, r))
  {
    TakenKeepsWithin(s.rows, s.taken, r);
  }

  lemma StartKeepsComplete(s: Sys, r: nat)
    requires CompleteUnlessBroken(s) && s.consumer.Idle? && r !in s.first && r < |s.rows| && ValidEvent(s.rows[r])
    ensures CompleteUnlessBroken(StartEvent(s, r))
  {
    TakenKeepsWithin(s.rows, s.taken, r);
  }

  lemma StartKeepsConsumer(s: Sys, log: seq<nat>)
    requires KeysAgree(s) && OffsetSound(s.rows, s.first, log, s.offset) && CompleteUnlessBroken(s)
    requires s.consumer.Idle? && s.offset < |log| && log[s.offset] < |s.rows|
    requires log[s.offset] !in s.first && ValidEvent(s.rows[log[s.offset]])
    ensures var t := StartEvent(s, log[s.offset]);
      KeysAgree(t) && OffsetSound(t.rows, t.first, log, t.offset) && MessageSound(t, log) && CompleteUnlessBroken(t)
  {
    TakenKeepsOffset(s.rows, s.first, log, s.offset, log[s.offset], s.now);
    StartKeepsKeys(s, log[s.offset]);
    StartKeepsComplete(s, log[s.offset]);
  }

  lemma IgnoreKeepsConsumer(s: Sys, log: seq<nat>)
    requires KeysAgree(s) && OffsetSound(s.rows, s.first, log, s.offset) && CompleteUnlessBroken(s)
    requires s.consumer.Idle? && s.offset < |log| && Dealt(s.rows, s.first, log[s.offset])
    ensures var t := s.(consumer := Finished);
      KeysAgree(t) && MessageSound(t, log) && CompleteUnlessBroken(t)
  {
  }

  lemma ReceiveKeepsConsumer(s: Sys)
    requires ConsumerSound(s) && CountsExact(s) && Enabled(s, Receive) && Timely(s, Receive)
    ensures ConsumerSound(Do(s, Receive)) && CountsExact(Do(s, Receive))
  {
    var log := SaleLog(s.sent);
    var r := log[s.offset];
    if ValidEvent(s.rows[r]) && r !in s.first {
      assert Do(s, Receive) == StartEvent(s, r);
      StartKeepsConsumer(s, log);
      StartKeepsCounts(s, r);
    } else {
      assert Do(s, Receive) == s.(consumer := Finished);
      IgnoreKeepsConsumer(s, log);
    }
  }

  lemma StartKeepsCounts(s: Sys, r: nat)
    requires CountsExact(s) && r !in s.taken && r < |s.rows| && ValidEvent(s.rows[r])
    ensures CountsExact(StartEvent(s, r))
  {
    RestartKeepsCounters(s.rows, s.taken, s.entries, r);
    assert forall q :: Taken(s.taken[r := 0], q) == Taken(s.taken, q);
  }

  lemma RecordKeepsKeys(s: Sys)
    requires KeysAgree(s) && MessageSound(s, SaleLog(s.sent)) && Enabled(s, RecordLine)
    ensures KeysAgree(Do(s, RecordLine))
  {
    var t := Do(s, RecordLine);
    assert t.first == s.first && t.dedup == s.dedup && t.rows == s.rows;
    assert t.taken == s.taken[s.consumer.row := s.consumer.next + 1];
  }

  lemma RecordKeepsComplete(s: Sys)
    requires CompleteUnlessBroken(s) && MessageSound(s, SaleLog(s.sent)) && Enabled(s, RecordLine)
    ensures CompleteUnlessBroken(Do(s, RecordLine))
  {
    var t := Do(s, RecordLine);
    assert t.first == s.first && t.rows == s.rows && t.broken == s.broken;
    assert t.taken == s.taken[s.consumer.row := s.consumer.next + 1];
  }

  lemma RecordKeepsProgress(s: Sys)
    requires ConsumerSound(s) && Enabled(s, RecordLine)
    ensures ConsumerSound(Do(s, RecordLine))
  {
    RecordKeepsKeys(s);
    RecordKeepsComplete(s);
    var t := Do(s, RecordLine);
    assert t.first == s.first && t.rows == s.rows && t.sent == s.sent && t.offset == s.offset;
    assert MessageSound(t, SaleLog(t.sent));
  }

  /** What one line does to the counts. */
  lemma LineStep(s: Sys)
    requires Enabled(s, RecordLine)
    ensures var t, r, k := Do(s, RecordLine), s.consumer.row, s.consumer.next;
      var line := s.rows[r].lines.value[k];
      var p, e := ProductKey(s.rows[r].aggregate, line.product), Entry(DayOf(s.rows[r].at), line.quantity, s.now);
      && t.rows == s.rows && t.taken == s.taken[r := k + 1] && t.added == s.added + multiset{(r, k)}
      && t.daily == BumpIn(s.daily, p, e.field, e.quantity, e.now, DAILY_RETENTION)
      && t.entries == Extended(s.entries, p, e)
  {
  }

  lemma LineKeepsCounts(rows: seq<OutboxRow>, taken: map<nat, nat>, added: multiset<LineId>,
                        daily: map<ProductKey, Hash>, entries: map<ProductKey, seq<Entry>>, r: nat, k: nat, now: int)
    requires CountersExact(rows, taken, entries) && AdditionsExact(taken, added) && HashesKept(daily, entries)
    requires r in taken && taken[r] == k && k < |rows[r].lines.value|
    ensures var line := rows[r].lines.value[k];
      var p, e := ProductKey(rows[r].aggregate, line.product), Entry(DayOf(rows[r].at), line.quantity, now);
      && CountersExact(rows, taken[r := k + 1], Extended(entries, p, e))
      && AdditionsExact(taken[r := k + 1], added + multiset{(r, k)})
      && HashesKept(BumpIn(daily, p, e.field, e.quantity, e.now, DAILY_RETENTION), Extended(entries, p, e))
  {
    var line := rows[r].lines.value[k];
    RecordKeepsCounters(rows, taken, entries, r, k, now);
    RecordKeepsAdditions(taken, added, r, k);
    EntryKeepsHashes(daily, entries, ProductKey(rows[r].aggregate, line.product),
                     Entry(DayOf(rows[r].at), line.quantity, now));
  }

  lemma RecordKeepsCounts(s: Sys)
    requires CountsExact(s) && Enabled(s, RecordLine)
    requires s.consumer.row in s.taken && s.taken[s.consumer.row] == s.consumer.next
    ensures CountsExact(Do(s, RecordLine))
  {
    LineStep(s);
    LineKeepsCounts(s.rows, s.taken, s.added, s.daily, s.entries, s.consumer.row, s.consumer.next, s.now);
  }

  lemma RecordKeepsConsumer(s: Sys)
    requires ConsumerSound(s) && CountsExact(s) && Enabled(s, RecordLine)
    ensures ConsumerSound(Do(s, RecordLine)) && CountsExact(Do(s, RecordLine))
  {
    RecordKeepsProgress(s);
    RecordKeepsCounts(s);
  }

  lemma CommitOffsetKeepsConsumer(s: Sys)
    requires ConsumerSound(s) && CountsExact(s) && Enabled(s, CommitOffset)
    ensures ConsumerSound(Do(s, CommitOffset)) && CountsExact(Do(s, CommitOffset))
  {
    var t, log := Do(s, CommitOffset), SaleLog(s.sent);
    forall i | 0 <= i < t.offset ensures Dealt(t.rows, t.first, log[i]) {
      assert i < s.offset ==> Dealt(s.rows, s.first, log[i]);
    }
  }

  lemma SendKeepsCounting(s: Sys, l: Label)
    requires ConsumerSound(s) && CountsExact(s) && Enabled(s, l) && (l.SendOk? || l.SendFailed?)
    ensures ConsumerSound(Do(s, l)) && CountsExact(Do(s, l))
  {
    var t := Do(s, l);
    if t.sent != s.sent {
      LogGrows(s.sent, t.sent[|s.sent|]);
      assert t.sent == s.sent + [t.sent[|s.sent|]];
    }
    OutsideKeepsConsumerSound(s, t);
  }

  lemma AppendKeepsCounting(s: Sys, row: OutboxRow)
    requires ConsumerSound(s) && CountsExact(s)
    ensures ConsumerSound(Do(s, Append(row))) && CountsExact(Do(s, Append(row)))
  {
    OutsideKeepsConsumerSound(s, Do(s, Append(row)));
    AppendKeepsCounters(s.rows, s.taken, s.entries, row);
  }

  lemma CrashKeepsConsumer(s: Sys)
    requires ConsumerSound(s) && CountsExact(s)
    ensures ConsumerSound(Do(s, Crash)) && CountsExact(Do(s, Crash))
  {
    var t := Do(s, Crash);
    assert KeysAgree(t) && CompleteUnlessBroken(t);
  }

  /** The consumer does not see the workers' batches or the clock. */
  lemma UnseenKeepsCounting(s: Sys, l: Label)
    requires ConsumerSound(s) && CountsExact(s) && Enabled(s, l)
    requires l.BeginBatch? || l.SkipRow? || l.CommitBatch? || l.RollbackBatch? || l.Tick? || l.Rewind?
    ensures ConsumerSound(Do(s, l)) && CountsExact(Do(s, l))
  {
    if !l.Rewind? {
      OutsideKeepsConsumerSound(s, Do(s, l));
    } else {
      assert KeysAgree(Do(s, l)) && CompleteUnlessBroken(Do(s, l));
    }
  }

  lemma StepKeepsCounting(s: Sys, l: Label)
    requires ConsumerSound(s) && CountsExact(s) && Enabled(s, l) && Timely(s, l)
    ensures ConsumerSound(Do(s, l)) && CountsExact(Do(s, l))
  {
    match l
    case Receive => ReceiveKeepsConsumer(s);
    case RecordLine => RecordKeepsConsumer(s);
    case CommitOffset => CommitOffsetKeepsConsumer(s);
    case Append(row) => AppendKeepsCounting(s, row);
    case SendOk(w) => SendKeepsCounting(s, l);
    case SendFailed(w, appended) => SendKeepsCounting(s, l);
    case Crash => CrashKeepsConsumer(s);
    case _ => UnseenKeepsCounting(s, l);
  }

  ghost predicate Sound(s: Sys)
  {
    WorkersSound(s) && ConsumerSound(s) && CountsExact(s)
  }

  /** An empty pipeline: nothing committed, nothing sent, nothing counted. */
  predicate Empty(s: Sys)
  {
    && s.rows == [] && s.processed == {} && s.batches == map[] && s.sent == [] && s.offset == 0 && s.consumer.Idle?
    && s.dedup == map[] && s.daily == map[] && s.first == map[] && s.taken == map[] && s.broken == {}
    && s.added == multiset{} && s.entries == map[]
  }

  lemma {:induction false} RunKeepsSound(s: Sys, ls: seq<Label>)
    requires Sound(s) && Run(s, ls) && TimelyRun(s, ls)
    ensures Sound(Last(s, ls))
    decreases |ls|
  {
    if ls != [] {
      StepKeepsWorkersSound(s, ls[0]);
      StepKeepsCounting(s, ls[0]);
      RunKeepsSound(Do(s, ls[0]), ls[1..]);
    }
  }

  // ---- Main results ----

  /** The product's daily hash was never left alone for 180 days, from one addition to the next or from the
      last one to now. */
  predicate Retained(s: Sys, p: ProductKey)
  {
    NeverIdle(EntriesOf(s.entries, p), 180 * 24 * 3600 * 1_000_000, s.now)
  }

  /** A counter shows no more than was ever added to it. */
  lemma CounterAtMostEver(s: Sys, key: DailyKey)
    requires HashesKept(s.daily, s.entries)
    ensures 0 <= Counter(s, key) <= Ever(s.entries, key)
  {
    var p := ProductOf(key);
    assert At(s.daily, p) == Kept(EntriesOf(s.entries, p), DAILY_RETENTION);
    ReadsAtMostAdded(EntriesOf(s.entries, p), DAILY_RETENTION, s.now, key.day);
  }

  /** The counters of a product show everything that was added. */
  ghost predicate ShowsAll(s: Sys, p: ProductKey)
  {
    forall key :: ProductOf(key) == p ==> Counter(s, key) == Ever(s.entries, key)
  }

  /** They do exactly when the hash was never idle for 180 days. */
  lemma ShowsAllWhenRetained(s: Sys, p: ProductKey)
    requires HashesKept(s.daily, s.entries)
    ensures ShowsAll(s, p) <==> Retained(s, p)
  {
    var entries := EntriesOf(s.entries, p);
    assert At(s.daily, p) == Kept(entries, DAILY_RETENTION);
    ReadsAllWhenNeverIdle(entries, DAILY_RETENTION, s.now);
    if ShowsAll(s, p) {
      forall f ensures Field(LiveFields(Kept(entries, DAILY_RETENTION), s.now), f) == Field(Forever(entries), f) {
        assert ProductOf(DailyKey(p.tenant, p.product, f)) == p;
      }
    }
  }

  /** The counters of a product are exactly the units of its lines added so far. */
  ghost predicate CountsLines(s: Sys, p: ProductKey)
    requires Within(s.rows, s.taken)
  {
    forall key :: ProductOf(key) == p ==> Counter(s, key) == UnitsTaken(s.rows, |s.rows|, s.taken, key)
  }

  /** In every reachable state, rollbacks after sends, ambiguous sends, redelivery and crashes included: no line
      has been added twice, no counter shows more than the units of the lines added, and the counters of a
      product show exactly those units if and only if its hash was never idle for 180 days. */
  lemma AddedAtMostOnce(s: Sys, ls: seq<Label>)
    requires Empty(s) && Run(s, ls) && TimelyRun(s, ls)
    ensures var end := Last(s, ls);
      && (forall r: nat, k: nat :: end.added[(r, k)] <= 1)
      && Within(end.rows, end.taken)
      && (forall key :: 0 <= Counter(end, key) <= UnitsTaken(end.rows, |end.rows|, end.taken, key))
      && (forall p :: CountsLines(end, p) <==> Retained(end, p))
  {
    RunKeepsSound(s, ls);
    var end := Last(s, ls);
    forall key ensures 0 <= Counter(end, key) <= UnitsTaken(end.rows, |end.rows|, end.taken, key) {
      CounterAtMostEver(end, key);
    }
    forall p ensures CountsLines(end, p) <==> Retained(end, p) {
      ShowsAllWhenRetained(end, p);
    }
  }

  /** Whatever the consumer does and however many workers run: every message comes from a committed row of
      its topic, a PROCESSED row has been published, and no row is in two open batches. */
  lemma {:induction false} PublishedMatchesCommitted(s: Sys, ls: seq<Label>)
    requires WorkersSound(s) && Run(s, ls)
    ensures WorkersSound(Last(s, ls))
    decreases |ls|
  {
    if ls != [] {
      StepKeepsWorkersSound(s, ls[0]);
      PublishedMatchesCommitted(Do(s, ls[0]), ls[1..]);
    }
  }

  /** Every sale row is PROCESSED and every message of the sale topic has been consumed. */
  ghost predicate Drained(s: Sys)
  {
    && s.consumer.Idle? && s.offset == |SaleLog(s.sent)|
    && forall r :: 0 <= r < |s.rows| && s.rows[r].eventType == SALE_EVENT ==> r in s.processed
  }

  lemma {:induction false} InLog(sent: seq<Message>, m: Message)
    requires m in sent && m.topic == SALE_TOPIC
    ensures m.row in SaleLog(sent)
  {
    if m != sent[|sent| - 1] {
      InLog(sent[..|sent| - 1], m);
    }
  }

  lemma {:induction false} FromLog(sent: seq<Message>, r: nat)
    requires r in SaleLog(sent)
    ensures exists m :: m in sent && m.topic == SALE_TOPIC && m.row == r
  {
    var last := sent[|sent| - 1];
    if last.topic != SALE_TOPIC || last.row != r {
      FromLog(sent[..|sent| - 1], r);
    }
  }

  /** In a drained pipeline exactly the valid sale events have been taken. */
  lemma DrainedTookEverySale(s: Sys)
    requires Sound(s) && Drained(s) && TakenInLog(s)
    ensures forall r :: 0 <= r < |s.rows| ==> (r in s.first <==> SaleRow(s.rows[r]))
  {
    forall r | 0 <= r < |s.rows| ensures r in s.first <==> SaleRow(s.rows[r]) {
      if SaleRow(s.rows[r]) {
        assert r in RowsSent(s.sent);
        var m :| m in s.sent && m.row == r;
        InLog(s.sent, m);
        var i :| 0 <= i < s.offset && SaleLog(s.sent)[i] == r;
        assert Dealt(s.rows, s.first, SaleLog(s.sent)[i]);
      } else if r in s.first {
        FromLog(s.sent, r);
      }
    }
  }

  ghost predicate AllInLog(first: map<nat, int>, sent: seq<Message>)
  {
    forall r :: r in first ==> r in SaleLog(sent)
  }

  ghost predicate TakenInLog(s: Sys)
  {
    AllInLog(s.first, s.sent)
  }

  lemma SentKeepsAllInLog(first: map<nat, int>, sent: seq<Message>, m: Message)
    requires AllInLog(first, sent)
    ensures AllInLog(first, sent + [m])
  {
    LogGrows(sent, m);
  }

  lemma ReceiveTakesFromLog(s: Sys)
    requires TakenInLog(s) && Enabled(s, Receive)
    ensures TakenInLog(Do(s, Receive))
  {
    var t, r := Do(s, Receive), SaleLog(s.sent)[s.offset];
    assert t.sent == s.sent && t.first.Keys <= s.first.Keys + {r};
  }

  lemma SendTakesFromLog(s: Sys, l: Label)
    requires TakenInLog(s) && Enabled(s, l) && (l.SendOk? || l.SendFailed?)
    ensures TakenInLog(Do(s, l))
  {
    var t := Do(s, l);
    if t.sent != s.sent {
      SentKeepsAllInLog(s.first, s.sent, t.sent[|s.sent|]);
      assert t.sent == s.sent + [t.sent[|s.sent|]];
    }
  }

  lemma StepTakesFromLog(s: Sys, l: Label)
    requires TakenInLog(s) && Enabled(s, l)
    ensures TakenInLog(Do(s, l))
  {
    if l.SendOk? || l.SendFailed? {
      SendTakesFromLog(s, l);
    } else if l.Receive? {
      ReceiveTakesFromLog(s);
    } else {
      assert Do(s, l).sent == s.sent && Do(s, l).first == s.first;
    }
  }

  /** Only messages of the log are ever taken. */
  lemma {:induction false} TakenFromLog(s: Sys, ls: seq<Label>)
    requires Run(s, ls) && TakenInLog(s)
    ensures TakenInLog(Last(s, ls))
    decreases |ls|
  {
    if ls != [] {
      StepTakesFromLog(s, ls[0]);
      TakenFromLog(Do(s, ls[0]), ls[1..]);
    }
  }

  lemma {:induction false} UnitsGrow(row: OutboxRow, j: nat, k: nat, key: DailyKey)
    requires j <= k && row.lines.Some? && k <= |row.lines.value|
    ensures Units(row, j, key) <= Units(row, k, key)
    ensures j < k && KeyOf(row, row.lines.value[j]) == key ==> Units(row, j, key) < Units(row, k, key)
  {
    if j < k {
      UnitsGrow(row, j, k - 1, key);
    }
  }

  ghost predicate TookSales(rows: seq<OutboxRow>, taken: map<nat, nat>)
  {
    Within(rows, taken) && forall r :: 0 <= r < |rows| ==> (r in taken <==> SaleRow(rows[r]))
  }

  /** The first line not taken counts towards the key. */
  predicate LeavesOut(row: OutboxRow, k: nat, key: DailyKey)
  {
    row.lines.Some? && k < |row.lines.value| && KeyOf(row, row.lines.value[k]) == key
  }

  lemma {:induction false} ForeignUnits(row: OutboxRow, k: nat, key: DailyKey)
    requires row.aggregate != key.tenant && (row.lines.Some? ==> k <= |row.lines.value|)
    ensures Units(row, k, key) == 0
  {
    if row.lines.Some? && k > 0 {
      ForeignUnits(row, k - 1, key);
    }
  }

  /** What has been taken is at most the total, equal to it if the tenant's rows were taken completely, and
      less on the key of a line left out. */
  lemma {:induction false} TakenBelowTotal(rows: seq<OutboxRow>, n: nat, taken: map<nat, nat>, key: DailyKey)
    requires n <= |rows| && TookSales(rows, taken)
    ensures UnitsTaken(rows, n, taken, key) <= Total(rows[..n], key)
    ensures (forall r :: r in taken && rows[r].aggregate == key.tenant ==> taken[r] == |rows[r].lines.value|) ==>
      UnitsTaken(rows, n, taken, key) == Total(rows[..n], key)
    ensures (exists r :: r in taken && r < n && LeavesOut(rows[r], taken[r], key)) ==>
      UnitsTaken(rows, n, taken, key) < Total(rows[..n], key)
  {
    if n > 0 {
      TakenBelowTotal(rows, n - 1, taken, key);
      assert rows[..n][..n - 1] == rows[..n - 1];
      assert Total(rows[..n], key) == Total(rows[..n - 1], key)
        + if SaleRow(rows[n - 1]) then Units(rows[n - 1], |rows[n - 1].lines.value|, key) else 0;
      if n - 1 in taken {
        UnitsGrow(rows[n - 1], taken[n - 1], |rows[n - 1].lines.value|, key);
        if rows[n - 1].aggregate != key.tenant {
          ForeignUnits(rows[n - 1], |rows[n - 1].lines.value|, key);
        }
      }
    }
  }

  /** Everything the tenant's committed sale lines call for was added, whatever became of it since. */
  ghost predicate AllAdded(s: Sys, tenant: Id)
  {
    forall key: DailyKey :: key.tenant == tenant ==> Ever(s.entries, key) == Total(s.rows, key)
  }

  /** The tenant's counters show the units of its committed sale lines. */
  ghost predicate TotalsRight(s: Sys, tenant: Id)
  {
    forall key: DailyKey :: key.tenant == tenant ==> Counter(s, key) == Total(s.rows, key)
  }

  /** No handling of an event of the tenant was cut short between its SET NX and its last line. */
  predicate Unbroken(s: Sys, tenant: Id)
  {
    forall r :: r in s.broken && r < |s.rows| ==> s.rows[r].aggregate != tenant
  }

  /** No product of the tenant that had additions was ever idle for 180 days. */
  ghost predicate AllRetained(s: Sys, tenant: Id)
  {
    forall p: ProductKey :: p.tenant == tenant ==> Retained(s, p)
  }

  /** Where a run has taken exactly the sale events, no more was added than they call for, and all of it exactly
      when none of the tenant's handlings was cut short. */
  lemma AllAddedWhenUnbroken(s: Sys, tenant: Id)
    requires ConsumerSound(s) && CountsExact(s) && s.consumer.Idle? && TookSales(s.rows, s.taken)
    ensures forall key :: Ever(s.entries, key) <= Total(s.rows, key)
    ensures AllAdded(s, tenant) <==> Unbroken(s, tenant)
  {
    assert s.rows[..|s.rows|] == s.rows;
    forall key ensures Ever(s.entries, key) <= Total(s.rows, key) {
      TakenBelowTotal(s.rows, |s.rows|, s.taken, key);
    }
    if Unbroken(s, tenant) {
      forall key: DailyKey | key.tenant == tenant ensures Ever(s.entries, key) == Total(s.rows, key) {
        TakenBelowTotal(s.rows, |s.rows|, s.taken, key);
      }
    } else {
      var r :| r in s.broken && r < |s.rows| && s.rows[r].aggregate == tenant;
      var key := KeyOf(s.rows[r], s.rows[r].lines.value[s.taken[r]]);
      TakenBelowTotal(s.rows, |s.rows|, s.taken, key);
      assert LeavesOut(s.rows[r], s.taken[r], key);
      assert Ever(s.entries, key) < Total(s.rows, key);
    }
  }

  /** Counters never show more than was added, and no more was added than was sold: they are right exactly when
      both are equalities. */
  lemma TotalsRightWhenAllShown(s: Sys, tenant: Id)
    requires HashesKept(s.daily, s.entries) && forall key :: Ever(s.entries, key) <= Total(s.rows, key)
    ensures TotalsRight(s, tenant) <==> AllAdded(s, tenant) && AllRetained(s, tenant)
  {
    forall key ensures Counter(s, key) <= Ever(s.entries, key) {
      CounterAtMostEver(s, key);
    }
    forall p: ProductKey ensures ShowsAll(s, p) <==> Retained(s, p) {
      ShowsAllWhenRetained(s, p);
    }
    if TotalsRight(s, tenant) {
      forall key: DailyKey | key.tenant == tenant
        ensures Counter(s, key) == Ever(s.entries, key) == Total(s.rows, key)
      {
        assert Counter(s, key) == Total(s.rows, key);
      }
      forall p: ProductKey | p.tenant == tenant ensures Retained(s, p) {
        assert ShowsAll(s, p);
      }
    }
    if AllAdded(s, tenant) && AllRetained(s, tenant) {
      forall key: DailyKey | key.tenant == tenant ensures Counter(s, key) == Total(s.rows, key) {
        assert ShowsAll(s, ProductOf(key));
      }
    }
  }

  /** Once everything is published and consumed, every tenant's counters equal the units of its committed sale
      lines exactly when no handling of one of its events was cut short between its SET NX and its last line
      and none of its products with additions was ever idle for 180 days. */
  lemma DrainedTotals(s: Sys, ls: seq<Label>)
    requires Empty(s) && Run(s, ls) && TimelyRun(s, ls) && Drained(Last(s, ls))
    ensures var end := Last(s, ls);
      && (forall t: Id :: TotalsRight(end, t) <==> Unbroken(end, t) && AllRetained(end, t))
      && ((forall key :: Counter(end, key) == Total(end.rows, key)) <==>
            end.broken == {} && forall p: ProductKey :: Retained(end, p))
  {
    RunKeepsSound(s, ls);
    TakenFromLog(s, ls);
    var end := Last(s, ls);
    DrainedTookEverySale(end);
    forall t: Id ensures TotalsRight(end, t) <==> Unbroken(end, t) && AllRetained(end, t) {
      AllAddedWhenUnbroken(end, t);
      TotalsRightWhenAllShown(end, t);
    }
    EveryTenant(end);
  }

  /** All counters are right exactly when every tenant's are. */
  lemma EveryTenant(s: Sys)
    requires ConsumerSound(s) && forall t: Id :: TotalsRight(s, t) <==> Unbroken(s, t) && AllRetained(s, t)
    ensures (forall key :: Counter(s, key) == Total(s.rows, key)) <==>
      s.broken == {} && forall p: ProductKey :: Retained(s, p)
  {
    if forall key :: Counter(s, key) == Total(s.rows, key) {
      forall r | r in s.broken ensures false {
        assert TotalsRight(s, s.rows[r].aggregate);
      }
      forall p: ProductKey ensures Retained(s, p) {
        assert TotalsRight(s, p.tenant);
      }
    }
    if s.broken == {} && forall p: ProductKey :: Retained(s, p) {
      forall key: DailyKey ensures Counter(s, key) == Total(s.rows, key) {
        assert TotalsRight(s, key.tenant);
      }
    }
  }

  // ---- An event cut short ----

  /** The consumer may go down at any moment, and Redis and the committed offset stay as they are. */
  lemma CrashKeepsRedis(s: Sys)
    ensures Enabled(s, Crash)
    ensures var t := Do(s, Crash);
      t.consumer.Idle? && t.daily == s.daily && t.dedup == s.dedup && t.offset == s.offset && t.now == s.now && t.sent == s.sent
  {
  }

  lemma SeenIsSkipped(s: Sys)
    requires Enabled(s, Receive) && Seen(s, SaleLog(s.sent)[s.offset])
    ensures Run(s, [Receive] + [CommitOffset])
    ensures Last(s, [Receive] + [CommitOffset]) == s.(offset := s.offset + 1, consumer := Idle)
  {
    var t := s.(consumer := Finished);
    assert Do(s, Receive) == t;
    assert Run(Do(t, CommitOffset), []);
    RunStep(t, CommitOffset, []);
    assert [CommitOffset] + [] == [CommitOffset];
    RunStep(s, Receive, [CommitOffset]);
  }

  /** Cut short after any of its lines but the last, an event redelivered within the day is skipped: its offset is
      committed, the lines that were left are never added, and the event counts as cut short. */
  lemma CutShortIsSkipped(s: Sys)
    requires ConsumerSound(s) && s.consumer.Handling? && !HandledAll(s) && Seen(s, s.consumer.row)
    ensures Run(s, [Crash] + ([Receive] + [CommitOffset]))
    ensures var end := Last(s, [Crash] + ([Receive] + [CommitOffset]));
      && end.offset == s.offset + 1 && end.consumer.Idle? && end.daily == s.daily && end.taken == s.taken
      && s.consumer.row in end.broken
  {
    var t := Do(s, Crash);
    CrashKeepsRedis(s);
    assert t.rows == s.rows && t.taken == s.taken && s.consumer.row in t.broken;
    assert SaleLog(t.sent)[t.offset] == s.consumer.row && Seen(t, s.consumer.row);
    SeenIsSkipped(t);
    RunStep(s, Crash, [Receive] + [CommitOffset]);
  }

  // ---- A product without sales for 180 days ----

  /** Waiting is all it takes: from any state there is a time after which a product's counters all read zero,
      whatever was counted before. */
  lemma IdleProductForgotten(s: Sys, p: ProductKey) returns (wait: nat)
    requires HashesKept(s.daily, s.entries)
    ensures forall key :: ProductOf(key) == p ==> Counter(Do(s, Tick(wait)), key) == 0
  {
    var entries := EntriesOf(s.entries, p);
    assert At(s.daily, p) == Kept(entries, DAILY_RETENTION);
    wait := 0;
    if entries != [] {
      var expiry := entries[|entries| - 1].now + DAILY_RETENTION;
      assert Kept(entries, DAILY_RETENTION).value.expiresAt == expiry;
      wait := if s.now < expiry then expiry - s.now else 0;
    }
  }

  // ---- Redelivery after the dedup key expired ----

  /** A message that was taken before is taken again exactly when it comes too late. */
  lemma RetakenExactlyWhenLate(s: Sys)
    requires ConsumerSound(s) && Enabled(s, Receive) && SaleLog(s.sent)[s.offset] in s.first
    ensures Do(s, Receive).consumer.Handling? <==> !Timely(s, Receive)
  {
  }

  /** A delivery after the key expired starts the event over and adds its first line again. */
  lemma LateReceive(s: Sys)
    requires ConsumerSound(s) && AdditionsExact(s.taken, s.added) && Enabled(s, Receive)
    requires SaleLog(s.sent)[s.offset] in s.first && !Timely(s, Receive)
    requires 0 < Taken(s.taken, SaleLog(s.sent)[s.offset])
    ensures Run(s, [Receive] + [RecordLine])
    ensures Last(s, [Receive] + [RecordLine]).added[(SaleLog(s.sent)[s.offset], 0)] == 2
  {
    var r := SaleLog(s.sent)[s.offset];
    var t := Do(s, Receive);
    assert t.consumer == Handling(r, 0) && t.added == s.added && t.rows == s.rows;
    assert s.added[(r, 0)] == 1;
    assert Run(Do(t, RecordLine), []);
    RunStep(t, RecordLine, []);
    assert [RecordLine] + [] == [RecordLine];
    RunStep(s, Receive, [RecordLine]);
  }

  /** From any state in which an event has been counted, an old delivery after a day counts it again. */
  lemma LateRedeliveryCountsTwice(s: Sys, i: nat) returns (ls: seq<Label>)
    requires ConsumerSound(s) && AdditionsExact(s.taken, s.added) && s.consumer.Idle? && i < s.offset
    requires ValidEvent(s.rows[SaleLog(s.sent)[i]]) && 0 < Taken(s.taken, SaleLog(s.sent)[i])
    ensures Run(s, ls) && Last(s, ls).added[(SaleLog(s.sent)[i], 0)] == 2
  {
    var r := SaleLog(s.sent)[i];
    assert Dealt(s.rows, s.first, r);
    var d := if s.now < s.dedup[r] then s.dedup[r] - s.now else 0;
    var late := s.(offset := i, now := s.now + d);
    WaitKeepsConsumer(s, i, d);
    LateReceive(late);
    ls := [Rewind(i)] + ([Tick(d)] + ([Receive] + [RecordLine]));
    RewindAndWait(s, i, d, [Receive] + [RecordLine]);
  }

  lemma RewindAndWait(s: Sys, i: nat, d: nat, ls: seq<Label>)
    requires s.consumer.Idle? && i <= s.offset && Run(s.(offset := i, now := s.now + d), ls)
    ensures Run(s, [Rewind(i)] + ([Tick(d)] + ls))
    ensures Last(s, [Rewind(i)] + ([Tick(d)] + ls)) == Last(s.(offset := i, now := s.now + d), ls)
  {
    var mid := Do(s, Rewind(i));
    assert Do(mid, Tick(d)) == s.(offset := i, now := s.now + d);
    var rest := [Tick(d)] + ls;
    assert Run(mid, rest) && Last(mid, rest) == Last(s.(offset := i, now := s.now + d), ls) by {
      RunStep(mid, Tick(d), ls);
    }
    RunStep(s, Rewind(i), rest);
  }

  lemma WaitKeepsConsumer(s: Sys, i: nat, d: nat)
    requires ConsumerSound(s) && s.consumer.Idle? && i <= s.offset
    ensures ConsumerSound(s.(offset := i, now := s.now + d))
  {
    var t := s.(offset := i, now := s.now + d);
    assert KeysAgree(t) && CompleteUnlessBroken(t);
  }
}
