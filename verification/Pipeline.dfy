/** From a committed outbox row to the daily sales counters: the polling worker, the topic log and the
    deduplicating consumer as one step machine. Sends may fail after the message was appended, a batch may
    roll back after sending, and the consumer may crash around any line of an event or be handed old messages. */
module Pipeline {
  import opened Prelude
  import opened Model
  import opened Expiring

  const BATCH_SIZE := 100
  const SALE_TOPIC := "aurapro.events.venta_realizada"
  const PURCHASE_TOPIC := "aurapro.events.orden_compra_generada"

  /** Times are in microseconds. */
  const SECOND := 1_000_000
  const DAY := 24 * 3600 * SECOND
  const DEDUP_TTL := 24 * 3600 * SECOND
  const DAILY_RETENTION := 180 * DAY

  function TopicFor(eventType: string): Option<string>
  {
    if eventType == SALE_EVENT then Some(SALE_TOPIC)
    else if eventType == PURCHASE_EVENT then Some(PURCHASE_TOPIC)
    else None
  }

  predicate Mapped(row: OutboxRow)
  {
    TopicFor(row.eventType).Some?
  }

  /** A message carries the whole row, event id included; the row's position stands for both. */
  datatype Message = Message(topic: string, row: nat)

  type WorkerId = nat
  type LineId = (nat, nat)

  /** The open transaction of one worker: the rows it selected and locked, how far it is, what it marked. */
  datatype Batch = Batch(rows: seq<nat>, pos: nat, marked: set<nat>, stopped: bool)

  datatype Consumer = Idle | Handling(row: nat, next: nat) | Finished

  datatype DailyKey = DailyKey(tenant: Id, product: Id, day: int)

  /** The last five fields are history: when each event was first taken, how many of its lines have been
      added, whether its handling was cut short, every line addition ever made, and for every product what
      was added to its daily hash. */
  datatype Sys = Sys(
    rows: seq<OutboxRow>,
    processed: set<nat>,
    batches: map<WorkerId, Batch>,
    sent: seq<Message>,
    offset: nat,
    consumer: Consumer,
    now: int,
    dedup: map<nat, int>,
    daily: map<ProductKey, Hash>,
    first: map<nat, int>,
    taken: map<nat, nat>,
    broken: set<nat>,
    added: multiset<LineId>,
    entries: map<ProductKey, seq<Entry>>)

  datatype Label =
    | Append(row: OutboxRow)
    | BeginBatch(w: WorkerId, rows: seq<nat>)
    | SkipRow(w: WorkerId)
    | SendOk(w: WorkerId)
    | SendFailed(w: WorkerId, appended: bool)
    | CommitBatch(w: WorkerId)
    | RollbackBatch(w: WorkerId)
    | Receive
    | RecordLine
    | CommitOffset
    | Crash
    | Rewind(to: nat)
    | Tick(elapsed: nat)

  function RowsSent(sent: seq<Message>): set<nat>
  {
    set m | m in sent :: m.row
  }

  /** The messages of the sale topic, in order. */
  function SaleLog(sent: seq<Message>): seq<nat>
  {
    if sent == [] then []
    else
      var m := sent[|sent| - 1];
      SaleLog(sent[..|sent| - 1]) + if m.topic == SALE_TOPIC then [m.row] else []
  }

  /** Positions below n that are not blocked, in order. */
  function Free(n: nat, blocked: set<nat>): seq<nat>
  {
    if n == 0 then []
    else Free(n - 1, blocked) + if n - 1 in blocked then [] else [n - 1]
  }

  function Locked(batches: map<WorkerId, Batch>): set<nat>
  {
    set w, r | w in batches && r in batches[w].rows :: r
  }

  /** WHERE status = 'PENDING' LIMIT 100 FOR UPDATE SKIP LOCKED: whatever the order, at most a hundred different
      rows that are pending and that nobody has locked. */
  predicate Selectable(s: Sys, rows: seq<nat>)
  {
    && |rows| <= BATCH_SIZE && NoDuplicates(rows)
    && forall r :: r in rows ==> r < |s.rows| && r !in s.processed && r !in Locked(s.batches)
  }

  /** The oldest rows that are not blocked, when rows become visible in the order of their dates. */
  function Picked(rows: seq<OutboxRow>, blocked: set<nat>): seq<nat>
  {
    var free := Free(|rows|, blocked);
    if |free| <= BATCH_SIZE then free else free[..BATCH_SIZE]
  }

  function Selected(s: Sys): seq<nat>
  {
    Picked(s.rows, s.processed + Locked(s.batches))
  }

  predicate ValidEvent(row: OutboxRow)
  {
    row.lines.Some? && row.lines.value != []
  }

  /** The calendar day of a timestamp, counted from the epoch. */
  function DayOf(at: int): (d: int)
    ensures d * (24 * 3600 * 1_000_000) <= at < (d + 1) * (24 * 3600 * 1_000_000)
  {
    at / DAY
  }

  /** A day holds exactly the instants from its midnight to the next. */
  lemma DayIs(at: int, d: int)
    ensures DayOf(at) == d <==> d * (24 * 3600 * 1_000_000) <= at < (d + 1) * (24 * 3600 * 1_000_000)
  {
  }

  function KeyOf(row: OutboxRow, line: EventLine): DailyKey
  {
    DailyKey(row.aggregate, line.product, DayOf(row.at))
  }

  function ProductOf(key: DailyKey): ProductKey
  {
    ProductKey(key.tenant, key.product)
  }

  /** What a read of one day of a product's hash gives now. */
  function Counter(s: Sys, key: DailyKey): int
  {
    Live(s.daily, ProductOf(key), key.day, s.now)
  }

  function EntriesOf(entries: map<ProductKey, seq<Entry>>, p: ProductKey): seq<Entry>
  {
    if p in entries then entries[p] else []
  }

  /** SET NX fails only while the key has not expired. */
  predicate Seen(s: Sys, row: nat)
  {
    row in s.dedup && s.now < s.dedup[row]
  }

  /** The worker is at a row it still has to deal with. */
  predicate AtRow(s: Sys, w: WorkerId)
  {
    && w in s.batches
    && var b := s.batches[w];
    && !b.stopped && b.pos < |b.rows| && b.rows[b.pos] < |s.rows|
  }

  function Current(s: Sys, w: WorkerId): nat
    requires AtRow(s, w)
  {
    s.batches[w].rows[s.batches[w].pos]
  }

  predicate HandledAll(s: Sys)
  {
    || s.consumer.Finished?
    || (s.consumer.Handling? && s.consumer.row < |s.rows| && s.rows[s.consumer.row].lines.Some?
        && s.consumer.next == |s.rows[s.consumer.row].lines.value|)
  }

  predicate Enabled(s: Sys, l: Label)
  {
    match l
    case Append(_) => true
    case BeginBatch(w, rows) => w !in s.batches && Selectable(s, rows)
    case SkipRow(w) => AtRow(s, w) && !Mapped(s.rows[Current(s, w)])
    case SendOk(w) => AtRow(s, w) && Mapped(s.rows[Current(s, w)])
    case SendFailed(w, _) => AtRow(s, w) && Mapped(s.rows[Current(s, w)])
    case CommitBatch(w) => w in s.batches && (s.batches[w].stopped || s.batches[w].pos == |s.batches[w].rows|)
    case RollbackBatch(w) => w in s.batches
    case Receive => s.consumer.Idle? && s.offset < |SaleLog(s.sent)| && SaleLog(s.sent)[s.offset] < |s.rows|
    case RecordLine =>
      && s.consumer.Handling? && s.consumer.row < |s.rows| && s.rows[s.consumer.row].lines.Some?
      && s.consumer.next < |s.rows[s.consumer.row].lines.value|
    case CommitOffset => HandledAll(s)
    case Crash => true
    case Rewind(to) => s.consumer.Idle? && to <= s.offset
    case Tick(_) => true
  }

  function Send(s: Sys, w: WorkerId): seq<Message>
    requires AtRow(s, w) && Mapped(s.rows[Current(s, w)])
  {
    s.sent + [Message(TopicFor(s.rows[Current(s, w)].eventType).value, Current(s, w))]
  }

  /** SET NX succeeded: the key is set to expire in a day and the lines are still to be added. */
  function StartEvent(s: Sys, r: nat): Sys
  {
    s.(dedup := s.dedup[r := s.now + DEDUP_TTL],
       consumer := Handling(r, 0),
       first := if r in s.first then s.first else s.first[r := s.now],
       taken := s.taken[r := 0])
  }

  function TakeMessage(s: Sys): Sys
    requires Enabled(s, Receive)
  {
    var r := SaleLog(s.sent)[s.offset];
    if !ValidEvent(s.rows[r]) || Seen(s, r) then s.(consumer := Finished)
    else StartEvent(s, r)
  }

  function TakeLine(s: Sys): Sys
    requires Enabled(s, RecordLine)
  {
    var r, k := s.consumer.row, s.consumer.next;
    var line := s.rows[r].lines.value[k];
    var p := ProductKey(s.rows[r].aggregate, line.product);
    var day := DayOf(s.rows[r].at);
    s.(daily := BumpIn(s.daily, p, day, line.quantity, s.now, DAILY_RETENTION),
       entries := s.entries[p := EntriesOf(s.entries, p) + [Entry(day, line.quantity, s.now)]],
       consumer := Handling(r, k + 1),
       taken := s.taken[r := k + 1],
       added := s.added + multiset{(r, k)})
  }

  function Do(s: Sys, l: Label): Sys
    requires Enabled(s, l)
  {
    match l
    case Append(row) => s.(rows := s.rows + [row])
    case BeginBatch(w, rows) => s.(batches := s.batches[w := Batch(rows, 0, {}, false)])
    case SkipRow(w) =>
      var b := s.batches[w];
      s.(batches := s.batches[w := b.(pos := b.pos + 1)])
    case SendOk(w) =>
      var b := s.batches[w];
      s.(sent := Send(s, w), batches := s.batches[w := b.(pos := b.pos + 1, marked := b.marked + {Current(s, w)})])
    case SendFailed(w, appended) =>
      s.(sent := if appended then Send(s, w) else s.sent,
         batches := s.batches[w := s.batches[w].(stopped := true)])
    case CommitBatch(w) => s.(processed := s.processed + s.batches[w].marked, batches := s.batches - {w})
    case RollbackBatch(w) => s.(batches := s.batches - {w})
    case Receive => TakeMessage(s)
    case RecordLine => TakeLine(s)
    case CommitOffset => s.(offset := s.offset + 1, consumer := Idle)
    case Crash =>
      s.(consumer := Idle,
         broken := if s.consumer.Handling? && !HandledAll(s) then s.broken + {s.consumer.row} else s.broken)
    case Rewind(to) => s.(offset := to)
    case Tick(elapsed) => s.(now := s.now + elapsed)
  }

  ghost predicate Run(s: Sys, ls: seq<Label>)
    decreases |ls|
  {
    ls == [] || (Enabled(s, ls[0]) && Run(Do(s, ls[0]), ls[1..]))
  }

  ghost function Last(s: Sys, ls: seq<Label>): Sys
    requires Run(s, ls)
    decreases |ls|
  {
    if ls == [] then s else Last(Do(s, ls[0]), ls[1..])
  }

  lemma RunStep(s: Sys, l: Label, ls: seq<Label>)
    requires Enabled(s, l) && Run(Do(s, l), ls)
    ensures Run(s, [l] + ls) && Last(s, [l] + ls) == Last(Do(s, l), ls)
  {
    assert ([l] + ls)[1..] == ls;
  }

  lemma {:induction false} RunAppend(s: Sys, ls: seq<Label>, l: Label)
    requires Run(s, ls) && Enabled(Last(s, ls), l)
    ensures Run(s, ls + [l]) && Last(s, ls + [l]) == Do(Last(s, ls), l)
    decreases |ls|
  {
    if ls == [] {
      assert Run(Do(s, l), []);
      RunStep(s, l, []);
      assert [l] + [] == [] + [l];
    } else {
      assert (ls + [l])[1..] == ls[1..] + [l];
      RunAppend(Do(s, ls[0]), ls[1..], l);
    }
  }

  // ---- Selection ----

  lemma {:induction false} FreeIsFree(n: nat, blocked: set<nat>)
    ensures forall i :: i in Free(n, blocked) <==> 0 <= i < n && i !in blocked
    ensures forall p, q :: 0 <= p < q < |Free(n, blocked)| ==> Free(n, blocked)[p] < Free(n, blocked)[q]
  {
    if n > 0 {
      FreeIsFree(n - 1, blocked);
      var front := Free(n - 1, blocked);
      assert forall p :: 0 <= p < |front| ==> front[p] in front;
    }
  }

  /** What is selected is pending, unlocked, in order, at most a hundred, and leaves out no earlier row. */
  lemma SelectedIsOldest(s: Sys)
    ensures var sel := Selected(s);
      && Selectable(s, sel)
      && (forall p, q :: 0 <= p < q < |sel| ==> sel[p] < sel[q])
      && (forall p, j :: 0 <= p < |sel| && 0 <= j < sel[p] && j !in s.processed && j !in Locked(s.batches)
            ==> j in sel[..p])
  {
    var free := Free(|s.rows|, s.processed + Locked(s.batches));
    FreeIsFree(|s.rows|, s.processed + Locked(s.batches));
    var sel := Selected(s);
    assert forall p :: 0 <= p < |sel| ==> sel[p] == free[p];
    forall r | r in sel ensures r in free {
      var p :| 0 <= p < |sel| && sel[p] == r;
      assert free[p] == r;
    }
    forall p, j | 0 <= p < |sel| && 0 <= j < sel[p] && j !in s.processed && j !in Locked(s.batches)
      ensures j in sel[..p]
    {
      assert free[p] in free && j in free;
      var q :| 0 <= q < |free| && free[q] == j;
      assert q < p;
      assert sel[..p][q] == j;
    }
  }
}
