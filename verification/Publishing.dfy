/** The polling worker: the order in which a single replica publishes, the batch loop itself, and how many
    polls drain a backlog. */
module Publishing {
  import opened Prelude
  import opened Model
  import opened Pipeline
  import opened Counting

  // ---- A single replica publishes in outbox order ----

  predicate SingleReplica(l: Label)
  {
    l.BeginBatch? || l.SkipRow? || l.SendOk? || l.SendFailed? || l.CommitBatch? || l.RollbackBatch? ==> l.w == 0
  }

  /** One replica, and every batch takes the oldest pending rows. */
  predicate OldestFirst(s: Sys, l: Label)
  {
    SingleReplica(l) && (l.BeginBatch? ==> l.rows == Selected(s))
  }

  ghost predicate OldestFirstRun(s: Sys, ls: seq<Label>)
    requires Run(s, ls)
    decreases |ls|
  {
    ls == [] || (OldestFirst(s, ls[0]) && OldestFirstRun(Do(s, ls[0]), ls[1..]))
  }

  /** Whenever a row is published, all earlier mapped rows have been published before. */
  ghost predicate InOrder(rows: seq<OutboxRow>, sent: seq<Message>)
  {
    forall k, i :: 0 <= k < |sent| && 0 <= i < sent[k].row && i < |rows| && Mapped(rows[i]) ==> i in RowsSent(sent[..k])
  }

  /** The open batch leaves out no earlier pending row, and what it has passed is published. */
  ghost predicate BatchInOrder(rows: seq<OutboxRow>, processed: set<nat>, sent: seq<Message>, b: Batch)
  {
    && b.pos <= |b.rows|
    && (forall p, j :: 0 <= p < |b.rows| && 0 <= j < b.rows[p] ==> j in processed || j in b.rows[..p])
    && (forall p :: 0 <= p < b.pos && b.rows[p] < |rows| && Mapped(rows[b.rows[p]]) ==> b.rows[p] in RowsSent(sent))
  }

  ghost predicate OneBatchInOrder(s: Sys)
  {
    && InOrder(s.rows, s.sent)
    && s.batches.Keys <= {0}
    && (0 in s.batches ==> BatchInOrder(s.rows, s.processed, s.sent, s.batches[0]))
  }

  ghost predicate OrderSound(s: Sys)
  {
    WorkersSound(s) && OneBatchInOrder(s)
  }

  /** The earlier mapped rows at the moment a batch reaches a row are all published. */
  lemma EarlierPublished(s: Sys, i: nat)
    requires OrderSound(s) && AtRow(s, 0) && i < Current(s, 0) && Mapped(s.rows[i])
    ensures i in RowsSent(s.sent)
  {
    var b := s.batches[0];
    if i !in s.processed {
      assert i in b.rows[..b.pos];
      var p :| 0 <= p < b.pos && b.rows[p] == i;
    }
  }

  /** Publishing a row whose earlier mapped rows are all published keeps the order. */
  lemma PublishKeepsInOrder(rows: seq<OutboxRow>, sent: seq<Message>, m: Message)
    requires InOrder(rows, sent)
    requires forall i :: 0 <= i < m.row && i < |rows| && Mapped(rows[i]) ==> i in RowsSent(sent)
    ensures InOrder(rows, sent + [m])
  {
    var more := sent + [m];
    forall k, i | 0 <= k < |more| && 0 <= i < more[k].row && i < |rows| && Mapped(rows[i])
      ensures i in RowsSent(more[..k])
    {
      if k < |sent| {
        assert more[..k] == sent[..k] && more[k] == sent[k];
      } else {
        assert more[..k] == sent;
      }
    }
  }

  /** The batch moves past a row that has just been published, or stops at it. */
  lemma PastPublished(rows: seq<OutboxRow>, processed: set<nat>, sent: seq<Message>, more: seq<Message>, b: Batch,
                      next: Batch)
    requires BatchInOrder(rows, processed, sent, b) && RowsSent(sent) <= RowsSent(more)
    requires next.rows == b.rows
    requires next.pos == b.pos || (b.pos < |b.rows| && next.pos == b.pos + 1 && b.rows[b.pos] in RowsSent(more))
    ensures BatchInOrder(rows, processed, more, next)
  {
  }

  lemma PublishKeepsOrder(s: Sys, m: Message)
    requires OrderSound(s) && AtRow(s, 0) && m.row == Current(s, 0)
    ensures InOrder(s.rows, s.sent + [m])
  {
    forall i | 0 <= i < m.row && Mapped(s.rows[i]) ensures i in RowsSent(s.sent) {
      EarlierPublished(s, i);
    }
    PublishKeepsInOrder(s.rows, s.sent, m);
  }

  /** What a send changes. */
  lemma SendStep(s: Sys, l: Label)
    requires Enabled(s, l) && SingleReplica(l) && (l.SendOk? || l.SendFailed?)
    ensures var t, m := Do(s, l), Message(TopicFor(s.rows[Current(s, 0)].eventType).value, Current(s, 0));
      && t.rows == s.rows && t.processed == s.processed && t.batches.Keys == s.batches.Keys
      && t.batches[0].rows == s.batches[0].rows
      && ((t.sent == s.sent + [m] && t.batches[0].pos == s.batches[0].pos + 1)
          || (t.sent in {s.sent, s.sent + [m]} && t.batches[0].pos == s.batches[0].pos))
  {
  }

  lemma SendKeepsOrder(s: Sys, l: Label)
    requires OrderSound(s) && Enabled(s, l) && SingleReplica(l) && (l.SendOk? || l.SendFailed?)
    ensures OneBatchInOrder(Do(s, l))
  {
    var t, m := Do(s, l), Message(TopicFor(s.rows[Current(s, 0)].eventType).value, Current(s, 0));
    SendStep(s, l);
    SentGrows(s.sent, m);
    PublishKeepsOrder(s, m);
    PastPublished(s.rows, s.processed, s.sent, t.sent, s.batches[0], t.batches[0]);
  }

  lemma BeginKeepsOrder(s: Sys)
    requires OrderSound(s) && Enabled(s, BeginBatch(0, Selected(s)))
    ensures OneBatchInOrder(Do(s, BeginBatch(0, Selected(s))))
  {
    SelectedIsOldest(s);
    assert Locked(s.batches) == {};
  }

  lemma SkipKeepsBatchInOrder(rows: seq<OutboxRow>, processed: set<nat>, sent: seq<Message>, b: Batch)
    requires BatchInOrder(rows, processed, sent, b) && b.pos < |b.rows|
    requires b.rows[b.pos] < |rows| && !Mapped(rows[b.rows[b.pos]])
    ensures BatchInOrder(rows, processed, sent, b.(pos := b.pos + 1))
  {
  }

  lemma AppendKeepsOrder(rows: seq<OutboxRow>, row: OutboxRow, processed: set<nat>, sent: seq<Message>, b: Batch)
    requires BatchInOrder(rows, processed, sent, b) && forall p :: 0 <= p < |b.rows| ==> b.rows[p] < |rows|
    ensures BatchInOrder(rows + [row], processed, sent, b)
  {
  }

  lemma OtherKeepsOrder(s: Sys, l: Label)
    requires OneBatchInOrder(s) && Enabled(s, l) && SingleReplica(l)
    requires !l.SendOk? && !l.SendFailed? && !l.BeginBatch? && !l.Append?
    ensures OneBatchInOrder(Do(s, l))
  {
    var t := Do(s, l);
    match l
    case SkipRow(w) => SkipKeepsBatchInOrder(s.rows, s.processed, s.sent, s.batches[0]);
    case CommitBatch(w) => assert 0 !in t.batches;
    case RollbackBatch(w) => assert 0 !in t.batches;
    case _ =>
  }

  lemma AppendRowKeepsOrder(s: Sys, row: OutboxRow)
    requires OrderSound(s)
    ensures OneBatchInOrder(Do(s, Append(row)))
  {
    AppendKeepsInOrder(s.rows, row, s.sent);
    if 0 in s.batches {
      assert BatchSound(|s.rows|, s.processed, RowsSent(s.sent), s.batches[0]);
      forall p | 0 <= p < |s.batches[0].rows| ensures s.batches[0].rows[p] < |s.rows| {
        assert s.batches[0].rows[p] in RowsOf(s.batches[0]);
      }
      AppendKeepsOrder(s.rows, row, s.processed, s.sent, s.batches[0]);
    }
  }

  lemma AppendKeepsInOrder(rows: seq<OutboxRow>, row: OutboxRow, sent: seq<Message>)
    requires InOrder(rows, sent) && MessagesSound(rows, sent)
    ensures InOrder(rows + [row], sent)
  {
    var more := rows + [row];
    forall k, i | 0 <= k < |sent| && 0 <= i < sent[k].row && i < |more| && Mapped(more[i])
      ensures i in RowsSent(sent[..k])
    {
      assert sent[k].row < |rows|;
      assert Mapped(rows[i]);
    }
  }

  lemma StepKeepsOrder(s: Sys, l: Label)
    requires OrderSound(s) && Enabled(s, l) && OldestFirst(s, l)
    ensures OrderSound(Do(s, l))
  {
    StepKeepsWorkersSound(s, l);
    if l.SendOk? || l.SendFailed? {
      SendKeepsOrder(s, l);
    } else if l.BeginBatch? {
      BeginKeepsOrder(s);
    } else if l.Append? {
      AppendRowKeepsOrder(s, l.row);
    } else {
      OtherKeepsOrder(s, l);
    }
  }

  lemma {:induction false} RunKeepsOrder(s: Sys, ls: seq<Label>)
    requires OrderSound(s) && Run(s, ls) && OldestFirstRun(s, ls)
    ensures OrderSound(Last(s, ls))
    decreases |ls|
  {
    if ls != [] {
      StepKeepsOrder(s, ls[0]);
      RunKeepsOrder(Do(s, ls[0]), ls[1..]);
    }
  }

  /** With one replica the published rows are always a prefix of the mapped rows, and wherever a row is
      published, every earlier mapped row was published before it: through breaks, ambiguous sends and rollbacks. */
  lemma PublishedInOrder(s: Sys, ls: seq<Label>, i: nat, j: nat)
    requires Empty(s) && Run(s, ls) && OldestFirstRun(s, ls)
    requires i < j < |Last(s, ls).rows| && Mapped(Last(s, ls).rows[i])
    ensures var end := Last(s, ls);
      && (j in RowsSent(end.sent) ==> i in RowsSent(end.sent))
      && forall k :: 0 <= k < |end.sent| && end.sent[k].row == j ==> i in RowsSent(end.sent[..k])
  {
    RunKeepsOrder(s, ls);
    var end := Last(s, ls);
    if j in RowsSent(end.sent) {
      var m :| m in end.sent && m.row == j;
      var k :| 0 <= k < |end.sent| && end.sent[k] == m;
      assert i in RowsSent(end.sent[..k]);
      var x :| x in end.sent[..k] && x.row == i;
      assert x in end.sent;
    }
  }

  // ---- The batch loop ----

  /** What happens to one send: acknowledged and marked; acknowledged but the UPDATE fails; appended but
      reported as failed; not appended. */
  datatype SendOutcome = Delivered | MarkFailed | Unacknowledged | Refused

  function Outcome(script: seq<SendOutcome>, k: nat): SendOutcome
  {
    if k < |script| then script[k] else Delivered
  }

  /** The positions among ids whose rows have a topic. */
  function MappedOf(rows: seq<OutboxRow>, ids: seq<nat>): seq<nat>
  {
    if ids == [] then []
    else
      var last := ids[|ids| - 1];
      MappedOf(rows, ids[..|ids| - 1]) + if last < |rows| && Mapped(rows[last]) then [last] else []
  }

  /** The first of n sends that is not delivered and marked, or n. */
  function FirstFailure(script: seq<SendOutcome>, n: nat): (f: nat)
    ensures f <= n
    ensures forall k :: 0 <= k < f ==> Outcome(script, k).Delivered?
    ensures f < n ==> !Outcome(script, f).Delivered?
  {
    if n == 0 then 0
    else
      var f := FirstFailure(script, n - 1);
      if f < n - 1 || !Outcome(script, n - 1).Delivered? then f else n
  }

  lemma FirstFailureIs(script: seq<SendOutcome>, n: nat, f: nat)
    requires f <= n && (forall k :: 0 <= k < f ==> Outcome(script, k).Delivered?)
    requires f < n ==> !Outcome(script, f).Delivered?
    ensures FirstFailure(script, n) == f
  {
    var atFirst, atF := Outcome(script, FirstFailure(script, n)), Outcome(script, f);
  }

  lemma PickedIsPending(rows: seq<OutboxRow>, processed: set<nat>)
    ensures forall r :: r in Picked(rows, processed) ==> r < |rows| && r !in processed
    ensures NoDuplicates(Picked(rows, processed))
  {
    FreeIsFree(|rows|, processed);
    var free, ids := Free(|rows|, processed), Picked(rows, processed);
    forall r | r in ids ensures r in free {
      var p :| 0 <= p < |ids| && ids[p] == r;
      assert free[p] == r;
    }
  }

  function MessagesOf(rows: seq<OutboxRow>, ids: seq<nat>): (ms: seq<Message>)
    ensures |ms| == |ids|
  {
    seq(|ids|, i requires 0 <= i < |ids| =>
      Message(if ids[i] < |rows| && Mapped(rows[ids[i]]) then TopicFor(rows[ids[i]].eventType).value else "", ids[i]))
  }

  function Rows(ids: seq<nat>): set<nat>
  {
    set r | r in ids
  }

  lemma {:induction false} MappedOfIs(rows: seq<OutboxRow>, ids: seq<nat>)
    ensures forall r :: r in MappedOf(rows, ids) <==> r in ids && r < |rows| && Mapped(rows[r])
    ensures |MappedOf(rows, ids)| <= |ids|
  {
    if ids != [] {
      var front := ids[..|ids| - 1];
      assert ids == front + [ids[|ids| - 1]];
      MappedOfIs(rows, front);
    }
  }

  lemma {:induction false} MappedOfPrefix(rows: seq<OutboxRow>, ids: seq<nat>, k: nat)
    requires k <= |ids|
    ensures MappedOf(rows, ids[..k]) <= MappedOf(rows, ids)
  {
    if k < |ids| {
      var front := ids[..|ids| - 1];
      assert front[..k] == ids[..k];
      MappedOfPrefix(rows, front, k);
    } else {
      assert ids[..k] == ids;
    }
  }

  lemma MappedOfStep(rows: seq<OutboxRow>, picked: seq<nat>, idx: nat)
    requires idx < |picked| && picked[idx] < |rows|
    ensures MappedOf(rows, picked[..idx + 1])
         == MappedOf(rows, picked[..idx]) + if Mapped(rows[picked[idx]]) then [picked[idx]] else []
  {
    var longer := picked[..idx + 1];
    assert longer[..|longer| - 1] == picked[..idx];
  }

  lemma PrefixStep(all: seq<nat>, longer: seq<nat>, n: nat, x: nat)
    requires n <= |all| && longer <= all && longer == all[..n] + [x]
    ensures n < |all| && all[n] == x && longer == all[..n + 1]
  {
    assert longer[n] == x && longer == all[..|longer|];
  }

  /** The next picked row is the next mapped row if it is mapped. */
  lemma PickNext(rows: seq<OutboxRow>, picked: seq<nat>, idx: nat, n: nat)
    requires idx < |picked| && picked[idx] < |rows| && n <= |MappedOf(rows, picked)|
    requires MappedOf(rows, picked[..idx]) == MappedOf(rows, picked)[..n]
    ensures !Mapped(rows[picked[idx]]) ==> MappedOf(rows, picked[..idx + 1]) == MappedOf(rows, picked)[..n]
    ensures Mapped(rows[picked[idx]]) ==>
      && n < |MappedOf(rows, picked)| && MappedOf(rows, picked)[n] == picked[idx]
      && MappedOf(rows, picked[..idx + 1]) == MappedOf(rows, picked)[..n + 1]
  {
    MappedOfStep(rows, picked, idx);
    if Mapped(rows[picked[idx]]) {
      MappedOfPrefix(rows, picked, idx + 1);
      PrefixStep(MappedOf(rows, picked), MappedOf(rows, picked[..idx + 1]), n, picked[idx]);
    }
  }

  /** One more send: one more message, one more row. */
  lemma SendNext(rows: seq<OutboxRow>, mapped: seq<nat>, n: nat, topic: string)
    requires n < |mapped| && mapped[n] < |rows| && TopicFor(rows[mapped[n]].eventType) == Some(topic)
    ensures MessagesOf(rows, mapped[..n + 1]) == MessagesOf(rows, mapped[..n]) + [Message(topic, mapped[n])]
    ensures Rows(mapped[..n + 1]) == Rows(mapped[..n]) + {mapped[n]}
  {
    assert mapped[..n + 1] == mapped[..n] + [mapped[n]];
  }

  /** What a batch leaves behind: whether it commits, the PROCESSED rows and the messages appended. The
      picked mapped rows up to the first failed send are sent, and that one too unless it was refused; the
      delivered ones are marked unless the transaction rolls back. */
  datatype BatchEnd = BatchEnd(ok: bool, processed: set<nat>, appended: seq<Message>)

  function EndOfBatch(rows: seq<OutboxRow>, processed: set<nat>, script: seq<SendOutcome>, commits: bool): BatchEnd
  {
    var mapped := MappedOf(rows, Picked(rows, processed));
    var f := FirstFailure(script, |mapped|);
    var ok := commits && !(f < |mapped| && Outcome(script, f).MarkFailed?);
    BatchEnd(ok,
             if ok then processed + Rows(mapped[..f]) else processed,
             MessagesOf(rows, mapped[..if f < |mapped| && !Outcome(script, f).Refused? then f + 1 else f]))
  }

  class OutboxTable {
    var rows: seq<OutboxRow>
    var processed: set<nat>
    var log: seq<Message>

    /** process_batch. `script` says what becomes of each send, `commits` whether the final commit goes through. */
    method ProcessBatch(script: seq<SendOutcome>, commits: bool) returns (ok: bool)
      modifies this`processed, this`log
      ensures var end := EndOfBatch(rows, old(processed), script, commits);
        ok == end.ok && processed == end.processed && log == old(log) + end.appended
    {
      var picked := Picked(rows, processed);
      PickedIsPending(rows, processed);
      var marked, appended, rolledBack := SendRows(rows, picked, script);
      log := log + appended;
      if rolledBack || !commits {
        return false;
      }
      processed := processed + marked;
      return true;
    }
  }

  /** The row loop: unmapped rows are skipped, the first failed send ends it, and a failed UPDATE rolls back.
      `appended` is what the broker has been given meanwhile. */
  method SendRows(rows: seq<OutboxRow>, picked: seq<nat>, script: seq<SendOutcome>)
    returns (marked: set<nat>, appended: seq<Message>, rolledBack: bool)
    requires forall r :: r in picked ==> r < |rows|
    ensures var mapped := MappedOf(rows, picked);
      var f := FirstFailure(script, |mapped|);
      && marked == Rows(mapped[..f])
      && (rolledBack <==> f < |mapped| && Outcome(script, f).MarkFailed?)
      && appended == MessagesOf(rows, mapped[..if f < |mapped| && !Outcome(script, f).Refused? then f + 1 else f])
  {
    ghost var mapped := MappedOf(rows, picked);
    marked, appended := {}, [];
    var idx, n := 0, 0;
    while idx < |picked|
      invariant idx <= |picked| && n <= |mapped|
      invariant MappedOf(rows, picked[..idx]) == mapped[..n]
      invariant forall k :: 0 <= k < n ==> Outcome(script, k).Delivered?
      invariant marked == Rows(mapped[..n]) && appended == MessagesOf(rows, mapped[..n])
    {
      var row := picked[idx];
      assert row in picked;
      PickNext(rows, picked, idx, n);
      idx := idx + 1;
      var topic := TopicFor(rows[row].eventType);
      if topic.None? {
        continue;
      }
      SendNext(rows, mapped, n, topic.value);
      var outcome := Outcome(script, n);
      if !outcome.Refused? {
        appended := appended + [Message(topic.value, row)];
      }
      if !outcome.Delivered? {
        FirstFailureIs(script, |mapped|, n);
        return marked, appended, outcome.MarkFailed?;
      }
      marked := marked + {row};
      n := n + 1;
    }
    assert picked[..idx] == picked;
    FirstFailureIs(script, |mapped|, n);
    return marked, appended, false;
  }

  // ---- The batch loop is a run of one worker of the pipeline ----

  /** The pipeline while worker 0 is at position idx of its batch, after n sends delivered of the mapped rows. */
  function Amid(sys: Sys, picked: seq<nat>, mapped: seq<nat>, idx: nat, n: nat): Sys
    requires n <= |mapped|
  {
    sys.(batches := map[0 := Batch(picked, idx, Rows(mapped[..n]), false)],
         sent := sys.sent + MessagesOf(sys.rows, mapped[..n]))
  }

  /** The pipeline after a whole batch. */
  function AfterBatch(sys: Sys, script: seq<SendOutcome>, commits: bool): Sys
  {
    var end := EndOfBatch(sys.rows, sys.processed, script, commits);
    sys.(processed := end.processed, sent := sys.sent + end.appended)
  }

  lemma SkipAmid(sys: Sys, picked: seq<nat>, mapped: seq<nat>, idx: nat, n: nat)
    requires n <= |mapped| && idx < |picked| && picked[idx] < |sys.rows| && !Mapped(sys.rows[picked[idx]])
    ensures Enabled(Amid(sys, picked, mapped, idx, n), SkipRow(0))
    ensures Do(Amid(sys, picked, mapped, idx, n), SkipRow(0)) == Amid(sys, picked, mapped, idx + 1, n)
  {
  }

  lemma SendAmid(sys: Sys, picked: seq<nat>, mapped: seq<nat>, idx: nat, n: nat)
    requires n < |mapped| && idx < |picked| && picked[idx] < |sys.rows|
    requires Mapped(sys.rows[picked[idx]]) && mapped[n] == picked[idx]
    ensures var s := Amid(sys, picked, mapped, idx, n);
      && AtRow(s, 0) && Current(s, 0) == picked[idx] && Enabled(s, SendOk(0))
      && Send(s, 0) == sys.sent + MessagesOf(sys.rows, mapped[..n + 1])
      && Do(s, SendOk(0)) == Amid(sys, picked, mapped, idx + 1, n + 1)
  {
    SendNext(sys.rows, mapped, n, TopicFor(sys.rows[picked[idx]].eventType).value);
  }

  /** The last step of a batch whose loop has ended after f delivered sends. */
  lemma CloseBatch(sys: Sys, s: Sys, script: seq<SendOutcome>, commits: bool) returns (l: Label)
    requires sys.batches == map[]
    requires var mapped := MappedOf(sys.rows, Picked(sys.rows, sys.processed));
      var f := FirstFailure(script, |mapped|);
      && s == sys.(batches := s.batches, sent := sys.sent + EndOfBatch(sys.rows, sys.processed, script, commits).appended)
      && s.batches.Keys == {0} && s.batches[0].marked == Rows(mapped[..f])
      && (s.batches[0].stopped || s.batches[0].pos == |s.batches[0].rows|)
    ensures Enabled(s, l) && Do(s, l) == AfterBatch(sys, script, commits)
  {
    l := if EndOfBatch(sys.rows, sys.processed, script, commits).ok then CommitBatch(0) else RollbackBatch(0);
    assert s.batches - {0} == map[];
  }

  /** The batch the worker has picked, and the mapped rows in it. */
  ghost predicate IsBatch(sys: Sys, picked: seq<nat>, mapped: seq<nat>)
  {
    sys.batches == map[] && picked == Picked(sys.rows, sys.processed) && mapped == MappedOf(sys.rows, picked)
  }

  ghost predicate RunsTo(s: Sys, ls: seq<Label>, end: Sys)
  {
    Run(s, ls) && Last(s, ls) == end
  }

  /** The first send that is not delivered stops the batch. */
  lemma StopRun(sys: Sys, picked: seq<nat>, mapped: seq<nat>, idx: nat, n: nat, script: seq<SendOutcome>,
                commits: bool) returns (ls: seq<Label>)
    requires IsBatch(sys, picked, mapped)
    requires n < |mapped| && idx < |picked| && picked[idx] < |sys.rows|
    requires Mapped(sys.rows[picked[idx]]) && mapped[n] == picked[idx] && FirstFailure(script, |mapped|) == n
    ensures RunsTo(Amid(sys, picked, mapped, idx, n), ls, AfterBatch(sys, script, commits))
  {
    var s := Amid(sys, picked, mapped, idx, n);
    SendAmid(sys, picked, mapped, idx, n);
    var stop := SendFailed(0, !Outcome(script, n).Refused?);
    var t := Do(s, stop);
    var close := CloseBatch(sys, t, script, commits);
    assert Run(Do(t, close), []);
    RunStep(t, close, []);
    RunStep(s, stop, [close] + []);
    ls := [stop] + ([close] + []);
  }

  /** All picked rows dealt with. */
  lemma FinishRun(sys: Sys, picked: seq<nat>, mapped: seq<nat>, n: nat, script: seq<SendOutcome>, commits: bool)
    returns (ls: seq<Label>)
    requires IsBatch(sys, picked, mapped) && n == |mapped|
    requires forall k :: 0 <= k < n ==> Outcome(script, k).Delivered?
    ensures RunsTo(Amid(sys, picked, mapped, |picked|, n), ls, AfterBatch(sys, script, commits))
  {
    FirstFailureIs(script, |mapped|, n);
    var s := Amid(sys, picked, mapped, |picked|, n);
    var close := CloseBatch(sys, s, script, commits);
    assert Run(Do(s, close), []);
    RunStep(s, close, []);
    ls := [close] + [];
  }

  lemma SkipThen(sys: Sys, picked: seq<nat>, mapped: seq<nat>, idx: nat, n: nat, rest: seq<Label>, end: Sys)
    requires n <= |mapped| && idx < |picked| && picked[idx] < |sys.rows| && !Mapped(sys.rows[picked[idx]])
    requires RunsTo(Amid(sys, picked, mapped, idx + 1, n), rest, end)
    ensures RunsTo(Amid(sys, picked, mapped, idx, n), [SkipRow(0)] + rest, end)
  {
    SkipAmid(sys, picked, mapped, idx, n);
    RunStep(Amid(sys, picked, mapped, idx, n), SkipRow(0), rest);
  }

  lemma SendThen(sys: Sys, picked: seq<nat>, mapped: seq<nat>, idx: nat, n: nat, rest: seq<Label>, end: Sys)
    requires n < |mapped| && idx < |picked| && picked[idx] < |sys.rows|
    requires Mapped(sys.rows[picked[idx]]) && mapped[n] == picked[idx]
    requires RunsTo(Amid(sys, picked, mapped, idx + 1, n + 1), rest, end)
    ensures RunsTo(Amid(sys, picked, mapped, idx, n), [SendOk(0)] + rest, end)
  {
    SendAmid(sys, picked, mapped, idx, n);
    RunStep(Amid(sys, picked, mapped, idx, n), SendOk(0), rest);
  }

  /** The loop is at position idx after n delivered sends. */
  ghost predicate Reached(sys: Sys, picked: seq<nat>, mapped: seq<nat>, idx: nat, n: nat, script: seq<SendOutcome>)
  {
    && IsBatch(sys, picked, mapped)
    && idx <= |picked| && n <= |mapped| && MappedOf(sys.rows, picked[..idx]) == mapped[..n]
    && forall k :: 0 <= k < n ==> Outcome(script, k).Delivered?
  }

  lemma Advance(sys: Sys, picked: seq<nat>, mapped: seq<nat>, idx: nat, n: nat, script: seq<SendOutcome>)
    requires Reached(sys, picked, mapped, idx, n, script) && idx < |picked|
    ensures picked[idx] < |sys.rows|
    ensures !Mapped(sys.rows[picked[idx]]) ==> Reached(sys, picked, mapped, idx + 1, n, script)
    ensures Mapped(sys.rows[picked[idx]]) ==>
      && n < |mapped| && mapped[n] == picked[idx]
      && if Outcome(script, n).Delivered? then Reached(sys, picked, mapped, idx + 1, n + 1, script)
         else FirstFailure(script, |mapped|) == n
  {
    PickedIsPending(sys.rows, sys.processed);
    assert picked[idx] in picked;
    PickNext(sys.rows, picked, idx, n);
    if Mapped(sys.rows[picked[idx]]) && !Outcome(script, n).Delivered? {
      FirstFailureIs(script, |mapped|, n);
    }
  }

  lemma {:induction false} LoopRun(sys: Sys, picked: seq<nat>, mapped: seq<nat>, idx: nat, n: nat,
                                   script: seq<SendOutcome>, commits: bool, end: Sys)
    returns (ls: seq<Label>)
    requires Reached(sys, picked, mapped, idx, n, script) && end == AfterBatch(sys, script, commits)
    ensures RunsTo(Amid(sys, picked, mapped, idx, n), ls, end)
    decreases |picked| - idx
  {
    if idx == |picked| {
      assert picked[..idx] == picked;
      ls := FinishRun(sys, picked, mapped, n, script, commits);
    } else {
      Advance(sys, picked, mapped, idx, n, script);
      if !Mapped(sys.rows[picked[idx]]) {
        var rest := LoopRun(sys, picked, mapped, idx + 1, n, script, commits, end);
        SkipThen(sys, picked, mapped, idx, n, rest, end);
        ls := [SkipRow(0)] + rest;
      } else if Outcome(script, n).Delivered? {
        var rest := LoopRun(sys, picked, mapped, idx + 1, n + 1, script, commits, end);
        SendThen(sys, picked, mapped, idx, n, rest, end);
        ls := [SendOk(0)] + rest;
      } else {
        ls := StopRun(sys, picked, mapped, idx, n, script, commits);
      }
    }
  }

  /** Whatever the sends and the commit do, what process_batch leaves behind is where a run of the
      pipeline's worker ends. */
  lemma BatchIsRun(sys: Sys, script: seq<SendOutcome>, commits: bool) returns (ls: seq<Label>)
    requires sys.batches == map[]
    ensures Run(sys, ls) && Last(sys, ls) == AfterBatch(sys, script, commits)
  {
    assert sys.processed + Locked(sys.batches) == sys.processed;
    var picked := Picked(sys.rows, sys.processed);
    SelectedIsOldest(sys);
    assert Selected(sys) == picked;
    var mapped := MappedOf(sys.rows, picked);
    var rest := LoopRun(sys, picked, mapped, 0, 0, script, commits, AfterBatch(sys, script, commits));
    assert MessagesOf(sys.rows, []) == [] && Rows([]) == {};
    assert sys.sent + [] == sys.sent;
    assert mapped[..0] == [];
    assert Do(sys, BeginBatch(0, picked)) == Amid(sys, picked, mapped, 0, 0);
    RunStep(sys, BeginBatch(0, picked), rest);
    ls := [BeginBatch(0, picked)] + rest;
  }

  // ---- Draining ----

  /** Pending rows that have a topic, and pending rows that have none. */
  function Backlog(rows: seq<OutboxRow>, processed: set<nat>): set<nat>
  {
    set r | 0 <= r < |rows| && r !in processed && Mapped(rows[r])
  }

  function Stuck(rows: seq<OutboxRow>, processed: set<nat>): set<nat>
  {
    set r | 0 <= r < |rows| && r !in processed && !Mapped(rows[r])
  }

  /** The rows PROCESSED after a number of polls in which every send and commit succeeds. */
  function AfterPolls(rows: seq<OutboxRow>, processed: set<nat>, polls: nat): set<nat>
    decreases polls
  {
    if polls == 0 then processed
    else AfterPolls(rows, EndOfBatch(rows, processed, [], true).processed, polls - 1)
  }

  lemma {:induction false} RowsCount(ids: seq<nat>)
    requires NoDuplicates(ids)
    ensures |Rows(ids)| == |ids|
  {
    if ids != [] {
      var front, last := ids[..|ids| - 1], ids[|ids| - 1];
      RowsCount(front);
      assert Rows(ids) == Rows(front) + {last};
      assert last !in front;
    }
  }

  function UnmappedOf(rows: seq<OutboxRow>, ids: seq<nat>): set<nat>
  {
    set r | r in ids && r < |rows| && !Mapped(rows[r])
  }

  /** A poll without failures marks exactly the mapped rows among those picked. */
  lemma CleanPoll(rows: seq<OutboxRow>, processed: set<nat>)
    ensures EndOfBatch(rows, processed, [], true).processed == processed + Rows(MappedOf(rows, Picked(rows, processed)))
  {
    var mapped := MappedOf(rows, Picked(rows, processed));
    FirstFailureIs([], |mapped|, |mapped|);
    assert mapped[..|mapped|] == mapped;
  }

  lemma SubsetCount<T>(a: set<T>, b: set<T>)
    requires a <= b
    ensures |a| <= |b| && |b - a| == |b| - |a|
  {
    assert b == a + (b - a);
  }

  /** The rows picked are mapped or stuck, and if some pending row was not picked there are a hundred. */
  lemma PickedSplits(rows: seq<OutboxRow>, processed: set<nat>)
    ensures var picked := Picked(rows, processed);
      && Rows(MappedOf(rows, picked)) <= Backlog(rows, processed)
      && UnmappedOf(rows, picked) <= Stuck(rows, processed)
      && |Rows(MappedOf(rows, picked))| + |UnmappedOf(rows, picked)| == |picked|
      && (|picked| < BATCH_SIZE ==> Rows(MappedOf(rows, picked)) == Backlog(rows, processed))
      && |picked| <= BATCH_SIZE
  {
    var picked := Picked(rows, processed);
    PickedIsPending(rows, processed);
    MappedOfIs(rows, picked);
    FreeIsFree(|rows|, processed);
    RowsCount(picked);
    assert Rows(picked) == Rows(MappedOf(rows, picked)) + UnmappedOf(rows, picked);
    if |picked| < BATCH_SIZE {
      assert picked == Free(|rows|, processed);
    }
  }

  /** Each clean poll takes at least min(n, 100 - k) of n mapped pending rows off the backlog when k rows
      without a topic are pending, and leaves those pending. */
  lemma PollProgress(rows: seq<OutboxRow>, processed: set<nat>)
    requires |Stuck(rows, processed)| < BATCH_SIZE
    ensures var after := EndOfBatch(rows, processed, [], true).processed;
      var n, room := |Backlog(rows, processed)|, BATCH_SIZE - |Stuck(rows, processed)|;
      && Stuck(rows, after) == Stuck(rows, processed)
      && |Backlog(rows, after)| <= n - (if n < room then n else room)
  {
    var picked := Picked(rows, processed);
    var after := EndOfBatch(rows, processed, [], true).processed;
    CleanPoll(rows, processed);
    PickedSplits(rows, processed);
    assert Backlog(rows, after) == Backlog(rows, processed) - Rows(MappedOf(rows, picked));
    assert Stuck(rows, after) == Stuck(rows, processed) by {
      MappedOfIs(rows, picked);
    }
    SubsetCount(Rows(MappedOf(rows, picked)), Backlog(rows, processed));
    SubsetCount(UnmappedOf(rows, picked), Stuck(rows, processed));
  }

  lemma OnePollLess(n: nat, room: nat, polls: nat)
    requires 0 < polls && n <= polls * room
    ensures n - (if n < room then n else room) <= (polls - 1) * room
  {
    assert polls * room == (polls - 1) * room + room;
    assert 0 <= (polls - 1) * room;
  }

  /** Drain bound: with k < 100 stuck rows, a backlog of at most polls * (100 - k) is empty after that many
      polls, and the stuck rows are still pending. */
  lemma {:induction false} DrainBound(rows: seq<OutboxRow>, processed: set<nat>, polls: nat)
    requires |Stuck(rows, processed)| < BATCH_SIZE
    requires |Backlog(rows, processed)| <= polls * (BATCH_SIZE - |Stuck(rows, processed)|)
    ensures Backlog(rows, AfterPolls(rows, processed, polls)) == {}
    ensures Stuck(rows, AfterPolls(rows, processed, polls)) == Stuck(rows, processed)
    decreases polls
  {
    if polls > 0 {
      var room := BATCH_SIZE - |Stuck(rows, processed)|;
      OnePollLess(|Backlog(rows, processed)|, room, polls);
      PollProgress(rows, processed);
      DrainBound(rows, EndOfBatch(rows, processed, [], true).processed, polls - 1);
    }
  }

  predicate NoneMapped(rows: seq<OutboxRow>, ids: seq<nat>)
  {
    forall r :: r in ids && r < |rows| ==> !Mapped(rows[r])
  }

  /** A clean poll marks nothing exactly when none of the rows it picks has a topic. */
  lemma PollStallsExactlyWhenUnmapped(rows: seq<OutboxRow>, processed: set<nat>)
    ensures EndOfBatch(rows, processed, [], true).processed == processed
      <==> NoneMapped(rows, Picked(rows, processed))
  {
    CleanPoll(rows, processed);
    PickedIsPending(rows, processed);
    MappedOfIs(rows, Picked(rows, processed));
    var m := Rows(MappedOf(rows, Picked(rows, processed)));
    assert forall r :: r in m ==> r !in processed;
    if processed + m == processed {
      assert forall r :: r in m ==> r in processed + m;
    }
  }

  /** Once the picked rows all lack a topic, no number of polls publishes anything again: a hundred such
      rows in front starve every row behind them. */
  lemma {:induction false} StarvedForGood(rows: seq<OutboxRow>, processed: set<nat>, polls: nat)
    requires NoneMapped(rows, Picked(rows, processed))
    ensures AfterPolls(rows, processed, polls) == processed
    decreases polls
  {
    PollStallsExactlyWhenUnmapped(rows, processed);
    if polls > 0 {
      StarvedForGood(rows, processed, polls - 1);
    }
  }

  // ---- Which rows drain, without any assumption on how many are stuck ----

  function Before(ids: set<nat>, r: nat): set<nat>
  {
    set j | j in ids && j < r
  }

  lemma {:induction false} FreeAt(n: nat, r: nat, blocked: set<nat>)
    requires r < n && r !in blocked
    ensures var front := Free(r, blocked);
      |front| < |Free(n, blocked)| && Free(n, blocked)[|front|] == r && Free(n, blocked)[..|front|] == front
  {
    if r < n - 1 {
      FreeAt(n - 1, r, blocked);
    }
  }

  /** A pending row is picked exactly when fewer than a hundred pending rows come before it; otherwise all
      the rows picked come before it. */
  lemma PickedWhen(rows: seq<OutboxRow>, processed: set<nat>, r: nat)
    requires r < |rows| && r !in processed
    ensures var front := Free(r, processed);
      && (|front| < BATCH_SIZE ==> r in Picked(rows, processed))
      && (BATCH_SIZE <= |front| ==> r !in Picked(rows, processed) && Picked(rows, processed) == front[..BATCH_SIZE])
  {
    var front, free, picked := Free(r, processed), Free(|rows|, processed), Picked(rows, processed);
    FreeAt(|rows|, r, processed);
    FreeIsFree(r, processed);
    if |front| < BATCH_SIZE {
      assert picked[|front|] == r;
    } else {
      assert picked == free[..BATCH_SIZE] == front[..BATCH_SIZE];
      assert forall j :: j in picked ==> j in front;
    }
  }

  lemma PollSparesStuck(rows: seq<OutboxRow>, processed: set<nat>)
    ensures Stuck(rows, EndOfBatch(rows, processed, [], true).processed) == Stuck(rows, processed)
    ensures Backlog(rows, EndOfBatch(rows, processed, [], true).processed)
         == Backlog(rows, processed) - Rows(MappedOf(rows, Picked(rows, processed)))
  {
    CleanPoll(rows, processed);
    MappedOfIs(rows, Picked(rows, processed));
  }

  /** The pending rows before r are the stuck ones and the backlog before r. */
  lemma PendingBefore(rows: seq<OutboxRow>, processed: set<nat>, r: nat)
    requires r <= |rows|
    ensures Rows(Free(r, processed)) == Before(Stuck(rows, processed), r) + Before(Backlog(rows, processed), r)
    ensures |Free(r, processed)| == |Before(Stuck(rows, processed), r)| + |Before(Backlog(rows, processed), r)|
  {
    FreeIsFree(r, processed);
    RowsCount(Free(r, processed));
    assert Rows(Free(r, processed)) == Before(Stuck(rows, processed), r) + Before(Backlog(rows, processed), r);
    assert Before(Stuck(rows, processed), r) !! Before(Backlog(rows, processed), r);
  }

  /** What a clean poll processes. */
  lemma PollTakes(rows: seq<OutboxRow>, processed: set<nat>, r: nat)
    requires r < |rows|
    ensures r in EndOfBatch(rows, processed, [], true).processed
      <==> r in processed || (Mapped(rows[r]) && r in Picked(rows, processed))
  {
    CleanPoll(rows, processed);
    MappedOfIs(rows, Picked(rows, processed));
  }

  lemma BlockedOnce(rows: seq<OutboxRow>, processed: set<nat>, r: nat, after: set<nat>)
    requires r < |rows| && r !in processed && BATCH_SIZE <= |Before(Stuck(rows, processed), r)|
    requires after == EndOfBatch(rows, processed, [], true).processed
    ensures r !in after && BATCH_SIZE <= |Before(Stuck(rows, after), r)|
  {
    PendingBefore(rows, processed, r);
    PickedWhen(rows, processed, r);
    PollTakes(rows, processed, r);
    PollSparesStuck(rows, processed);
  }

  lemma {:induction false} BlockedStays(rows: seq<OutboxRow>, processed: set<nat>, r: nat, polls: nat)
    requires r < |rows| && r !in processed && BATCH_SIZE <= |Before(Stuck(rows, processed), r)|
    ensures r !in AfterPolls(rows, processed, polls)
    decreases polls
  {
    if polls > 0 {
      var after := EndOfBatch(rows, processed, [], true).processed;
      BlockedOnce(rows, processed, r, after);
      BlockedStays(rows, after, r, polls - 1);
    }
  }

  /** While a row waits behind a hundred others, not all of them stuck, a poll takes some of them away. */
  lemma PollShortensQueue(rows: seq<OutboxRow>, processed: set<nat>, r: nat)
    requires r < |rows| && r !in processed && |Before(Stuck(rows, processed), r)| < BATCH_SIZE
    requires BATCH_SIZE <= |Free(r, processed)|
    ensures var after := EndOfBatch(rows, processed, [], true).processed;
      |Before(Backlog(rows, after), r)| < |Before(Backlog(rows, processed), r)|
  {
    var picked := Picked(rows, processed);
    var after := EndOfBatch(rows, processed, [], true).processed;
    PickedWhen(rows, processed, r);
    PollSparesStuck(rows, processed);
    var j := MappedAmong(rows, processed, picked, r);
    MappedOfIs(rows, picked);
    FewerBefore(Backlog(rows, processed), Backlog(rows, after), Rows(MappedOf(rows, picked)), r, j);
  }

  lemma FewerBefore(ids: set<nat>, rest: set<nat>, gone: set<nat>, r: nat, j: nat)
    requires rest == ids - gone && j in ids && j in gone && j < r
    ensures |Before(rest, r)| < |Before(ids, r)|
  {
    SubsetCount(Before(rest, r) + {j}, Before(ids, r));
  }

  /** A hundred pending rows before r, not all stuck: one of them has a topic. */
  lemma MappedAmong(rows: seq<OutboxRow>, processed: set<nat>, picked: seq<nat>, r: nat) returns (j: nat)
    requires r < |rows| && |Before(Stuck(rows, processed), r)| < BATCH_SIZE
    requires |picked| == BATCH_SIZE && picked <= Free(r, processed)
    ensures j in picked && j < r && j !in processed && Mapped(rows[j])
  {
    FreeIsFree(r, processed);
    assert forall j :: j in picked ==> j in Free(r, processed);
    RowsCount(picked);
    var stuck := Before(Stuck(rows, processed), r);
    if Rows(picked) <= stuck {
      SubsetCount(Rows(picked), stuck);
    }
    j :| j in picked && j !in stuck;
  }

  lemma {:induction false} UnblockedDrains(rows: seq<OutboxRow>, processed: set<nat>, r: nat) returns (polls: nat)
    requires r < |rows| && Mapped(rows[r]) && |Before(Stuck(rows, processed), r)| < BATCH_SIZE
    ensures r in AfterPolls(rows, processed, polls)
    decreases |Before(Backlog(rows, processed), r)|
  {
    if r in processed {
      polls := 0;
      return;
    }
    var after := EndOfBatch(rows, processed, [], true).processed;
    PickedWhen(rows, processed, r);
    if |Free(r, processed)| < BATCH_SIZE {
      PollTakes(rows, processed, r);
      polls := 1;
      assert AfterPolls(rows, after, 0) == after;
    } else {
      PollShortensQueue(rows, processed, r);
      PollSparesStuck(rows, processed);
      polls := UnblockedDrains(rows, after, r);
      polls := polls + 1;
    }
  }

  /** Which mapped rows are ever published when every send succeeds and nothing more arrives: exactly those
      with fewer than a hundred topic-less pending rows before them. */
  lemma DrainsExactlyWhenUnblocked(rows: seq<OutboxRow>, processed: set<nat>, r: nat)
    requires r < |rows| && Mapped(rows[r]) && r !in processed
    ensures (exists polls: nat :: r in AfterPolls(rows, processed, polls))
      <==> |Before(Stuck(rows, processed), r)| < BATCH_SIZE
  {
    if |Before(Stuck(rows, processed), r)| < BATCH_SIZE {
      var polls := UnblockedDrains(rows, processed, r);
    } else {
      forall polls: nat ensures r !in AfterPolls(rows, processed, polls) {
        BlockedStays(rows, processed, r, polls);
      }
    }
  }

  // ---- The same by event type and topic name ----

  predicate Known(eventType: string)
  {
    eventType == "VentaRealizada" || eventType == "OrdenCompraGenerada"
  }

  /** The topic each of the two event types belongs on. */
  predicate BelongsOn(eventType: string, topic: string)
  {
    || (eventType == "VentaRealizada" && topic == "aurapro.events.venta_realizada")
    || (eventType == "OrdenCompraGenerada" && topic == "aurapro.events.orden_compra_generada")
  }

  lemma TopicsByName(row: OutboxRow)
    ensures Mapped(row) <==> Known(row.eventType)
    ensures forall t :: TopicFor(row.eventType) == Some(t) <==> BelongsOn(row.eventType, t)
  {
  }

  predicate Increasing(ids: seq<nat>)
  {
    forall p, q :: 0 <= p < q < |ids| ==> ids[p] < ids[q]
  }

  lemma IncreasingAppend(ids: seq<nat>, last: nat)
    requires Increasing(ids) && forall r :: r in ids ==> r < last
    ensures Increasing(ids + [last])
  {
    forall p, q | 0 <= p < q < |ids| + 1 ensures (ids + [last])[p] < (ids + [last])[q] {
      assert ids[p] in ids;
    }
  }

  lemma {:induction false} MappedInOrder(rows: seq<OutboxRow>, ids: seq<nat>)
    requires Increasing(ids)
    ensures Increasing(MappedOf(rows, ids))
  {
    if ids != [] {
      var front, last := ids[..|ids| - 1], ids[|ids| - 1];
      MappedInOrder(rows, front);
      MappedOfIs(rows, front);
      forall r | r in MappedOf(rows, front) ensures r < last {
        var p :| 0 <= p < |front| && front[p] == r;
        assert ids[p] < ids[|ids| - 1];
      }
      IncreasingAppend(MappedOf(rows, front), last);
    }
  }

  lemma PickedInOrder(rows: seq<OutboxRow>, processed: set<nat>)
    ensures Increasing(Picked(rows, processed))
  {
    FreeIsFree(|rows|, processed);
  }

  /** What the messages appended stand for: a row of one of the two types among those picked, on the topic of its
      type, in the order of the rows, none twice. */
  ghost predicate WellPublished(rows: seq<OutboxRow>, picked: seq<nat>, appended: seq<Message>)
  {
    && (forall k :: 0 <= k < |appended| ==>
          appended[k].row in picked && appended[k].row < |rows|
          && BelongsOn(rows[appended[k].row].eventType, appended[k].topic))
    && (forall k, l :: 0 <= k < l < |appended| ==> appended[k].row < appended[l].row)
  }

  /** Whatever the sends and the commit do, only such messages are appended. */
  lemma BatchPublishesWell(rows: seq<OutboxRow>, processed: set<nat>, script: seq<SendOutcome>, commits: bool)
    ensures WellPublished(rows, Picked(rows, processed), EndOfBatch(rows, processed, script, commits).appended)
  {
    var picked := Picked(rows, processed);
    var m := MappedOf(rows, picked);
    PickedInOrder(rows, processed);
    MappedInOrder(rows, picked);
    MappedOfIs(rows, picked);
    var appended := EndOfBatch(rows, processed, script, commits).appended;
    forall k | 0 <= k < |appended|
      ensures appended[k].row == m[k] && m[k] in picked && m[k] < |rows|
      ensures BelongsOn(rows[m[k]].eventType, appended[k].topic)
    {
      assert m[k] in m;
      TopicsByName(rows[m[k]]);
    }
  }

  predicate HasMessage(appended: seq<Message>, r: nat)
  {
    exists k :: 0 <= k < |appended| && appended[k].row == r
  }

  /** A batch in which everything succeeds marks exactly the picked rows of the two types and appends exactly one
      message for each of them; a row of any other type gets no message and stays as it is. */
  lemma CleanBatchByType(rows: seq<OutboxRow>, processed: set<nat>)
    ensures var end, picked := EndOfBatch(rows, processed, [], true), Picked(rows, processed);
      && end.ok && WellPublished(rows, picked, end.appended)
      && (forall r :: r in end.processed <==> r in processed || (r in picked && r < |rows| && Known(rows[r].eventType)))
      && (forall r: nat :: HasMessage(end.appended, r) <==> r in picked && r < |rows| && Known(rows[r].eventType))
  {
    var end, picked := EndOfBatch(rows, processed, [], true), Picked(rows, processed);
    var m := MappedOf(rows, picked);
    BatchPublishesWell(rows, processed, [], true);
    CleanPoll(rows, processed);
    FirstFailureIs([], |m|, |m|);
    assert end.appended == MessagesOf(rows, m) by {
      assert m[..|m|] == m;
    }
    MappedOfIs(rows, picked);
    forall r: nat ensures r in m <==> r in picked && r < |rows| && Known(rows[r].eventType) {
      if r in picked && r < |rows| {
        TopicsByName(rows[r]);
      }
    }
    forall r: nat ensures HasMessage(end.appended, r) <==> r in m {
      if r in m {
        var k :| 0 <= k < |m| && m[k] == r;
        assert end.appended[k].row == r;
      }
    }
  }

  function PendingRows(rows: seq<OutboxRow>, processed: set<nat>): set<nat>
  {
    set r | 0 <= r < |rows| && r !in processed
  }

  /** With at most a hundred pending rows all of them are picked. */
  lemma SmallOutboxPicked(rows: seq<OutboxRow>, processed: set<nat>)
    requires |PendingRows(rows, processed)| <= 100
    ensures forall r :: r in Picked(rows, processed) <==> r in PendingRows(rows, processed)
  {
    FreeIsFree(|rows|, processed);
    RowsCount(Free(|rows|, processed));
    assert Rows(Free(|rows|, processed)) == PendingRows(rows, processed);
  }

  /** At most a hundred pending rows, all of the two types: one clean batch marks them all and appends one message
      each, in order, sales and purchase orders on their own topics. */
  lemma SmallOutboxPublished(rows: seq<OutboxRow>, processed: set<nat>)
    requires |PendingRows(rows, processed)| <= 100
    requires forall r :: r in PendingRows(rows, processed) ==> Known(rows[r].eventType)
    ensures var end := EndOfBatch(rows, processed, [], true);
      && end.processed == processed + PendingRows(rows, processed)
      && WellPublished(rows, Picked(rows, processed), end.appended)
      && (forall r: nat :: HasMessage(end.appended, r) <==> r in PendingRows(rows, processed))
  {
    SmallOutboxPicked(rows, processed);
    CleanBatchByType(rows, processed);
  }

  /** The first send that goes wrong decides the batch. Refused or unacknowledged: what was delivered before is
      marked if the commit goes through. A failed UPDATE: nothing is marked, whatever was delivered. A message
      that was appended stays appended in every case. */
  lemma FailureDecides(rows: seq<OutboxRow>, processed: set<nat>, script: seq<SendOutcome>, commits: bool, n: nat)
    requires n < |MappedOf(rows, Picked(rows, processed))| && forall k :: 0 <= k < n ==> Outcome(script, k).Delivered?
    requires !Outcome(script, n).Delivered?
    ensures var end, m := EndOfBatch(rows, processed, script, commits), MappedOf(rows, Picked(rows, processed));
      match Outcome(script, n)
      case Refused => end.ok == commits && |end.appended| == n
        && end.processed == if commits then processed + Rows(m[..n]) else processed
      case Unacknowledged => end.ok == commits && |end.appended| == n + 1
        && end.processed == if commits then processed + Rows(m[..n]) else processed
      case MarkFailed => !end.ok && |end.appended| == n + 1 && end.processed == processed
      case Delivered => true
  {
    FirstFailureIs(script, |MappedOf(rows, Picked(rows, processed))|, n);
  }

  function KnownPending(rows: seq<OutboxRow>, processed: set<nat>): set<nat>
  {
    set r | 0 <= r < |rows| && r !in processed && Known(rows[r].eventType)
  }

  function OthersPending(rows: seq<OutboxRow>, processed: set<nat>): set<nat>
  {
    set r | 0 <= r < |rows| && r !in processed && !Known(rows[r].eventType)
  }

  lemma PendingByType(rows: seq<OutboxRow>, processed: set<nat>)
    ensures Backlog(rows, processed) == KnownPending(rows, processed)
    ensures Stuck(rows, processed) == OthersPending(rows, processed)
  {
    forall r | 0 <= r < |rows| ensures Mapped(rows[r]) <==> Known(rows[r].eventType) {
      TopicsByName(rows[r]);
    }
  }

  /** The drain law for sales and purchase orders: n of them are all published within p polls if n <= p(100 - k),
      k < 100 being the pending rows of other types, which stay pending. */
  lemma KnownTypesDrain(rows: seq<OutboxRow>, processed: set<nat>, polls: nat)
    requires |OthersPending(rows, processed)| < 100
    requires |KnownPending(rows, processed)| <= polls * (100 - |OthersPending(rows, processed)|)
    ensures KnownPending(rows, AfterPolls(rows, processed, polls)) == {}
    ensures OthersPending(rows, AfterPolls(rows, processed, polls)) == OthersPending(rows, processed)
  {
    PendingByType(rows, processed);
    PendingByType(rows, AfterPolls(rows, processed, polls));
    DrainBound(rows, processed, polls);
  }

  /** And whatever their number, a sale or purchase order is ever published exactly when fewer than a hundred
      pending rows of other types come before it; a row of another type never is. */
  lemma KnownTypesDrainExactly(rows: seq<OutboxRow>, processed: set<nat>, r: nat)
    requires r < |rows| && r !in processed
    ensures (exists polls: nat :: r in AfterPolls(rows, processed, polls))
      <==> Known(rows[r].eventType) && |Before(OthersPending(rows, processed), r)| < 100
  {
    PendingByType(rows, processed);
    TopicsByName(rows[r]);
    if Mapped(rows[r]) {
      DrainsExactlyWhenUnblocked(rows, processed, r);
    } else {
      forall polls: nat ensures r !in AfterPolls(rows, processed, polls) {
        UnmappedStays(rows, processed, r, polls);
      }
    }
  }

  lemma {:induction false} UnmappedStays(rows: seq<OutboxRow>, processed: set<nat>, r: nat, polls: nat)
    requires r < |rows| && r !in processed && !Mapped(rows[r])
    ensures r !in AfterPolls(rows, processed, polls)
    decreases polls
  {
    if polls > 0 {
      PollTakes(rows, processed, r);
      UnmappedStays(rows, EndOfBatch(rows, processed, [], true).processed, r, polls - 1);
    }
  }
}
