/** Retrying failed webhooks (apps/worker/main.py): one savepoint an entry, doubling delays. */
module Webhooks {
  import opened Outcomes

  /** Times are microseconds. */
  const MINUTE: int := 60_000_000
  const BATCH_LIMIT: nat := 50

  datatype Status = Pending | Resolved | Abandoned

  datatype Entry = Entry(status: Status, attemptCount: nat, maxAttempts: int, nextRetryAt: Option<int>,
                         lastAttemptAt: Option<int>, resolvedAt: Option<int>, lastError: Option<string>)

  /** What processing the stored payload does; a raise may also come from the final flush. */
  datatype Reply = Accepted | Refused(error: string) | RaisesAtOnce | RaisesOnFlush

  function Pow2(n: nat): nat {
    if n == 0 then 1 else 2 * Pow2(n - 1)
  }

  /** A missing date compares as unknown, and is never due. */
  predicate Due(e: Entry, now: int) {
    && e.status == Pending && e.nextRetryAt.Some? && e.nextRetryAt.value <= now
    && e.attemptCount < e.maxAttempts
  }

  predicate Raises(r: Reply) {
    r.RaisesAtOnce? || r.RaisesOnFlush?
  }

  function Attempted(e: Entry, r: Reply, now: int): Entry {
    var counted := e.(attemptCount := e.attemptCount + 1, lastAttemptAt := Some(now));
    match r
    case Accepted => counted.(status := Resolved, resolvedAt := Some(now))
    case Refused(error) =>
      counted.(nextRetryAt := Some(now + 5 * Pow2(e.attemptCount) * MINUTE), lastError := Some(error))
    case _ => e
  }

  type Entries = map<string, Entry>

  /** The ids that are due, in the order they are found, up to the batch limit. */
  function Selected(entries: Entries, ids: seq<string>, now: int): seq<string> {
    if ids == [] then []
    else
      var chosen, id := Selected(entries, ids[..|ids| - 1], now), ids[|ids| - 1];
      if |chosen| < BATCH_LIMIT && id in entries && Due(entries[id], now) then chosen + [id] else chosen
  }

  predicate NoRepeats(ids: seq<string>) {
    forall i, k :: 0 <= i < k < |ids| ==> ids[i] != ids[k]
  }

  lemma {:induction false} SelectedFits(entries: Entries, ids: seq<string>, now: int)
    requires NoRepeats(ids)
    ensures var chosen := Selected(entries, ids, now);
            && NoRepeats(chosen) && |chosen| <= BATCH_LIMIT
            && forall i :: 0 <= i < |chosen| ==>
                 chosen[i] in ids && chosen[i] in entries && Due(entries[chosen[i]], now)
    decreases |ids|
  {
    hide Due;
    if ids != [] {
      SelectedFits(entries, ids[..|ids| - 1], now);
    }
  }

  class FailedWebhookTable {
    var entries: Entries

    constructor (entries: Entries)
      ensures this.entries == entries
    {
      this.entries := entries;
    }

    /** One tick over the rows no other worker has locked; each item in its own savepoint. */
    method Reconcile(unlocked: seq<string>, reply: string -> Reply, now: int)
      requires NoRepeats(unlocked)
      modifies this
      ensures entries.Keys == old(entries).Keys
      ensures forall id :: id in entries ==>
                entries[id] == After(old(entries)[id], SeenBy(id, old(entries), unlocked, reply, now))
    {
      var stale := Selected(entries, unlocked, now);
      SelectedFits(entries, unlocked, now);
      hide Due, Selected, Pow2;
      for i := 0 to |stale|
        invariant entries.Keys == old(entries).Keys
        invariant forall id :: id in entries ==>
                    entries[id] == if id in stale[..i] then Attempted(old(entries)[id], reply(id), now)
                                   else old(entries)[id]
      {
        assert stale[..i + 1] == stale[..i] + [stale[i]];
        var id := stale[i];
        var savepoint := entries;
        assert savepoint[id] == old(entries)[id];
        var failed := RetryItem(id, reply(id), now);
        if failed {
          entries := savepoint;
        }
      }
      assert stale[..|stale|] == stale;
      assert forall id :: id in stale ==> Due(old(entries)[id], now);
    }

    /** The writes of one item, which may stop half way. */
    method RetryItem(id: string, r: Reply, now: int) returns (failed: bool)
      requires id in entries
      modifies this
      ensures failed == Raises(r)
      ensures !failed ==> entries == old(entries)[id := Attempted(old(entries)[id], r, now)]
      ensures entries.Keys == old(entries).Keys
    {
      if r.RaisesAtOnce? { return true; }
      var e := entries[id];
      entries := entries[id := e.(attemptCount := e.attemptCount + 1, lastAttemptAt := Some(now))];
      if r.Accepted? {
        entries := entries[id := entries[id].(status := Resolved, resolvedAt := Some(now))];
      } else if r.Refused? {
        var backoff := 5 * Pow2(entries[id].attemptCount - 1);
        entries := entries[id := entries[id].(nextRetryAt := Some(now + backoff * MINUTE),
                                              lastError := Some(r.error))];
      }
      return r.RaisesOnFlush?;
    }
  }

  // ----- Runs of ticks, seen by one entry -----------------------------------

  /** A tick at some time; the entry may be passed over (locked, or beyond the batch limit). */
  datatype Tick = Tick(now: int, reply: Option<Reply>)

  /** What one tick over the table is for one of its entries. */
  function SeenBy(id: string, entries: Entries, unlocked: seq<string>, reply: string -> Reply, now: int): Tick {
    Tick(now, if id in Selected(entries, unlocked, now) then Some(reply(id)) else None)
  }

  function After(e: Entry, t: Tick): Entry {
    if t.reply.Some? && Due(e, t.now) then Attempted(e, t.reply.value, t.now) else e
  }

  function Run(e: Entry, ticks: seq<Tick>): Entry {
    if ticks == [] then e else After(Run(e, ticks[..|ticks| - 1]), ticks[|ticks| - 1])
  }

  predicate Counts(e: Entry, t: Tick) {
    t.reply.Some? && Due(e, t.now) && !Raises(t.reply.value)
  }

  /** When the counted attempts happened. */
  function Times(e: Entry, ticks: seq<Tick>): seq<int> {
    if ticks == [] then []
    else
      var init, last := ticks[..|ticks| - 1], ticks[|ticks| - 1];
      Times(e, init) + (if Counts(Run(e, init), last) then [last.now] else [])
  }

  /** The least time from the first attempt to attempt k + 1. */
  function Delay(k: nat): int {
    5 * (Pow2(k) - 1) * MINUTE
  }

  /** What holds of an entry that started with no attempts. */
  ghost predicate OnSchedule(e: Entry, start: Entry, times: seq<int>) {
    && e.attemptCount == |times| && e.maxAttempts == start.maxAttempts
    && (forall k :: 0 <= k < |times| ==> times[k] >= times[0] + Delay(k))
    && (times != [] && e.status == Pending ==>
          e.nextRetryAt == Some(times[|times| - 1] + 5 * Pow2(|times| - 1) * MINUTE))
    && (times == [] ==> e == start)
    && (|times| as int <= if start.maxAttempts > 0 then start.maxAttempts else 0)
  }

  lemma AttemptKeepsSchedule(e: Entry, start: Entry, times: seq<int>, r: Reply, now: int)
    requires OnSchedule(e, start, times) && Due(e, now) && !Raises(r)
    ensures OnSchedule(Attempted(e, r, now), start, times + [now])
  {}

  lemma {:induction false} RunKeepsSchedule(start: Entry, ticks: seq<Tick>)
    requires start.attemptCount == 0
    ensures OnSchedule(Run(start, ticks), start, Times(start, ticks))
    decreases |ticks|
  {
    hide OnSchedule;
    if ticks == [] {
      StartsOnSchedule(start);
    } else {
      var init, last := ticks[..|ticks| - 1], ticks[|ticks| - 1];
      RunKeepsSchedule(start, init);
      var e := Run(start, init);
      if Counts(e, last) {
        AttemptKeepsSchedule(e, start, Times(start, init), last.reply.value, last.now);
      }
      hide Due, Pow2;
      assert Times(start, init) + [] == Times(start, init);
    }
  }

  lemma StartsOnSchedule(start: Entry)
    requires start.attemptCount == 0
    ensures OnSchedule(start, start, [])
  {}

  /** However the clock moves, attempt k + 1 waits 5 * (2^k - 1) minutes after the first,
      and there are never more attempts than allowed. */
  lemma BackoffHolds(start: Entry, ticks: seq<Tick>, k: nat)
    requires start.attemptCount == 0 && k < |Times(start, ticks)|
    ensures Times(start, ticks)[k] >= Times(start, ticks)[0] + 5 * (Pow2(k) - 1) * MINUTE
    ensures Run(start, ticks).attemptCount == |Times(start, ticks)| <= start.maxAttempts
  {
    RunKeepsSchedule(start, ticks);
    hide Run, Times, Pow2;
    assert Times(start, ticks)[k] >= Times(start, ticks)[0] + Delay(k);
  }

  /** A tick that raises leaves the entry exactly as it was, attempt count included. */
  lemma RaisingTickChangesNothing(e: Entry, t: Tick)
    requires t.reply.Some? && Raises(t.reply.value)
    ensures After(e, t) == e
  {}

  /** An entry with no retry date, resolved, or out of attempts, is never touched again. */
  lemma {:induction false} RestingEntryStays(e: Entry, ticks: seq<Tick>)
    requires e.nextRetryAt.None? || e.status != Pending || e.attemptCount >= e.maxAttempts
    ensures Run(e, ticks) == e
    decreases |ticks|
  {
    if ticks != [] {
      RestingEntryStays(e, ticks[..|ticks| - 1]);
    }
  }

  // ----- What one tick does ---------------------------------------------------

  /** Waiting for a retry, whose time has come, with attempts left. */
  predicate MayRetry(e: Entry, now: int) {
    match e.nextRetryAt
    case Some(at) => e.status == Pending && at <= now && e.attemptCount < e.maxAttempts
    case None => false
  }

  function CountDue(entries: Entries, ids: seq<string>, now: int): nat {
    if ids == [] then 0
    else
      var id := ids[|ids| - 1];
      CountDue(entries, ids[..|ids| - 1], now) + (if id in entries && MayRetry(entries[id], now) then 1 else 0)
  }

  lemma {:induction false} SelectedCount(entries: Entries, ids: seq<string>, now: int)
    ensures |Selected(entries, ids, now)|
         == if CountDue(entries, ids, now) < 50 then CountDue(entries, ids, now) else 50
    decreases |ids|
  {
    if ids != [] {
      SelectedCount(entries, ids[..|ids| - 1], now);
    }
  }

  lemma {:induction false} OnlyListed(entries: Entries, ids: seq<string>, now: int, id: string)
    ensures id in Selected(entries, ids, now) ==> id in ids
    decreases |ids|
  {
    hide Due;
    if ids != [] {
      OnlyListed(entries, ids[..|ids| - 1], now, id);
      assert ids == ids[..|ids| - 1] + [ids[|ids| - 1]];
    }
  }

  /** A tick attempts the first fifty entries that may be retried, and no other. */
  lemma {:induction false} SelectedIff(entries: Entries, ids: seq<string>, now: int, i: nat)
    requires NoRepeats(ids) && i < |ids|
    ensures ids[i] in Selected(entries, ids, now) <==>
            ids[i] in entries && MayRetry(entries[ids[i]], now) && CountDue(entries, ids[..i], now) < 50
    decreases |ids|
  {
    var n := |ids| - 1;
    OnlyListed(entries, ids[..n], now, ids[n]);
    SelectedCount(entries, ids[..n], now);
    if i < n {
      SelectedIff(entries, ids[..n], now, i);
      assert ids[..n][..i] == ids[..i];
    }
  }

  /** An attempt is counted unless it raises: it resolves the entry, or puts the next one off. */
  lemma TickIs(e: Entry, now: int, reply: Option<Reply>)
    ensures var left := After(e, Tick(now, reply));
            if reply.None? || !MayRetry(e, now) then left == e
            else
              match reply.value
              case Accepted =>
                left == e.(attemptCount := e.attemptCount + 1, lastAttemptAt := Some(now), status := Resolved,
                           resolvedAt := Some(now))
              case Refused(error) =>
                && left.nextRetryAt.Some?
                && left == e.(attemptCount := e.attemptCount + 1, lastAttemptAt := Some(now),
                              nextRetryAt := left.nextRetryAt, lastError := Some(error))
              case _ => left == e
  {
    hide Pow2;
  }

  /** The first refusal puts it off by five minutes, each later one by twice as long as the one before. */
  lemma DelaysDouble(e: Entry, now: int, error: string)
    requires MayRetry(e, now)
    ensures var next := After(e, Tick(now, Some(Refused(error)))).nextRetryAt;
            && next.Some?
            && (e.attemptCount == 0 ==> next.value == now + 300_000_000)
            && (e.attemptCount > 0 ==>
                  var before := After(e.(attemptCount := e.attemptCount - 1), Tick(now, Some(Refused(error))));
                  before.nextRetryAt.Some? && next.value - now == 2 * (before.nextRetryAt.value - now))
  {}
}
