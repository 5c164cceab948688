/** The two periodic workers of delato (delato/threads.py), one tick at a time.

    Each `run` is a loop that sweeps, then waits ten seconds, until its stop event is set. The
    model keeps the stop event as a flag that is only looked at when a tick begins, and records
    every call the worker makes on the ticket tracker. The tracker is the interface these
    workers call: a ticket cache, `comment`, `load_cache` and `create` (none of which the
    RequestTracker class of request_tracker.py defines). The clock is a parameter `now`. */
module Threads {
  import Zabbix

  /** A cached ticket: its id and its `LastUpdated` time, in seconds since the epoch. */
  datatype CachedTicket = CachedTicket(id: string, lastUpdated: int)

  /** A call made on the tracker. `Create` carries the alarm id, description, host, the
      trigger's last change (rendered by `time.ctime` in the source) and its expiration. */
  datatype Call =
    | Comment(ticketId: string)
    | LoadCache
    | Create(alarmId: string, description: string, host: string, lastchange: int, expiration: int)

  // ---------------------------------------------------------------------------------------
  // One sweep: a call for every due item, in order

  /** The calls of one sweep over `items`: `call(x)` for each `x` that is `due`, in order. */
  function SweepCalls<T>(items: seq<T>, due: T -> bool, call: T -> Call): seq<Call>
  {
    if items == [] then []
    else
      var x := items[|items| - 1];
      SweepCalls(items[..|items| - 1], due, call) + (if due(x) then [call(x)] else [])
  }

  /** How many of `items` are due. */
  function CountDue<T>(items: seq<T>, due: T -> bool): (n: nat)
    ensures n <= |items|
  {
    if items == [] then 0
    else CountDue(items[..|items| - 1], due) + (if due(items[|items| - 1]) then 1 else 0)
  }

  /** A sweep makes one call per due item and no other: the due item at index i is served at
      position CountDue(items[..i]), which grows with i, so in item order and exactly once. */
  lemma {:induction false} SweepCallsPositions<T>(items: seq<T>, due: T -> bool, call: T -> Call)
    ensures |SweepCalls(items, due, call)| == CountDue(items, due)
    ensures forall i :: 0 <= i < |items| && due(items[i]) ==>
      CountDue(items[..i], due) < |SweepCalls(items, due, call)| &&
      SweepCalls(items, due, call)[CountDue(items[..i], due)] == call(items[i])
  {
    if items != [] {
      var init := items[..|items| - 1];
      SweepCallsPositions(init, due, call);
      forall i | 0 <= i < |items| && due(items[i])
        ensures CountDue(items[..i], due) < |SweepCalls(items, due, call)|
        ensures SweepCalls(items, due, call)[CountDue(items[..i], due)] == call(items[i])
      {
        if i < |items| - 1 {
          assert items[..i] == init[..i];
          assert init[i] == items[i];
        } else {
          assert items[..i] == init;
        }
      }
    }
  }

  /** Due items earlier in the sequence are counted before later ones. */
  lemma {:induction false} CountDueGrows<T>(items: seq<T>, due: T -> bool, i: nat, j: nat)
    requires i < j <= |items| && due(items[i])
    ensures CountDue(items[..i], due) < CountDue(items[..j], due)
  {
    var pre := items[..j - 1];
    assert items[..j][..j - 1] == pre;
    if i < j - 1 {
      assert pre[..i] == items[..i] && pre[i] == items[i];
      CountDueGrows(pre, due, i, j - 1);
      assert pre[..j - 1] == pre;
    } else {
      assert pre == items[..i];
    }
  }

  /** A call is made exactly when some due item asks for it. */
  lemma {:induction false} SweepCallsMembers<T>(items: seq<T>, due: T -> bool, call: T -> Call, c: Call)
    ensures c in SweepCalls(items, due, call) <==>
      exists i :: 0 <= i < |items| && due(items[i]) && c == call(items[i])
  {
    if items != [] {
      var init := items[..|items| - 1];
      SweepCallsMembers(init, due, call, c);
      assert forall i :: 0 <= i < |init| ==> init[i] == items[i];
    }
  }

  /** When every item is due, the sweep calls for each item, position by position. */
  lemma {:induction false} SweepCallsAllDue<T>(items: seq<T>, due: T -> bool, call: T -> Call)
    requires forall i :: 0 <= i < |items| ==> due(items[i])
    ensures |SweepCalls(items, due, call)| == |items|
    ensures forall k :: 0 <= k < |items| ==> SweepCalls(items, due, call)[k] == call(items[k])
  {
    if items != [] {
      var init := items[..|items| - 1];
      assert forall i :: 0 <= i < |init| ==> init[i] == items[i];
      SweepCallsAllDue(init, due, call);
    }
  }

  // ---------------------------------------------------------------------------------------
  // TicketReminderThread

  /** The strict test of threads.py:25: not updated for longer than the reminder interval. */
  predicate DueForReminder(t: CachedTicket, now: int, interval: int)
  {
    now - t.lastUpdated > interval
  }

  /** The comments of one reminder sweep over the cache (threads.py:23-26). */
  function Reminders(cache: seq<CachedTicket>, now: int, interval: int): seq<Call>
  {
    SweepCalls(cache, (t: CachedTicket) => DueForReminder(t, now, interval),
      (t: CachedTicket) => Comment(t.id))
  }

  /** The calls of one reminder tick (threads.py:19-32): nothing when reminders are disabled,
      otherwise the comments and then one cache reload. */
  function ReminderTick(cache: seq<CachedTicket>, now: int, interval: int): (r: seq<Call>)
    ensures interval == 0 <==> r == []
    ensures interval != 0 ==> r[|r| - 1] == LoadCache
    ensures |r| <= |cache| + 1
    ensures forall k :: 0 <= k < |r| - 1 ==> r[k].Comment?
  {
    if interval == 0 then []
    else
      var due := (t: CachedTicket) => DueForReminder(t, now, interval);
      var call := (t: CachedTicket) => Comment(t.id);
      var comments := SweepCalls(cache, due, call);
      SweepCallsPositions(cache, due, call);
      assert forall k :: 0 <= k < |comments| ==> comments[k].Comment? by {
        forall k | 0 <= k < |comments|
          ensures comments[k].Comment?
        {
          SweepCallsMembers(cache, due, call, comments[k]);
        }
      }
      comments + [LoadCache]
  }

  /** A tick comments on a cached ticket exactly when reminders are enabled and the ticket has
      not been updated for strictly longer than the interval. */
  lemma ReminderTickComments(cache: seq<CachedTicket>, now: int, interval: int, id: string)
    ensures Comment(id) in ReminderTick(cache, now, interval) <==>
      interval != 0 &&
      exists i :: 0 <= i < |cache| && cache[i].id == id && now - cache[i].lastUpdated > interval
  {
    var due := (t: CachedTicket) => DueForReminder(t, now, interval);
    var call := (t: CachedTicket) => Comment(t.id);
    SweepCallsMembers(cache, due, call, Comment(id));
  }

  /** An enabled tick reloads the cache exactly once, as its last call, whether or not it
      commented; its other calls are one comment per due ticket, in cache order. */
  lemma ReminderTickShape(cache: seq<CachedTicket>, now: int, interval: int)
    requires interval != 0
    ensures var calls := ReminderTick(cache, now, interval);
      var due := (t: CachedTicket) => DueForReminder(t, now, interval);
      |calls| == CountDue(cache, due) + 1 && calls[|calls| - 1] == LoadCache &&
      LoadCache !in calls[..|calls| - 1] &&
      forall i :: 0 <= i < |cache| && DueForReminder(cache[i], now, interval) ==>
        CountDue(cache[..i], due) < |calls| && calls[CountDue(cache[..i], due)] == Comment(cache[i].id)
  {
    var due := (t: CachedTicket) => DueForReminder(t, now, interval);
    var call := (t: CachedTicket) => Comment(t.id);
    var comments := Reminders(cache, now, interval);
    SweepCallsPositions(cache, due, call);
    SweepCallsMembers(cache, due, call, LoadCache);
    assert (comments + [LoadCache])[..|comments|] == comments;
  }

  /** The reminder worker: its cache snapshot, the calls it has made and its stop flag. */
  class TicketReminderThread {
    /** The reminder interval in seconds; 0 when unset. */
    const reminderUpdate: int
    var cache: seq<CachedTicket>
    var calls: seq<Call>
    var stopped: bool

    constructor (reminderUpdate: int, cache: seq<CachedTicket>)
      ensures this.reminderUpdate == reminderUpdate && this.cache == cache
      ensures calls == [] && !stopped
    {
      this.reminderUpdate := reminderUpdate;
      this.cache := cache;
      calls := [];
      stopped := false;
    }

    /** Sets the stop event; the sweep in progress, if any, is not interrupted. */
    method Stop()
      modifies this
      ensures stopped && cache == old(cache) && calls == old(calls)
    {
      stopped := true;
    }

    /** One pass of the loop of threads.py:22-29: when enabled and not stopped, comment on
        every due ticket of the cache, then reload the cache (to `reloaded`, what RT answers). */
    method Tick(now: int, reloaded: seq<CachedTicket>)
      modifies this
      ensures stopped == old(stopped)
      ensures old(stopped) || reminderUpdate == 0 ==> calls == old(calls) && cache == old(cache)
      ensures !old(stopped) ==> calls == old(calls) + ReminderTick(old(cache), now, reminderUpdate)
      ensures !old(stopped) && reminderUpdate != 0 ==> cache == reloaded
    {
      if stopped || reminderUpdate == 0 {
        return;
      }
      var snapshot := cache;
      var i := 0;
      while i < |snapshot|
        invariant 0 <= i <= |snapshot|
        invariant cache == snapshot && stopped == old(stopped)
        invariant calls == old(calls) + Reminders(snapshot[..i], now, reminderUpdate)
      {
        var t := snapshot[i];
        assert snapshot[..i + 1][..i] == snapshot[..i];
        if now - t.lastUpdated > reminderUpdate {
          calls := calls + [Comment(t.id)];
        }
        i := i + 1;
      }
      assert snapshot[..i] == snapshot;
      calls := calls + [LoadCache];
      cache := reloaded;
    }
  }

  // ---------------------------------------------------------------------------------------
  // TicketCreatorThread

  /** The strict test of threads.py:47: the trigger is older than its expiration. */
  predicate DueForTicket(r: Zabbix.Report, now: int)
  {
    now - r.trigger.lastchange > r.limit
  }

  /** The `create` call for a collected trigger (threads.py:51-56): its trigger id as the alarm
      id, its description and host name, its last change and its expiration. */
  function CreateCall(r: Zabbix.Report): Call
  {
    Create(r.trigger.triggerid, r.trigger.description, r.trigger.hostname, r.trigger.lastchange, r.limit)
  }

  /** The calls of one creator tick over the collected triggers (threads.py:45-56). */
  function Dispatch(collected: seq<Zabbix.Report>, now: int): (r: seq<Call>)
    ensures |r| <= |collected|
    ensures forall c :: c in r ==> c.Create?
  {
    var due := (d: Zabbix.Report) => DueForTicket(d, now);
    var r := SweepCalls(collected, due, CreateCall);
    SweepCallsPositions(collected, due, CreateCall);
    assert forall c :: c in r ==> c.Create? by {
      forall c | c in r
        ensures c.Create?
      {
        SweepCallsMembers(collected, due, CreateCall, c);
      }
    }
    r
  }

  /** A tick calls `create` for a trigger, with the trigger id as alarm id and the trigger's
      own description and host, exactly when it is strictly older than its expiration. */
  lemma DispatchCreates(collected: seq<Zabbix.Report>, now: int, c: Call)
    ensures c in Dispatch(collected, now) <==>
      exists i :: 0 <= i < |collected| && now - collected[i].trigger.lastchange > collected[i].limit &&
        c == Create(collected[i].trigger.triggerid, collected[i].trigger.description,
          collected[i].trigger.hostname, collected[i].trigger.lastchange, collected[i].limit)
  {
    SweepCallsMembers(collected, (r: Zabbix.Report) => DueForTicket(r, now), CreateCall, c);
  }

  /** Each due trigger gets exactly one `create`, in collection order. */
  lemma DispatchOrder(collected: seq<Zabbix.Report>, now: int)
    ensures var due := (r: Zabbix.Report) => DueForTicket(r, now);
      var calls := Dispatch(collected, now);
      |calls| == CountDue(collected, due) &&
      forall i :: 0 <= i < |collected| && DueForTicket(collected[i], now) ==>
        CountDue(collected[..i], due) < |calls| && calls[CountDue(collected[..i], due)] == CreateCall(collected[i])
  {
    SweepCallsPositions(collected, (r: Zabbix.Report) => DueForTicket(r, now), CreateCall);
  }

  /** Fed what `collect` reports at time `now`, a creator tick at any time not before `now`
      calls `create` once for every reported trigger, in the order collected. */
  lemma DispatchAfterCollect(conf: Zabbix.Config, source: seq<Zabbix.Trigger>, now: int, later: int)
    requires now <= later
    ensures var collected := Zabbix.Sweep(Zabbix.SeverityTable(conf), source, now);
      var calls := Dispatch(collected, later);
      |calls| == |collected| &&
      forall k :: 0 <= k < |collected| ==> calls[k] == CreateCall(collected[k])
  {
    var collected := Zabbix.Sweep(Zabbix.SeverityTable(conf), source, now);
    forall i | 0 <= i < |collected|
      ensures DueForTicket(collected[i], later)
    {
      Zabbix.CollectReportsExactly(conf, source, now, collected[i]);
    }
    SweepCallsAllDue(collected, (r: Zabbix.Report) => DueForTicket(r, later), CreateCall);
  }

  /** The creator worker: the calls it has made and its stop flag. */
  class TicketCreatorThread {
    var calls: seq<Call>
    var stopped: bool

    constructor ()
      ensures calls == [] && !stopped
    {
      calls := [];
      stopped := false;
    }

    /** Sets the stop event; the sweep in progress, if any, is not interrupted. */
    method Stop()
      modifies this
      ensures stopped && calls == old(calls)
    {
      stopped := true;
    }

    /** One pass of the loop of threads.py:44-57 over the triggers `collect` reports: when not
        stopped, `create` for every trigger older than its expiration. */
    method Tick(now: int, collected: seq<Zabbix.Report>)
      modifies this
      ensures stopped == old(stopped)
      ensures calls == old(calls) + (if old(stopped) then [] else Dispatch(collected, now))
    {
      if stopped {
        return;
      }
      var i := 0;
      while i < |collected|
        invariant 0 <= i <= |collected|
        invariant stopped == old(stopped)
        invariant calls == old(calls) + Dispatch(collected[..i], now)
      {
        var d := collected[i];
        assert collected[..i + 1][..i] == collected[..i];
        if now - d.trigger.lastchange > d.limit {
          calls := calls + [Create(d.trigger.triggerid, d.trigger.description, d.trigger.hostname,
            d.trigger.lastchange, d.limit)];
        }
        i := i + 1;
      }
      assert collected[..i] == collected;
    }
  }
}
