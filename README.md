# delato: alarm-to-ticket decisions, modelled in Dafny

delato watches Zabbix for faulty triggers and opens Request Tracker (RT) tickets for the ones that
stay unresolved longer than the age limit configured for their severity. It also comments on
open tickets that have not been updated for a while. This project models the decisions it makes
on the way. Each network client, the clock and the configuration object is replaced by a
parameter:

- `RequestTracker` (`request_tracker.dfy`): the RT search path and the scan for a ticket whose
  custom field holds an alarm id (`_find`). It also models the payload of a new ticket, and
  `create_ticket` as a class that records every post it makes and every ticket RT accepted. RT
  itself is a `Backend` oracle with three parts: the answer to a search path, the fields shown for
  a `ticket/<id>` path, and whether a post succeeds.
- `Zabbix` (`zabbix.dfy`): the keyword arguments `_get_triggers` builds and what a query with
  them returns. It also models the severity 0 to 5 sweep of `collect` with its strict age test.
  Zabbix is a sequence of triggers, and a query returns those matching every entry of its filter.
- `Threads` (`threads.dfy`): one tick of each worker. The reminder worker comments on every
  stale cached ticket, then reloads the cache. The creator worker calls `create` for every
  collected trigger past its expiration. Each worker is a class with a stop flag and a log of the
  calls it makes on the tracker interface (`cache`, `comment`, `load_cache`, `create`).
- `Wrappers` (`wrappers.dfy`): `Option` and `Result`.

Time is a whole number of seconds `now`. Python truthiness is written out: an integer counts as
true when it is non-zero, a string when it is non-empty, a dict when it is non-empty, and None as
`Option.None`.

The code is a draft, and the model follows it as written where it can:

- `_find` shows `ticket/<alarm_id>` instead of the hit's own id. It returns `False` from inside the
  loop, and returns `None` when the search has no hits. Line 66 has an unbalanced parenthesis; the
  model reads it as if it parsed.
- `create_ticket` writes the alarm id under `CR.{<watermark>}`. The `watermark` option is never
  registered, so reading it raises `NoSuchOptError`. `RTResourceError` is never imported, so a
  failed post ends in a `NameError`.
- `collect` logs the triggers over their limit but returns None.
- `threads.py` calls tracker methods that `RequestTracker` lacks and uses undefined names:
  `severity_name` and `expiration` (lines 55-56) and `AlarmToTicketThread` (line 38). It also
  uses `delato.zabbix.Zabbix` as a default argument (line 37) but imports only
  `delato.request_tracker` (line 5). Unless the package's `__init__` imports `delato.zabbix`,
  which is not part of this model, that name fails when the class is defined.

Where a defect decides an outcome, the model has both the as-written member and a corrected one
(see "## Findings"). This code has no time-bounded ticket cache, no reopening of rejected tickets,
no dry-run mode, no cache invalidation on start and no template rendering, so the model has none
of them either.

## Model

| member | source | states |
|---|---|---|
| `RequestTracker.SearchPath` | delato/request_tracker.py:59-62 | The search path is the fixed `search/ticket?query=Queue='` prefix, then the configured queue unescaped, then the restriction to the statuses new, open and stalled. The queue can be read back from the middle of the path. |
| `RequestTracker.SearchPathInjective` | delato/request_tracker.py:59-62 | Two different queues are never searched through the same path. |
| `RequestTracker.CustomFieldKeyIsDistinct` | delato/request_tracker.py:90-91 | The key `_find` reads, `CF.{name}`, is none of Queue/Subject/Text, and never equals the key `create_ticket` writes, `CR.{name}`. |
| `RequestTracker.WatermarkKeyIsDistinct` | delato/request_tracker.py:83-91 | The written `CR.{name}` key never overwrites a base payload key. |
| `RequestTracker.FindAsWritten` | delato/request_tracker.py:54-74 | `_find` as written returns `None` exactly when the search has no hits. It returns a dict if and only if the search has hits and the fields shown for `ticket/<alarm_id>` hold `alarm_id` under `CF.{field}`; a missing key is no match. The dict is those fields. The result is truthy exactly when a dict was returned. |
| `RequestTracker.FindAsWrittenMissesListedTicket` | delato/request_tracker.py:66 | Counterexample: the search lists ticket 7, which carries the alarm id, but `_find` as written reports no match. The corrected scan finds it. |
| `RequestTracker.FindIn` | delato/request_tracker.py:64-72 | The corrected scan returns a ticket only if it matches the alarm id, and that ticket is the first matching hit in search order. It returns nothing exactly when no hit's shown fields match. |
| `RequestTracker.Find` | delato/request_tracker.py:59-74 | The corrected `_find` searches the configured queue's open tickets. It returns only a ticket that carries the alarm id, and returns nothing exactly when no listed ticket carries it. |
| `RequestTracker.FindsCreatedPayload` | delato/request_tracker.py:76-81 | An alarm maps to one ticket only: once an open ticket of the queue shows `CF.{field}` = alarm id, as the corrected payload sets it, with a custom field configured, the corrected `_find` returns a ticket for it, whatever other fields RT shows, so `create_ticket` posts nothing more. |
| `RequestTracker.BasePayload` | delato/request_tracker.py:83-89 | The payload always has exactly Queue, Subject and Text. They hold the configured queue and the unrendered `new_subject` and `new_body`. |
| `RequestTracker.PayloadAsWritten` | delato/request_tracker.py:83-91 | With no custom field configured, the payload is exactly the three base entries. With one configured and `watermark` unregistered, NoSuchOptError is raised. With `watermark` registered as w, the payload is exactly the base entries plus `CR.{w}` = alarm id. Any payload it does build keeps the base entries, has at most one more key, and is never matched by `_find`. |
| `RequestTracker.Payload` | delato/request_tracker.py:83-91 | The corrected payload keeps the base entries. It adds `CF.{field}` = alarm id if and only if a custom field is configured. It is matched by `_find` for that alarm id exactly then. |
| `RequestTracker.PayloadAsWrittenIsNeverFound` | delato/request_tracker.py:91 | Counterexample: even with `watermark` registered, the as-written payload is not matched by its own alarm id. The corrected payload is. |
| `RequestTracker.RequestTracker.constructor` | delato/request_tracker.py:46 | A new tracker has made no post and created no ticket. |
| `RequestTracker.RequestTracker.CreateTicket` | delato/request_tracker.py:77-101 | As written: an error building the payload escapes before any search or post. A truthy `_find` means no post. Otherwise exactly one post of the payload to `ticket/new`. If RT accepts it, that payload is recorded as created. If not, nothing is recorded and a NameError escapes. There is never more than one post per call. |
| `RequestTracker.RequestTracker.CreateTicketFixed` | delato/request_tracker.py:77-101 | Corrected: a match means no post. Otherwise exactly one post of the corrected payload. A refused post is caught: nothing is recorded and no exception escapes. |
| `Zabbix.TriggerKw` | delato/zabbix.py:59-66 | The filter holds `value = 1` if and only if `wrong_only`. It holds `priority = p` if and only if the priority is truthy, so 0 and None both give no priority entry. There is a filter at all only when one of the two holds. It never holds any other key. |
| `Zabbix.TriggerKwWrongWithPriority` | delato/zabbix.py:60-64 | With `wrong_only` and a non-zero priority, the filter is exactly `{value: 1, priority: p}`. |
| `Zabbix.TriggerKwPriorityOnly` | delato/zabbix.py:62-66 | Without `wrong_only`, a non-zero priority takes the KeyError path and the filter is exactly `{priority: p}`. |
| `Zabbix.TriggerKwPriorityZero` | delato/zabbix.py:62 | Priority 0 gives the same keyword arguments as no priority: `{value: 1}` or nothing. |
| `Zabbix.GetTriggers` | delato/zabbix.py:55-75 | `_get_triggers` returns exactly the source triggers that satisfy the keyword arguments it builds, and no more triggers than the source holds. |
| `Zabbix.GetTriggersMembers` | delato/zabbix.py:55-75 | For every argument, `_get_triggers` returns exactly the source triggers that are faulty (value 1) when `wrong_only`, and of the given priority when that priority is truthy. |
| `Zabbix.Query` | delato/zabbix.py:67-75 | The query oracle returns exactly the source triggers that have every value the filter asks for. |
| `Zabbix.GetTriggersSelects` | delato/zabbix.py:55-75 | For a non-zero priority, `_get_triggers` returns exactly the faulty (value 1) triggers of that priority. |
| `Zabbix.GetTriggersPriorityZero` | delato/zabbix.py:62-66 | For priority 0, `_get_triggers` returns every faulty trigger, whatever its priority. |
| `Zabbix.TriggerKwFixed` | delato/zabbix.py:59-66 | Corrected filter: the priority entry is present if and only if a priority is given, 0 included. |
| `Zabbix.SatisfiesFixed` | delato/zabbix.py:59-66 | A trigger passes the corrected filter exactly when it has the given priority and, under `wrong_only`, value 1. |
| `Zabbix.GetTriggersFixed` | delato/zabbix.py:55-75 | The corrected query for a priority returns exactly the source triggers of that priority, and only faulty ones under `wrong_only`. |
| `Zabbix.SeverityTable` | delato/zabbix.py:78-83 | The sweep list has six rows: severity i in row i, with that severity's configured limit. |
| `Zabbix.SeverityReportsMembers` | delato/zabbix.py:85-89 | One severity's inner loop reports a trigger exactly when the query returned it and it is strictly older than the limit. Each report carries that severity and that limit. |
| `Zabbix.SweepMembers` | delato/zabbix.py:78-89 | A report comes out of the sweep exactly when some row with a non-zero limit queried its trigger and found it over that row's limit. |
| `Zabbix.CollectReportsExactly` | delato/zabbix.py:77-89 | `collect` reports a trigger under severity s exactly when s is 0 to 5, s's limit is non-zero, the query for s returned the trigger, and now - lastchange > limit. So an unset severity reports nothing, and an age equal to the limit is not reported. |
| `Zabbix.SweepOrdered` | delato/zabbix.py:78-83 | When rows are in ascending severity order, the reports come out in non-decreasing severity order. |
| `Zabbix.QueriedMembers` | delato/zabbix.py:84-85 | Zabbix is queried for a severity exactly when a row for it has a non-zero limit. |
| `Zabbix.Collect` | delato/zabbix.py:77-89 | The nested loops produce exactly the sweep's reports, in ascending severity order. They query exactly the severities 0 to 5 whose limit is set. |
| `Zabbix.SeverityZeroSweepsEveryPriority` | delato/zabbix.py:85 | Counterexample: with only severity 0 limited, a priority-5 trigger is reported under severity 0. The corrected query does not return it. |
| `Threads.SweepCallsPositions` | delato/threads.py:23-26 | A sweep makes exactly one call per due item and no other call. The due item at index i is served at position CountDue(items[..i]). |
| `Threads.CountDueGrows` | delato/threads.py:23-26 | Those positions strictly increase with the index, so calls are made in item order. |
| `Threads.SweepCallsMembers` | delato/threads.py:23-26 | A sweep makes a call exactly when some due item asks for it. |
| `Threads.SweepCallsAllDue` | delato/threads.py:45-47 | When every item is due, the sweep's calls are the items' calls, position by position. |
| `Threads.ReminderTick` | delato/threads.py:19-32 | A tick with reminders disabled makes no call. An enabled tick ends with exactly one cache reload, and every earlier call is a comment, at most one per cached ticket. |
| `Threads.ReminderTickComments` | delato/threads.py:19-26 | A reminder tick comments on a ticket if and only if reminders are enabled and some cached ticket with that id has now - LastUpdated > reminder_update. The test is strict. |
| `Threads.ReminderTickShape` | delato/threads.py:23-28 | An enabled tick makes one comment per due ticket, in cache order. Then it reloads the cache exactly once, as its last call, whether or not it commented. |
| `Threads.TicketReminderThread.constructor` | delato/threads.py:12-15 | A new reminder worker has made no call and is not stopped. |
| `Threads.TicketReminderThread.Stop` | delato/threads.py:14 | Setting the stop event changes neither the cache nor the calls. |
| `Threads.TicketReminderThread.Tick` | delato/threads.py:17-32 | A stopped worker, or one with reminders disabled, makes no call and keeps its cache. Otherwise the tick makes exactly the calls of the reminder sweep over the cache it started with, then holds the reloaded cache. |
| `Threads.Dispatch` | delato/threads.py:45-56 | A creator tick makes only `create` calls, at most one per collected trigger. |
| `Threads.DispatchCreates` | delato/threads.py:45-56 | A creator tick calls `create` if and only if the trigger is strictly older than its expiration. The call carries the trigger's id as alarm id, with its description and host name. |
| `Threads.DispatchOrder` | delato/threads.py:45-53 | Each due trigger gets exactly one `create`, in collection order, and there is no other call. |
| `Threads.DispatchAfterCollect` | delato/threads.py:45-47 | Given what `collect` reports at time `now`, a creator tick at `now` or later calls `create` once for every reported trigger, in order. |
| `Threads.TicketCreatorThread.constructor` | delato/threads.py:37-41 | A new creator worker has made no call and is not stopped. |
| `Threads.TicketCreatorThread.Stop` | delato/threads.py:39 | Setting the stop event leaves the calls unchanged. |
| `Threads.TicketCreatorThread.Tick` | delato/threads.py:43-57 | A stopped worker makes no call. Otherwise the tick makes exactly the dispatch calls for the collected triggers. |

## Findings

| source | as written | input that shows it | evidently intended | confidence | as-written member | corrected member |
|---|---|---|---|---|---|---|
| delato/request_tracker.py:64-74 | Shows `ticket/<alarm_id>` for the first hit and returns after it | The search lists ticket 7, whose `CF.{alarm}` is A1, and `ticket/A1` has no such field: no match | Show each hit's `ticket/<id>` and scan every hit | high (not executed) | `RequestTracker.FindAsWrittenMissesListedTicket` | `RequestTracker.FindIn` |
| delato/request_tracker.py:90-91 | Writes the alarm id under `CR.{<watermark>}`, an option never registered | `alarm_custom_field = "alarm"`: NoSuchOptError; with `watermark` registered, the payload still has no `CF.{alarm}` | Write `CF.{<alarm_custom_field>}` | high (not executed) | `RequestTracker.PayloadAsWrittenIsNeverFound` | `RequestTracker.Payload` |
| delato/request_tracker.py:95-98 | `except RTResourceError`, a name never imported | RT refuses the post: a NameError escapes `create_ticket` | Catch the RT error and log it | high (not executed) | `RequestTracker.RequestTracker.CreateTicket` | `RequestTracker.RequestTracker.CreateTicketFixed` |
| delato/zabbix.py:62-85 | `if priority:` drops priority 0, so the severity-0 sweep has no priority filter | `severity_0 = 60`, other limits unset, a faulty priority-5 trigger 100 s old: reported under severity 0 | Filter whenever a priority is given (`is not None`) | medium (not executed) | `Zabbix.SeverityZeroSweepsEveryPriority` | `Zabbix.GetTriggersFixed` |

## Left out

- `_connect` in both files, the RT and Zabbix clients and HTTP sessions are network I/O. They are replaced by the `Backend` oracle and the trigger `source`.
- Zabbix's server-side options (`monitored`, `withUnacknowledgedEvents`, `expandData`, the output field list) are network I/O too. `source` stands for the triggers they already select.
- Threads, `Event.wait(10)` and the `while not self.event.is_set()` loops are concurrency. One tick is modelled, and the stop event is a flag looked at when a tick begins.
- `time.time`, `time.strptime`/`mktime`, `time.ctime` and `float` are a clock and date parsing. Every time is a whole number of seconds. The clock is read once per tick, not once per trigger or ticket.
- Logging, `delato/log.py`, `delato/config.py` and `delato/main.py` are I/O setup and process wiring.
- `delato/template.py` holds constants only. No shown code renders its placeholders.
- The storage of a created ticket inside RT is out of reach. The model never lets a post change later search answers. What is stated is that once the search lists a ticket showing the corrected payload's custom field entry, the corrected lookup finds it (`RequestTracker.FindsCreatedPayload`). That RT lists the ticket it accepted is assumed, not modelled.
- The `reminder_update` option is read at `delato/threads.py:18` but never registered. The model takes it as a constructor argument.
- `Zabbix.Collect`: returns the reports `collect` logs and the severities it queries. The Python function returns None, so `TicketCreatorThread` cannot iterate it. The creator tick is modelled on those reports instead.
- `Threads.TicketCreatorThread.Tick`: models the `create` call the code evidently intends. As written, the undefined names `severity_name` and `expiration` raise a NameError before the call, and the constructor's `super(AlarmToTicketThread, ...)` raises one before any tick. The severity label is left out of the call. The report's limit is passed as the expiration, and the raw last-change time as the age.
- `Threads.TicketReminderThread.Tick`: the cache is a snapshot field reloaded from a parameter. The tracker's `cache`, `comment` and `load_cache` do not exist in `delato/request_tracker.py`, so their own behaviour is not modelled.
- `RequestTracker.FindAsWritten`: reads `delato/request_tracker.py:66` as if its unbalanced parenthesis were not there. As written, the module does not parse.
