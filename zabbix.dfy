/** The Zabbix side of delato (delato/zabbix.py): the keyword arguments `_get_triggers` passes to
    `trigger.get`, and the per-severity sweep of `collect` that reports triggers older than the
    age limit configured for their severity.

    The Zabbix API is replaced by an oracle: `source` holds the monitored triggers with
    unacknowledged events, and a query returns, in source order, those that match every entry
    of the filter. The clock is a parameter `now`, in whole seconds. */
module Zabbix {
  import opened Wrappers

  /** A trigger as `trigger.get` returns it (the output fields of zabbix.py:68 and the host name
      that `expandData` adds), with `lastchange` in seconds since the epoch. */
  datatype Trigger = Trigger(
    triggerid: string,
    description: string,
    hostname: string,
    priority: int,
    value: int,
    lastchange: int)

  /** The `filter` argument of `trigger.get`: field name to required value. */
  type Filter = map<string, int>

  /** The keyword arguments `_get_triggers` builds; only `filter` is ever set. */
  type Kw = map<string, Filter>

  /** Python truthiness of the `priority` argument: None and 0 are both false. */
  predicate PriorityTruthy(priority: Option<int>)
  {
    priority.Some? && priority.value != 0
  }

  // ---------------------------------------------------------------------------------------
  // _get_triggers

  /** The keyword arguments of `_get_triggers` (zabbix.py:59-66). `value = 1` is filtered on
      exactly when `wrongOnly`, and `priority` exactly when the priority is truthy; with
      `wrongOnly` false the `kw["filter"]` lookup raises KeyError and the filter is created
      holding the priority alone. */
  function TriggerKw(priority: Option<int>, wrongOnly: bool): (kw: Kw)
    ensures kw.Keys <= {"filter"}
    ensures "filter" in kw <==> wrongOnly || PriorityTruthy(priority)
    ensures "filter" in kw ==> kw["filter"].Keys <= {"value", "priority"}
    ensures "filter" in kw ==> ("value" in kw["filter"] <==> wrongOnly)
    ensures "filter" in kw ==> ("priority" in kw["filter"] <==> PriorityTruthy(priority))
    ensures "filter" in kw && wrongOnly ==> kw["filter"]["value"] == 1
    ensures "filter" in kw && PriorityTruthy(priority) ==> kw["filter"]["priority"] == priority.value
  {
    var kw: Kw := if wrongOnly then map["filter" := map["value" := 1]] else map[];
    if PriorityTruthy(priority) then
      if "filter" in kw then kw["filter" := kw["filter"]["priority" := priority.value]]
      else kw["filter" := map["priority" := priority.value]]
    else kw
  }

  /** With `wrongOnly` and a truthy priority the filter is exactly `{value: 1, priority: p}`. */
  lemma TriggerKwWrongWithPriority(p: int)
    requires p != 0
    ensures TriggerKw(Some(p), true) == map["filter" := map["value" := 1, "priority" := p]]
  {
  }

  /** Without `wrongOnly`, a truthy priority gives exactly `{priority: p}` (the KeyError path). */
  lemma TriggerKwPriorityOnly(p: int)
    requires p != 0
    ensures TriggerKw(Some(p), false) == map["filter" := map["priority" := p]]
  {
  }

  /** Priority 0 is filtered on no differently from no priority at all. */
  lemma TriggerKwPriorityZero(wrongOnly: bool)
    ensures TriggerKw(Some(0), wrongOnly) == TriggerKw(None, wrongOnly)
    ensures TriggerKw(Some(0), wrongOnly) ==
      if wrongOnly then map["filter" := map["value" := 1]] else map[]
  {
  }

  /** The value of a trigger field that a filter can name. */
  function FieldValue(t: Trigger, name: string): Option<int>
  {
    if name == "value" then Some(t.value)
    else if name == "priority" then Some(t.priority)
    else None
  }

  /** A trigger satisfies the keyword arguments when it has every value the filter asks for. */
  predicate Satisfies(t: Trigger, kw: Kw)
  {
    "filter" in kw ==>
      forall name :: name in kw["filter"] ==> FieldValue(t, name) == Some(kw["filter"][name])
  }

  /** What `trigger.get` answers: the source triggers that satisfy the filter, in source order. */
  function Query(source: seq<Trigger>, kw: Kw): (r: seq<Trigger>)
    ensures forall t :: t in r <==> t in source && Satisfies(t, kw)
    ensures |r| <= |source|
  {
    if source == [] then []
    else
      var rest := Query(source[1..], kw);
      assert forall t :: t in source <==> t == source[0] || t in source[1..];
      if Satisfies(source[0], kw) then [source[0]] + rest else rest
  }

  /** `_get_triggers` (zabbix.py:55-75) against the oracle. */
  function GetTriggers(source: seq<Trigger>, priority: Option<int>, wrongOnly: bool): (r: seq<Trigger>)
    ensures forall t :: t in r <==> t in source && Satisfies(t, TriggerKw(priority, wrongOnly))
    ensures |r| <= |source|
  {
    Query(source, TriggerKw(priority, wrongOnly))
  }

  /** What `_get_triggers` returns, for every argument: the source triggers that are faulty
      when `wrongOnly`, and of the given priority when that priority is truthy. */
  lemma GetTriggersMembers(source: seq<Trigger>, priority: Option<int>, wrongOnly: bool, t: Trigger)
    ensures t in GetTriggers(source, priority, wrongOnly) <==>
      t in source && (wrongOnly ==> t.value == 1) &&
      (PriorityTruthy(priority) ==> t.priority == priority.value)
  {
  }

  /** For a non-zero priority, the query of `collect` selects exactly the faulty triggers of
      that priority. */
  lemma GetTriggersSelects(source: seq<Trigger>, p: int, t: Trigger)
    requires p != 0
    ensures t in GetTriggers(source, Some(p), true) <==> t in source && t.value == 1 && t.priority == p
  {
  }

  /** For priority 0 the query filters on `value` alone: faulty triggers of every priority. */
  lemma GetTriggersPriorityZero(source: seq<Trigger>, t: Trigger)
    ensures t in GetTriggers(source, Some(0), true) <==> t in source && t.value == 1
  {
  }

  /** The keyword arguments corrected: the priority is filtered on whenever one is given
      (`is not None`), so priority 0 is queried as itself. */
  function TriggerKwFixed(priority: Option<int>, wrongOnly: bool): (kw: Kw)
    ensures kw.Keys <= {"filter"}
    ensures "filter" in kw <==> wrongOnly || priority.Some?
    ensures "filter" in kw ==> kw["filter"].Keys <= {"value", "priority"}
    ensures "filter" in kw ==> ("value" in kw["filter"] <==> wrongOnly)
    ensures "filter" in kw ==> ("priority" in kw["filter"] <==> priority.Some?)
    ensures "filter" in kw && wrongOnly ==> kw["filter"]["value"] == 1
    ensures "filter" in kw && priority.Some? ==> kw["filter"]["priority"] == priority.value
  {
    var kw: Kw := if wrongOnly then map["filter" := map["value" := 1]] else map[];
    if priority.Some? then
      if "filter" in kw then kw["filter" := kw["filter"]["priority" := priority.value]]
      else kw["filter" := map["priority" := priority.value]]
    else kw
  }

  /** A trigger satisfies the corrected filter for a priority exactly when it has that priority
      (and, with `wrongOnly`, value 1). */
  lemma SatisfiesFixed(t: Trigger, priority: int, wrongOnly: bool)
    ensures Satisfies(t, TriggerKwFixed(Some(priority), wrongOnly)) <==>
      t.priority == priority && (wrongOnly ==> t.value == 1)
  {
  }

  /** `_get_triggers` corrected: a query for a priority returns exactly the triggers of that
      priority, for 0 as for every other priority. */
  function GetTriggersFixed(source: seq<Trigger>, priority: int, wrongOnly: bool): (r: seq<Trigger>)
    ensures forall t :: t in r <==>
      t in source && (wrongOnly ==> t.value == 1) && t.priority == priority
  {
    var kw := TriggerKwFixed(Some(priority), wrongOnly);
    var r := Query(source, kw);
    assert forall t :: t in r <==> t in source && (wrongOnly ==> t.value == 1) && t.priority == priority by {
      forall t: Trigger
        ensures t in r <==> t in source && (wrongOnly ==> t.value == 1) && t.priority == priority
      {
        SatisfiesFixed(t, priority, wrongOnly);
      }
    }
    r
  }

  // ---------------------------------------------------------------------------------------
  // collect

  /** The `[zabbix]` age limits, in seconds, of severities 0 to 5 (zabbix.py:21-38); 0 stands
      for an unset option. */
  datatype Config = Config(
    severity0: int,
    severity1: int,
    severity2: int,
    severity3: int,
    severity4: int,
    severity5: int)

  /** The age limit configured for `severity`. */
  function AgeLimit(conf: Config, severity: nat): int
    requires severity <= 5
  {
    match severity
    case 0 => conf.severity0
    case 1 => conf.severity1
    case 2 => conf.severity2
    case 3 => conf.severity3
    case 4 => conf.severity4
    case 5 => conf.severity5
  }

  /** The list `collect` walks (zabbix.py:78-83): severities 0 to 5 in ascending order, each
      with its own limit. */
  function SeverityTable(conf: Config): (table: seq<(nat, int)>)
    ensures |table| == 6
    ensures forall i :: 0 <= i < |table| ==> table[i].0 == i && table[i].1 == AgeLimit(conf, i)
  {
    [(0, conf.severity0), (1, conf.severity1), (2, conf.severity2),
     (3, conf.severity3), (4, conf.severity4), (5, conf.severity5)]
  }

  /** A trigger reported by `collect`: the severity whose sweep found it, that severity's limit,
      and the trigger. */
  datatype Report = Report(severity: nat, limit: int, trigger: Trigger)

  /** The strict test of zabbix.py:87: older than the limit, not merely as old. */
  predicate OverLimit(t: Trigger, limit: int, now: int)
  {
    now - t.lastchange > limit
  }

  /** The reports of one severity's inner loop over the queried triggers (zabbix.py:85-89). */
  function SeverityReports(triggers: seq<Trigger>, severity: nat, limit: int, now: int): seq<Report>
  {
    if triggers == [] then []
    else
      var rest := SeverityReports(triggers[..|triggers| - 1], severity, limit, now);
      var t := triggers[|triggers| - 1];
      if OverLimit(t, limit, now) then rest + [Report(severity, limit, t)] else rest
  }

  /** The reports of one row of the table: none, and no query, when its limit is unset. */
  function RowReports(row: (nat, int), source: seq<Trigger>, now: int): seq<Report>
  {
    if row.1 != 0 then SeverityReports(GetTriggers(source, Some(row.0), true), row.0, row.1, now)
    else []
  }

  /** The reports of the whole sweep, row after row. */
  function Sweep(table: seq<(nat, int)>, source: seq<Trigger>, now: int): seq<Report>
  {
    if table == [] then []
    else Sweep(table[..|table| - 1], source, now) + RowReports(table[|table| - 1], source, now)
  }

  /** The severities whose sweep queries Zabbix: those with a set limit, in table order. */
  function Queried(table: seq<(nat, int)>): seq<nat>
  {
    if table == [] then []
    else Queried(table[..|table| - 1]) + (if table[|table| - 1].1 != 0 then [table[|table| - 1].0] else [])
  }

  /** A severity's inner loop reports exactly the queried triggers over the limit. */
  lemma {:induction false} SeverityReportsMembers(
    triggers: seq<Trigger>, severity: nat, limit: int, now: int, r: Report)
    ensures r in SeverityReports(triggers, severity, limit, now) <==>
      r.severity == severity && r.limit == limit && r.trigger in triggers &&
      OverLimit(r.trigger, limit, now)
  {
    if triggers != [] {
      var init := triggers[..|triggers| - 1];
      SeverityReportsMembers(init, severity, limit, now, r);
      assert triggers == init + [triggers[|triggers| - 1]];
    }
  }

  /** A report comes out of the sweep exactly when some row with a set limit queried its trigger
      and found it over that row's limit. */
  lemma {:induction false} SweepMembers(table: seq<(nat, int)>, source: seq<Trigger>, now: int, r: Report)
    ensures r in Sweep(table, source, now) <==>
      exists i :: 0 <= i < |table| && table[i].1 != 0 && r.severity == table[i].0 &&
        r.limit == table[i].1 && r.trigger in GetTriggers(source, Some(table[i].0), true) &&
        OverLimit(r.trigger, r.limit, now)
  {
    if table != [] {
      var init := table[..|table| - 1];
      var row := table[|table| - 1];
      SweepMembers(init, source, now, r);
      if row.1 != 0 {
        SeverityReportsMembers(GetTriggers(source, Some(row.0), true), row.0, row.1, now, r);
      }
      assert forall i :: 0 <= i < |init| ==> init[i] == table[i];
    }
  }

  /** What `collect` reports, in terms of the configuration: a trigger is reported under
      severity s exactly when s's limit is set, the query for s returned it, and it is strictly
      older than the limit. In particular an unset severity reports nothing, and an age equal to
      the limit is not reported. */
  lemma CollectReportsExactly(conf: Config, source: seq<Trigger>, now: int, r: Report)
    ensures r in Sweep(SeverityTable(conf), source, now) <==>
      r.severity <= 5 && AgeLimit(conf, r.severity) != 0 && r.limit == AgeLimit(conf, r.severity) &&
      r.trigger in GetTriggers(source, Some(r.severity), true) && now - r.trigger.lastchange > r.limit
  {
    var table := SeverityTable(conf);
    SweepMembers(table, source, now, r);
    if r.severity <= 5 && AgeLimit(conf, r.severity) != 0 && r.limit == AgeLimit(conf, r.severity) &&
       r.trigger in GetTriggers(source, Some(r.severity), true) && now - r.trigger.lastchange > r.limit {
      assert table[r.severity].0 == r.severity;
    }
  }

  /** Rows whose severities strictly increase give reports in non-decreasing severity order. */
  lemma {:induction false} SweepOrdered(table: seq<(nat, int)>, source: seq<Trigger>, now: int)
    requires forall i, j :: 0 <= i < j < |table| ==> table[i].0 < table[j].0
    ensures var rs := Sweep(table, source, now);
      forall i, j :: 0 <= i < j < |rs| ==> rs[i].severity <= rs[j].severity
  {
    if table != [] {
      var init := table[..|table| - 1];
      var row := table[|table| - 1];
      SweepOrdered(init, source, now);
      var front := Sweep(init, source, now);
      var back := RowReports(row, source, now);
      forall k | 0 <= k < |front|
        ensures front[k].severity < row.0
      {
        SweepMembers(init, source, now, front[k]);
      }
      forall k | 0 <= k < |back|
        ensures back[k].severity == row.0
      {
        if row.1 != 0 {
          SeverityReportsMembers(GetTriggers(source, Some(row.0), true), row.0, row.1, now, back[k]);
        }
      }
    }
  }

  /** The severities queried are exactly those with a set limit. */
  lemma {:induction false} QueriedMembers(table: seq<(nat, int)>, s: nat)
    ensures s in Queried(table) <==> exists i :: 0 <= i < |table| && table[i].0 == s && table[i].1 != 0
  {
    if table != [] {
      var init := table[..|table| - 1];
      QueriedMembers(init, s);
      assert forall i :: 0 <= i < |init| ==> init[i] == table[i];
    }
  }

  /** `collect` (zabbix.py:77-89). `reports` are the triggers it reports as above their age
      limit, in the order it finds them; `queried` are the severities it asks Zabbix about.
      (The Python function logs the reports and returns None.) */
  method Collect(conf: Config, source: seq<Trigger>, now: int)
    returns (reports: seq<Report>, queried: seq<nat>)
    ensures reports == Sweep(SeverityTable(conf), source, now)
    ensures queried == Queried(SeverityTable(conf))
    ensures forall i, j :: 0 <= i < j < |reports| ==> reports[i].severity <= reports[j].severity
    ensures forall s: nat :: s in queried <==> s <= 5 && AgeLimit(conf, s) != 0
  {
    var table := SeverityTable(conf);
    reports, queried := [], [];
    var i := 0;
    while i < |table|
      invariant 0 <= i <= |table|
      invariant reports == Sweep(table[..i], source, now)
      invariant queried == Queried(table[..i])
    {
      var severity, age := table[i].0, table[i].1;
      if age != 0 {
        var triggers := GetTriggers(source, Some(severity), true);
        queried := queried + [severity];
        var j := 0;
        while j < |triggers|
          invariant 0 <= j <= |triggers|
          invariant reports == Sweep(table[..i], source, now) + SeverityReports(triggers[..j], severity, age, now)
        {
          var t := triggers[j];
          assert triggers[..j + 1][..j] == triggers[..j];
          if now - t.lastchange > age {
            reports := reports + [Report(severity, age, t)];
          }
          j := j + 1;
        }
        assert triggers[..j] == triggers;
      }
      assert table[..i + 1][..i] == table[..i];
      i := i + 1;
    }
    assert table[..i] == table;
    SweepOrdered(table, source, now);
    forall s: nat ensures s in queried <==> s <= 5 && AgeLimit(conf, s) != 0 {
      QueriedMembers(table, s);
      if s <= 5 && AgeLimit(conf, s) != 0 {
        assert table[s].0 == s;
      }
    }
  }

  /** Counterexample: with only severity 0 limited, the severity-0 sweep queries without a
      priority filter and reports a priority-5 trigger; the corrected query does not return it. */
  lemma SeverityZeroSweepsEveryPriority()
    ensures
      var t := Trigger("13", "disk full", "web1", 5, 1, 0);
      var conf := Config(60, 0, 0, 0, 0, 0);
      Report(0, 60, t) in Sweep(SeverityTable(conf), [t], 100) &&
      t !in GetTriggersFixed([t], 0, true)
  {
    var t := Trigger("13", "disk full", "web1", 5, 1, 0);
    var conf := Config(60, 0, 0, 0, 0, 0);
    GetTriggersPriorityZero([t], t);
    CollectReportsExactly(conf, [t], 100, Report(0, 60, t));
  }
}
