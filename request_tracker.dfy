/** The Request Tracker (RT) side of delato (delato/request_tracker.py): the search that looks
    for an open ticket carrying an alarm id, the payload of a new ticket, and create-if-absent.

    The RT REST client is replaced by an oracle (`Backend`): what RT answers to a search path,
    what it answers to a `ticket/<id>` path, and whether it accepts a post. The process-wide
    configuration object becomes an explicit `Config` value. */
module RequestTracker {
  import opened Wrappers

  /** The `[request_tracker]` options the core reads (request_tracker.py:12-40).
      `watermark` is read at request_tracker.py:91 but is never registered, so in every real
      configuration it is `None` and reading it raises oslo.config's NoSuchOptError. */
  datatype Config = Config(
    queue: string,
    newSubject: string,
    newBody: string,
    alarmCustomField: string,
    watermark: Option<string>)

  /** A ticket as RT's REST interface shows it: field name to value. */
  type Fields = map<string, string>

  /** One row of a search answer: the ticket id and its title. */
  type SearchHit = (string, string)

  /** What RT answers: `search` for a search path, `show` for a `ticket/<id>` path, and
      `postAccepted` for whether a post of `ticket/new` succeeds (rather than raising). */
  datatype Backend = Backend(
    search: string -> seq<SearchHit>,
    show: string -> Fields,
    postAccepted: bool)

  /** The Python exceptions that can escape `create_ticket`. */
  datatype PyError =
    | NoSuchOptError(group: string, name: string)
    | NameError(name: string)

  // ---------------------------------------------------------------------------------------
  // REST paths and field keys

  const SearchPrefix: string := "search/ticket?query=Queue='"
  const OpenStatuses: seq<string> := ["new", "open", "stalled"]
  const SearchSuffix: string := "'+AND+(" + StatusClause(OpenStatuses) + ")"
  const NewTicketPath: string := "ticket/new"

  /** RT query syntax for "status is one of `statuses`": each status as `Status='<s>'`,
      joined by `+OR+`; for `OpenStatuses` this is the clause of request_tracker.py:60-61. */
  function StatusClause(statuses: seq<string>): string
  {
    if |statuses| == 0 then ""
    else if |statuses| == 1 then "Status='" + statuses[0] + "'"
    else "Status='" + statuses[0] + "'+OR+" + StatusClause(statuses[1..])
  }

  /** The path `_find` searches (request_tracker.py:59-62): the configured queue, unescaped,
      between the fixed prefix and the status restriction. */
  function SearchPath(queue: string): (p: string)
    ensures |p| == |SearchPrefix| + |queue| + |SearchSuffix|
    ensures p[..|SearchPrefix|] == SearchPrefix
    ensures p[|SearchPrefix|..|p| - |SearchSuffix|] == queue
    ensures p[|p| - |SearchSuffix|..] == SearchSuffix
  {
    SearchPrefix + queue + SearchSuffix
  }

  /** Different queues are searched through different paths. */
  lemma SearchPathInjective(q1: string, q2: string)
    requires SearchPath(q1) == SearchPath(q2)
    ensures q1 == q2
  {
  }

  /** The path that shows one ticket's fields. */
  function TicketPath(id: string): string
  {
    "ticket/" + id
  }

  /** The key `_find` reads the alarm id from (request_tracker.py:68). */
  function CustomFieldKey(name: string): string
  {
    "CF.{" + name + "}"
  }

  /** The key `create_ticket` writes the alarm id under (request_tracker.py:91). */
  function WatermarkKey(name: string): string
  {
    "CR.{" + name + "}"
  }

  const BaseKeys: set<string> := {"Queue", "Subject", "Text"}

  /** The read key is never one of the base payload keys, and never any write key. */
  lemma CustomFieldKeyIsDistinct(name: string, watermark: string)
    ensures CustomFieldKey(name) !in BaseKeys
    ensures CustomFieldKey(name) != WatermarkKey(watermark)
  {
    assert CustomFieldKey(name)[0] == 'C' && CustomFieldKey(name)[1] == 'F';
    assert WatermarkKey(watermark)[1] == 'R';
    assert "Queue"[0] == 'Q' && "Subject"[0] == 'S' && "Text"[0] == 'T';
  }

  /** The write key is never one of the base payload keys either. */
  lemma WatermarkKeyIsDistinct(name: string)
    ensures WatermarkKey(name) !in BaseKeys
  {
    assert WatermarkKey(name)[0] == 'C';
    assert "Queue"[0] == 'Q' && "Subject"[0] == 'S' && "Text"[0] == 'T';
  }

  // ---------------------------------------------------------------------------------------
  // _find

  /** A ticket belongs to `alarmId` when its custom field holds it; a missing field (the
      KeyError of request_tracker.py:71) is no match. */
  predicate IsMatch(conf: Config, d: Fields, alarmId: string)
  {
    var key := CustomFieldKey(conf.alarmCustomField);
    key in d && d[key] == alarmId
  }

  /** What `_find` returns: the ticket's dict, `False`, or `None` (falling off the end). */
  datatype FindResult = Found(ticket: Fields) | NotFound | NoResults

  /** Python truthiness of the value `_find` returns. */
  predicate Truthy(r: FindResult)
  {
    r.Found? && |r.ticket| > 0
  }

  /** `_find` as written (request_tracker.py:54-74). The lookup at line 66 fetches
      `ticket/<alarm_id>` rather than `ticket/<id>`, and the `return False` at line 74 sits in
      the loop, so only the first search result is ever visited; the search hits therefore
      matter only through whether there are any. (Line 66 also has an unbalanced parenthesis;
      the model reads it as if it parsed.) */
  function FindAsWritten(conf: Config, rt: Backend, alarmId: string): (r: FindResult)
    ensures r.NoResults? <==> rt.search(SearchPath(conf.queue)) == []
    ensures r.Found? <==>
      rt.search(SearchPath(conf.queue)) != [] && IsMatch(conf, rt.show(TicketPath(alarmId)), alarmId)
    ensures r.Found? ==> r.ticket == rt.show(TicketPath(alarmId))
    ensures Truthy(r) <==> r.Found?
  {
    var hits := rt.search(SearchPath(conf.queue));
    if hits == [] then NoResults
    else
      var d := rt.show(TicketPath(alarmId));
      if IsMatch(conf, d, alarmId) then Found(d) else NotFound
  }

  /** The intended scan: show every search hit by its own id and return the first whose
      custom field holds `alarmId`. */
  function FindIn(conf: Config, show: string -> Fields, hits: seq<SearchHit>, alarmId: string)
    : (r: Option<Fields>)
    ensures r.Some? ==> IsMatch(conf, r.value, alarmId)
    ensures r.Some? ==>
      exists i :: 0 <= i < |hits| && r.value == show(TicketPath(hits[i].0)) &&
        forall j :: 0 <= j < i ==> !IsMatch(conf, show(TicketPath(hits[j].0)), alarmId)
    ensures r.None? <==>
      forall i :: 0 <= i < |hits| ==> !IsMatch(conf, show(TicketPath(hits[i].0)), alarmId)
    decreases |hits|
  {
    if hits == [] then None
    else
      var d := show(TicketPath(hits[0].0));
      if IsMatch(conf, d, alarmId) then Some(d)
      else
        var r := FindIn(conf, show, hits[1..], alarmId);
        assert forall i :: 1 <= i < |hits| ==> hits[i] == hits[1..][i - 1];
        if r.Some? then
          var k :| 0 <= k < |hits[1..]| && r.value == show(TicketPath(hits[1..][k].0)) &&
            forall j :: 0 <= j < k ==> !IsMatch(conf, show(TicketPath(hits[1..][j].0)), alarmId);
          assert r.value == show(TicketPath(hits[k + 1].0));
          r
        else r
  }

  /** `_find` corrected: scans the answer to the open-ticket search of the configured queue. */
  function Find(conf: Config, rt: Backend, alarmId: string): (r: Option<Fields>)
    ensures r.Some? ==> IsMatch(conf, r.value, alarmId)
    ensures var hits := rt.search(SearchPath(conf.queue));
      r.None? <==> forall i :: 0 <= i < |hits| ==> !IsMatch(conf, rt.show(TicketPath(hits[i].0)), alarmId)
  {
    FindIn(conf, rt.show, rt.search(SearchPath(conf.queue)), alarmId)
  }

  /** An alarm is mapped to one ticket only: once an open ticket of the queue shows the custom
      field entry of the corrected payload for `alarmId` (whatever other fields RT shows with
      it), the corrected `_find` returns a ticket for it, so `CreateTicketFixed` posts nothing
      more for that alarm. */
  lemma FindsCreatedPayload(conf: Config, rt: Backend, alarmId: string, i: nat)
    requires conf.alarmCustomField != ""
    requires i < |rt.search(SearchPath(conf.queue))|
    requires var shown := rt.show(TicketPath(rt.search(SearchPath(conf.queue))[i].0));
      var key := CustomFieldKey(conf.alarmCustomField);
      key in shown && shown[key] == Payload(conf, alarmId)[key]
    ensures Find(conf, rt, alarmId).Some?
  {
  }

  /** Counterexample: RT's search returns ticket 7 and ticket 7 carries alarm A1, but `_find`
      as written shows `ticket/A1`, which does not, and reports no match. */
  lemma FindAsWrittenMissesListedTicket()
    ensures
      var conf := Config("ops", "s", "b", "alarm", None);
      var rt := Backend(
        p => [("7", "disk full")],
        p => if p == "ticket/7" then map["CF.{alarm}" := "A1"] else map[],
        true);
      FindAsWritten(conf, rt, "A1") == NotFound && Find(conf, rt, "A1").Some?
  {
    var conf := Config("ops", "s", "b", "alarm", None);
    var show: string -> Fields := p => if p == "ticket/7" then map["CF.{alarm}" := "A1"] else map[];
    assert TicketPath("7") == "ticket/7";
    assert TicketPath("A1") != "ticket/7" by { assert TicketPath("A1")[7] == 'A'; }
    assert CustomFieldKey(conf.alarmCustomField) == "CF.{alarm}";
    assert IsMatch(conf, show(TicketPath("7")), "A1");
  }

  // ---------------------------------------------------------------------------------------
  // create_ticket

  /** Queue, Subject and Text, from the configured queue and the unrendered templates
      (request_tracker.py:83-89). */
  function BasePayload(conf: Config): (p: Fields)
    ensures p.Keys == BaseKeys
    ensures p["Queue"] == conf.queue && p["Subject"] == conf.newSubject && p["Text"] == conf.newBody
  {
    map["Queue" := conf.queue, "Subject" := conf.newSubject, "Text" := conf.newBody]
  }

  /** The payload as written (request_tracker.py:83-91): with a custom field configured it
      reads the unregistered `watermark` option (NoSuchOptError), and even when that option
      exists it writes under `CR.{...}`, a key `_find` never reads, so no payload it can build
      is ever matched. */
  function PayloadAsWritten(conf: Config, alarmId: string): (r: Result<Fields, PyError>)
    ensures conf.alarmCustomField == "" ==> r == Ok(BasePayload(conf))
    ensures conf.alarmCustomField != "" && conf.watermark.None? ==>
      r == Err(NoSuchOptError("request_tracker", "watermark"))
    ensures conf.alarmCustomField != "" && conf.watermark.Some? ==>
      r == Ok(BasePayload(conf)[WatermarkKey(conf.watermark.value) := alarmId])
    ensures r.Ok? ==> BaseKeys <= r.value.Keys && |r.value.Keys| <= 4
    ensures r.Ok? ==> forall k :: k in BaseKeys ==> r.value[k] == BasePayload(conf)[k]
    ensures r.Ok? ==> !IsMatch(conf, r.value, alarmId)
  {
    var base := BasePayload(conf);
    CustomFieldKeyIsDistinct(conf.alarmCustomField, "");
    if conf.alarmCustomField == "" then Ok(base)
    else match conf.watermark
      case None => Err(NoSuchOptError("request_tracker", "watermark"))
      case Some(w) =>
        CustomFieldKeyIsDistinct(conf.alarmCustomField, w);
        WatermarkKeyIsDistinct(w);
        var p := base[WatermarkKey(w) := alarmId];
        assert p.Keys == BaseKeys + {WatermarkKey(w)};
        Ok(p)
  }

  /** The payload corrected: the alarm id goes under the key `_find` reads, and only when a
      custom field is configured; otherwise the payload has exactly the three base keys. */
  function Payload(conf: Config, alarmId: string): (p: Fields)
    ensures forall k :: k in BaseKeys ==> k in p && p[k] == BasePayload(conf)[k]
    ensures conf.alarmCustomField == "" ==> p.Keys == BaseKeys
    ensures conf.alarmCustomField != "" ==>
      p.Keys == BaseKeys + {CustomFieldKey(conf.alarmCustomField)} &&
      p[CustomFieldKey(conf.alarmCustomField)] == alarmId
    ensures conf.alarmCustomField != "" <==> IsMatch(conf, p, alarmId)
  {
    CustomFieldKeyIsDistinct(conf.alarmCustomField, "");
    if conf.alarmCustomField == "" then BasePayload(conf)
    else BasePayload(conf)[CustomFieldKey(conf.alarmCustomField) := alarmId]
  }

  /** Counterexample: with a custom field and a registered watermark, the ticket the as-written
      payload describes does not carry the alarm id where `_find` looks for it. */
  lemma PayloadAsWrittenIsNeverFound()
    ensures
      var conf := Config("ops", "s", "b", "alarm", Some("alarm"));
      PayloadAsWritten(conf, "A1").Ok? &&
      !IsMatch(conf, PayloadAsWritten(conf, "A1").value, "A1") &&
      IsMatch(conf, Payload(conf, "A1"), "A1")
  {
  }

  /** One request sent with `conn.post`: the path, and as `payload` the `content` dict that
      the posted body wraps. */
  datatype Post = Post(path: string, payload: Fields)

  /** How a call of `create_ticket` ends. */
  datatype CreateOutcome = Created | AlreadyOpen | PostFailed | Raised(error: PyError)

  /** The tracker, with the requests it has posted and the tickets RT accepted. */
  class RequestTracker {
    const conf: Config
    /** Every `conn.post` made, in order. */
    var posts: seq<Post>
    /** The payloads of the posts RT accepted, that is, the tickets created. */
    var created: seq<Fields>

    constructor (conf: Config)
      ensures this.conf == conf && posts == [] && created == []
    {
      this.conf := conf;
      posts := [];
      created := [];
    }

    /** `create_ticket` as written (request_tracker.py:77-101). The payload is built first, so
        the NoSuchOptError of line 91 escapes before any search. Otherwise RT is searched, and
        only a falsy `_find` leads to the single post. A failed post reaches
        `except RTResourceError`, a name never imported, so a NameError escapes. */
    method CreateTicket(alarmId: string, rt: Backend) returns (outcome: CreateOutcome)
      modifies this
      ensures PayloadAsWritten(conf, alarmId).Err? ==>
        outcome == Raised(PayloadAsWritten(conf, alarmId).error) &&
        posts == old(posts) && created == old(created)
      ensures PayloadAsWritten(conf, alarmId).Ok? && Truthy(FindAsWritten(conf, rt, alarmId)) ==>
        outcome == AlreadyOpen && posts == old(posts) && created == old(created)
      ensures PayloadAsWritten(conf, alarmId).Ok? && !Truthy(FindAsWritten(conf, rt, alarmId)) ==>
        var payload := PayloadAsWritten(conf, alarmId).value;
        posts == old(posts) + [Post(NewTicketPath, payload)] &&
        (rt.postAccepted ==> outcome == Created && created == old(created) + [payload]) &&
        (!rt.postAccepted ==>
          outcome == Raised(NameError("RTResourceError")) && created == old(created))
      ensures |old(posts)| <= |posts| <= |old(posts)| + 1
    {
      var content := PayloadAsWritten(conf, alarmId);
      if content.Err? {
        return Raised(content.error);
      }
      var found := FindAsWritten(conf, rt, alarmId);
      if Truthy(found) {
        return AlreadyOpen;
      }
      posts := posts + [Post(NewTicketPath, content.value)];
      if rt.postAccepted {
        created := created + [content.value];
        outcome := Created;
      } else {
        outcome := Raised(NameError("RTResourceError"));
      }
    }

    /** `create_ticket` corrected: the corrected payload and scan, and a failed post is
        caught and logged, so no exception escapes and nothing is recorded as created. */
    method CreateTicketFixed(alarmId: string, rt: Backend) returns (outcome: CreateOutcome)
      modifies this
      ensures Find(conf, rt, alarmId).Some? ==>
        outcome == AlreadyOpen && posts == old(posts) && created == old(created)
      ensures Find(conf, rt, alarmId).None? ==>
        var payload := Payload(conf, alarmId);
        posts == old(posts) + [Post(NewTicketPath, payload)] &&
        (rt.postAccepted ==> outcome == Created && created == old(created) + [payload]) &&
        (!rt.postAccepted ==> outcome == PostFailed && created == old(created))
      ensures !outcome.Raised?
      ensures |old(posts)| <= |posts| <= |old(posts)| + 1
    {
      var content := Payload(conf, alarmId);
      var found := Find(conf, rt, alarmId);
      if found.Some? {
        return AlreadyOpen;
      }
      posts := posts + [Post(NewTicketPath, content)];
      if rt.postAccepted {
        created := created + [content];
        outcome := Created;
      } else {
        outcome := PostFailed;
      }
    }
  }
}
