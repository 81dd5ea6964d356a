/** The log endpoints: creating a log for the caller's organization, the
    query and options behind listing, and the per-event-type counts. */
module LogsController {
  import opened Wrappers
  import opened Js
  import Text
  import Json
  import Numbers
  import Sorting
  import Pagination
  import opened LogModel
  import OrganizationModel
  import SuspiciousActivity
  import AuthMiddleware

  // ---------------------------------------------------------------------
  // createLog

  /** The request body fields createLog reads. A timestamp of 0 is falsy. */
  datatype Body = Body(
    userId: Prop,
    userName: Prop,
    userEmail: Prop,
    action: Prop,
    eventType: Prop,
    description: Prop,
    metadata: Option<Json.Json>,
    timestamp: Option<int>)

  /** The document createLog passes to Log.create. The organization is the
      token's; the body's falsy fields fall back to the token's user, to
      "Unknown" (the middleware never sets a name), "OTHER", "", {} and the
      current time. */
  function BuildDraft(user: AuthMiddleware.ReqUser, body: Body, now: int): (d: Draft)
    ensures d.organizationId == user.organizationId
    ensures d.userId == (if Truthy(body.userId) then body.userId else Some(user.id))
    ensures d.userName == (if Truthy(body.userName) then body.userName else Some("Unknown"))
    ensures d.userEmail == (if Truthy(body.userEmail) then body.userEmail else user.email)
    ensures d.action == body.action
    ensures d.eventType == (if Truthy(body.eventType) then body.eventType.value else "OTHER")
    ensures d.description == (if Truthy(body.description) then body.description.value else "")
    ensures d.metadata ==
      (if body.metadata.Some? && Json.Truthy(body.metadata.value) then body.metadata.value else Json.EmptyObject)
    ensures d.timestamp == (if body.timestamp.Some? && body.timestamp.value != 0 then body.timestamp.value else now)
  {
    Draft(
      user.organizationId,
      Or(body.userId, Some(user.id)),
      Or(Or(body.userName, None), Some("Unknown")),
      Or(body.userEmail, user.email),
      body.action,
      ValueOr(Or(body.eventType, Some("OTHER")), "OTHER"),
      ValueOr(Or(body.description, Some("")), ""),
      if body.metadata.Some? && Json.Truthy(body.metadata.value) then body.metadata.value else Json.EmptyObject,
      if body.timestamp.Some? && body.timestamp.value != 0 then body.timestamp.value else now)
  }

  /** The outcome of createLog. Errors go to next(): a schema validation
      failure, or a failed alert mail, after which the log stays stored and
      no 201 is sent. */
  datatype Response = Created(log: Log) | Invalid(paths: seq<string>) | AlertMailFailed(alert: SuspiciousActivity.Alert)

  /** createLog over an in-memory store: validate, run the pre-save hook,
      append, then run the burst-delete check for the token's organization.
      `mailSent` says whether sending an alert mail would succeed. */
  function CreateLog(user: AuthMiddleware.ReqUser, body: Body, now: int, logs: seq<Log>,
                     orgs: seq<OrganizationModel.Organization>, mailSent: bool): (r: (seq<Log>, Response))
    ensures var d := BuildDraft(user, body, now);
            match Validate(d, now)
            case Failure(paths) => r == (logs, Invalid(paths))
            case Success(log) =>
              var stored := WithText(log);
              r.0 == logs + [stored]
              && match SuspiciousActivity.CheckSuspiciousActivity(r.0, orgs, user.organizationId, now)
                 case Some(alert) => r.1 == (if mailSent then Created(stored) else AlertMailFailed(alert))
                 case None => r.1 == Created(stored)
  {
    match Validate(BuildDraft(user, body, now), now)
    case Failure(paths) => (logs, Invalid(paths))
    case Success(log) =>
      var stored := WithText(log);
      var logs' := logs + [stored];
      match SuspiciousActivity.CheckSuspiciousActivity(logs', orgs, user.organizationId, now)
      case Some(alert) => if mailSent then (logs', Created(stored)) else (logs', AlertMailFailed(alert))
      case None => (logs', Created(stored))
  }

  /** A created log belongs to the token's organization whatever the body
      says, carries the derived search text, and is the last log stored. */
  lemma {:induction false} CreatedLogIsTenants(user: AuthMiddleware.ReqUser, body: Body, now: int, logs: seq<Log>,
                            orgs: seq<OrganizationModel.Organization>, mailSent: bool)
    requires CreateLog(user, body, now, logs, orgs, mailSent).1.Created?
    ensures var (logs', resp) := CreateLog(user, body, now, logs, orgs, mailSent);
            resp.log.organizationId == user.organizationId
            && resp.log.metadataText == MetadataText(resp.log.metadata)
            && logs' == logs + [resp.log]
  {
  }

  /** The body's own defaults: with only an action, a log gets event type
      OTHER, an empty description, metadata {} with text "{}", the current
      time, the token's user id and email, and the name "Unknown". */
  lemma {:induction false} CreateDefaults(user: AuthMiddleware.ReqUser, action: string, now: int, logs: seq<Log>,
                       orgs: seq<OrganizationModel.Organization>)
    requires action != "" && user.id != "" && user.organizationId != ""
    ensures var body := Body(None, None, None, Some(action), None, None, None, None);
            var (_, resp) := CreateLog(user, body, now, logs, orgs, true);
            resp == Created(Log(user.organizationId, User(user.id, Some("Unknown"), user.email), action,
                                OTHER, "", Data(Json.EmptyObject), "{}", now, now))
  {
    var body := Body(None, None, None, Some(action), None, None, None, None);
    var d := BuildDraft(user, body, now);
    assert d == Draft(user.organizationId, Some(user.id), Some("Unknown"), user.email, Some(action), "OTHER", "",
                      Json.EmptyObject, now);
    assert ParseEventType("OTHER") == Some(OTHER);
    assert FailingPaths(d) == [];
    MetadataTextReadsBack(Data(Json.EmptyObject));
    assert Json.Stringify(Json.EmptyObject) == "{}";
  }

  /** A failed alert mail still leaves the log stored, and the caller gets
      no 201. */
  lemma {:induction false} MailFailureKeepsLog(user: AuthMiddleware.ReqUser, body: Body, now: int, logs: seq<Log>,
                            orgs: seq<OrganizationModel.Organization>)
    requires Validate(BuildDraft(user, body, now), now).Success?
    requires SuspiciousActivity.CheckSuspiciousActivity(
               logs + [WithText(Validate(BuildDraft(user, body, now), now).value)], orgs, user.organizationId, now).Some?
    ensures var (logs', resp) := CreateLog(user, body, now, logs, orgs, false);
            resp.AlertMailFailed? && |logs'| == |logs| + 1 && logs'[..|logs|] == logs
  {
  }

  // ---------------------------------------------------------------------
  // listLogs

  /** The query listLogs hands to paginate: the token's organization and the
      three optional filters. */
  datatype LogQuery = LogQuery(organizationId: string, eventType: Prop, userId: Prop, action: Prop)

  /** A truthy parameter, or nothing. */
  function IfTruthy(p: Prop): (r: Prop)
    ensures r.Some? <==> Truthy(p)
    ensures r.Some? ==> r == p
  {
    if Truthy(p) then p else None
  }

  /** The query for a caller and a query string. */
  function QueryFor(user: AuthMiddleware.ReqUser, params: Bag): (q: LogQuery)
    ensures q.organizationId == user.organizationId
    ensures q.eventType.Some? <==> Truthy(Get(params, "eventType"))
    ensures q.userId.Some? <==> Truthy(Get(params, "userId"))
    ensures q.action.Some? <==> Truthy(Get(params, "action"))
    ensures q.eventType.Some? ==> q.eventType.value == params["eventType"]
    ensures q.userId.Some? ==> q.userId.value == params["userId"]
    ensures q.action.Some? ==> q.action.value == params["action"]
  {
    LogQuery(user.organizationId, IfTruthy(Get(params, "eventType")), IfTruthy(Get(params, "userId")),
             IfTruthy(Get(params, "action")))
  }

  /** The logs the query selects: the organization matches, the event type
      and user id match exactly, and the action contains the pattern
      without regard to letter case. */
  predicate Selects(q: LogQuery, log: Log)
    ensures Selects(q, log) ==> log.organizationId == q.organizationId
  {
    log.organizationId == q.organizationId
    && (q.eventType.Some? ==> Name(log.eventType) == q.eventType.value)
    && (q.userId.Some? ==> log.user.id == q.userId.value)
    && (q.action.Some? ==> Text.ContainsIgnoringCase(log.action, q.action.value))
  }

  /** listLogs' query, built as the handler builds it: the organization
      first, then each filter whose parameter is truthy. */
  method BuildLogQuery(user: AuthMiddleware.ReqUser, params: Bag) returns (q: LogQuery)
    ensures q == QueryFor(user, params)
    ensures forall log :: Selects(q, log) ==> log.organizationId == user.organizationId
  {
    q := LogQuery(user.organizationId, None, None, None);
    var eventType := Get(params, "eventType");
    if Truthy(eventType) {
      q := q.(eventType := eventType);
    }
    var userId := Get(params, "userId");
    if Truthy(userId) {
      q := q.(userId := userId);
    }
    var action := Get(params, "action");
    if Truthy(action) {
      q := q.(action := action);
    }
  }

  /** What the query selects, in terms of the query string: tenant first,
      and each truthy filter. */
  lemma {:induction false} SelectsIff(user: AuthMiddleware.ReqUser, params: Bag, log: Log)
    ensures Selects(QueryFor(user, params), log) <==>
      log.organizationId == user.organizationId
      && (Truthy(Get(params, "eventType")) ==> Name(log.eventType) == params["eventType"])
      && (Truthy(Get(params, "userId")) ==> log.user.id == params["userId"])
      && (Truthy(Get(params, "action")) ==> Text.ContainsIgnoringCase(log.action, params["action"]))
  {
  }

  /** Only eventType, userId and action matter: query strings that agree on
      those three give the same query, whatever else they hold (an
      organizationId parameter included). */
  lemma {:induction false} OtherParamsIgnored(user: AuthMiddleware.ReqUser, p1: Bag, p2: Bag)
    requires Get(p1, "eventType") == Get(p2, "eventType")
    requires Get(p1, "userId") == Get(p2, "userId")
    requires Get(p1, "action") == Get(p2, "action")
    ensures QueryFor(user, p1) == QueryFor(user, p2)
  {
  }

  /** listLogs' options: the same defaults, parsing and direction as
      buildPagination, and no cursor, which listLogs never reads. */
  function ListOptions(params: Bag): (o: Pagination.Options)
    ensures o.cursor.None?
    ensures o.direction == 1 <==> Get(params, "order") == Some("asc")
    ensures o.direction == 1 || o.direction == -1
  {
    Pagination.Options(
      Numbers.ParseInt(ValueOr(Get(params, "page"), "1")),
      Numbers.ParseInt(ValueOr(Get(params, "limit"), "10")),
      ValueOr(Get(params, "sortBy"), "timestamp"),
      if ValueOr(Get(params, "order"), "desc") == "asc" then 1 else -1,
      None)
  }

  /** The options listLogs builds are buildPagination's for the same query
      without its cursor. */
  lemma {:induction false} ListOptionsAsPagination(params: Bag)
    ensures Pagination.BuildPagination(params - {"cursor"}) == Success(ListOptions(params))
  {
    var q := params - {"cursor"};
    assert Get(q, "page") == Get(params, "page") && Get(q, "limit") == Get(params, "limit");
    assert Get(q, "sortBy") == Get(params, "sortBy") && Get(q, "order") == Get(params, "order");
    assert Get(q, "cursor") == None;
  }

  // ---------------------------------------------------------------------
  // logsStats

  /** One group of the aggregation: an event type and how many logs have it. */
  datatype Stat = Stat(eventType: EventType, count: nat)

  const AllTypes: seq<EventType> := [CREATE, READ, UPDATE, DELETE, LOGIN, LOGOUT, OTHER]

  /** The event types of an organization's logs, in store order. */
  function TenantTypes(logs: seq<Log>, orgId: string): (ts: seq<EventType>)
    ensures |ts| <= |logs|
    ensures forall i :: 0 <= i < |ts| ==> TenantHasType(logs, orgId, ts[i])
    ensures forall e :: Occurrences(ts, e) == |TenantIndices(logs, orgId, e)|
  {
    if logs == [] then []
    else
      var init, last := logs[..|logs| - 1], logs[|logs| - 1];
      var prev := TenantTypes(init, orgId);
      var ts := prev + (if last.organizationId == orgId then [last.eventType] else []);
      CountStep(logs, orgId, prev, ts);
      OwnersFromCount(logs, orgId, ts);
      ts
  }

  /** Some log of the organization has event type `t`. */
  predicate TenantHasType(logs: seq<Log>, orgId: string, t: EventType) {
    exists j :: 0 <= j < |logs| && logs[j].organizationId == orgId && logs[j].eventType == t
  }

  /** The positions of the organization's logs of one event type: what the
      `$match` on the organization followed by the group on `eventType`
      gathers into that type's group. */
  function TenantIndices(logs: seq<Log>, orgId: string, e: EventType): set<int> {
    set j | 0 <= j < |logs| && logs[j].organizationId == orgId && logs[j].eventType == e
  }

  /** A list whose counts are those of the organization's logs lists only
      types of the organization's logs. */
  lemma {:induction false} OwnersFromCount(logs: seq<Log>, orgId: string, ts: seq<EventType>)
    requires forall e :: Occurrences(ts, e) == |TenantIndices(logs, orgId, e)|
    ensures forall i :: 0 <= i < |ts| ==> TenantHasType(logs, orgId, ts[i])
  {
    forall i | 0 <= i < |ts| ensures TenantHasType(logs, orgId, ts[i]) {
      OccursAt(ts, i);
      var j :| j in TenantIndices(logs, orgId, ts[i]);
    }
  }

  /** Every element of a list occurs in it. */
  lemma {:induction false} OccursAt(ts: seq<EventType>, i: int)
    requires 0 <= i < |ts|
    ensures Occurrences(ts, ts[i]) > 0
  {
    var pre := ts[..i + 1];
    assert pre[..|pre| - 1] == ts[..i] && pre[|pre| - 1] == ts[i];
    OccurrencesPrefix(pre, ts, ts[i]);
  }

  /** One more log adds its type's count exactly when it is the
      organization's. */
  lemma {:induction false} CountStep(logs: seq<Log>, orgId: string, prev: seq<EventType>, ts: seq<EventType>)
    requires logs != []
    requires forall e :: Occurrences(prev, e) == |TenantIndices(logs[..|logs| - 1], orgId, e)|
    requires var last := logs[|logs| - 1];
             ts == prev + (if last.organizationId == orgId then [last.eventType] else [])
    ensures forall e :: Occurrences(ts, e) == |TenantIndices(logs, orgId, e)|
  {
    var last := logs[|logs| - 1];
    forall e ensures Occurrences(ts, e) == |TenantIndices(logs, orgId, e)| {
      IndicesStep(logs, orgId, e);
      if last.organizationId == orgId {
        OccurrencesSnoc(prev, last.eventType, e);
      } else {
        assert ts == prev;
      }
    }
  }

  /** Dropping the last log removes its position exactly when it counts. */
  lemma {:induction false} IndicesStep(logs: seq<Log>, orgId: string, e: EventType)
    requires logs != []
    ensures var last := logs[|logs| - 1];
            |TenantIndices(logs, orgId, e)|
            == |TenantIndices(logs[..|logs| - 1], orgId, e)| + (if last.organizationId == orgId && last.eventType == e then 1 else 0)
  {
    IndicesSnoc(logs, orgId, e);
  }

  /** The positions in a store are those in all but its last log, plus the
      last position when that log counts. */
  lemma {:induction false} IndicesSnoc(logs: seq<Log>, orgId: string, e: EventType)
    requires logs != []
    ensures var n := |logs| - 1;
            && n !in TenantIndices(logs[..n], orgId, e)
            && TenantIndices(logs, orgId, e)
               == TenantIndices(logs[..n], orgId, e)
                  + (if logs[n].organizationId == orgId && logs[n].eventType == e then {n} else {})
  {
    var n := |logs| - 1;
    var before := TenantIndices(logs[..n], orgId, e);
    var all := TenantIndices(logs, orgId, e);
    var extra: set<int> := if logs[n].organizationId == orgId && logs[n].eventType == e then {n} else {};
    forall j | j in before ensures j in all {
      assert logs[..n][j] == logs[j];
    }
    forall j | j in all ensures j in before + extra {
      if j < n {
        assert logs[..n][j] == logs[j];
      }
    }
  }

  /** Appending one type adds one occurrence of it and none of the others. */
  lemma {:induction false} OccurrencesSnoc(ts: seq<EventType>, t: EventType, e: EventType)
    ensures Occurrences(ts + [t], e) == Occurrences(ts, e) + (if t == e then 1 else 0)
  {
    assert (ts + [t])[..|ts|] == ts;
  }

  function Occurrences(ts: seq<EventType>, e: EventType): nat {
    if ts == [] then 0
    else Occurrences(ts[..|ts| - 1], e) + (if ts[|ts| - 1] == e then 1 else 0)
  }

  /** The groups of `es` that occur in `ts`, with their counts. */
  function Groups(ts: seq<EventType>, es: seq<EventType>): (gs: seq<Stat>)
    ensures forall i :: 0 <= i < |gs| ==> gs[i].count == Occurrences(ts, gs[i].eventType) > 0
    ensures forall i :: 0 <= i < |gs| ==> gs[i].eventType in es
  {
    if es == [] then []
    else
      var n := Occurrences(ts, es[0]);
      (if n > 0 then [Stat(es[0], n)] else []) + Groups(ts, es[1..])
  }

  /** Every type of `es` that occurs has its group. */
  lemma {:induction false} GroupsComplete(ts: seq<EventType>, es: seq<EventType>, e: EventType)
    requires e in es && Occurrences(ts, e) > 0
    ensures exists i :: 0 <= i < |Groups(ts, es)| && Groups(ts, es)[i].eventType == e
    decreases |es|
  {
    var head := GroupHead(ts, es);
    var rest := Groups(ts, es[1..]);
    assert Groups(ts, es) == head + rest;
    if es[0] == e {
      assert Groups(ts, es)[0] == head[0];
    } else {
      assert e in es[1..] by {
        assert es == [es[0]] + es[1..];
      }
      GroupsComplete(ts, es[1..], e);
      var i :| 0 <= i < |rest| && rest[i].eventType == e;
      assert Groups(ts, es)[|head| + i] == rest[i];
    }
  }

  /** The group of the first type of `es`, if that type occurs. */
  function GroupHead(ts: seq<EventType>, es: seq<EventType>): (head: seq<Stat>)
    requires es != []
    ensures Groups(ts, es) == head + Groups(ts, es[1..])
    ensures Occurrences(ts, es[0]) > 0 ==> head == [Stat(es[0], Occurrences(ts, es[0]))]
    ensures |head| <= 1
  {
    var n := Occurrences(ts, es[0]);
    if n > 0 then [Stat(es[0], n)] else []
  }

  function Count(s: Stat): int {
    s.count
  }

  /** logsStats: the tenant's logs grouped by event type, counted, largest
      count first. */
  function LogsStats(logs: seq<Log>, orgId: string): (r: seq<Stat>)
    ensures Sorting.SortedDesc(r, Count)
    ensures forall i :: 0 <= i < |r| ==> r[i].count == Occurrences(TenantTypes(logs, orgId), r[i].eventType) > 0
  {
    var ts := TenantTypes(logs, orgId);
    var gs := Groups(ts, AllTypes);
    var r := Sorting.SortDesc(gs, Count);
    ExactPermutation(ts, gs, r);
    r
  }

  function Sum(ss: seq<Stat>): nat {
    if ss == [] then 0 else ss[0].count + Sum(ss[1..])
  }

  // Properties of the stats.

  /** A tenant log's event type occurs among the tenant's types. */
  lemma {:induction false} TenantTypeOccurs(logs: seq<Log>, orgId: string, log: Log)
    requires log in logs && log.organizationId == orgId
    ensures Occurrences(TenantTypes(logs, orgId), log.eventType) > 0
  {
    var init, last := logs[..|logs| - 1], logs[|logs| - 1];
    var prev := TenantTypes(init, orgId);
    var ts := TenantTypes(logs, orgId);
    TenantTypesStep(logs, orgId);
    if last == log {
      assert ts[..|ts| - 1] == prev && ts[|ts| - 1] == log.eventType;
    } else {
      assert logs == init + [last];
      assert log in init;
      TenantTypeOccurs(init, orgId, log);
      assert prev == ts[..|prev|];
      OccurrencesPrefix(prev, ts, log.eventType);
    }
  }

  /** The types of a non-empty store: those of all but its last log, then
      the last log's type when it belongs to the organization. */
  lemma {:induction false} TenantTypesStep(logs: seq<Log>, orgId: string)
    requires logs != []
    ensures var last := logs[|logs| - 1];
            TenantTypes(logs, orgId)
            == TenantTypes(logs[..|logs| - 1], orgId) + (if last.organizationId == orgId then [last.eventType] else [])
  {
  }

  /** Extending a sequence never lowers a count. */
  lemma {:induction false} OccurrencesPrefix(ts: seq<EventType>, us: seq<EventType>, e: EventType)
    requires |ts| <= |us| && ts == us[..|ts|]
    ensures Occurrences(ts, e) <= Occurrences(us, e)
    decreases |us|
  {
    if |ts| < |us| {
      assert ts == us[..|us| - 1][..|ts|];
      OccurrencesPrefix(ts, us[..|us| - 1], e);
    } else {
      assert ts == us;
    }
  }

  lemma {:induction false} GroupsDistinct(ts: seq<EventType>, es: seq<EventType>)
    requires forall i, j :: 0 <= i < j < |es| ==> es[i] != es[j]
    ensures forall i, j :: 0 <= i < j < |Groups(ts, es)| ==> Groups(ts, es)[i] != Groups(ts, es)[j]
  {
    if es != [] {
      GroupsDistinct(ts, es[1..]);
    }
  }

  /** A value occurs at most once in a sequence without repeats. */
  lemma {:induction false} NoRepeatsMultiplicity<T>(s: seq<T>, x: T)
    requires forall i, j :: 0 <= i < j < |s| ==> s[i] != s[j]
    ensures multiset(s)[x] <= 1
  {
    if s != [] {
      assert s == [s[0]] + s[1..];
      NoRepeatsMultiplicity(s[1..], x);
      if s[0] == x {
        assert x !in s[1..];
      }
    }
  }

  /** A repeated value occurs at least twice. */
  lemma {:induction false} RepeatMultiplicity<T>(s: seq<T>, i: nat, j: nat)
    requires i < j < |s| && s[i] == s[j]
    ensures multiset(s)[s[i]] >= 2
  {
    assert s == s[..j] + [s[j]] + s[j + 1..];
    assert s[i] in s[..j];
  }

  function SumOcc(ts: seq<EventType>, es: seq<EventType>): nat {
    if es == [] then 0 else Occurrences(ts, es[0]) + SumOcc(ts, es[1..])
  }

  function CountIn(es: seq<EventType>, t: EventType): nat {
    if es == [] then 0 else (if es[0] == t then 1 else 0) + CountIn(es[1..], t)
  }

  lemma {:induction false} GroupsSum(ts: seq<EventType>, es: seq<EventType>)
    ensures Sum(Groups(ts, es)) == SumOcc(ts, es)
  {
    if es != [] {
      GroupsSum(ts, es[1..]);
      var n := Occurrences(ts, es[0]);
      var head := if n > 0 then [Stat(es[0], n)] else [];
      SumAppend(head, Groups(ts, es[1..]));
    }
  }

  lemma {:induction false} SumAppend(a: seq<Stat>, b: seq<Stat>)
    ensures Sum(a + b) == Sum(a) + Sum(b)
  {
    if a != [] {
      assert (a + b)[1..] == a[1..] + b;
      SumAppend(a[1..], b);
    } else {
      assert a + b == b;
    }
  }

  lemma {:induction false} SumOccStep(ts: seq<EventType>, es: seq<EventType>)
    requires ts != []
    ensures SumOcc(ts, es) == SumOcc(ts[..|ts| - 1], es) + CountIn(es, ts[|ts| - 1])
  {
    if es != [] {
      SumOccStep(ts, es[1..]);
    }
  }

  lemma {:induction false} SumOccEmpty(es: seq<EventType>)
    ensures SumOcc([], es) == 0
  {
    if es != [] {
      SumOccEmpty(es[1..]);
    }
  }

  /** Each event type is listed once among all types. */
  lemma {:induction false} ListedOnce(t: EventType)
    ensures CountIn(AllTypes, t) == 1
  {
    AllTypesDistinct();
    assert AllTypes[Rank(t)] == t;
    CountOnce(AllTypes, t);
  }

  /** A type missing from a list is counted zero times in it. */
  lemma {:induction false} CountAbsent(es: seq<EventType>, t: EventType)
    requires t !in es
    ensures CountIn(es, t) == 0
    decreases |es|
  {
    if es != [] {
      CountAbsent(es[1..], t);
    }
  }

  /** A type held once by a list without repeats is counted once in it. */
  lemma {:induction false} CountOnce(es: seq<EventType>, t: EventType)
    requires forall i, j :: 0 <= i < j < |es| ==> es[i] != es[j]
    requires t in es
    ensures CountIn(es, t) == 1
    decreases |es|
  {
    if es[0] == t {
      forall i | 0 <= i < |es[1..]| ensures es[1..][i] != t {
        assert es[1..][i] == es[i + 1];
      }
      CountAbsent(es[1..], t);
    } else {
      assert t in es[1..] by {
        var k :| 0 <= k < |es| && es[k] == t;
        assert es[1..][k - 1] == t;
      }
      CountOnce(es[1..], t);
    }
  }

  /** The position of an event type among all types. */
  function Rank(e: EventType): nat {
    match e
    case CREATE => 0 case READ => 1 case UPDATE => 2 case DELETE => 3
    case LOGIN => 4 case LOGOUT => 5 case OTHER => 6
  }

  /** No event type is listed twice. */
  lemma {:induction false} AllTypesDistinct()
    ensures forall i, j :: 0 <= i < j < |AllTypes| ==> AllTypes[i] != AllTypes[j]
  {
    assert forall i :: 0 <= i < |AllTypes| ==> Rank(AllTypes[i]) == i;
  }

  /** Every log is counted once: the occurrences over all types add up to
      the number of types. */
  lemma {:induction false} SumOccAll(ts: seq<EventType>)
    ensures SumOcc(ts, AllTypes) == |ts|
  {
    if ts == [] {
      SumOccEmpty(AllTypes);
    } else {
      SumOccStep(ts, AllTypes);
      SumOccAll(ts[..|ts| - 1]);
      ListedOnce(ts[|ts| - 1]);
    }
  }

  /** Taking one group out of a list takes its count out of the total. */
  lemma {:induction false} SumRemove(b: seq<Stat>, k: nat)
    requires k < |b|
    ensures Sum(b) == b[k].count + Sum(b[..k] + b[k + 1..])
  {
    assert b == b[..k] + ([b[k]] + b[k + 1..]);
    SumAppend(b[..k], [b[k]] + b[k + 1..]);
    SumAppend(b[..k], b[k + 1..]);
    assert ([b[k]] + b[k + 1..])[1..] == b[k + 1..];
  }

  /** Taking the first element out of one of two sequences with the same
      elements, and one equal element out of the other, leaves the same
      elements. */
  lemma {:induction false} MultisetRemove<T>(a: seq<T>, b: seq<T>, k: nat)
    requires multiset(a) == multiset(b)
    requires a != [] && k < |b| && b[k] == a[0]
    ensures multiset(a[1..]) == multiset(b[..k] + b[k + 1..])
  {
    assert a == [a[0]] + a[1..];
    assert b == b[..k] + [b[k]] + b[k + 1..];
    assert multiset(a[1..]) == multiset(a) - multiset{a[0]};
    assert multiset(b[..k] + b[k + 1..]) == multiset(b) - multiset{b[k]};
  }

  /** Rearranging the groups keeps their total. */
  lemma {:induction false} SumPermutation(a: seq<Stat>, b: seq<Stat>)
    requires multiset(a) == multiset(b)
    ensures Sum(a) == Sum(b)
    decreases |a|
  {
    if a == [] {
      assert |b| == |multiset(b)| == 0;
    } else {
      assert a[0] in multiset(b);
      var k :| 0 <= k < |b| && b[k] == a[0];
      MultisetRemove(a, b, k);
      SumPermutation(a[1..], b[..k] + b[k + 1..]);
      SumRemove(b, k);
    }
  }

  /** A rearrangement of groups with exact, non-zero counts has exact,
      non-zero counts. */
  lemma {:induction false} ExactPermutation(ts: seq<EventType>, gs: seq<Stat>, r: seq<Stat>)
    requires multiset(gs) == multiset(r)
    requires forall i :: 0 <= i < |gs| ==> gs[i].count == Occurrences(ts, gs[i].eventType) > 0
    ensures forall i :: 0 <= i < |r| ==> r[i].count == Occurrences(ts, r[i].eventType) > 0
  {
    forall i | 0 <= i < |r| ensures r[i].count == Occurrences(ts, r[i].eventType) > 0 {
      assert r[i] in multiset(gs);
    }
  }

  /** Every event type among the tenant's logs has its group. */
  lemma {:induction false} StatsComplete(logs: seq<Log>, orgId: string, log: Log)
    requires log in logs && log.organizationId == orgId
    ensures exists i :: 0 <= i < |LogsStats(logs, orgId)| && LogsStats(logs, orgId)[i].eventType == log.eventType
  {
    var ts := TenantTypes(logs, orgId);
    var gs := Groups(ts, AllTypes);
    var r := LogsStats(logs, orgId);
    TenantTypeOccurs(logs, orgId, log);
    assert log.eventType in AllTypes by {
      ListedOnce(log.eventType);
    }
    GroupsComplete(ts, AllTypes, log.eventType);
    var j :| 0 <= j < |gs| && gs[j].eventType == log.eventType;
    assert gs[j] in multiset(r);
  }

  /** A rearrangement of a sequence without repeats has none either. */
  lemma {:induction false} NoRepeatsPermutation<T>(a: seq<T>, b: seq<T>)
    requires multiset(a) == multiset(b)
    requires forall i, j :: 0 <= i < j < |a| ==> a[i] != a[j]
    ensures forall i, j :: 0 <= i < j < |b| ==> b[i] != b[j]
  {
    forall i, j | 0 <= i < j < |b| ensures b[i] != b[j] {
      if b[i] == b[j] {
        RepeatMultiplicity(b, i, j);
        NoRepeatsMultiplicity(a, b[i]);
      }
    }
  }

  /** No event type has two groups. */
  lemma {:induction false} StatsDistinct(logs: seq<Log>, orgId: string)
    ensures var r := LogsStats(logs, orgId);
            forall i, j :: 0 <= i < j < |r| ==> r[i].eventType != r[j].eventType
  {
    var ts := TenantTypes(logs, orgId);
    var gs := Groups(ts, AllTypes);
    var r := LogsStats(logs, orgId);
    AllTypesDistinct();
    GroupsDistinct(ts, AllTypes);
    NoRepeatsPermutation(gs, r);
    ExactPermutation(ts, gs, r);
    DistinctTypes(ts, r);
  }

  /** Groups whose counts are determined by their type differ in type when
      they differ at all. */
  lemma {:induction false} DistinctTypes(ts: seq<EventType>, r: seq<Stat>)
    requires forall i, j :: 0 <= i < j < |r| ==> r[i] != r[j]
    requires forall i :: 0 <= i < |r| ==> r[i].count == Occurrences(ts, r[i].eventType)
    ensures forall i, j :: 0 <= i < j < |r| ==> r[i].eventType != r[j].eventType
  {
  }

  /** The counts add up to the number of the tenant's logs, and the largest
      count comes first. */
  lemma {:induction false} StatsSumAndOrder(logs: seq<Log>, orgId: string)
    ensures Sum(LogsStats(logs, orgId)) == |TenantTypes(logs, orgId)|
    ensures Sorting.SortedDesc(LogsStats(logs, orgId), Count)
  {
    var ts := TenantTypes(logs, orgId);
    SumPermutation(LogsStats(logs, orgId), Groups(ts, AllTypes));
    GroupsSum(ts, AllTypes);
    SumOccAll(ts);
  }
}
