/** The audit log document: its event types, its required fields, and the
    search text the pre-save hook derives from its metadata. */
module LogModel {
  import opened Wrappers
  import opened Js
  import Json
  import JsonRoundTrip

  datatype EventType = CREATE | READ | UPDATE | DELETE | LOGIN | LOGOUT | OTHER

  /** The event type a log gets when none is given. */
  const DefaultEventType: EventType := OTHER

  function Name(e: EventType): string {
    match e
    case CREATE => "CREATE"
    case READ => "READ"
    case UPDATE => "UPDATE"
    case DELETE => "DELETE"
    case LOGIN => "LOGIN"
    case LOGOUT => "LOGOUT"
    case OTHER => "OTHER"
  }

  /** The enum validator: the event type a string names, if any. */
  function ParseEventType(s: string): (r: Option<EventType>)
    ensures r.Some? ==> Name(r.value) == s
    ensures r.None? ==> forall e: EventType :: Name(e) != s
  {
    if s == "CREATE" then Some(CREATE)
    else if s == "READ" then Some(READ)
    else if s == "UPDATE" then Some(UPDATE)
    else if s == "DELETE" then Some(DELETE)
    else if s == "LOGIN" then Some(LOGIN)
    else if s == "LOGOUT" then Some(LOGOUT)
    else if s == "OTHER" then Some(OTHER)
    else None
  }

  /** Every event type is accepted under its own name. */
  lemma {:induction false} ParseName(e: EventType)
    ensures ParseEventType(Name(e)) == Some(e)
  {
  }

  /** The metadata field as the hook finds it: absent or null, a JSON value,
      or a value JSON.stringify throws on (a cycle, a BigInt). */
  datatype Metadata = Missing | Data(value: Json.Json) | Unserialisable

  /** The user a log is about. */
  datatype User = User(id: string, name: Prop, email: Prop)

  /** A stored log. `createdAt` is the save time the schema's timestamps
      option records. */
  datatype Log = Log(
    organizationId: string,
    user: User,
    action: string,
    eventType: EventType,
    description: string,
    metadata: Metadata,
    metadataText: string,
    timestamp: int,
    createdAt: int)

  /** The fields a log is created from, before the schema validates them. */
  datatype Draft = Draft(
    organizationId: string,
    userId: Prop,
    userName: Prop,
    userEmail: Prop,
    action: Prop,
    eventType: string,
    description: string,
    metadata: Json.Json,
    timestamp: int)

  /** The schema's checks: organizationId, user.id and action are required
      (a missing or empty string fails), and eventType must be one of the
      enum values. The result names every failing path, in schema order. */
  function FailingPaths(d: Draft): (paths: seq<string>)
    ensures paths == [] <==>
      d.organizationId != "" && Truthy(d.userId) && Truthy(d.action) && ParseEventType(d.eventType).Some?
    ensures "organizationId" in paths <==> d.organizationId == ""
    ensures "user.id" in paths <==> !Truthy(d.userId)
    ensures "action" in paths <==> !Truthy(d.action)
    ensures "eventType" in paths <==> ParseEventType(d.eventType).None?
    ensures forall p :: p in paths ==> p in ["organizationId", "user.id", "action", "eventType"]
  {
    var o := if d.organizationId == "" then ["organizationId"] else [];
    var u := if !Truthy(d.userId) then ["user.id"] else [];
    var a := if !Truthy(d.action) then ["action"] else [];
    var e := if ParseEventType(d.eventType).None? then ["eventType"] else [];
    InAnyOf(o, u, a, e);
    o + u + a + e
  }

  /** An element of four joined lists is an element of one of them. */
  lemma {:induction false} InAnyOf(o: seq<string>, u: seq<string>, a: seq<string>, e: seq<string>)
    ensures forall p :: p in o + u + a + e <==> p in o || p in u || p in a || p in e
  {
    assert o + u + a + e == o + (u + (a + e));
  }

  /** The document a valid draft becomes when saved at `now`, before the
      pre-save hook has run; the failing paths otherwise. */
  function Validate(d: Draft, now: int): (r: Result<Log, seq<string>>)
    ensures r.Success? <==> FailingPaths(d) == []
    ensures r.Failure? ==> r.error == FailingPaths(d) && r.error != []
    ensures r.Success? ==>
      r.value.organizationId == d.organizationId && r.value.user.id == d.userId.value
      && r.value.action == d.action.value && Name(r.value.eventType) == d.eventType
      && r.value.user == User(d.userId.value, d.userName, d.userEmail)
      && r.value.description == d.description && r.value.timestamp == d.timestamp
      && r.value.metadata == Data(d.metadata) && r.value.metadataText == "" && r.value.createdAt == now
  {
    if FailingPaths(d) != [] then Failure(FailingPaths(d))
    else
      Success(Log(d.organizationId, User(d.userId.value, d.userName, d.userEmail), d.action.value,
                  ParseEventType(d.eventType).value, d.description, Data(d.metadata), "",
                  d.timestamp, now))
  }

  /** The search text of the pre-save hook: a string is kept as it is,
      null and undefined count as {}, anything else is its JSON text, and
      a value JSON.stringify throws on gives "". */
  function MetadataText(m: Metadata): (t: string)
    ensures m == Missing || m == Data(Json.Null) ==> t == "{}"
    ensures m.Data? && m.value.Str? ==> t == m.value.s
    ensures m == Unserialisable ==> t == ""
  {
    match m
    case Missing => "{}"
    case Data(Str(s)) => s
    case Data(Null) => "{}"
    case Data(v) => Json.Stringify(v)
    case Unserialisable => ""
  }

  /** The search text of any JSON metadata other than a string reads back
      as that value, with null and undefined read back as {}; a string is
      the text itself. */
  lemma {:induction false} MetadataTextReadsBack(m: Metadata)
    requires m.Data? ==> Json.WellFormed(m.value)
    ensures m == Missing || m == Data(Json.Null) ==> Json.Parse(MetadataText(m)) == Some(Json.EmptyObject)
    ensures m.Data? && m.value.Str? ==> MetadataText(m) == m.value.s
    ensures m.Data? && !m.value.Str? && !m.value.Null? ==> Json.Parse(MetadataText(m)) == Some(m.value)
    ensures m == Unserialisable ==> MetadataText(m) == ""
  {
    if m == Missing || m == Data(Json.Null) {
      JsonRoundTrip.RoundTrip(Json.EmptyObject);
      assert Json.Stringify(Json.EmptyObject) == "{}";
    } else if m.Data? && !m.value.Str? {
      JsonRoundTrip.RoundTrip(m.value);
    }
  }

  /** A log with its search text derived from its metadata. */
  function WithText(log: Log): (r: Log)
    ensures r.metadataText == MetadataText(log.metadata)
    ensures r.(metadataText := log.metadataText) == log
  {
    log.(metadataText := MetadataText(log.metadata))
  }

  /** Deriving the search text twice gives what deriving it once gives: the
      text depends on the metadata alone. */
  lemma {:induction false} WithTextIdempotent(log: Log)
    ensures WithText(WithText(log)) == WithText(log)
  {
  }

  /** A log document being saved. The pre-save hook rewrites its
      metadataText field in place. */
  class LogDocument {
    var organizationId: string
    var user: User
    var action: string
    var eventType: EventType
    var description: string
    var metadata: Metadata
    var metadataText: string
    var timestamp: int
    var createdAt: int

    constructor(log: Log)
      ensures Snapshot() == log
    {
      organizationId := log.organizationId;
      user := log.user;
      action := log.action;
      eventType := log.eventType;
      description := log.description;
      metadata := log.metadata;
      metadataText := log.metadataText;
      timestamp := log.timestamp;
      createdAt := log.createdAt;
    }

    /** The document's fields as a value. */
    function Snapshot(): Log
      reads this
    {
      Log(organizationId, user, action, eventType, description, metadata, metadataText,
          timestamp, createdAt)
    }

    /** The pre-save hook: sets metadataText from metadata, catching a
        serialisation failure as "", and changes nothing else; the save
        goes on either way. */
    method PreSave()
      modifies this
      ensures Snapshot() == WithText(old(Snapshot()))
    {
      match metadata
      case Missing =>
        metadataText := "{}";
      case Data(v) =>
        if v.Str? {
          metadataText := v.s;
        } else {
          metadataText := Json.Stringify(if v.Null? then Json.EmptyObject else v);
        }
      case Unserialisable =>
        metadataText := "";
    }
  }
}
