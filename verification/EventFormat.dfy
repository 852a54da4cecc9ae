/**
  The three shapes of a user event: the body stored in the outbox table, the Kafka record the
  publisher builds from it, and the event the consumer reads back before it writes an audit row.
  Protobuf and JSON bytes are not modelled: a payload is the value its bytes stand for.
 */
module EventFormat {
  import opened Wrappers
  import Decimal

  const USER_REGISTERED := "user.registered"
  const AGGREGATE_USER := "user"
  const PROTOBUF := "application/x-protobuf"
  const PROTO_USER_REGISTERED := "events.user.v1.UserRegistered"
  const V1 := "v1"

  /** The bytes of a message: a UserRegistered message, or bytes that do not decode as one. */
  datatype Payload =
    | UserRegistered(userId: int, email: string, role: string)
    | Undecodable(raw: string)

  /** The columns of an outbox row that are written once, at insertion. */
  datatype Body = Body(
    eventType: string, aggregateType: string, aggregateId: string,
    payload: Payload, contentType: string, protoMessage: string, eventVersion: string)

  datatype Header = Header(key: string, value: string)

  datatype Record = Record(key: string, value: Payload, headers: seq<Header>, timestamp: int)

  /** An event as the consumer sees it, without its position in the topic. */
  datatype ConsumedEvent = ConsumedEvent(
    eventId: string, eventType: string, aggregateType: string, aggregateId: string,
    contentType: string, protoMessage: string, eventVersion: string, payload: Payload)

  datatype AuditRow = AuditRow(
    sourceEventId: string, userId: int, eventType: string, email: string, role: string)

  datatype ParseError = MissingHeader(name: string)

  datatype HandleError =
    | NoHandler(eventType: string)
    | UnsupportedContentType(contentType: string)
    | UnsupportedProtoMessage(protoMessage: string)
    | UnsupportedVersion(version: string)
    | BadPayload

  /** The body all three create paths store for a new user. */
  function UserRegisteredBody(userId: int, email: string, role: string): Body {
    Body(USER_REGISTERED, AGGREGATE_USER, Decimal.FormatInt(userId),
         UserRegistered(userId, email, role), PROTOBUF, PROTO_USER_REGISTERED, V1)
  }

  /** The record published for the outbox row with this id, body and creation time. */
  function RecordOf(id: int, body: Body, createdAt: int): Record {
    Record(
      body.aggregateType + ":" + body.aggregateId,
      body.payload,
      [ Header("event_id", Decimal.FormatInt(id)),
        Header("event_type", body.eventType),
        Header("aggregate_type", body.aggregateType),
        Header("aggregate_id", body.aggregateId),
        Header("content_type", body.contentType),
        Header("proto_message", body.protoMessage),
        Header("event_version", body.eventVersion) ],
      createdAt)
  }

  /** The headers folded into a map: the last header with a key wins. */
  function HeaderMap(headers: seq<Header>): map<string, string> {
    if headers == [] then map[]
    else
      var last := headers[|headers| - 1];
      HeaderMap(headers[..|headers| - 1])[last.key := last.value]
  }

  /** Go reads a missing key of a map as the empty string. */
  function Get(m: map<string, string>, key: string): string {
    if key in m then m[key] else ""
  }

  function ParseHeaders(h: map<string, string>, payload: Payload): Result<ConsumedEvent, ParseError> {
    if Get(h, "event_id") == "" then Err(MissingHeader("event_id"))
    else if Get(h, "event_type") == "" then Err(MissingHeader("event_type"))
    else if Get(h, "aggregate_type") == "" then Err(MissingHeader("aggregate_type"))
    else if Get(h, "aggregate_id") == "" then Err(MissingHeader("aggregate_id"))
    else if Get(h, "content_type") == "" then Err(MissingHeader("content_type"))
    else if Get(h, "content_type") == PROTOBUF && Get(h, "proto_message") == "" then Err(MissingHeader("proto_message"))
    else if Get(h, "event_version") == "" then Err(MissingHeader("event_version"))
    else Ok(ConsumedEvent(Get(h, "event_id"), Get(h, "event_type"), Get(h, "aggregate_type"), Get(h, "aggregate_id"),
                          Get(h, "content_type"), Get(h, "proto_message"), Get(h, "event_version"), payload))
  }

  function ParseRecord(record: Record): Result<ConsumedEvent, ParseError> {
    ParseHeaders(HeaderMap(record.headers), record.value)
  }

  method EventFromRecord(record: Record) returns (r: Result<ConsumedEvent, ParseError>)
    ensures r == ParseRecord(record)
  {
    var headers: map<string, string> := map[];
    for i := 0 to |record.headers|
      invariant headers == HeaderMap(record.headers[..i])
    {
      assert record.headers[..i + 1][..i] == record.headers[..i];
      headers := headers[record.headers[i].key := record.headers[i].value];
    }
    assert record.headers[..|record.headers|] == record.headers;
    var eventId := Get(headers, "event_id");
    if eventId == "" { return Err(MissingHeader("event_id")); }
    var eventType := Get(headers, "event_type");
    if eventType == "" { return Err(MissingHeader("event_type")); }
    var aggregateType := Get(headers, "aggregate_type");
    if aggregateType == "" { return Err(MissingHeader("aggregate_type")); }
    var aggregateId := Get(headers, "aggregate_id");
    if aggregateId == "" { return Err(MissingHeader("aggregate_id")); }
    var contentType := Get(headers, "content_type");
    if contentType == "" { return Err(MissingHeader("content_type")); }
    var protoMessage := Get(headers, "proto_message");
    if contentType == PROTOBUF && protoMessage == "" { return Err(MissingHeader("proto_message")); }
    var eventVersion := Get(headers, "event_version");
    if eventVersion == "" { return Err(MissingHeader("event_version")); }
    return Ok(ConsumedEvent(eventId, eventType, aggregateType, aggregateId,
                            contentType, protoMessage, eventVersion, record.value));
  }

  /** The router knows one event type; its handler checks the format and builds the audit row. */
  function AuditFor(event: ConsumedEvent): Result<AuditRow, HandleError> {
    if event.eventType != USER_REGISTERED then Err(NoHandler(event.eventType))
    else if event.contentType != PROTOBUF then Err(UnsupportedContentType(event.contentType))
    else if event.protoMessage != PROTO_USER_REGISTERED then Err(UnsupportedProtoMessage(event.protoMessage))
    else if event.eventVersion != V1 then Err(UnsupportedVersion(event.eventVersion))
    else match event.payload
      case Undecodable(_) => Err(BadPayload)
      case UserRegistered(userId, email, role) =>
        Ok(AuditRow(event.eventId, userId, event.eventType, email, role))
  }

  /** What the consumer will make of a record: the parse, then the handler. */
  function AuditOf(record: Record): Option<AuditRow> {
    match ParseRecord(record)
    case Err(_) => None
    case Ok(event) =>
      match AuditFor(event)
      case Err(_) => None
      case Ok(row) => Some(row)
  }

  // ----- what the headers say -----

  /** The last header with this key has this value; a header that is not there counts as empty. */
  ghost predicate Says(headers: seq<Header>, key: string, value: string) {
    if exists i :: 0 <= i < |headers| && headers[i].key == key
    then exists i :: 0 <= i < |headers| && headers[i] == Header(key, value) &&
                     forall j | i < j < |headers| :: headers[j].key != key
    else value == ""
  }

  lemma SaysLast(headers: seq<Header>, key: string, value: string)
    requires headers != []
    ensures var n := |headers| - 1;
            Says(headers, key, value) <==>
            if headers[n].key == key then headers[n].value == value else Says(headers[..n], key, value)
  {
    var n := |headers| - 1;
    var init := headers[..n];
    assert forall i | 0 <= i < n :: init[i] == headers[i];
    if headers[n].key == key {
      assert headers[n] == Header(key, headers[n].value);
    } else if exists i :: 0 <= i < |headers| && headers[i].key == key {
      var i :| 0 <= i < |headers| && headers[i].key == key;
      assert init[i].key == key;
    }
  }

  lemma {:induction false} SaysIff(headers: seq<Header>, key: string, value: string)
    ensures Get(HeaderMap(headers), key) == value <==> Says(headers, key, value)
  {
    if headers != [] {
      SaysLast(headers, key, value);
      SaysIff(headers[..|headers| - 1], key, value);
    }
  }

  /** A record parses to an event exactly if its headers give the event's fields and none that is required is empty. */
  lemma ParseIff(r: Record, event: ConsumedEvent)
    ensures ParseRecord(r) == Ok(event) <==>
      && event.payload == r.value
      && Says(r.headers, "event_id", event.eventId) && event.eventId != ""
      && Says(r.headers, "event_type", event.eventType) && event.eventType != ""
      && Says(r.headers, "aggregate_type", event.aggregateType) && event.aggregateType != ""
      && Says(r.headers, "aggregate_id", event.aggregateId) && event.aggregateId != ""
      && Says(r.headers, "content_type", event.contentType) && event.contentType != ""
      && Says(r.headers, "proto_message", event.protoMessage)
      && (event.contentType == "application/x-protobuf" ==> event.protoMessage != "")
      && Says(r.headers, "event_version", event.eventVersion) && event.eventVersion != ""
  {
    SaysIff(r.headers, "event_id", event.eventId);
    SaysIff(r.headers, "event_type", event.eventType);
    SaysIff(r.headers, "aggregate_type", event.aggregateType);
    SaysIff(r.headers, "aggregate_id", event.aggregateId);
    SaysIff(r.headers, "content_type", event.contentType);
    SaysIff(r.headers, "proto_message", event.protoMessage);
    SaysIff(r.headers, "event_version", event.eventVersion);
  }

  /** A parse that fails names the first required header that is empty; the message name is required of protobuf
      content only. */
  lemma FirstMissing(r: Record)
    requires ParseRecord(r).Err?
    ensures ParseRecord(r).error.name ==
      if Says(r.headers, "event_id", "") then "event_id"
      else if Says(r.headers, "event_type", "") then "event_type"
      else if Says(r.headers, "aggregate_type", "") then "aggregate_type"
      else if Says(r.headers, "aggregate_id", "") then "aggregate_id"
      else if Says(r.headers, "content_type", "") then "content_type"
      else if Says(r.headers, "content_type", "application/x-protobuf") && Says(r.headers, "proto_message", "")
      then "proto_message"
      else "event_version"
  {
    SaysIff(r.headers, "event_id", "");
    SaysIff(r.headers, "event_type", "");
    SaysIff(r.headers, "aggregate_type", "");
    SaysIff(r.headers, "aggregate_id", "");
    SaysIff(r.headers, "content_type", "");
    SaysIff(r.headers, "content_type", "application/x-protobuf");
    SaysIff(r.headers, "proto_message", "");
  }

  /** A record yields an audit row exactly if it is a well-formed registration in the one format the handler takes,
      and the row then repeats its id and its payload. */
  lemma AuditIff(r: Record, row: AuditRow)
    ensures AuditOf(r) == Some(row) <==>
      && Says(r.headers, "event_id", row.sourceEventId) && row.sourceEventId != ""
      && Says(r.headers, "event_type", "user.registered") && row.eventType == "user.registered"
      && !Says(r.headers, "aggregate_type", "") && !Says(r.headers, "aggregate_id", "")
      && Says(r.headers, "content_type", "application/x-protobuf")
      && Says(r.headers, "proto_message", "events.user.v1.UserRegistered")
      && Says(r.headers, "event_version", "v1")
      && r.value == UserRegistered(row.userId, row.email, row.role)
  {
    SaysIff(r.headers, "event_id", row.sourceEventId);
    SaysIff(r.headers, "event_type", "user.registered");
    SaysIff(r.headers, "aggregate_type", "");
    SaysIff(r.headers, "aggregate_id", "");
    SaysIff(r.headers, "content_type", "application/x-protobuf");
    SaysIff(r.headers, "proto_message", "events.user.v1.UserRegistered");
    SaysIff(r.headers, "event_version", "v1");
  }

  lemma {:induction false} LastHeaderWins(headers: seq<Header>, i: nat)
    requires i < |headers|
    requires forall j | i < j < |headers| :: headers[j].key != headers[i].key
    ensures Get(HeaderMap(headers), headers[i].key) == headers[i].value
  {
    if i < |headers| - 1 {
      LastHeaderWins(headers[..|headers| - 1], i);
    }
  }

  lemma RecordHeaders(id: int, body: Body, createdAt: int)
    ensures
      var h := HeaderMap(RecordOf(id, body, createdAt).headers);
      && Get(h, "event_id") == Decimal.FormatInt(id)
      && Get(h, "event_type") == body.eventType
      && Get(h, "aggregate_type") == body.aggregateType
      && Get(h, "aggregate_id") == body.aggregateId
      && Get(h, "content_type") == body.contentType
      && Get(h, "proto_message") == body.protoMessage
      && Get(h, "event_version") == body.eventVersion
  {
    var hs := RecordOf(id, body, createdAt).headers;
    forall i | 0 <= i < |hs|
      ensures Get(HeaderMap(hs), hs[i].key) == hs[i].value
    {
      LastHeaderWins(hs, i);
    }
    assert hs[0].key == "event_id" && hs[1].key == "event_type" && hs[2].key == "aggregate_type";
    assert hs[3].key == "aggregate_id" && hs[4].key == "content_type";
    assert hs[5].key == "proto_message" && hs[6].key == "event_version";
  }

  /** A published record reads back to the row's own fields, and fails to parse exactly when a
      required column of the row is empty. */
  lemma PublishParseRoundTrip(id: int, body: Body, createdAt: int)
    ensures
      var parsed := ParseRecord(RecordOf(id, body, createdAt));
      && (parsed.Ok? <==>
            body.eventType != "" && body.aggregateType != "" && body.aggregateId != "" &&
            body.contentType != "" && body.eventVersion != "" &&
            (body.contentType == PROTOBUF ==> body.protoMessage != ""))
      && (parsed.Ok? ==>
            parsed.value == ConsumedEvent(
              Decimal.FormatInt(id), body.eventType, body.aggregateType, body.aggregateId,
              body.contentType, body.protoMessage, body.eventVersion, body.payload))
  {
    RecordHeaders(id, body, createdAt);
  }

  /** The record of a user's registration, field by field as the topic's readers know it. */
  ghost predicate IsRegistration(r: Record, id: int, userId: int, email: string, role: string, createdAt: int) {
    exists i: string, u: string ::
      && Decimal.IsNumeral(i) && Decimal.ParseInt(i) == id
      && Decimal.IsNumeral(u) && Decimal.ParseInt(u) == userId
      && r.key == "user:" + u && r.value == UserRegistered(userId, email, role) && r.timestamp == createdAt
      && r.headers == [
           Header("event_id", i), Header("event_type", "user.registered"), Header("aggregate_type", "user"),
           Header("aggregate_id", u), Header("content_type", "application/x-protobuf"),
           Header("proto_message", "events.user.v1.UserRegistered"), Header("event_version", "v1")]
  }

  /** The service publishes exactly this record for a user it created. */
  lemma RegistrationIff(r: Record, id: int, userId: int, email: string, role: string, createdAt: int)
    ensures r == RecordOf(id, UserRegisteredBody(userId, email, role), createdAt) <==>
            IsRegistration(r, id, userId, email, role, createdAt)
  {
    Decimal.FormatParse(id);
    Decimal.FormatParse(userId);
    assert "user" + ":" == "user:";
    if IsRegistration(r, id, userId, email, role, createdAt) {
      var i: string, u: string :|
        && Decimal.IsNumeral(i) && Decimal.ParseInt(i) == id
        && Decimal.IsNumeral(u) && Decimal.ParseInt(u) == userId
        && r.key == "user:" + u && r.headers[0] == Header("event_id", i) && r.headers[3] == Header("aggregate_id", u);
      Decimal.NumeralRendered(i);
      Decimal.NumeralRendered(u);
    }
  }

  /** Rows with different ids never publish equal records. */
  lemma RecordInjective(id1: int, body1: Body, at1: int, id2: int, body2: Body, at2: int)
    requires RecordOf(id1, body1, at1) == RecordOf(id2, body2, at2)
    ensures id1 == id2 && body1 == body2 && at1 == at2
  {
    RecordHeaders(id1, body1, at1);
    RecordHeaders(id2, body2, at2);
    Decimal.FormatInjective(id1, id2);
  }

  /** Every record published for a user this service created passes all the consumer's checks and
      yields the audit row of exactly that user. */
  lemma OwnRecordsAudited(id: int, userId: int, email: string, role: string, createdAt: int)
    ensures AuditOf(RecordOf(id, UserRegisteredBody(userId, email, role), createdAt)) ==
            Some(AuditRow(Decimal.FormatInt(id), userId, USER_REGISTERED, email, role))
  {
    PublishParseRoundTrip(id, UserRegisteredBody(userId, email, role), createdAt);
  }
}
