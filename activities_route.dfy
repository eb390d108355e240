/** The two activity routes behind the tenant-isolation middleware: POST
    validates the body, builds a record for the request's tenant and saves it;
    GET clamps the page size, checks the cursor, and answers with one page of
    the tenant's records. The store is an object whose record sequence POST
    appends to. */
module ActivitiesRoute {
  import opened Wrappers
  import opened JsText
  import opened ActivityModel
  import opened FeedQuery
  import opened TenantIsolation

  /** What a handler sends back: status 201, 200, 400 or 500 with its body. */
  datatype Response =
    | Created(activity: Activity)
    | PageOk(page: Page)
    | BadRequest(error: string)
    | ServerError(error: string)

  function Status(r: Response): int {
    match r
    case Created(_) => 201
    case PageOk(_) => 200
    case BadRequest(_) => 400
    case ServerError(_) => 500
  }

  const MissingFieldsMessage: string := "actorId, actorName, and type are required fields."
  const CreateFailedMessage: string := "Internal server error while creating activity."
  const InvalidCursorMessage: string := "Invalid cursor format. Must be a valid ISO 8601 date string."
  const FetchFailedMessage: string := "Internal server error while fetching activities."

  // ---------------------------------------------------------------------
  // GET /activities

  /** `Math.min(Math.max(n || 20, 1), 100)` where `n` is parseInt's result
      (`None` for NaN): NaN and 0 are falsy and give the default 20. */
  function ClampLimit(parsed: Option<int>): (limit: nat)
    ensures 1 <= limit <= 100
    ensures parsed.None? || parsed == Some(0) ==> limit == 20
    ensures parsed.Some? && parsed.value < 0 ==> limit == 1
    ensures parsed.Some? && 1 <= parsed.value <= 100 ==> limit == parsed.value
    ensures parsed.Some? && parsed.value > 100 ==> limit == 100
  {
    var n := if parsed.None? || parsed.value == 0 then 20 else parsed.value;
    var atLeastOne := if n < 1 then 1 else n;
    if atLeastOne > 100 then 100 else atLeastOne
  }

  /** The page size for the raw `limit` query parameter. */
  function RequestLimit(raw: Option<string>): nat {
    ClampLimit(if raw.None? then None else ParseInt(raw.value))
  }

  /** A page size written in decimal within [1, 100] is taken as is (the
      feed client always asks for 20). */
  lemma RequestLimitDecimal(n: nat)
    requires 1 <= n <= 100
    ensures RequestLimit(Some(NatToDecimal(n))) == n
  {
    DecimalRoundTrip(n);
  }

  /** The query GET builds: the request's tenant, the type when one is given,
      and the parsed cursor as an exclusive upper bound. */
  function GetQuery(tenantId: string, cursor: Option<int>, rawType: Option<string>): Query {
    Query(tenantId, if Truthy(rawType) then rawType else None, cursor)
  }

  /** The GET handler for a resolved tenant. `parseDate` stands for
      `new Date(cursor)` (`None` for an invalid date); `fault` for a store
      that fails the query. */
  function GetOutcome(records: seq<Activity>, tenantId: string, rawCursor: Option<string>,
                      rawLimit: Option<string>, rawType: Option<string>,
                      parseDate: string -> Option<int>, fault: bool): Response
  {
    var limit := RequestLimit(rawLimit);
    var cursor := if Truthy(rawCursor) then parseDate(rawCursor.value) else None;
    if Truthy(rawCursor) && cursor.None? then BadRequest(InvalidCursorMessage)
    else if fault then ServerError(FetchFailedMessage)
    else PageOk(FetchPage(records, GetQuery(tenantId, cursor, rawType), limit))
  }

  /** The GET route: the middleware, then the handler. */
  function GetRoute(records: seq<Activity>, header: HeaderValue, rawCursor: Option<string>,
                    rawLimit: Option<string>, rawType: Option<string>,
                    parseDate: string -> Option<int>, fault: bool): Response
  {
    match Resolve(header)
    case Err(rejection) => BadRequest(rejection.message)
    case Ok(tenantId) => GetOutcome(records, tenantId, rawCursor, rawLimit, rawType, parseDate, fault)
  }

  /** An unparsable cursor is answered with 400 before the store is asked:
      the answer is the same whatever the store holds or does. */
  lemma InvalidCursorRejected(records: seq<Activity>, other: seq<Activity>, tenantId: string,
                              rawCursor: Option<string>, rawLimit: Option<string>,
                              rawType: Option<string>, parseDate: string -> Option<int>,
                              fault: bool, otherFault: bool)
    requires Truthy(rawCursor) && parseDate(rawCursor.value).None?
    ensures GetOutcome(records, tenantId, rawCursor, rawLimit, rawType, parseDate, fault)
         == GetOutcome(other, tenantId, rawCursor, rawLimit, rawType, parseDate, otherFault)
         == BadRequest(InvalidCursorMessage)
  {
  }

  /** What a successful GET returns: at most 100 records, each of the
      request's tenant, of the requested type when one was given and older
      than the cursor when one was given, newest first; `hasMore` exactly when
      more records match than the page holds. */
  lemma GetPageContents(records: seq<Activity>, tenantId: string, rawCursor: Option<string>,
                        rawLimit: Option<string>, rawType: Option<string>,
                        parseDate: string -> Option<int>, fault: bool)
    requires GetOutcome(records, tenantId, rawCursor, rawLimit, rawType, parseDate, fault).PageOk?
    ensures var p := GetOutcome(records, tenantId, rawCursor, rawLimit, rawType, parseDate, fault).page;
      && |p.data| <= 100
      && NewestFirst(p.data)
      && (forall a :: a in p.data ==> a in records && a.tenantId == tenantId)
      && (Truthy(rawType) ==> forall a :: a in p.data ==> a.kind == rawType.value)
      && (Truthy(rawCursor) ==> forall a :: a in p.data ==> a.createdAt < parseDate(rawCursor.value).value)
      && (p.hasMore <==> |Matching(records, GetQuery(tenantId,
                             if Truthy(rawCursor) then parseDate(rawCursor.value) else None,
                             rawType))| > RequestLimit(rawLimit))
  {
    var cursor := if Truthy(rawCursor) then parseDate(rawCursor.value) else None;
    PageRecordsMatch(records, GetQuery(tenantId, cursor, rawType), RequestLimit(rawLimit));
  }

  /** Tenant isolation at the route: a record written under one tenant is
      never returned to a request whose header resolves to another. */
  lemma GetIsolatesTenants(records: seq<Activity>, a: Activity, header: HeaderValue,
                           rawCursor: Option<string>, rawLimit: Option<string>,
                           rawType: Option<string>, parseDate: string -> Option<int>, fault: bool)
    requires Resolve(header).Ok? && Resolve(header).value != a.tenantId
    ensures var r := GetRoute(records, header, rawCursor, rawLimit, rawType, parseDate, fault);
      r.PageOk? ==> a !in r.page.data
  {
    var r := GetRoute(records, header, rawCursor, rawLimit, rawType, parseDate, fault);
    if r.PageOk? {
      GetPageContents(records, Resolve(header).value, rawCursor, rawLimit, rawType, parseDate, fault);
    }
  }

  // ---------------------------------------------------------------------
  // POST /activities

  /** The request body. `tenantId` is whatever the client put there; the
      handler never reads it. */
  datatype PostBody = PostBody(
    actorId: Option<string>,
    actorName: Option<string>,
    kind: Option<string>,
    entityId: Option<string>,
    metadata: Option<Metadata>,
    tenantId: Option<string>)

  function FieldOf(o: Option<string>): Field<string> {
    match o
    case Some(s) => Given(s)
    case None => Unset
  }

  /** The object handed to the model: the tenant from the request context,
      the three required fields, `entityId || null`, `metadata || {}` and
      the current time. */
  function PostDraft(tenantId: string, body: PostBody, now: int): Draft {
    Draft(
      Given(tenantId),
      FieldOf(body.actorId),
      FieldOf(body.actorName),
      FieldOf(body.kind),
      Given(if Truthy(body.entityId) then body.entityId else None),
      Given(body.metadata.GetOr(map[])),
      Given(now))
  }

  /** The POST handler for a resolved tenant. `id` is the generated `_id`;
      `fault` stands for a store that fails the write. A duplicate `_id`
      fails the write too. */
  function PostOutcome(records: seq<Activity>, tenantId: string, body: PostBody, id: string,
                       now: int, fault: bool): Response
  {
    if !Truthy(body.actorId) || !Truthy(body.actorName) || !Truthy(body.kind) then
      BadRequest(MissingFieldsMessage)
    else
      match Validate(Construct(PostDraft(tenantId, body, now), id, now))
      case Err(errs) => BadRequest(ValidationMessage(errs))
      case Ok(a) => if fault || HasId(records, id) then ServerError(CreateFailedMessage) else Created(a)
  }

  /** The POST route: the middleware, then the handler. */
  function PostRoute(records: seq<Activity>, header: HeaderValue, body: PostBody, id: string,
                     now: int, fault: bool): Response
  {
    match Resolve(header)
    case Err(rejection) => BadRequest(rejection.message)
    case Ok(tenantId) => PostOutcome(records, tenantId, body, id, now, fault)
  }

  /** The record POST creates: the context tenant (whatever the body says),
      the body's actor and type, a falsy `entityId` as null, a missing
      `metadata` as `{}`, the current time, the generated id; and it passes
      the schema. */
  lemma PostRecord(records: seq<Activity>, tenantId: string, body: PostBody, id: string,
                   now: int, fault: bool, forged: Option<string>)
    requires PostOutcome(records, tenantId, body, id, now, fault).Created?
    ensures var a := PostOutcome(records, tenantId, body, id, now, fault).activity;
      && a == Activity(id, tenantId, body.actorId.value, body.actorName.value, body.kind.value,
                       if Truthy(body.entityId) then body.entityId else None,
                       body.metadata.GetOr(map[]), now)
      && ActivityModel.Valid(a)
      && PostOutcome(records, tenantId, body.(tenantId := forged), id, now, fault).activity == a
  {
  }

  /** How POST fails: missing fields are 400 with a fixed message, a type
      outside the enum is 400 with the validator's message, a failed write is
      500 with a generic message; with the three fields present, a type from
      the enum and a healthy store the record is created. */
  lemma PostErrors(records: seq<Activity>, tenantId: string, body: PostBody, id: string,
                   now: int, fault: bool)
    requires tenantId != ""
    ensures var r := PostOutcome(records, tenantId, body, id, now, fault);
      && Status(r) in {201, 400, 500}
      && ((!Truthy(body.actorId) || !Truthy(body.actorName) || !Truthy(body.kind))
            ==> r == BadRequest(MissingFieldsMessage))
      && (Truthy(body.actorId) && Truthy(body.actorName) && Truthy(body.kind) ==>
            && (!IsActivityType(body.kind.value) ==>
                  r == BadRequest(ValidationMessage([NotInEnum("type", body.kind.value)])))
            && (IsActivityType(body.kind.value) ==>
                  (r.Created? <==> !fault && !HasId(records, id))
                  && (!r.Created? ==> r == ServerError(CreateFailedMessage))))
  {
    if Truthy(body.actorId) && Truthy(body.actorName) && Truthy(body.kind) {
      var a := Construct(PostDraft(tenantId, body, now), id, now);
      assert a.tenantId == tenantId && a.kind == body.kind.value;
      if !IsActivityType(body.kind.value) {
        assert Errors(a) == [NotInEnum("type", body.kind.value)];
      }
    }
  }

  /** A record one tenant posts changes nothing another tenant's GET
      returns, whatever the query. */
  lemma PostInvisibleToOtherTenant(records: seq<Activity>, writer: HeaderValue, body: PostBody,
                                   id: string, now: int, fault: bool, reader: HeaderValue,
                                   rawCursor: Option<string>, rawLimit: Option<string>,
                                   rawType: Option<string>, parseDate: string -> Option<int>,
                                   readFault: bool)
    requires Resolve(writer).Ok? && Resolve(reader).Ok?
    requires Resolve(writer).value != Resolve(reader).value
    ensures var r := PostRoute(records, writer, body, id, now, fault);
      var after := if r.Created? then records + [r.activity] else records;
      GetRoute(after, reader, rawCursor, rawLimit, rawType, parseDate, readFault)
        == GetRoute(records, reader, rawCursor, rawLimit, rawType, parseDate, readFault)
  {
    var r := PostRoute(records, writer, body, id, now, fault);
    if r.Created? {
      assert r.activity.tenantId == Resolve(writer).value by {
        PostRecord(records, Resolve(writer).value, body, id, now, fault, body.tenantId);
      }
      GetIgnoresOtherTenant(records, r.activity, reader, rawCursor, rawLimit, rawType,
                            parseDate, readFault);
    }
  }

  /** A GET answers the same with or without one more record of another
      tenant. */
  lemma GetIgnoresOtherTenant(records: seq<Activity>, a: Activity, reader: HeaderValue,
                              rawCursor: Option<string>, rawLimit: Option<string>,
                              rawType: Option<string>, parseDate: string -> Option<int>,
                              fault: bool)
    requires Resolve(reader).Ok? && a.tenantId != Resolve(reader).value
    ensures GetRoute(records + [a], reader, rawCursor, rawLimit, rawType, parseDate, fault)
         == GetRoute(records, reader, rawCursor, rawLimit, rawType, parseDate, fault)
  {
    var cursor := if Truthy(rawCursor) then parseDate(rawCursor.value) else None;
    OtherTenantWriteInvisible(records, a, GetQuery(Resolve(reader).value, cursor, rawType),
                              RequestLimit(rawLimit));
  }

  /** The activity store: the saved records in insertion order. */
  class ActivityStore {
    var records: seq<Activity>

    /** Every saved record passed the schema, and ids are unique. */
    ghost predicate Valid()
      reads this
    {
      && (forall i :: 0 <= i < |records| ==> ActivityModel.Valid(records[i]))
      && (forall i, j :: 0 <= i < j < |records| ==> records[i].id != records[j].id)
    }

    constructor ()
      ensures Valid() && records == []
    {
      records := [];
    }

    /** `save()`: appends the record unless the write fails. */
    method Save(a: Activity, fault: bool) returns (saved: bool)
      requires Valid() && ActivityModel.Valid(a)
      modifies this
      ensures Valid()
      ensures saved <==> !fault && !HasId(old(records), a.id)
      ensures records == if saved then old(records) + [a] else old(records)
    {
      var taken := false;
      var i := 0;
      while i < |records|
        invariant 0 <= i <= |records|
        invariant taken <==> exists k :: 0 <= k < i && records[k].id == a.id
      {
        if records[i].id == a.id {
          taken := true;
        }
        i := i + 1;
      }
      if fault || taken {
        saved := false;
      } else {
        records := records + [a];
        saved := true;
      }
    }

    /** `router.post("/")`, with the middleware in front. */
    method Post(header: HeaderValue, body: PostBody, id: string, now: int, fault: bool)
      returns (r: Response)
      requires Valid()
      modifies this
      ensures Valid()
      ensures r == PostRoute(old(records), header, body, id, now, fault)
      ensures records == if r.Created? then old(records) + [r.activity] else old(records)
    {
      var tenant := Resolve(header);
      if tenant.Err? {
        return BadRequest(tenant.error.message);
      }
      var tenantId := tenant.value;
      if !Truthy(body.actorId) || !Truthy(body.actorName) || !Truthy(body.kind) {
        return BadRequest(MissingFieldsMessage);
      }
      var checked := Validate(Construct(PostDraft(tenantId, body, now), id, now));
      if checked.Err? {
        return BadRequest(ValidationMessage(checked.error));
      }
      var saved := Save(checked.value, fault);
      if saved {
        r := Created(checked.value);
      } else {
        r := ServerError(CreateFailedMessage);
      }
    }

    /** `router.get("/")`, with the middleware in front. */
    method Get(header: HeaderValue, rawCursor: Option<string>, rawLimit: Option<string>,
               rawType: Option<string>, parseDate: string -> Option<int>, fault: bool)
      returns (r: Response)
      ensures r == GetRoute(records, header, rawCursor, rawLimit, rawType, parseDate, fault)
    {
      var tenant := Resolve(header);
      if tenant.Err? {
        return BadRequest(tenant.error.message);
      }
      var limit := RequestLimit(rawLimit);
      var cursor: Option<int> := None;
      if Truthy(rawCursor) {
        cursor := parseDate(rawCursor.value);
        if cursor.None? {
          return BadRequest(InvalidCursorMessage);
        }
      }
      var kind: Option<string> := None;
      if Truthy(rawType) {
        kind := rawType;
      }
      if fault {
        return ServerError(FetchFailedMessage);
      }
      r := PageOk(FetchPage(records, Query(tenant.value, kind, cursor), limit));
    }
  }
}
