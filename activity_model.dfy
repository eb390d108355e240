/** The activity schema: the fields of a stored activity, the closed set of
    activity types, the defaults filled in at construction, and the checks the
    schema runs before a record is saved. */
module ActivityModel {
  import opened Wrappers

  /** The thirteen values the schema's `type` enum accepts, in schema order. */
  const ActivityTypes: seq<string> := [
    "USER_LOGIN",
    "USER_LOGOUT",
    "DOCUMENT_CREATED",
    "DOCUMENT_UPDATED",
    "DOCUMENT_DELETED",
    "COMMENT_ADDED",
    "TASK_ASSIGNED",
    "TASK_COMPLETED",
    "PROFILE_UPDATED",
    "TEAM_MEMBER_ADDED",
    "TEAM_MEMBER_REMOVED",
    "REPORT_GENERATED",
    "SETTING_CHANGED"
  ]

  predicate IsActivityType(t: string) {
    t in ActivityTypes
  }

  /** The enum is exactly thirteen distinct strings, none of them empty. */
  lemma ActivityTypesAreThirteen()
    ensures |ActivityTypes| == 13
    ensures forall i, j :: 0 <= i < j < |ActivityTypes| ==> ActivityTypes[i] != ActivityTypes[j]
    ensures !IsActivityType("")
  {
  }

  /** The free-form `metadata` object, as string keys to string values. */
  type Metadata = map<string, string>

  /** A stored activity. `id` is the store-assigned `_id`; `createdAt` is in
      milliseconds since the epoch; `entityId` is `None` for null. */
  datatype Activity = Activity(
    id: string,
    tenantId: string,
    actorId: string,
    actorName: string,
    kind: string,
    entityId: Option<string>,
    metadata: Metadata,
    createdAt: int)

  /** What the schema demands of every record it saves: the four required
      string paths are present and non-empty and `type` is in the enum. */
  predicate Valid(a: Activity) {
    a.tenantId != "" && a.actorId != "" && a.actorName != "" && IsActivityType(a.kind)
  }

  /** A path passed to the model's constructor, or left out (`undefined`). */
  datatype Field<T> = Unset | Given(value: T)

  /** The object handed to `new Activity(...)`. */
  datatype Draft = Draft(
    tenantId: Field<string>,
    actorId: Field<string>,
    actorName: Field<string>,
    kind: Field<string>,
    entityId: Field<Option<string>>,
    metadata: Field<Metadata>,
    createdAt: Field<int>)

  /** A required string path left out reads as the empty string, which the
      `required` validator rejects just the same. */
  function RequiredText(f: Field<string>): string {
    match f
    case Given(s) => s
    case Unset => ""
  }

  /** The document built from a draft: `entityId` defaults to null, `metadata`
      to `{}` and `createdAt` to the current time `now`; `id` is the generated
      `_id`. */
  function Construct(d: Draft, id: string, now: int): (a: Activity)
    ensures a.id == id
    ensures d.entityId.Unset? ==> a.entityId == None
    ensures d.metadata.Unset? ==> a.metadata == map[]
    ensures d.createdAt.Unset? ==> a.createdAt == now
    ensures d.entityId.Given? ==> a.entityId == d.entityId.value
    ensures d.metadata.Given? ==> a.metadata == d.metadata.value
    ensures d.createdAt.Given? ==> a.createdAt == d.createdAt.value
    ensures d.tenantId.Given? ==> a.tenantId == d.tenantId.value
    ensures d.actorId.Given? ==> a.actorId == d.actorId.value
    ensures d.actorName.Given? ==> a.actorName == d.actorName.value
    ensures d.kind.Given? ==> a.kind == d.kind.value
    ensures d.tenantId.Unset? ==> a.tenantId == ""
    ensures d.actorId.Unset? ==> a.actorId == ""
    ensures d.actorName.Unset? ==> a.actorName == ""
    ensures d.kind.Unset? ==> a.kind == ""
  {
    Activity(
      id,
      RequiredText(d.tenantId),
      RequiredText(d.actorId),
      RequiredText(d.actorName),
      RequiredText(d.kind),
      match d.entityId case Given(e) => e case Unset => None,
      match d.metadata case Given(m) => m case Unset => map[],
      match d.createdAt case Given(t) => t case Unset => now)
  }

  /** One failed path check. */
  datatype FieldError =
    | Required(path: string, message: string)
    | NotInEnum(path: string, value: string)

  const TenantRequired: FieldError := Required("tenantId", "tenantId is required for tenant isolation")
  const ActorIdRequired: FieldError := Required("actorId", "actorId is required")
  const ActorNameRequired: FieldError := Required("actorName", "actorName is required")
  const TypeRequired: FieldError := Required("type", "Activity type is required")

  /** Every failed check, in schema path order (the validator reports all of
      them at once, not only the first). */
  function Errors(a: Activity): (errs: seq<FieldError>)
    ensures TenantRequired in errs <==> a.tenantId == ""
    ensures ActorIdRequired in errs <==> a.actorId == ""
    ensures ActorNameRequired in errs <==> a.actorName == ""
    ensures TypeRequired in errs <==> a.kind == ""
    ensures NotInEnum("type", a.kind) in errs <==> a.kind != "" && !IsActivityType(a.kind)
    ensures errs == [] <==> Valid(a)
  {
    var tenant := if a.tenantId == "" then [TenantRequired] else [];
    var actorId := if a.actorId == "" then [ActorIdRequired] else [];
    var actorName := if a.actorName == "" then [ActorNameRequired] else [];
    var kind :=
      if a.kind == "" then [TypeRequired]
      else if !IsActivityType(a.kind) then [NotInEnum("type", a.kind)]
      else [];
    var errs := tenant + actorId + actorName + kind;
    assert forall e :: e in errs <==> e in tenant || e in actorId || e in actorName || e in kind;
    errs
  }

  /** Schema validation as run by `save()`: the document itself, or the
      failed checks. */
  function Validate(a: Activity): (r: Result<Activity, seq<FieldError>>)
    ensures r.Ok? <==> Valid(a)
    ensures r.Ok? ==> r.value == a
    ensures r.Err? ==> r.error != [] && r.error == Errors(a)
  {
    var errs := Errors(a);
    if errs == [] then Ok(a) else Err(errs)
  }

  /** A draft that leaves out a required path never validates, and the
      error list names each path it left out. */
  lemma MissingRequiredRejected(d: Draft, id: string, now: int)
    requires d.tenantId.Unset? || d.actorId.Unset? || d.actorName.Unset? || d.kind.Unset?
    ensures Validate(Construct(d, id, now)).Err?
    ensures d.tenantId.Unset? ==> TenantRequired in Validate(Construct(d, id, now)).error
    ensures d.actorId.Unset? ==> ActorIdRequired in Validate(Construct(d, id, now)).error
    ensures d.actorName.Unset? ==> ActorNameRequired in Validate(Construct(d, id, now)).error
    ensures d.kind.Unset? ==> TypeRequired in Validate(Construct(d, id, now)).error
  {
  }

  /** Some record in `s` carries the id `id`. */
  predicate HasId(s: seq<Activity>, id: string) {
    exists k :: 0 <= k < |s| && s[k].id == id
  }

  /** The text of a validation error: the model name, then each failed
      path with its message. */
  function ValidationMessage(errs: seq<FieldError>): string {
    "Activity validation failed: " + JoinErrors(errs)
  }

  function JoinErrors(errs: seq<FieldError>): string {
    if errs == [] then ""
    else if |errs| == 1 then ErrorText(errs[0])
    else ErrorText(errs[0]) + ", " + JoinErrors(errs[1..])
  }

  function ErrorText(e: FieldError): string {
    match e
    case Required(path, message) => path + ": " + message
    case NotInEnum(path, value) =>
      path + ": `" + value + "` is not a valid enum value for path `" + path + "`."
  }
}
