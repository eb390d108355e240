/** The create form: its fields, and the submit handler that inserts an
    optimistic entry into the feed, sends the request, and then swaps in the
    saved record or rolls the entry back. */
module CreateActivity {
  import opened Wrappers
  import opened JsText
  import opened ActivityModel
  import ActivityItem
  import ActivitiesRoute
  import opened UseActivities

  /** The types the form's select offers. */
  const FormTypes: seq<string> := [
    "USER_LOGIN",
    "USER_LOGOUT",
    "DOCUMENT_CREATED",
    "DOCUMENT_UPDATED",
    "DOCUMENT_DELETED",
    "COMMENT_ADDED",
    "TASK_ASSIGNED",
    "TASK_COMPLETED",
    "PROFILE_UPDATED",
    "TEAM_MEMBER_ADDED",
    "TEAM_MEMBER_REMOVED",
    "REPORT_GENERATED",
    "SETTING_CHANGED"
  ]

  /** The form offers exactly the types the schema accepts, in the same
      order. */
  lemma FormTypesAreSchemaTypes()
    ensures FormTypes == ActivityTypes
    ensures forall t :: t in FormTypes <==> IsActivityType(t)
  {
  }

  /** The tenant the client writes into its optimistic entries; the API
      client sends the same value as the tenant header. */
  const ClientTenant: string := "tenant-001"
  const RequiredMessage: string := "Actor ID, Actor Name, and Type are required."
  const FailurePrefix: string := "Failed to create activity: "

  datatype FormData = FormData(
    actorId: string,
    actorName: string,
    kind: string,
    entityId: string,
    description: string)

  const DefaultForm: FormData := FormData("", "", "DOCUMENT_CREATED", "", "")

  datatype FormField = ActorIdField | ActorNameField | TypeField | EntityIdField | DescriptionField

  function WithField(f: FormData, field: FormField, value: string): (r: FormData)
    ensures field == ActorIdField ==> r == f.(actorId := value)
    ensures field == ActorNameField ==> r == f.(actorName := value)
    ensures field == TypeField ==> r == f.(kind := value)
    ensures field == EntityIdField ==> r == f.(entityId := value)
    ensures field == DescriptionField ==> r == f.(description := value)
  {
    match field
    case ActorIdField => f.(actorId := value)
    case ActorNameField => f.(actorName := value)
    case TypeField => f.(kind := value)
    case EntityIdField => f.(entityId := value)
    case DescriptionField => f.(description := value)
  }

  /** The submit guard: the three required fields are non-empty. */
  predicate FormComplete(f: FormData) {
    f.actorId != "" && f.actorName != "" && f.kind != ""
  }

  /** The temporary id; `stamp` stands for the time and random suffix. */
  function TempId(stamp: string): (id: string)
    ensures StartsWith(id, "temp-")
  {
    "temp-" + stamp
  }

  /** Every temporary id the form generates is shown as optimistic. */
  lemma TempIdIsOptimistic(stamp: string)
    ensures ActivityItem.IsOptimistic(TempId(stamp))
  {
  }

  /** `{description}` when a description was typed, `{}` otherwise. */
  function Describe(description: string): (m: Metadata)
    ensures description == "" ==> m == map[]
    ensures description != "" ==> m.Keys == {"description"} && m["description"] == description
  {
    if description == "" then map[] else map["description" := description]
  }

  /** The optimistic entry shown until the server answers. */
  function TempActivity(f: FormData, tempId: string, now: int): (a: Activity)
    ensures a.id == tempId && a.tenantId == ClientTenant && a.createdAt == now
    ensures a.actorId == f.actorId && a.actorName == f.actorName && a.kind == f.kind
    ensures a.entityId.None? <==> f.entityId == ""
    ensures a.entityId.Some? ==> a.entityId.value == f.entityId
    ensures a.metadata == Describe(f.description)
  {
    Activity(tempId, ClientTenant, f.actorId, f.actorName, f.kind,
             if f.entityId == "" then None else Some(f.entityId),
             Describe(f.description), now)
  }

  /** The request body: empty `entityId` and description are left out. */
  function Payload(f: FormData): (b: ActivitiesRoute.PostBody)
    ensures b.actorId == Some(f.actorId) && b.actorName == Some(f.actorName)
    ensures b.kind == Some(f.kind) && b.tenantId.None?
    ensures b.entityId.None? <==> f.entityId == ""
    ensures b.metadata.None? <==> f.description == ""
    ensures b.entityId.Some? ==> b.entityId.value == f.entityId
    ensures b.metadata.Some? ==> b.metadata.value == Describe(f.description)
  {
    ActivitiesRoute.PostBody(
      Some(f.actorId),
      Some(f.actorName),
      Some(f.kind),
      if f.entityId == "" then None else Some(f.entityId),
      if f.description == "" then None else Some(Describe(f.description)),
      None)
  }

  /** The record the server creates from a submitted form agrees with the
      optimistic entry in everything but id and time, so the replace step
      shows what was typed. */
  lemma ServerRecordMatchesTemp(records: seq<Activity>, f: FormData, id: string, now: int,
                                fault: bool, tempId: string, clientNow: int)
    requires FormComplete(f)
    requires ActivitiesRoute.PostOutcome(records, ClientTenant, Payload(f), id, now, fault).Created?
    ensures var saved := ActivitiesRoute.PostOutcome(records, ClientTenant, Payload(f), id, now, fault).activity;
      saved == TempActivity(f, tempId, clientNow).(id := id, createdAt := now)
  {
    ActivitiesRoute.PostRecord(records, ClientTenant, Payload(f), id, now, fault, None);
  }

  /** A complete form with a schema type is accepted unless the write
      fails. */
  lemma CompleteFormAccepted(records: seq<Activity>, f: FormData, id: string, now: int, fault: bool)
    requires FormComplete(f) && IsActivityType(f.kind)
    ensures ActivitiesRoute.PostOutcome(records, ClientTenant, Payload(f), id, now, fault).Created?
        <==> !fault && !HasId(records, id)
  {
    ActivitiesRoute.PostErrors(records, ClientTenant, Payload(f), id, now, fault);
  }

  class CreateForm {
    var formData: FormData
    var submitting: bool
    var error: Option<string>
    var success: bool

    constructor ()
      ensures formData == DefaultForm && !submitting && error.None? && !success
    {
      formData := DefaultForm;
      submitting := false;
      error := None;
      success := false;
    }

    /** `handleChange`: set one field and clear both banners. */
    method Change(field: FormField, value: string)
      modifies this
      ensures formData == WithField(old(formData), field, value)
      ensures error.None? && !success && submitting == old(submitting)
    {
      formData := WithField(formData, field, value);
      error := None;
      success := false;
    }

    /** `handleSubmit`. `stamp` and `now` stand for the clock and random
        suffix; `outcome` is the saved record or the thrown error's message.
        Returns the body sent, if any. */
    method Submit(feed: Feed, stamp: string, now: int, outcome: Result<Activity, string>)
      returns (sent: Option<ActivitiesRoute.PostBody>)
      modifies this, feed
      ensures !FormComplete(old(formData)) ==>
        && sent.None?
        && error == Some(RequiredMessage)
        && formData == old(formData) && submitting == old(submitting) && success == old(success)
        && feed.activities == old(feed.activities)
      ensures FormComplete(old(formData)) ==>
        && sent == Some(Payload(old(formData)))
        && !submitting
        && var temp := TempActivity(old(formData), TempId(stamp), now);
        && (outcome.Ok? ==>
              && feed.activities == ReplaceId([temp] + old(feed.activities), temp.id, outcome.value)
              && success && error.None? && formData == DefaultForm)
        && (outcome.Err? ==>
              && feed.activities == WithoutId([temp] + old(feed.activities), temp.id)
              && !success && error == Some(FailurePrefix + outcome.error)
              && formData == old(formData))
      ensures feed.cursor == old(feed.cursor) && feed.hasMore == old(feed.hasMore)
      ensures feed.loading == old(feed.loading) && feed.initialLoading == old(feed.initialLoading)
      ensures feed.error == old(feed.error)
      ensures feed.initialLoadDone == old(feed.initialLoadDone) && feed.prevFilter == old(feed.prevFilter)
      ensures feed.typeFilter == old(feed.typeFilter)
    {
      if !FormComplete(formData) {
        error := Some(RequiredMessage);
        return None;
      }
      submitting := true;
      error := None;
      success := false;
      var tempId := TempId(stamp);
      var temp := TempActivity(formData, tempId, now);
      feed.AddOptimistic(temp);
      sent := Some(Payload(formData));
      match outcome {
        case Ok(saved) =>
          feed.Replace(tempId, saved);
          success := true;
          formData := DefaultForm;
        case Err(message) =>
          feed.Rollback(tempId);
          error := Some(FailurePrefix + message);
      }
      submitting := false;
    }
  }

  /** With a temporary id no loaded entry carries, a failed submit leaves
      the feed as it was and a successful one leaves the saved record in
      front of it. */
  lemma SubmitNetEffect(f: FormData, stamp: string, now: int, s: seq<Activity>, saved: Activity)
    requires !HasId(s, TempId(stamp))
    ensures var temp := TempActivity(f, TempId(stamp), now);
      && WithoutId([temp] + s, temp.id) == s
      && ReplaceId([temp] + s, temp.id, saved) == [saved] + s
  {
    var temp := TempActivity(f, TempId(stamp), now);
    RollbackUndoesPrepend(temp, s);
    ReplaceAfterPrepend(temp, s, saved);
  }
}
