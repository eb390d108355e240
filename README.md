# Multi-tenant activity log — a Dafny model

The system is an append-only activity log shared by several tenants. An
Express backend accepts new activity records and serves them back, newest
first, one cursor page at a time. Every request must name its tenant in the
`x-tenant-id` header, and a request only ever sees its own tenant's records.
A React client shows the feed with infinite scroll and a type filter. New
activities appear at once as optimistic entries, which are replaced by the
saved record or rolled back when the request fails.

The model has one module per core source file, plus three support modules:

- `Wrappers`: `Option` and `Result`.
- `JsText`: the JavaScript string behaviour the code relies on. This covers
  `trim` with its whitespace set, `parseInt` without a radix, `startsWith`,
  and decimal rendering of numbers.
- `FeedQuery`: the store's `find` / `sort` / `limit` and one page of the
  cursor protocol, over the store as a sequence of records in insertion order.

The modules for the source files:

- `TenantIsolation` (`tenantIsolation.js`): the header check, as a function
  returning the trimmed tenant or a 400 rejection.
- `ActivityModel` (`Activity.js`): the record, the schema's defaults and its
  validation, with Mongoose's combined error message.
- `ActivitiesRoute` (`routes/activities.js`): the POST and GET handlers as
  functions over the store. `ActivityStore` is a class whose `records` field
  `Post` appends to. `Get` answers from `records`.
- `UseActivities` (`useActivities.js`): the pure list updaters (prepend,
  rollback filter, replace map) and the `Feed` class. `Feed` holds the six
  state cells and two refs that `fetchPage`, `loadMore`, `refreshFeed` and
  the filter effect update.
- `CreateActivity` (`CreateActivity.jsx`): the form as a class, with
  `Submit` driving the feed through the optimistic add followed by a replace
  or a rollback.
- `ActivityItem` (`ActivityItem.jsx`): `formatTimeAgo` bucketing, the
  type-badge table with its fallback, and the optimistic-id test.
- `ActivityFilter` (`ActivityFilter.jsx`): the filter buttons, the click
  mapping and the highlight test.

Inputs the code takes from the environment are parameters:

- the current time, in milliseconds;
- the generated record id and the temporary-id suffix;
- the result of `new Date(cursor)`, as a function returning an optional
  millisecond count;
- the outcome of each HTTP request;
- whether the store fails a read or a write.

Timestamps are integers (milliseconds since the epoch).

## Model

| member | source | states |
|---|---|---|
| JsText.TrimCharacterized | backend/middleware/tenantIsolation.js:9 | `trim` returns a contiguous piece of its input; everything cut away is JavaScript whitespace, and the result neither starts nor ends with whitespace |
| JsText.TrimEmptyIff | backend/middleware/tenantIsolation.js:3 | `trim` gives the empty string exactly when the input is whitespace only |
| JsText.TrimIdempotent | backend/middleware/tenantIsolation.js:9 | trimming a trimmed string changes nothing |
| JsText.DecimalRoundTrip | backend/routes/activities.js:50 | `parseInt` reads a number written in decimal back as that number |
| JsText.DecimalPrefixRoundTrip | backend/routes/activities.js:50 | `parseInt` stops at the first non-digit, so a decimal number followed by text still reads back as the number |
| TenantIsolation.Resolve | backend/middleware/tenantIsolation.js:1-11 | an absent, non-string or whitespace-only header gives 400 with the fixed message; any other header gives its trimmed value, which is non-empty, has no whitespace at either end, and is a piece of the header with only whitespace around it |
| TenantIsolation.ResolveIdempotent | backend/middleware/tenantIsolation.js:9 | resolving an already resolved tenant gives it back unchanged |
| ActivityModel.Construct | backend/models/Activity.js:4-47 | a left-out `entityId` becomes null, `metadata` becomes `{}` and `createdAt` becomes the current time; a left-out required path reads as the empty string; given values are kept |
| ActivityModel.MissingRequiredRejected | backend/models/Activity.js:4-19 | a document built without `tenantId`, `actorId`, `actorName` or `type` fails validation, and the errors name each missing path with its required-message |
| ActivityModel.Errors | backend/models/Activity.js:4-35 | each of `tenantId`, `actorId`, `actorName` and `type` that is empty yields its required-message; a non-empty `type` outside the 13 enum values yields the enum error; no errors exactly when the record is valid |
| ActivityModel.Validate | backend/models/Activity.js:4-47 | validation passes exactly for valid records and returns them unchanged; otherwise it returns the non-empty list of failed checks |
| ActivityModel.ActivityTypesAreThirteen | backend/models/Activity.js:20-34 | the enum has exactly 13 distinct values and excludes the empty string |
| FeedQuery.SelectMembers | backend/routes/activities.js:51-64 | `find` returns exactly the store's records of the tenant, of the type when one is given, and strictly older than the cursor when one is given |
| FeedQuery.SortNewestFirst | backend/routes/activities.js:67 | the descending sort returns the same multiset of records with non-increasing `createdAt` |
| FeedQuery.MatchingMembers | backend/routes/activities.js:65-67 | the sorted query result holds exactly the matching records of the store |
| FeedQuery.FetchPage | backend/routes/activities.js:68-75 | `hasMore` holds exactly when more than `limit` records match; the page holds `min(limit, matches)` records and is the head of the sorted matches; `nextCursor` is the last record's `createdAt`, or null for an empty page |
| FeedQuery.PageRecordsMatch | backend/routes/activities.js:51-68 | every record on a page is a stored record matching the query, and the page is newest first |
| FeedQuery.OtherTenantsInvisible | backend/routes/activities.js:51 | a page computed from the whole store equals the page computed from the tenant's own records alone |
| FeedQuery.OtherTenantWriteInvisible | backend/routes/activities.js:51 | saving a record under another tenant leaves every page unchanged |
| FeedQuery.CursorAdvances | backend/routes/activities.js:70-75 | a page that reports more carries a cursor, and the query from that cursor matches strictly fewer records |
| FeedQuery.PaginationComplete | backend/routes/activities.js:52-75 | with distinct timestamps, following `nextCursor` from the first page until `hasMore` is false yields every matching record exactly once, newest first |
| FeedQuery.ProbePage | backend/routes/activities.js:65-75 | from the sorted results, taking `limit + 1` and dropping the extra record gives `hasMore` exactly when more than `limit` exist, the first `min(limit, n)` records, and the last one's time as cursor |
| FeedQuery.TieAtBoundaryIsSkipped | backend/routes/activities.js:60 | for any store, a matching record just after a full page that shares the page's last timestamp is excluded by the query built from `nextCursor`, so no later page returns it |
| FeedQuery.TieAtPageBoundarySkipsRecord | backend/routes/activities.js:60 | an illustration of the tie case on a concrete store: two records sharing a timestamp across a page boundary, and following the cursor never returns the second one |
| ActivitiesRoute.ClampLimit | backend/routes/activities.js:50 | the page size is always in [1, 100]: NaN or 0 gives 20, a negative value gives 1, 1..100 is kept, anything above gives 100 |
| ActivitiesRoute.RequestLimitDecimal | backend/routes/activities.js:50 | a decimal `limit` in [1, 100], such as the client's 20, is used as is |
| ActivitiesRoute.InvalidCursorRejected | backend/routes/activities.js:52-59 | an unparsable cursor gives 400 with the fixed message, whatever the store holds or whether it would fail |
| ActivitiesRoute.GetPageContents | backend/routes/activities.js:47-82 | a 200 page holds at most 100 records, all of the request's tenant, of the requested type, older than the cursor, newest first; `hasMore` holds exactly when more records match than the page size |
| ActivitiesRoute.GetIsolatesTenants | backend/routes/activities.js:6-51 | a record of one tenant never appears in the answer to a request whose header resolves to another tenant |
| ActivitiesRoute.GetIgnoresOtherTenant | backend/routes/activities.js:47-82 | a GET answers the same with or without one more record of another tenant in the store |
| ActivitiesRoute.PostRecord | backend/routes/activities.js:9-24 | the created record carries the context tenant whatever the body says, the body's actor and type, a falsy `entityId` as null, missing `metadata` as `{}`, and the current time; the record is valid |
| ActivitiesRoute.PostErrors | backend/routes/activities.js:10-45 | a falsy required field gives 400 with the fixed message; a type outside the enum gives 400 with the validation message; a failed write gives 500 with the generic message; otherwise 201 |
| ActivitiesRoute.PostInvisibleToOtherTenant | backend/routes/activities.js:7-82 | whatever one tenant posts, another tenant's GET answers exactly as before |
| ActivitiesRoute.ActivityStore.Save | backend/routes/activities.js:27 | the record is appended unless the write fails or its id is taken; records stay valid with unique ids |
| ActivitiesRoute.ActivityStore.Post | backend/routes/activities.js:6-46 | the response is the route's answer for the old records; the store grows by exactly the created record, and by nothing on any error |
| ActivitiesRoute.ActivityStore.Get | backend/routes/activities.js:47-90 | the response is the route's answer for the current records |
| UseActivities.WithoutIdMembers | frontend/src/hooks/useActivities.js:85-88 | rollback keeps exactly the entries whose id differs from the temporary id |
| UseActivities.WithoutIdAppend | frontend/src/hooks/useActivities.js:85-88 | rollback works piecewise over a concatenation, so the kept entries stay in order |
| UseActivities.RollbackUndoesPrepend | frontend/src/hooks/useActivities.js:81-89 | prepending an entry with an unused id and rolling it back restores the list |
| UseActivities.ReplaceId | frontend/src/hooks/useActivities.js:95-99 | replace keeps the length; the positions carrying the temporary id get the saved record and every other position is unchanged |
| UseActivities.ReplaceAbsentId | frontend/src/hooks/useActivities.js:95-99 | replacing an id the list does not hold is a no-op |
| UseActivities.ReplaceAfterPrepend | frontend/src/hooks/useActivities.js:81-99 | replacing the freshly prepended entry leaves the saved record in front of the old list |
| UseActivities.Feed.constructor | frontend/src/hooks/useActivities.js:12-22 | the initial state: empty list, initial loading raised, no error, no cursor, `hasMore`, effect not yet run |
| UseActivities.Feed.BeginFetch | frontend/src/hooks/useActivities.js:28-37 | raises the initial or the ordinary loading flag, clears the error and requests 20 records from the cursor with the current filter |
| UseActivities.Feed.CompleteFetch | frontend/src/hooks/useActivities.js:38-53 | success replaces the list (initial) or appends the page, then takes cursor and `hasMore` from the response; failure records the message and keeps list, cursor and `hasMore`; both flags end up false |
| UseActivities.Feed.LoadMore | frontend/src/hooks/useActivities.js:61-65 | a request from the cursor goes out exactly when the feed is idle, has more and knows a cursor, raising `loading` and clearing the error; otherwise nothing changes; list, cursor, `hasMore`, initial flag, refs and filter never change |
| UseActivities.Feed.Refresh | frontend/src/hooks/useActivities.js:70-75 | empties the list, forgets the cursor, sets `hasMore`, raises the initial flag, clears the error and requests the first page; `loading`, refs and filter are unchanged |
| UseActivities.Feed.FilterEffect | frontend/src/hooks/useActivities.js:102-111 | reloads exactly on the first run or when the filter differs from the recorded one, recording it, resetting list, cursor and `hasMore`, raising the initial flag and clearing the error while `loading` is unchanged; otherwise nothing but the current filter changes |
| UseActivities.Feed.AddOptimistic | frontend/src/hooks/useActivities.js:81-83 | the entry goes in front and the rest of the list is unchanged |
| UseActivities.Feed.Rollback | frontend/src/hooks/useActivities.js:84-89 | the list loses the entries carrying the temporary id; nothing else changes |
| UseActivities.Feed.Replace | frontend/src/hooks/useActivities.js:95-99 | the entries carrying the temporary id become the saved record; nothing else changes |
| CreateActivity.FormTypesAreSchemaTypes | frontend/src/components/CreateActivity.jsx:4-18 | the form offers exactly the schema's 13 types, in schema order |
| CreateActivity.CreateForm.Change | frontend/src/components/CreateActivity.jsx:33-37 | one field takes the new value, and the error and success banners are cleared |
| CreateActivity.TempId | frontend/src/components/CreateActivity.jsx:51 | every temporary id starts with `temp-` |
| CreateActivity.TempIdIsOptimistic | frontend/src/components/ActivityItem.jsx:49 | every temporary id the form generates is shown as optimistic |
| CreateActivity.Describe | frontend/src/components/CreateActivity.jsx:59-61 | metadata is `{description}` when a description was typed and `{}` otherwise |
| CreateActivity.TempActivity | frontend/src/components/CreateActivity.jsx:52-63 | the optimistic entry carries the temporary id, the client tenant, the form's actor and type, null `entityId` for an empty field, and the described metadata |
| CreateActivity.Payload | frontend/src/components/CreateActivity.jsx:68-76 | the request carries the three required fields, leaves out an empty `entityId` and an empty description, and never a tenant; a present `entityId` is the typed one and present metadata is `{description}` |
| CreateActivity.ServerRecordMatchesTemp | frontend/src/components/CreateActivity.jsx:52-78 | the record the server creates from the request equals the optimistic entry except for id and time |
| CreateActivity.CompleteFormAccepted | frontend/src/components/CreateActivity.jsx:42-76 | a complete form with a schema type is created by the server unless the write fails |
| CreateActivity.CreateForm.Submit | frontend/src/components/CreateActivity.jsx:39-98 | an incomplete form only sets the required-fields error; otherwise the request is sent, and success swaps in the saved record, shows success and resets the form, while failure rolls back and shows the prefixed message; `submitting` ends false; the feed's cursor, `hasMore`, flags, error, refs and filter are unchanged |
| CreateActivity.SubmitNetEffect | frontend/src/components/CreateActivity.jsx:65-92 | with an unused temporary id, a failed submit leaves the feed as it was and a successful one adds exactly the saved record in front |
| ActivityItem.FloorChain | frontend/src/components/ActivityItem.jsx:24-27 | flooring step by step through seconds, minutes and hours equals flooring once by the whole unit |
| ActivityItem.FormatTimeAgo | frontend/src/components/ActivityItem.jsx:20-38 | under a minute (including the future) is "just now"; then minutes 1..59, hours 1..23 and days 1..6 by floor division; a week or more, or an invalid date, falls through to the calendar date |
| ActivityItem.OlderNeverFresher | frontend/src/components/ActivityItem.jsx:29-33 | an older record never lands in an earlier bucket, nor shows a smaller count in the same bucket |
| ActivityItem.RelativeText | frontend/src/components/ActivityItem.jsx:29-37 | the label texts "just now", "{m}m ago", "{h}h ago" and "{d}d ago", and the date formatter's text otherwise |
| ActivityItem.RelativeTextCount | frontend/src/components/ActivityItem.jsx:30-32 | the count in a relative label reads back with `parseInt` as the bucket's count |
| ActivityItem.ConfigFor | frontend/src/components/ActivityItem.jsx:44-47 | a known type gets its table entry; an unknown type gets the pin icon and its raw type as label |
| ActivityItem.ConfigCoversSchema | frontend/src/components/ActivityItem.jsx:3-17 | the table's keys are exactly the schema's types, none of them with the pin icon |
| ActivityItem.HexIdNotOptimistic | frontend/src/components/ActivityItem.jsx:49 | a store-generated hexadecimal id is never shown as optimistic |
| ActivityFilter.OnClick | frontend/src/components/ActivityFilter.jsx:22-27 | the "All" value becomes no filter; any other value is sent as is |
| ActivityFilter.FilterValuesAreSchemaTypes | frontend/src/components/ActivityFilter.jsx:3-18 | 14 buttons: "All" first, then the schema's 13 types in schema order |
| ActivityFilter.ClickHighlightsOnlyIt | frontend/src/components/ActivityFilter.jsx:58-63 | after clicking a button, exactly that button is highlighted |
| ActivityFilter.NoFilterHighlightsAll | frontend/src/components/ActivityFilter.jsx:58-59 | with no filter exactly the "All" button is highlighted; with a value that is no button's, none is |

## Left out

- `backend/server.js` is not part of this model: it covers Express and CORS setup, the database connection and process exit.
- `frontend/src/utils/api.js` is not part of this model. It is a thin `fetch` wrapper. Request outcomes are parameters of `Feed.CompleteFetch` and `CreateForm.Submit`, and the error message is taken as given.
- `useInfiniteScroll.js`, `ActivityFeed.jsx`, `EmptyState.jsx`, `LoadingSpinner.jsx` and `App.jsx` are not part of this model. They hold observer wiring, the 30-second poll, markup and styles. The scroll trigger is enabled by `Feed.CanLoadMore` without its cursor test; `Feed.LoadMore` then sends a request exactly when the whole of `Feed.CanLoadMore` holds. The poll is a call to `Feed.Refresh`.
- Date handling is a set of library calls, so it is represented rather than modelled. `new Date(cursor)` is the `parseDate` parameter. `toISOString` is left out: the server's `nextCursor` is the millisecond count and the client's cursor an opaque string. `toLocaleDateString` is the `formatDate` parameter.
- `Date.now()`, `Math.random()` and the 3-second timer that clears the success banner are left out. Time and ids are parameters, and the timer is not modelled.
- Asynchronous interleaving is not modelled: each request completion is one atomic transition. `BeginFetch` and `CompleteFetch` are called in sequence, and `Submit` treats the request's outcome as known.
- The database is not modelled beyond its visible behaviour. Indexes, `.lean()` and `.select()` projection are left out.
- FeedQuery.SortNewestFirst: records with equal `createdAt` keep their store order. The database leaves that order unspecified, so the model fixes one of the allowed orders.
- ActivitiesRoute.PostOutcome: a store failure is a `fault` flag plus a duplicate-id check. Connection and server errors are not told apart.
- ActivityModel.Errors: the validation message lists the failed paths in schema order. Mongoose builds it from its errors object, whose order is not modelled further.
- Request bodies and query strings are modelled as optional strings, and metadata as a string-to-string map. Non-string JSON values, which Mongoose would cast or reject, are not modelled. Repeated query parameters, which arrive as arrays, are not modelled either. `metadata` is treated as falsy only when absent, so a falsy JSON value such as `0` or `""` is not covered.
- ActivityItem.ConfigFor: a type naming a property that every JavaScript object inherits, such as `constructor`, would find an inherited value in the real table. The model treats it as unknown. The server never saves such a type.
- The client's `isOpen` toggle and all styling and hover handlers are presentation only and are not modelled.
