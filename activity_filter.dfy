/** The filter bar: one button per type plus "All", the click handler that
    turns the "All" value into no filter, and the highlight test. */
module ActivityFilter {
  import opened Wrappers
  import opened ActivityModel

  datatype FilterOption = FilterOption(value: string, caption: string)

  /** The buttons, in display order; the first one clears the filter. */
  const FilterOptions: seq<FilterOption> := [
    FilterOption("", "All Activities"),
    FilterOption("USER_LOGIN", "\U{1F511} User Login"),
    FilterOption("USER_LOGOUT", "\U{1F6AA} User Logout"),
    FilterOption("DOCUMENT_CREATED", "\U{1F4C4} Doc Created"),
    FilterOption("DOCUMENT_UPDATED", "\U{270F}\U{FE0F} Doc Updated"),
    FilterOption("DOCUMENT_DELETED", "\U{1F5D1}\U{FE0F} Doc Deleted"),
    FilterOption("COMMENT_ADDED", "\U{1F4AC} Comment"),
    FilterOption("TASK_ASSIGNED", "\U{1F4CB} Task Assigned"),
    FilterOption("TASK_COMPLETED", "\U{2705} Task Done"),
    FilterOption("PROFILE_UPDATED", "\U{1F464} Profile"),
    FilterOption("TEAM_MEMBER_ADDED", "\U{2795} Member Added"),
    FilterOption("TEAM_MEMBER_REMOVED", "\U{2796} Member Removed"),
    FilterOption("REPORT_GENERATED", "\U{1F4CA} Report"),
    FilterOption("SETTING_CHANGED", "\U{2699}\U{FE0F} Settings")
  ]

  /** `handleClick`: `value || null`. */
  function OnClick(value: string): (filter: Option<string>)
    ensures filter.None? <==> value == ""
    ensures filter.Some? ==> filter.value == value
  {
    if value == "" then None else Some(value)
  }

  /** `(activeFilter || "") === value`. */
  predicate IsActive(activeFilter: Option<string>, value: string) {
    (if activeFilter.None? || activeFilter.value == "" then "" else activeFilter.value) == value
  }

  /** The button values, the "All" button aside, are the schema's types in
      schema order. */
  lemma FilterValuesAreSchemaTypes()
    ensures |FilterOptions| == 14 && FilterOptions[0].value == ""
    ensures forall i :: 1 <= i < |FilterOptions| ==> FilterOptions[i].value == ActivityTypes[i - 1]
  {
  }

  lemma {:induction false} ValuesDistinct()
    ensures forall i, j :: 0 <= i < j < |FilterOptions| ==> FilterOptions[i].value != FilterOptions[j].value
  {
    FilterValuesAreSchemaTypes();
    ActivityTypesAreThirteen();
  }

  /** Clicking a button highlights exactly that button. */
  lemma ClickHighlightsOnlyIt(i: nat)
    requires i < |FilterOptions|
    ensures forall j :: 0 <= j < |FilterOptions| ==>
      (IsActive(OnClick(FilterOptions[i].value), FilterOptions[j].value) <==> j == i)
  {
    ValuesDistinct();
  }

  /** With no filter exactly the "All" button is highlighted; with a filter
      that is none of the values (which the bar never sends) none is. */
  lemma NoFilterHighlightsAll(activeFilter: Option<string>)
    ensures activeFilter.None? ==>
      forall j :: 0 <= j < |FilterOptions| ==> (IsActive(activeFilter, FilterOptions[j].value) <==> j == 0)
    ensures activeFilter.Some? && !IsActivityType(activeFilter.value) && activeFilter.value != "" ==>
      forall j :: 0 <= j < |FilterOptions| ==> !IsActive(activeFilter, FilterOptions[j].value)
  {
    ValuesDistinct();
    FilterValuesAreSchemaTypes();
  }
}
