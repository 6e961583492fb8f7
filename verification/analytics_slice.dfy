/** The analytics slice as a pure reducer over the getWeeklyAnalytics thunk's actions. */
module AnalyticsSlice {
  import opened Base
  import opened Types

  datatype AnalyticsState = AnalyticsState(
    weeklyData: Option<WeeklyAnalytics>,
    isLoading: bool,
    error: Option<string>)

  const InitialState: AnalyticsState := AnalyticsState(None, false, None)

  datatype AnalyticsAction =
    | ClearError
    | WeeklyPending
    | WeeklyFulfilled(data: WeeklyAnalytics)
    | WeeklyRejected(message: string)

  /** The slice's reducer. */
  function Reduce(s: AnalyticsState, a: AnalyticsAction): (r: AnalyticsState)
    ensures a.WeeklyPending? ==> r.isLoading && r.error == None && r.weeklyData == s.weeklyData
    ensures a.WeeklyFulfilled? ==> !r.isLoading && r.weeklyData == Some(a.data) && r.error == s.error
    ensures a.WeeklyRejected? ==> !r.isLoading && r.error == Some(a.message) && r.weeklyData == s.weeklyData
    ensures a.ClearError? ==> r.error == None && r.isLoading == s.isLoading && r.weeklyData == s.weeklyData
  {
    match a
    case ClearError => s.(error := None)
    case WeeklyPending => s.(isLoading := true, error := None)
    case WeeklyFulfilled(d) => s.(isLoading := false, weeklyData := Some(d))
    case WeeklyRejected(msg) => s.(isLoading := false, error := Some(msg))
  }

  /** The slice starts with no data, idle and without error. */
  lemma InitialStateIsEmpty()
    ensures InitialState.weeklyData == None && !InitialState.isLoading && InitialState.error == None
  {
  }

  /** A request that fails keeps the data of the last successful one. */
  lemma FailedRefreshKeepsData(s: AnalyticsState, message: string)
    ensures var r := Reduce(Reduce(s, WeeklyPending), WeeklyRejected(message));
      r.weeklyData == s.weeklyData && !r.isLoading && r.error == Some(message)
  {
  }

  /** A request that succeeds ends idle with the new data and no error. */
  lemma SuccessfulRefresh(s: AnalyticsState, data: WeeklyAnalytics)
    ensures Reduce(Reduce(s, WeeklyPending), WeeklyFulfilled(data)) == AnalyticsState(Some(data), false, None)
  {
  }
}
