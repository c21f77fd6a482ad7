/** `EnvironmentDemoComponent`: an accordion with one open panel at most, and
    a simulated API call with loading and error state. The call's delayed
    completion is a separate step carrying its outcome. */
module EnvironmentDemo {
  import opened Common

  datatype MockUser = MockUser(id: int, name: String, email: String)

  /** `ApiResponse<MockUser[]>`; the timestamp is opaque. */
  datatype ApiResponse = ApiResponse(data: seq<MockUser>, message: String, timestamp: int)

  datatype Outcome = Next(response: ApiResponse) | Fail(message: String)

  datatype EnvironmentDemo = EnvironmentDemo(
    apiResponse: Option<ApiResponse>,
    isLoading: bool,
    errorMessage: String,
    activePanel: Option<int>)

  /** Field initialisers: the first panel is open. */
  const Initial := EnvironmentDemo(None, false, "", Some(1))

  const MockUsers: seq<MockUser> := [
    MockUser(1, "John Doe", "john@example.com"),
    MockUser(2, "Jane Smith", "jane@example.com"),
    MockUser(3, "Bob Wilson", "bob@example.com")]

  /** What `ApiService.simulateApiCall(mockUsers)` emits. */
  function SimulatedResponse(timestamp: int): (r: ApiResponse)
    ensures r.data == MockUsers && r.message == "Success (simulated)"
  {
    ApiResponse(MockUsers, "Success (simulated)", timestamp)
  }

  /** `togglePanel(panel)`: closes the panel if it is the open one,
      otherwise opens it (closing any other). */
  function TogglePanel(e: EnvironmentDemo, panel: int): (r: EnvironmentDemo)
    ensures e.activePanel == Some(panel) ==> r.activePanel.None?
    ensures e.activePanel != Some(panel) ==> r.activePanel == Some(panel)
    ensures r == e.(activePanel := r.activePanel)
  {
    e.(activePanel := if e.activePanel == Some(panel) then None else Some(panel))
  }

  /** Toggling a panel twice restores the accordion when that panel was
      open or nothing was open; if another panel was open, it stays closed. */
  lemma ToggleTwice(e: EnvironmentDemo, panel: int)
    ensures e.activePanel.None? || e.activePanel == Some(panel) ==> TogglePanel(TogglePanel(e, panel), panel) == e
    ensures e.activePanel.Some? && e.activePanel != Some(panel) ==> TogglePanel(TogglePanel(e, panel), panel).activePanel.None?
  {
  }

  /** At most one panel is open, and after a toggle it is either none or the
      toggled one. */
  lemma ToggleOpensAtMostThatPanel(e: EnvironmentDemo, panel: int, other: int)
    requires other != panel
    ensures TogglePanel(e, panel).activePanel != Some(other)
  {
  }

  /** The synchronous part of `simulateApiCall()`. */
  function StartCall(e: EnvironmentDemo): (r: EnvironmentDemo)
    ensures r.isLoading && r.errorMessage == "" && r.apiResponse.None?
    ensures r.activePanel == e.activePanel
  {
    e.(isLoading := true, errorMessage := "", apiResponse := None)
  }

  /** The subscriber's `next` or `error` callback. */
  function Complete(e: EnvironmentDemo, outcome: Outcome): (r: EnvironmentDemo)
    ensures !r.isLoading && r.activePanel == e.activePanel
    ensures outcome.Next? ==> r.apiResponse == Some(outcome.response) && r.errorMessage == e.errorMessage
    ensures outcome.Fail? ==> r.errorMessage == outcome.message && r.apiResponse == e.apiResponse
  {
    match outcome
    case Next(resp) => e.(apiResponse := Some(resp), isLoading := false)
    case Fail(msg) => e.(errorMessage := msg, isLoading := false)
  }

  /** `clearResponse()`. */
  function ClearResponse(e: EnvironmentDemo): (r: EnvironmentDemo)
    ensures r.apiResponse.None? && r.errorMessage == ""
    ensures r.isLoading == e.isLoading && r.activePanel == e.activePanel
  {
    e.(apiResponse := None, errorMessage := "")
  }

  /** A call always ends with loading off and exactly one of a response or an
      error message (an error with an empty message aside). */
  lemma CallEndsInOneOutcome(e: EnvironmentDemo, outcome: Outcome)
    ensures var r := Complete(StartCall(e), outcome);
      && !r.isLoading
      && (r.apiResponse.Some? <==> outcome.Next?)
      && (r.errorMessage != "" ==> outcome.Fail?)
  {
  }

  /** With the simulated service the call delivers the three mock users. */
  lemma SimulatedCallDeliversUsers(e: EnvironmentDemo, timestamp: int)
    ensures var r := Complete(StartCall(e), Next(SimulatedResponse(timestamp)));
      r.apiResponse.Some? && r.apiResponse.value.data == MockUsers && r.errorMessage == ""
  {
  }
}
