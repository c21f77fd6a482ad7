/** `DashboardComponent`: shows the signed-in user and tracks unsaved notes;
    `canDeactivate` asks the user before leaving with unsaved changes. The
    `confirm` dialog's answer is an input and the `alert` is an emitted
    message. */
module Dashboard {
  import opened Common
  import Auth

  const LeavePrompt: String := "You have unsaved changes. Are you sure you want to leave?"
  const SavedAlert: String := "Changes saved!"

  datatype DashboardComponent = DashboardComponent(user: Option<Auth.User>, hasUnsavedChanges: bool, notes: String)

  const Initial := DashboardComponent(None, false, "")

  /** `ngOnInit()`: the user comes from the authentication service. */
  function NgOnInit(d: DashboardComponent, auth: Auth.AuthService): (r: DashboardComponent)
    ensures r.user == Auth.GetUser(auth)
    ensures r.hasUnsavedChanges == d.hasUnsavedChanges && r.notes == d.notes
  {
    d.(user := Auth.GetUser(auth))
  }

  /** Typing in the notes field (the `ngModel` update) followed by
      `onNotesChange()`. */
  function OnNotesChange(d: DashboardComponent, notes: String): (r: DashboardComponent)
    ensures r.hasUnsavedChanges && r.notes == notes && r.user == d.user
  {
    d.(notes := notes, hasUnsavedChanges := true)
  }

  /** `saveChanges()`: returns the component and the alert it shows. */
  function SaveChanges(d: DashboardComponent): (r: (DashboardComponent, String))
    ensures !r.0.hasUnsavedChanges && r.0.notes == d.notes && r.0.user == d.user
    ensures r.1 == SavedAlert
  {
    (d.(hasUnsavedChanges := false), SavedAlert)
  }

  /** `canDeactivate()` with the answer the user would give to `confirm`:
      the verdict, and the prompt shown, if any. */
  function CanDeactivate(d: DashboardComponent, confirmAnswer: bool): (r: (bool, Option<String>))
    ensures !d.hasUnsavedChanges ==> r == (true, None)
    ensures d.hasUnsavedChanges ==> r == (confirmAnswer, Some(LeavePrompt))
  {
    if d.hasUnsavedChanges then (confirmAnswer, Some(LeavePrompt)) else (true, None)
  }

  /** Leaving is blocked exactly when notes were changed since the last
      save and the user declines. */
  lemma LeaveBlockedIff(d: DashboardComponent, notes: String, answer: bool)
    ensures CanDeactivate(Initial, answer) == (true, None)
    ensures CanDeactivate(OnNotesChange(d, notes), answer).0 == answer
    ensures CanDeactivate(SaveChanges(OnNotesChange(d, notes)).0, answer) == (true, None)
  {
  }
}
