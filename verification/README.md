# Angular demo application: a verified model of its application logic

The application is a demo single-page app. Beneath the routing, forms and
dependency-injection showcases lie small pieces of sequential logic. This
project models each of them as pure functions over immutable data:

- two counter stores: a snapshot-based `CounterService` and a signal-based
  `CounterSignalService`, each with a history bounded to ten counts;
- a mock session, `AuthService`, persisted to session storage;
- three navigation decisions built on the session: `AuthGuard`, the login
  form, and `ProductResolver`;
- the product catalog with lookup by id and first-occurrence category list;
- the case-insensitive filters of the product list, the admin user table and
  the search service, the search service's operation log and its
  stream-operator demonstrations;
- the validators the repository writes itself, and the state of the three
  demo forms: reactive, advanced and template-driven;
- the dashboard's unsaved-changes flag and its leave confirmation;
- the three `LoggerService` implementations, the component-level
  `ConsoleLoggerService`, and the dependency-injection demo's newest-first
  activity log;
- the environment demo's accordion and simulated API call;
- the `APP_CONFIG` constants and `configFactory`.

I/O becomes values:

- A router navigation, an `alert` message and a log entry are values an
  operation returns.
- The answer to `confirm`, the current time (`new Date()`), the formatted
  local time (`toLocaleTimeString()`), the result of `Number(...)` and the
  validity the forms framework computes are parameters.
- Session storage is a map from key to stored user.

One Dafny module per source file; shared modules:

- `Common`: `Option` for `null`/`undefined`, `String`, prefix and suffix;
- `Text`: ASCII case folding, `includes`, `trim` and `\s`, the decimal
  rendering of integers and its inverse;
- `Seqs`: `filter`, `[...new Set(xs)]`, subsequences and first occurrences;
- `BoundedLog`: the `unshift`-then-`pop` log of at most ten entries, used
  by two components.

Operations are stated against partners:

- The signal counter is proved equal to the snapshot counter on every
  sequence of operations, and its computed signals are derived from the
  reference count.
- The snapshot counter's history is proved equal to the newest ten counts of
  an unbounded reference trajectory.
- Filters keep exactly the elements their predicates accept, each as often as
  it occurs, in their order.
- The category list is proved duplicate-free, complete and ordered by first
  occurrence.
- Query parameters round-trip through the router's merge.
- Log entries can be parsed back.
- Reachable states keep their invariants, and a session of edits, submits
  and resets records exactly the latest valid submission.
- The source checks the password, ZIP code and phone fields with regular
  expressions. The model states each as a predicate and adds its own
  scanning methods, `CheckStrength`, `MatchZip` and `MatchPhone`, proved equal
  to those predicates.

The log getters (`getLogs`, `getOperationLog`) return the log itself; they
carry no contract of their own (see "Left out").

Paths in the table below are relative to the repository root.

## Model

| member | source | states |
|---|---|---|
| CounterStore.UpdateState | src/app/modules/services/services/counter.service.ts:71-79 | `partial`'s fields replace the current ones (absent ones keep their value); the new history is the newest nine old entries followed by the new count, so it holds 1 to 10 entries, ends with the count, and the old entries keep their order |
| CounterStore.KeepLast9 | src/app/modules/services/services/counter.service.ts:77 | `slice(-9)` is a suffix of the history of length min(9, length) |
| CounterStore.DoIncrement | src/app/modules/services/services/counter.service.ts:40-46 | count rises by exactly one, lastAction "increment", history stays valid and keeps the surviving old entries in order |
| CounterStore.DoDecrement | src/app/modules/services/services/counter.service.ts:48-54 | count falls by exactly one, lastAction "decrement", history stays valid and ordered |
| CounterStore.DoReset | src/app/modules/services/services/counter.service.ts:56-62 | from any state: count 0 and a one-entry history, bypassing `updateState` |
| CounterStore.DoSetCount | src/app/modules/services/services/counter.service.ts:64-69 | count becomes `value`, lastAction "set to " followed by the value, history valid and ordered |
| CounterStore.RunMatchesTrajectory | src/app/modules/services/services/counter.service.ts:15-79 | from the initial state (0, "initialized", [0]), every sequence of operations gives a valid state (the history has 1 to 10 entries and its last entry is the count) whose count is the last value of the unbounded reference trajectory, whose history is that trajectory's newest ten values, and whose lastAction names the last operation |
| CounterStore.ApplyMatchesTrajectory | src/app/modules/services/services/counter.service.ts:15-79 | one more operation keeps the snapshot in step with the reference trajectory: still valid, count equal to the trajectory's last value, history equal to its newest ten values, lastAction naming that operation |
| CounterStore.ResetForgets | src/app/modules/services/services/counter.service.ts:56-62 | reset ends in (0, "reset", [0]) whatever the starting state |
| CounterStore.SetActionInjective | src/app/modules/services/services/counter.service.ts:67 | distinct values give distinct "set to" texts (the rendered number parses back) |
| CounterSignal.AbsoluteCount | src/app/modules/services/services/counter-signal.service.ts:26 | the computed value is a natural number equal to the count or its negation |
| CounterSignal.ComputedConsistent | src/app/modules/services/services/counter-signal.service.ts:20-26 | isPositive and isNegative never hold together; both are false exactly at 0; absoluteCount is the count with its sign removed |
| CounterSignal.AddToHistory | src/app/modules/services/services/counter-signal.service.ts:60-62 | history becomes the newest nine entries plus the current count: at most ten entries, ending with the count, order kept; count and lastAction unchanged |
| CounterSignal.DoIncrement | src/app/modules/services/services/counter-signal.service.ts:36-40 | count +1, "increment", bounded history ending with the new count |
| CounterSignal.DoDecrement | src/app/modules/services/services/counter-signal.service.ts:42-46 | count −1, "decrement", bounded history ending with the new count |
| CounterSignal.DoReset | src/app/modules/services/services/counter-signal.service.ts:48-52 | count 0 and history [0] |
| CounterSignal.DoSetCount | src/app/modules/services/services/counter-signal.service.ts:54-58 | count `value`, "set to " and the value, bounded history ending with the count |
| CounterSignal.ApplyAgrees | src/app/modules/services/services/counter-signal.service.ts:36-62 | one operation has the same effect on the signals as on the `CounterService` snapshot |
| CounterSignal.SameAsCounterService | src/app/modules/services/services/counter-signal.service.ts:8-62 | for every sequence of operations the signal service and `CounterService` reach equal count, lastAction and history |
| CounterSignal.ReachableValid | src/app/modules/services/services/counter-signal.service.ts:60-62 | every reachable state has 1 to 10 history entries, the last being the count |
| CounterSignal.ReachableComputed | src/app/modules/services/services/counter-signal.service.ts:17-26 | after any operation sequence, doubleCount is twice the last count of the reference trajectory, and isPositive, isNegative and absoluteCount are the sign tests and absolute value of that count |
| Auth.Create | src/app/services/auth.service.ts:15-21 | the constructor restores the stored "currentUser" (admin flag included) or starts signed out, consistent with storage |
| Auth.IsAdmin | src/app/services/auth.service.ts:46-48 | true exactly when a user is signed in and flagged admin; so isAdmin implies isLoggedIn |
| Auth.Login | src/app/services/auth.service.ts:23-35 | succeeds exactly when username and password are both non-empty; on success the new user (with the flag and time) is current and stored under "currentUser", replacing any other; on failure nothing changes |
| Auth.Logout | src/app/services/auth.service.ts:37-40 | signed out, no user, not admin, the "currentUser" key removed and every other storage entry kept |
| Auth.FreshServiceLoggedOut | src/app/services/auth.service.ts:13-21 | with nothing stored a new service is signed out, not admin, and has no user |
| Auth.OperationsKeepConsistent | src/app/services/auth.service.ts:23-40 | login and logout keep memory and storage in step |
| Auth.LoginSurvivesReload | src/app/services/auth.service.ts:15-31 | a service rebuilt from storage after a successful login is the same session: signed in, same username, same admin flag |
| Auth.LogoutSurvivesReload | src/app/services/auth.service.ts:15-21 | a service rebuilt after logout is signed out |
| Auth.SecondLoginReplaces | src/app/services/auth.service.ts:26-31 | a second successful login replaces the first in memory and in storage |
| AuthGuard.CanActivate | src/app/guards/auth.guard.ts:27-34 | allows exactly when signed in; otherwise redirects to "/login" with returnUrl equal to the requested url verbatim |
| AuthGuard.DependsOnlyOnLoggedIn | src/app/guards/auth.guard.ts:27-34 | two sessions with the same isLoggedIn get the same decision |
| LoginPage.ReturnUrlOf | src/app/components/login/login.component.ts:23-25 | a non-empty returnUrl parameter is used as given; a missing or empty one gives "/dashboard" |
| LoginPage.SubmitWith | src/app/components/login/login.component.ts:28-40 | the service is called, with exactly (username, password, isAdmin), iff both fields are non-empty; navigation to [returnUrl] iff it was called and answered true; otherwise the matching error message and no navigation |
| LoginPage.InvalidCredentialsUnreachable | src/app/components/login/login.component.ts:29-36 | against the real `AuthService` a submit navigates exactly when both fields are filled, so "Invalid credentials" is never set |
| LoginPage.RedirectLoginAndReturn | src/app/guards/auth.guard.ts:31-34 | a signed-out visit is redirected with the url; the login page opened from that redirect signs in and navigates back to the url (the dashboard for an empty url); the guard then allows it |
| Products.CatalogWellFormed | src/app/services/product.service.ts:16-89 | ids are pairwise distinct, every stock is non-negative, every name and description non-empty |
| Products.CatalogIds | src/app/services/product.service.ts:16-89 | the catalog holds nine products whose ids are 1 to 9, in catalog order |
| Products.FindById | src/app/services/product.service.ts:98 | `find`: the result has the id asked for, is the first such product, and is absent iff no product has that id |
| Products.FindByIdUnique | src/app/services/product.service.ts:97-99 | with unique ids the lookup returns the one product with that id |
| Products.GetProductById | src/app/services/product.service.ts:97-99 | a product is found iff the id is 1..9 (so not 0 or negatives), and it is the catalog entry with that id |
| Products.CategoryColumn | src/app/services/product.service.ts:102 | `products.map(p => p.category)`: one category per product, in order |
| Products.CategoriesSpec | src/app/services/product.service.ts:101-103 | the category list has no duplicates, contains exactly the categories of the products, and lists them in order of first occurrence |
| Products.CatalogCategories | src/app/services/product.service.ts:101-103 | the catalog's categories are ["Electronics", "Furniture", "Accessories"] |
| ProductResolver.LookupNumber | src/app/resolvers/product.resolver.ts:34 | `getProductById` on a JavaScript number finds a product iff the number is an integer in 1..9, with that id |
| ProductResolver.Resolve | src/app/resolvers/product.resolver.ts:26-43 | NaN: null, one redirect to "/products", no lookup; otherwise the lookup is made with the parsed number; a product is returned iff found, with no redirect; when none is found, null and exactly one redirect |
| ProductResolver.MissingIdRedirects | src/app/resolvers/product.resolver.ts:26-43 | a missing id (coerced to 0) ends in null plus one redirect |
| ProductResolver.ResolveAgreesWithService | src/app/resolvers/product.resolver.ts:34-43 | for integral ids the resolver hands over exactly what `getProductById` returns, and redirects exactly when that is nothing |
| ProductList.FilterList | src/app/components/products/product-list/product-list.component.ts:35-41 | the filtered list is an order-preserving subsequence of the products; a product is in it iff its lower-cased name includes the lower-cased term and the category is unselected or equal; every matching product occurs as often as in the input and no other occurs |
| ProductList.ParamOrEmpty | src/app/components/products/product-list/product-list.component.ts:29-30 | a present parameter is used; a missing one gives "" |
| ProductList.OnQueryParams | src/app/components/products/product-list/product-list.component.ts:28-32 | both filters come from the parameters (defaulting to "") and the list is re-filtered with them |
| ProductList.NgOnInit | src/app/components/products/product-list/product-list.component.ts:23-33 | products and categories come from the service |
| ProductList.OrNull | src/app/components/products/product-list/product-list.component.ts:56-57 | a falsy value becomes null: null exactly for the empty string, otherwise the value itself |
| ProductList.UpdateQueryParams | src/app/components/products/product-list/product-list.component.ts:51-61 | a merging navigation to the current route setting exactly the keys search and category |
| ProductList.ViewProduct | src/app/components/products/product-list/product-list.component.ts:63-66 | navigates to ["/products", id] with no query parameters |
| ProductList.ClearFilters | src/app/components/products/product-list/product-list.component.ts:68-75 | both filters become "" and the navigation carries no query parameters and no merge |
| ProductList.ApplyNavigation | src/app/components/products/product-list/product-list.component.ts:53-60 | the router's query-parameter update: a null value removes its key, a value sets it, and other keys survive only when merging |
| ProductList.UpdateQueryParamsRoundTrip | src/app/components/products/product-list/product-list.component.ts:28-61 | the parameters written by `updateQueryParams` and read back by the subscription restore both filters and the same filtered list, whatever else the URL held |
| ProductList.ClearFiltersShowsAll | src/app/components/products/product-list/product-list.component.ts:68-75 | after `clearFilters` the URL has no filter and the list shows every product |
| ProductList.NoFilterKeepsAll | src/app/components/products/product-list/product-list.component.ts:37-38 | empty term and empty category keep every product, in order |
| ProductList.FilterListIdempotent | src/app/components/products/product-list/product-list.component.ts:36-40 | filtering the filtered list again with the same criteria changes nothing |
| ProductList.CategoryFilterExact | src/app/components/products/product-list/product-list.component.ts:37-38 | with a category selected, a product is kept iff its category is exactly that one and its name matches ignoring case |
| AdminUsers.FilteredUsers | src/app/modules/admin/components/admin-users/admin-users.component.ts:27-33 | an empty term returns the list itself; the result is always an order-preserving subsequence, a user is kept iff the lower-cased username or e-mail includes the lower-cased term, and each kept user occurs as often as in the input |
| AdminUsers.StatusBadgeClass | src/app/modules/admin/components/admin-users/admin-users.component.ts:35-42 | Active, Inactive and Pending map to their classes; every other status to "bg-primary" |
| AdminUsers.SearchIgnoresCase | src/app/modules/admin/components/admin-users/admin-users.component.ts:29-32 | a term and its upper-case spelling give the same filtered list |
| AdminUsers.BadgeClassesDistinct | src/app/modules/admin/components/admin-users/admin-users.component.ts:35-42 | the three known statuses get distinct classes and every other status gets "bg-primary" |
| Search.ClearLog | src/app/modules/services/services/search.service.ts:46-48 | the log is empty afterwards |
| Search.SearchResults | src/app/modules/services/services/search.service.ts:55-59 | an order-preserving subsequence of the mock data, holding an entry iff its lower-cased title includes the lower-cased term |
| Search.DoSearch | src/app/modules/services/services/search.service.ts:51-64 | returns those results and appends exactly the call entry and then "Results: n items found" with n the number of results |
| Search.ResultsEntryCounts | src/app/modules/services/services/search.service.ts:61 | the earlier log is kept, two entries are added, and the count in the last one reads back as the number of results |
| Search.EmptyTermFindsAll | src/app/modules/services/services/search.service.ts:57-59 | the empty term returns all ten entries |
| Search.DemoMap | src/app/modules/services/services/search.service.ts:67-77 | the log is cleared, then holds the source, the operator and the joined result; the result is the doubled values as labels |
| Search.DemoMapValue | src/app/modules/services/services/search.service.ts:72-74 | the result is "Value: 2" … "Value: 10" |
| Search.DemoFilter | src/app/modules/services/services/search.service.ts:80-89 | the log is cleared, then holds source, operator and joined result; the result is the even source values |
| Search.DemoFilterValue | src/app/modules/services/services/search.service.ts:85-87 | the result is [2, 4, 6, 8, 10] |
| Search.EvensOfConsecutive | src/app/modules/services/services/search.service.ts:85-86 | filtering `x % 2 === 0` over the 2n integers after any even number keeps exactly the n even ones, in order |
| Search.DemoTap | src/app/modules/services/services/search.service.ts:92-103 | the log is cleared, then holds five entries: the side effects see 42 and the last entry sees the result, 84 |
| Search.DemoTapValue | src/app/modules/services/services/search.service.ts:97-101 | the result is 84 |
| Search.DemoCatchError | src/app/modules/services/services/search.service.ts:106-124 | "Recovered from error!" iff shouldFail, else "Success!"; a failure skips "Processing..." and logs the caught message and the fallback |
| Search.DemosIgnorePriorLog | src/app/modules/services/services/search.service.ts:68-129 | every demonstration starts by clearing the log, so its result and log do not depend on the earlier log |
| Search.DemoSwitchMapStart | src/app/modules/services/services/search.service.ts:127-129 | the log is cleared and holds only the switchMap heading |
| Search.SwitchMapStep | src/app/modules/services/services/search.service.ts:137-143 | a term that trims to empty yields [] and leaves the log alone; any other term logs the "Starting search" entry and is then searched |
| Search.BlankTermSkipsSearch | src/app/modules/services/services/search.service.ts:136-140 | a whitespace-only term that got through distinctUntilChanged yields [] and adds only the "After distinctUntilChanged" entry |
| Search.NonBlankTermSearches | src/app/modules/services/services/search.service.ts:136-142 | a term with a non-whitespace character is searched; the log gains exactly the "After distinctUntilChanged", "Starting search", "API call" and "Results" entries, in that order |
| Search.AutoCompleteStep | src/app/modules/services/services/search.service.ts:155-156 | a term is searched iff its length in UTF-16 code units is at least two; a dropped term leaves the log alone |
| Search.AutoCompleteLengthFilter | src/app/modules/services/services/search.service.ts:155 | terms of two or more characters are always searched and the empty term never; a one-character term is searched iff that character lies outside the Basic Multilingual Plane |
| Search.AutoCompleteAgreesWithSwitchMap | src/app/modules/services/services/search.service.ts:137-157 | for a non-blank term the autocomplete stream keeps, it finds the same results as the switchMap demonstration, whose log differs only by the "Starting search" entry |
| ReactiveForms.PasswordStrengthError | src/app/modules/forms/components/reactive-forms-demo/reactive-forms-demo.component.ts:59-69 | no error for an empty value; otherwise an error iff an ASCII upper-case letter, lower-case letter or digit is missing |
| ReactiveForms.CheckStrength | src/app/modules/forms/components/reactive-forms-demo/reactive-forms-demo.component.ts:63-68 | the one-pass scan computes exactly the validator's result |
| ReactiveForms.PasswordMatchError | src/app/modules/forms/components/reactive-forms-demo/reactive-forms-demo.component.ts:72-80 | a mismatch iff both values are non-empty and differ |
| ReactiveForms.PasswordMatchSymmetric | src/app/modules/forms/components/reactive-forms-demo/reactive-forms-demo.component.ts:76-79 | the check is symmetric and equal values never mismatch |
| ReactiveForms.UsernameRule | src/app/modules/forms/components/reactive-forms-demo/reactive-forms-demo.component.ts:19-24 | required, length 3..20 and the word-character pattern together accept exactly 3 to 20 characters from [A-Za-z0-9_] |
| ReactiveForms.MatchZip | src/app/modules/forms/components/reactive-forms-demo/reactive-forms-demo.component.ts:45-48 | the scan accepts exactly five digits, or five digits, a dash and four digits |
| ReactiveForms.MatchPhone | src/app/modules/forms/components/reactive-forms-demo/reactive-forms-demo.component.ts:52 | the scan accepts exactly non-empty strings of digits, white space and -+() |
| ReactiveForms.OwnErrors | src/app/modules/forms/components/reactive-forms-demo/reactive-forms-demo.component.ts:31-38 | the password group reports strength and mismatch errors exactly as the two validators do |
| ReactiveForms.OnSubmit | src/app/modules/forms/components/reactive-forms-demo/reactive-forms-demo.component.ts:87-95 | a valid form is recorded as submitted with its value and nothing else changes; an invalid one is only marked touched |
| ReactiveForms.OnReset | src/app/modules/forms/components/reactive-forms-demo/reactive-forms-demo.component.ts:97-101 | controls emptied and untouched, submitted false, no submitted data |
| ReactiveForms.ResetIsClean | src/app/modules/forms/components/reactive-forms-demo/reactive-forms-demo.component.ts:97-101 | resetting is idempotent and a reset form has no error from the repository's validators |
| ReactiveForms.RunTracksSubmission | src/app/modules/forms/components/reactive-forms-demo/reactive-forms-demo.component.ts:87-101 | over any session of edits, submits and resets, the recorded data is the form value at the latest valid submit not followed by a reset (so an invalid submit records nothing), and submitted holds exactly when data is recorded |
| AdvancedForms.UsernameAvailability | src/app/modules/forms/components/advanced-forms-demo/advanced-forms-demo.component.ts:77-92 | an empty value is not checked; any other is taken iff its lower-case form is admin, user, test, demo or angular |
| AdvancedForms.AvailabilityIgnoresCase | src/app/modules/forms/components/advanced-forms-demo/advanced-forms-demo.component.ts:87 | a name and its upper-case spelling get the same answer |
| AdvancedForms.PhoneErrors | src/app/modules/forms/components/advanced-forms-demo/advanced-forms-demo.component.ts:116-126 | only preference "phone" makes the phone required and pattern-checked; any other preference clears the rule |
| AdvancedForms.PhoneRuleWhenPreferred | src/app/modules/forms/components/advanced-forms-demo/advanced-forms-demo.component.ts:120-121 | with "phone" preferred, the phone is accepted iff it is a non-empty string of digits, white space and -+() |
| AdvancedForms.RemoveAt | src/app/modules/forms/components/advanced-forms-demo/advanced-forms-demo.component.ts:144 | `removeAt(index)` drops exactly the entry at the index, and an index past the end removes nothing |
| AdvancedForms.AddSkill | src/app/modules/forms/components/advanced-forms-demo/advanced-forms-demo.component.ts:133-140 | appends exactly one skill ("", "Intermediate", 1), keeps the others and changes nothing else |
| AdvancedForms.RemoveSkill | src/app/modules/forms/components/advanced-forms-demo/advanced-forms-demo.component.ts:142-146 | removes only when more than one skill exists, so a non-empty list never becomes empty |
| AdvancedForms.AddExperience | src/app/modules/forms/components/advanced-forms-demo/advanced-forms-demo.component.ts:153-163 | appends one empty experience entry and changes nothing else |
| AdvancedForms.RemoveExperience | src/app/modules/forms/components/advanced-forms-demo/advanced-forms-demo.component.ts:165-167 | removes the entry at the index with no lower bound on the list |
| AdvancedForms.OnCurrentJobChange | src/app/modules/forms/components/advanced-forms-demo/advanced-forms-demo.component.ts:170-177 | a current job's end date becomes ""; a non-current one is left alone; other entries are untouched |
| AdvancedForms.OnValueChange | src/app/modules/forms/components/advanced-forms-demo/advanced-forms-demo.component.ts:95-103 | the new "[time] Form value changed" entry goes first; below ten entries all older entries follow, otherwise all but the oldest; a log of at most ten grows by one up to ten |
| AdvancedForms.OnSubmit | src/app/modules/forms/components/advanced-forms-demo/advanced-forms-demo.component.ts:180-188 | a valid form is recorded; an invalid one is only marked touched |
| AdvancedForms.OnReset | src/app/modules/forms/components/advanced-forms-demo/advanced-forms-demo.component.ts:190-198 | one new skill, no experience, nothing submitted, an empty log, and no phone rule or username error left |
| AdvancedForms.ApplyKeepsInvariant | src/app/modules/forms/components/advanced-forms-demo/advanced-forms-demo.component.ts:95-198 | every operation keeps at least one skill and at most ten log entries |
| AdvancedForms.RunKeepsInvariant | src/app/modules/forms/components/advanced-forms-demo/advanced-forms-demo.component.ts:73-198 | from the initial form no sequence of operations empties the skills or grows the log past ten |
| TemplateForms.Edit | src/app/modules/forms/components/template-forms-demo/template-forms-demo.component.ts:20-27 | an `ngModel` edit replaces the contact and leaves the submission alone |
| TemplateForms.OnSubmit | src/app/modules/forms/components/template-forms-demo/template-forms-demo.component.ts:41-47 | a valid form records a copy of the contact; an invalid one changes nothing |
| TemplateForms.OnReset | src/app/modules/forms/components/template-forms-demo/template-forms-demo.component.ts:49-61 | initial contact ("general" subject, no newsletter), not submitted, no data |
| TemplateForms.SubmittedDataIsACopy | src/app/modules/forms/components/template-forms-demo/template-forms-demo.component.ts:44 | edits made after a submit do not alter the submitted data |
| TemplateForms.EditsKeepSubmission | src/app/modules/forms/components/template-forms-demo/template-forms-demo.component.ts:41-47 | any sequence of edits leaves submitted and submittedData as they were; the last edit is the contact |
| TemplateForms.ResetRestoresInitial | src/app/modules/forms/components/template-forms-demo/template-forms-demo.component.ts:20-61 | reset from any state gives exactly the initial component |
| Dashboard.NgOnInit | src/app/components/dashboard/dashboard.component.ts:16-18 | the user comes from the session; notes and flag unchanged |
| Dashboard.OnNotesChange | src/app/components/dashboard/dashboard.component.ts:20-22 | a notes edit sets the unsaved-changes flag |
| Dashboard.SaveChanges | src/app/components/dashboard/dashboard.component.ts:24-28 | clears the flag, keeps the notes, and shows "Changes saved!" |
| Dashboard.CanDeactivate | src/app/components/dashboard/dashboard.component.ts:31-36 | without unsaved changes: true, no prompt; with them: the prompt is shown and the answer is returned |
| Dashboard.LeaveBlockedIff | src/app/components/dashboard/dashboard.component.ts:11-36 | initially leaving is free; after a notes edit leaving is exactly the user's answer; after saving it is free again |
| Loggers.LevelTagInjective | src/app/modules/services/services/logger.service.ts:18-34 | the three methods write distinct tags |
| Loggers.ConsoleEntry | src/app/modules/services/services/logger.service.ts:19 | entries start "[LOG] ", "[WARN] " or "[ERROR] " and end with ": " and the message |
| Loggers.ConsoleCall | src/app/modules/services/services/logger.service.ts:18-34 | one entry appended at the end, earlier entries unchanged |
| Loggers.ConsoleRunAppends | src/app/modules/services/services/logger.service.ts:18-34 | a sequence of calls on any logger leaves the earlier log in place and appends exactly one formatted entry per call, the i-th entry formatted from the i-th call |
| Loggers.PrefixedEntry | src/app/modules/services/services/logger.service.ts:51-67 | entries are the prefix followed by " LOG: ", " WARN: " or " ERROR: " and the message |
| Loggers.PrefixedEntryInjective | src/app/modules/services/services/logger.service.ts:51-67 | with the prefix known, the level and message are determined by the entry |
| Loggers.SetPrefix | src/app/modules/services/services/logger.service.ts:47-49 | changes the prefix only; entries already written stay |
| Loggers.PrefixedCall | src/app/modules/services/services/logger.service.ts:51-67 | one entry with the current prefix appended, earlier entries unchanged |
| Loggers.SetPrefixAffectsOnlyLater | src/app/modules/services/services/logger.service.ts:45-67 | after `setPrefix` the next entry uses the new prefix and the older entries are untouched |
| Loggers.SilentEntry | src/app/modules/services/services/logger.service.ts:79-90 | "[SILENT LOG] ", "[SILENT WARN] " or "[SILENT ERROR] " followed by the message |
| Loggers.SilentCall | src/app/modules/services/services/logger.service.ts:79-90 | one entry appended, earlier entries unchanged |
| ConsoleLoggerService.Entry | src/app/modules/services/services/console-logger.service.ts:8-24 | "[ConsoleLogger] INFO: " for log, "WARN: " and "ERROR: " for the others, followed by the message |
| ConsoleLoggerService.Write | src/app/modules/services/services/console-logger.service.ts:8-24 | one entry appended at the end, earlier entries unchanged |
| ConsoleLoggerService.WriteAllInOrder | src/app/modules/services/services/console-logger.service.ts:8-24 | a sequence of calls on any logger leaves the earlier log in place and appends exactly one "[ConsoleLogger] LEVEL: message" entry per call, the i-th entry from the i-th call |
| BoundedLog.Prepend | src/app/modules/services/components/di-demo/di-demo.component.ts:186-194 | the new entry goes first; below ten entries the old log follows whole, otherwise without its oldest entry |
| BoundedLog.PrependBounded | src/app/modules/services/components/di-demo/di-demo.component.ts:191-194 | a log of at most ten entries grows by one up to ten, and the survivors keep their order |
| BoundedLog.NewestFirst | src/app/modules/services/components/di-demo/di-demo.component.ts:185-195 | from an empty log, the log holds the newest ten entries in reverse order of arrival |
| DiDemo.AddLog | src/app/modules/services/components/di-demo/di-demo.component.ts:185-195 | the new entry (time, source, message) is first, older entries follow in order, and the bound of ten holds |
| DiDemo.Create | src/app/modules/services/components/di-demo/di-demo.component.ts:176-183 | three entries, "Config loaded: name vversion" first, then the logger type, then "Component initialized"; tab "providedIn" |
| DiDemo.TestLogger | src/app/modules/services/components/di-demo/di-demo.component.ts:197-213 | the matching logger method is called once with "Test level message at time", and a "Logger" entry with the upper-cased level goes first |
| DiDemo.UpperLevelNames | src/app/modules/services/components/di-demo/di-demo.component.ts:212 | the upper-cased levels are INFO, WARN and ERROR |
| DiDemo.SetActiveTab | src/app/modules/services/components/di-demo/di-demo.component.ts:215-217 | the tab becomes the one given; logs and logger unchanged |
| DiDemo.ClearLogs | src/app/modules/services/components/di-demo/di-demo.component.ts:219-222 | exactly one entry remains: "System", "Logs cleared" |
| DiDemo.LogStaysBounded | src/app/modules/services/components/di-demo/di-demo.component.ts:185-222 | no sequence of operations grows the activity log past ten entries |
| DiDemo.CreatedLogBounded | src/app/modules/services/components/di-demo/di-demo.component.ts:176-222 | from construction on, the activity log stays within ten entries |
| EnvironmentDemo.TogglePanel | src/app/modules/forms/components/environment-demo/environment-demo.component.ts:115-117 | the open panel closes; any other panel opens; nothing else changes |
| EnvironmentDemo.ToggleTwice | src/app/modules/forms/components/environment-demo/environment-demo.component.ts:116 | toggling the same panel twice restores the state when that panel or nothing was open; if another was open, all end closed |
| EnvironmentDemo.ToggleOpensAtMostThatPanel | src/app/modules/forms/components/environment-demo/environment-demo.component.ts:116 | after toggling a panel, no other panel is open |
| EnvironmentDemo.SimulatedResponse | src/app/services/api.service.ts:83-93 | the simulated response carries the mock users and "Success (simulated)" |
| EnvironmentDemo.StartCall | src/app/modules/forms/components/environment-demo/environment-demo.component.ts:88-90 | loading on, no error message, no response |
| EnvironmentDemo.Complete | src/app/modules/forms/components/environment-demo/environment-demo.component.ts:99-106 | either callback turns loading off; `next` sets the response, `error` the message |
| EnvironmentDemo.ClearResponse | src/app/modules/forms/components/environment-demo/environment-demo.component.ts:110-113 | no response and no error message; loading and panel unchanged |
| EnvironmentDemo.CallEndsInOneOutcome | src/app/modules/forms/components/environment-demo/environment-demo.component.ts:87-108 | a call ends with loading off and a response exactly when it succeeded; an error message only on failure |
| EnvironmentDemo.SimulatedCallDeliversUsers | src/app/modules/forms/components/environment-demo/environment-demo.component.ts:92-101 | with the simulated service the call delivers the three mock users and no error |
| Config.ConfigFactory | src/app/modules/services/tokens/config.token.ts:40-50 | non-production gives the default configuration; production has the production URL with dark mode and analytics on; both are "Angular Demo" version "1.0.0" |
| Config.ProductionDiffersFromDefault | src/app/modules/services/tokens/config.token.ts:18-50 | production is the default with a different URL and analytics on; dark mode is on in both; the test configuration has both features off, the default has analytics off |
| Seqs.DedupFirstOccurrenceOrder | src/app/services/product.service.ts:102 | `[...new Set(xs)]` lists its elements in increasing order of first occurrence |
| Seqs.DedupSpec | src/app/services/product.service.ts:102 | `[...new Set(xs)]` repeats nothing, keeps every element and adds none |
| Seqs.FilterSpec | src/app/components/products/product-list/product-list.component.ts:36 | `filter` keeps exactly the elements satisfying the predicate, each as often as it occurs, as a subsequence |
| Text.IncludesIff | src/app/components/products/product-list/product-list.component.ts:37 | `includes` holds exactly when the substring occurs at some position |
| Text.TrimEmptyIff | src/app/modules/services/services/search.service.ts:138 | `trim()` is empty exactly when the string is all white space |
| Text.Utf16LengthBounds | src/app/modules/services/services/search.service.ts:155 | `length` counts each character once or twice, and equals the number of characters iff none lies outside the Basic Multilingual Plane |
| Text.IntToStringRoundTrip | src/app/modules/services/services/search.service.ts:61 | the decimal rendering of an integer reads back as that integer |

## Left out

- Stream timing: `delay`, `debounceTime`, `distinctUntilChanged`,
  switchMap's cancellation and subscriptions are asynchronous. Each
  pipeline is modelled by the value it computes and the entries it logs, as
  if every delay had elapsed.
- Search: the taps that log "Input" and "After debounce" in the switchMap
  demonstration run before the debounce decides which terms go on, so they
  are part of that timing and are not modelled. The "After
  distinctUntilChanged" tap is modelled (`DistinctTermStep`). The
  interleaving of log entries between overlapping searches is not modelled.
- `getLogs()` and `getOperationLog()` return copies (`[...logs]`). With
  immutable sequences a copy is the log itself, so these getters are plain
  accessors with no contract.
- The router, `UrlTree`, dependency injection and module configuration.
  Navigations are emitted values, and `ApplyNavigation` models only the
  query-parameter merge.
- Session storage holds users, not their JSON text. After a reload
  `loginTime` would come back as a string; the model keeps it as the same
  value.
- `alert`, `confirm` and console output. The confirm answer is a
  parameter, and the alert is a returned string.
- `new Date()` and `toLocaleTimeString()`: opaque parameters.
- Product prices: floating-point, so they are dropped from the product
  record.
- The framework's validators (`required`, `email`, `minLength`, `min` and
  the like), except where the username rule is stated with them. Control
  state (`touched` per control, `pending`, `hasError`) and form validity are
  taken as inputs, and "touched" is a single flag.
- `Number(...)` coercion is taken as its result, a `JsNumber`. Which
  strings give NaN is not modelled.
- Strings are sequences of Unicode scalar values. Where the source reads
  `length` of a string, the model counts UTF-16 code units
  (`Text.Utf16Length`). A string holding a lone surrogate cannot be
  written in the model.
- `toLowerCase` and `toUpperCase` fold ASCII letters only. Unicode case
  mapping is not modelled.
- Integers are unbounded. JavaScript doubles lose precision past 2^53, and
  counts that are not integers are not modelled.
- `FormArray.removeAt` takes a non-negative index. The framework's handling
  of negative indices is not modelled.
- `valueChanges`: the log entry each change produces is a separate step
  (`OnValueChange`). Which operations emit how many changes is framework
  behaviour.
- After `FormGroup.reset()` the controls hold `null`. This is modelled as
  `""`, `false` or 0, so after a reset `preferredContact` is `""`, not
  "email".
- The HTTP methods of `ApiService` and its error handling: a network client.
  Only `simulateApiCall`'s response is used.
- Static content: code-snippet tables, home pages and environment files.
- `AdminGuard`, `ConfirmLeaveGuard` and `NavbarComponent` are not part of
  this model.
- The rxjs-demo and state-management-demo components are not part of this
  model; they are subscription wiring only.
- Products.GetProducts: no contract. It returns the catalog constant, and
  the catalog is immutable here, so "never mutated" holds by construction.
- EnvironmentDemo.ToggleTwice: restores the earlier state only when the
  toggled panel or no panel was open. When another panel was open, the
  first toggle closes it, as an accordion should, so the second toggle
  cannot bring it back.
- AdvancedForms.OnCurrentJobChange: requires an existing index. The source
  reads `experience.at(index)` without a check and would fail on a missing
  entry.
