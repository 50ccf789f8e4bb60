# Sign-up form state machine (MVI) in Dafny

This project models the sign-up screen's Model-View-Intent cycle. The form state is a
plain value: four text fields, each with a value, an error flag and an (always empty)
error message, plus a loading flag. The user sends intents: edit one field, or press the
sign-up button. The view model turns intents into actions, reduces each action against
the current snapshot, and emits one-shot view actions (a toast, an error dialog).

Files and modules:

- `view_state.dfy`, module `ViewState`: the records `SignUpField` and `SignUpViewState`
  and their default values.
- `messages.dfy`, module `Messages`: the intents, the field kinds (spelled as in the
  source, including `CONFORM_PASSWORD`), the actions and the view actions.
- `transitions.dfy`, module `Transitions`: the pure logic. It holds the reducer `Reduce`,
  the field edit `ApplyFieldEdit` and the validation check (`AllFieldsFilled`,
  `ValidationFor`). `Transition` handles one intent and returns the new state and the
  ordered emissions. `Run` handles a sequence of intents. The lemmas about them sit here
  too.
- `view_model.dfy`, module `ViewModel`: the class `SignUpViewModel`. It holds the current
  snapshot in `viewState`. Its methods `Dispatcher`, `HandleIntent`, `UpdateSignUpFields`,
  `SignUpButtonClicked` and `ValidateSignUpFields` model the view model's functions of the
  same names, and each is proved against the pure functions. The source's `reduce` is not
  a method here: it is the pure function `Reduce`, which `Dispatcher` calls on the current
  snapshot. `EmitViewAction` stands for the `_viewActionFlow.emit` calls. A `trace` field
  records, in order, every action handed to the dispatcher (`Dispatched`) and every view
  action emitted (`Emitted`). Two example scenarios, `ScenarioEmptyEmail` and
  `ScenarioAllFilled`, drive a fresh view model through a few intents.

The model is sequential. Each `viewModelScope.launch` block runs to completion as soon as
it is started. The two-second `delay` has no observable effect. A field edit assigns the
snapshot directly, not through the dispatcher, so it changes `viewState` and adds nothing
to `trace`.

A successful submission ends by showing the error dialog right after the "Api Successful"
toast. This looks like a copy-paste slip in the source. The model reproduces it as written
(`SubmitWithAllFieldsFilled`) rather than correcting it.

## Model

| member | source | states |
|---|---|---|
| `Transitions.Reduce` | app/src/main/java/com/example/mviassignment/SignUpViewModel.kt:36-62 | `Loading(b)` sets only the loading flag, to `b`. `Validation` sets only each field's error flag, to the flag the action carries for that field. `UpdateFields` sets only each field's value. Everything else is kept, including `errorMessage`. |
| `Transitions.ApplyFieldEdit` | app/src/main/java/com/example/mviassignment/SignUpViewModel.kt:77-110 | The edited field gets the new value and is flagged exactly when that value is empty. It keeps its message. The other three fields and the loading flag are unchanged. |
| `Transitions.AllFieldsFilledByParts` | app/src/main/java/com/example/mviassignment/SignUpViewModel.kt:133-147 | Validation passes (no field of any kind is empty) exactly when each of the four separate emptiness checks passes. |
| `Transitions.ValidationFor` | app/src/main/java/com/example/mviassignment/SignUpViewModel.kt:149-159 | The action built by validation is a `Validation`. Its flag for each field kind is true exactly when that field's value is empty. |
| `Transitions.DefaultStateUnflagged` | app/src/main/java/com/example/mviassignment/SignUpViewState.kt:3-15 | The default snapshot is not loading and each of its four fields is the default field. So every field is empty, unflagged and has message `""`. "Flagged implies empty" holds at the start, but its converse does not. |
| `Transitions.ApplyFieldEditIdempotent` | app/src/main/java/com/example/mviassignment/SignUpViewModel.kt:81-109 | Editing a field twice with the same value gives the same state as editing it once. |
| `Transitions.EditsOfDistinctFieldsCommute` | app/src/main/java/com/example/mviassignment/SignUpViewModel.kt:81-109 | Edits to two different fields give the same state in either order. |
| `Transitions.ReduceIdempotent` | app/src/main/java/com/example/mviassignment/SignUpViewModel.kt:36-62 | Reducing the same action a second time changes nothing more. |
| `Transitions.SubmitWithEmptyField` | app/src/main/java/com/example/mviassignment/SignUpViewModel.kt:112-166 | When some field is empty, a submission flags exactly the empty fields. Values, messages and the loading flag are kept. The only emission is the one `Validation` dispatch: no loading transition and no view action. |
| `Transitions.SubmitWithAllFieldsFilled` | app/src/main/java/com/example/mviassignment/SignUpViewModel.kt:112-125 | When every field is filled, a submission emits exactly `Loading(true)`, `Loading(false)`, `ShowToast("Api Successful")`, `ShowErrorDialog`, in that order. The first dispatched action turns loading on and the second turns it off. The fields are unchanged and loading ends off. |
| `Transitions.SubmitSuccessLeavesNoFlag` | app/src/main/java/com/example/mviassignment/SignUpViewModel.kt:112-125 | If "flagged implies empty" holds, no field is flagged after a successful submission. |
| `Transitions.TransitionPreservesInvariant` | app/src/main/java/com/example/mviassignment/SignUpViewModel.kt:64-125 | Every intent keeps the invariant that a flagged field is empty. |
| `Transitions.TransitionKeepsMessages` | app/src/main/java/com/example/mviassignment/SignUpViewModel.kt:64-125 | No intent changes any field's `errorMessage`. |
| `Transitions.Transition` | app/src/main/java/com/example/mviassignment/SignUpViewModel.kt:64-166 | Pure model of `handleIntent`, with `updateSignUpFields`, `signUpButtonClicked` and `validateSignUpFields` inlined. It has no contract of its own. It is characterized by `SubmitWithEmptyField`, `SubmitWithAllFieldsFilled`, `TransitionPreservesInvariant`, `TransitionKeepsMessages` and `TransitionKeepsLoadingOff`, and `HandleIntent` is proved equal to it. |
| `Transitions.Run` | app/src/main/java/com/example/mviassignment/SignUpViewModel.kt:64-75 | Handles intents one at a time, in arrival order, concatenating their emissions. It has no contract of its own. It is characterized by `RunPreservesInvariant`, `RunKeepsMessages`, `RunKeepsLoadingOff`, `ReachableStates` and `LastEditWins`. |
| `Transitions.TransitionKeepsLoadingOff` | app/src/main/java/com/example/mviassignment/SignUpViewModel.kt:112-125 | If loading is off before an intent, it is off after it: a submission turns it on and back off, and edits do not touch it. |
| `Transitions.RunKeepsLoadingOff` | app/src/main/java/com/example/mviassignment/SignUpViewModel.kt:64-75 | If loading is off at the start, it is off after any sequence of intents. |
| `Transitions.RunPreservesInvariant` | app/src/main/java/com/example/mviassignment/SignUpViewModel.kt:64-75 | Any sequence of intents keeps the invariant that a flagged field is empty. |
| `Transitions.RunKeepsMessages` | app/src/main/java/com/example/mviassignment/SignUpViewModel.kt:64-75 | No sequence of intents changes any field's `errorMessage`. |
| `Transitions.ReachableStates` | app/src/main/java/com/example/mviassignment/SignUpViewState.kt:11-15 | In every state reachable from the default one, a flagged field is empty, every `errorMessage` is still `""`, and loading is off. |
| `Transitions.LastEditWins` | app/src/main/java/com/example/mviassignment/SignUpViewModel.kt:77-110 | After any sequence of field edits, each field holds the last value sent to it and is flagged exactly when that value is empty. A field never edited is unchanged. The loading flag is kept and nothing is emitted. |
| `ViewModel.SignUpViewModel.constructor` | app/src/main/java/com/example/mviassignment/SignUpViewModel.kt:18-23 | The view model starts with the default snapshot and an empty trace. The invariant holds and loading is off. |
| `ViewModel.SignUpViewModel.Dispatcher` | app/src/main/java/com/example/mviassignment/SignUpViewModel.kt:26-34 | The new snapshot is the reduction of the old one by the action. The action is appended to the trace. |
| `ViewModel.SignUpViewModel.EmitViewAction` | app/src/main/java/com/example/mviassignment/SignUpViewModel.kt:120-121 | The view action is appended to the trace. The snapshot is unchanged. |
| `ViewModel.SignUpViewModel.HandleIntent` | app/src/main/java/com/example/mviassignment/SignUpViewModel.kt:64-75 | The new snapshot and the appended emissions are exactly those of `Transition` for this intent. The invariant "flagged implies empty" is preserved, every message is kept, and loading off before means loading off after. |
| `ViewModel.SignUpViewModel.UpdateSignUpFields` | app/src/main/java/com/example/mviassignment/SignUpViewModel.kt:77-110 | The snapshot becomes `ApplyFieldEdit` of the old one. The trace is unchanged. |
| `ViewModel.SignUpViewModel.SignUpButtonClicked` | app/src/main/java/com/example/mviassignment/SignUpViewModel.kt:112-125 | The snapshot and the appended emissions are exactly those of a submission in `Transition`: validation failure dispatches only `Validation`, and success runs the four-step sequence. |
| `ViewModel.SignUpViewModel.ValidateSignUpFields` | app/src/main/java/com/example/mviassignment/SignUpViewModel.kt:127-166 | Returns true exactly when all four values are non-empty. When it returns true nothing changes. When it returns false it dispatches `ValidationFor` of the old snapshot, once. |
| `ViewModel.ScenarioEmptyEmail` | app/src/main/java/com/example/mviassignment/SignUpViewModel.kt:64-166 | On a fresh view model, the intents full name "Jo", e-mail "", then submit leave only the full name unflagged. Loading stays off. The trace is exactly one `Validation(false, true, true, true)`. |
| `ViewModel.ScenarioAllFilled` | app/src/main/java/com/example/mviassignment/SignUpViewModel.kt:64-166 | On a fresh view model, setting every field to "x" and then submitting leaves every field "x" and unflagged, with loading off. The trace is the loading-on, loading-off, toast, dialog sequence. |

## Left out

- Coroutine scheduling (`viewModelScope.launch`, `delay(2000)`) is not modelled: every launched block runs to completion immediately and the delay is a skipped step.
- The window between computing the `Validation` flags and the launched `reduce` reading the snapshot is not modelled, so edits cannot interleave with a pending dispatch.
- Duplicate or overlapping submissions are not modelled; this needs concurrency, and the source does not say what should happen.
- `MutableStateFlow` and `MutableSharedFlow` semantics (replay of the latest state, conflation of equal states, subscribers joining late) are not modelled. The trace records what is handed to the dispatcher and to the view-action flow, not what a subscriber would observe.
- `SignUpView.kt` (the Compose UI, toast, alert dialog and loader) and `MainActivity.kt` are not part of this model; they are presentation over Android libraries.
- String contents beyond emptiness play no role in the logic, so strings are plain `string` values and only `isEmpty()` is modelled.
- The default arguments of the `UpdateFields` action are not modelled separately; no intent builds that action.
