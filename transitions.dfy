/** The pure logic of the sign-up view model: the reducer, the field edit, the validation
    check, one intent as a transition of (state, emissions), and runs of many intents. */
module Transitions {
  import opened ViewState
  import opened Messages

  /** A nullable value, as Kotlin's `T?`. */
  datatype Option<T> = None | Some(value: T)

  /** What the view model emits while it handles an intent: an action handed to its
      dispatcher (each one publishes a new state), or a one-shot view action. */
  datatype Emission =
    | Dispatched(action: SignUpAction)
    | Emitted(viewAction: SignUpViewAction)

  /** The state after an intent, with what was emitted on the way, in order. */
  datatype Outcome = Outcome(state: SignUpViewState, emitted: seq<Emission>)

  /** The field of the snapshot that a field kind names. */
  function FieldOf(s: SignUpViewState, t: SignUpFieldsType): SignUpField
  {
    match t
    case FULL_NAME => s.fullName
    case EMAIL => s.email
    case PASSWORD => s.password
    case CONFORM_PASSWORD => s.confirmPassword
  }

  /** The error flag that a `Validation` action carries for field kind `t`. */
  function HasError(a: SignUpAction, t: SignUpFieldsType): bool
    requires a.Validation?
  {
    match t
    case FULL_NAME => a.fullNameHasError
    case EMAIL => a.emailHasError
    case PASSWORD => a.passwordHasError
    case CONFORM_PASSWORD => a.conformPasswordHasError
  }

  /** The value that an `UpdateFields` action carries for field kind `t`. */
  function NewValue(a: SignUpAction, t: SignUpFieldsType): string
    requires a.UpdateFields?
  {
    match t
    case FULL_NAME => a.fullName
    case EMAIL => a.email
    case PASSWORD => a.password
    case CONFORM_PASSWORD => a.conformPassword
  }

  /** Kotlin's `String.isEmpty()`. */
  predicate IsEmpty(v: string)
  {
    |v| == 0
  }

  /** The reducer: each action overwrites one component of every field, or the loading
      flag, and keeps everything else. */
  function Reduce(s: SignUpViewState, a: SignUpAction): (r: SignUpViewState)
    ensures a.Loading? ==>
      r.isLoading == a.isLoading && forall t :: FieldOf(r, t) == FieldOf(s, t)
    ensures a.Validation? ==>
      r.isLoading == s.isLoading && forall t :: FieldOf(r, t) == FieldOf(s, t).(isError := HasError(a, t))
    ensures a.UpdateFields? ==>
      r.isLoading == s.isLoading && forall t :: FieldOf(r, t) == FieldOf(s, t).(value := NewValue(a, t))
  {
    match a
    case Loading(b) => s.(isLoading := b)
    case Validation(fn, em, pw, cp) =>
      s.(fullName := s.fullName.(isError := fn),
         email := s.email.(isError := em),
         password := s.password.(isError := pw),
         confirmPassword := s.confirmPassword.(isError := cp))
    case UpdateFields(fn, em, pw, cp) =>
      s.(fullName := s.fullName.(value := fn),
         email := s.email.(value := em),
         password := s.password.(value := pw),
         confirmPassword := s.confirmPassword.(value := cp))
  }

  /** A field edit: the named field takes the new text and is flagged exactly when that
      text is empty; its message, the other fields and the loading flag are kept. */
  function ApplyFieldEdit(s: SignUpViewState, t: SignUpFieldsType, v: string): (r: SignUpViewState)
    ensures FieldOf(r, t).value == v
    ensures FieldOf(r, t).isError <==> IsEmpty(v)
    ensures FieldOf(r, t).errorMessage == FieldOf(s, t).errorMessage
    ensures forall u :: u != t ==> FieldOf(r, u) == FieldOf(s, u)
    ensures r.isLoading == s.isLoading
  {
    match t
    case FULL_NAME => s.(fullName := s.fullName.(value := v, isError := IsEmpty(v)))
    case EMAIL => s.(email := s.email.(value := v, isError := IsEmpty(v)))
    case PASSWORD => s.(password := s.password.(value := v, isError := IsEmpty(v)))
    case CONFORM_PASSWORD => s.(confirmPassword := s.confirmPassword.(value := v, isError := IsEmpty(v)))
  }

  /** Validation passes when no field is empty. */
  predicate AllFieldsFilled(s: SignUpViewState)
  {
    forall t :: !IsEmpty(FieldOf(s, t).value)
  }

  /** Validation passes exactly when each of the four checks passes. */
  lemma AllFieldsFilledByParts(s: SignUpViewState)
    ensures AllFieldsFilled(s) <==>
      && !IsEmpty(s.fullName.value) && !IsEmpty(s.email.value)
      && !IsEmpty(s.password.value) && !IsEmpty(s.confirmPassword.value)
  {
    assert FieldOf(s, FULL_NAME) == s.fullName && FieldOf(s, EMAIL) == s.email;
    assert FieldOf(s, PASSWORD) == s.password && FieldOf(s, CONFORM_PASSWORD) == s.confirmPassword;
  }

  /** The `Validation` action built from the four emptiness checks. */
  function ValidationFor(s: SignUpViewState): (a: SignUpAction)
    ensures a.Validation?
    ensures forall t :: HasError(a, t) <==> IsEmpty(FieldOf(s, t).value)
  {
    Validation(IsEmpty(s.fullName.value), IsEmpty(s.email.value),
               IsEmpty(s.password.value), IsEmpty(s.confirmPassword.value))
  }

  /** Handling one intent, with every launched task run to completion at once and the
      simulated network delay taking no observable step. */
  function Transition(s: SignUpViewState, i: SignUpIntent): Outcome
  {
    match i
    case UpdateField(t, v) => Outcome(ApplyFieldEdit(s, t, v), [])
    case SignUpButtonClicked =>
      if AllFieldsFilled(s) then
        Outcome(Reduce(Reduce(s, Loading(true)), Loading(false)),
                [Dispatched(Loading(true)), Dispatched(Loading(false)),
                 Emitted(ShowToast("Api Successful")), Emitted(ShowErrorDialog)])
      else
        Outcome(Reduce(s, ValidationFor(s)), [Dispatched(ValidationFor(s))])
  }

  /** Handling a sequence of intents in arrival order. */
  function Run(s: SignUpViewState, intents: seq<SignUpIntent>): Outcome
    decreases |intents|
  {
    if intents == [] then Outcome(s, [])
    else
      var first := Transition(s, intents[0]);
      var rest := Run(first.state, intents[1..]);
      Outcome(rest.state, first.emitted + rest.emitted)
  }

  /** Nothing in `emitted` is a loading transition or a view action. */
  predicate NoLoadingNorViewAction(emitted: seq<Emission>)
  {
    forall k :: 0 <= k < |emitted| ==> emitted[k].Dispatched? && !emitted[k].action.Loading?
  }

  /** The form invariant: a flagged field is an empty one. */
  predicate ErrorImpliesEmpty(s: SignUpViewState)
  {
    forall t :: FieldOf(s, t).isError ==> IsEmpty(FieldOf(s, t).value)
  }

  /** Every field of `r` has the message it has in `s`. */
  predicate SameMessages(s: SignUpViewState, r: SignUpViewState)
  {
    forall t :: FieldOf(r, t).errorMessage == FieldOf(s, t).errorMessage
  }

  /** The last text that `intents` sends to field kind `t`, if any. */
  function LastEditFor(intents: seq<SignUpIntent>, t: SignUpFieldsType): Option<string>
    decreases |intents|
  {
    if intents == [] then None
    else
      var later := LastEditFor(intents[1..], t);
      if later.Some? then later
      else if intents[0].UpdateField? && intents[0].signUpFieldsType == t then Some(intents[0].value)
      else None
  }

  /** Every intent of the sequence is a field edit. */
  predicate OnlyEdits(intents: seq<SignUpIntent>)
  {
    forall k :: 0 <= k < |intents| ==> intents[k].UpdateField?
  }

  // ---------------------------------------------------------------------------------
  // The initial state

  /** The initial state is not loading and each of its fields is the default field: empty,
      not flagged, with an empty message. So the invariant holds at the start, although its
      converse (an empty field is flagged) does not. */
  lemma DefaultStateUnflagged()
    ensures !DefaultViewState().isLoading
    ensures forall t :: FieldOf(DefaultViewState(), t) == DefaultField()
    ensures forall t ::
      && IsEmpty(FieldOf(DefaultViewState(), t).value)
      && !FieldOf(DefaultViewState(), t).isError
      && FieldOf(DefaultViewState(), t).errorMessage == ""
    ensures ErrorImpliesEmpty(DefaultViewState())
  {
  }

  // ---------------------------------------------------------------------------------
  // Field edits

  /** Editing a field twice with the same text is the same as editing it once. */
  lemma ApplyFieldEditIdempotent(s: SignUpViewState, t: SignUpFieldsType, v: string)
    ensures ApplyFieldEdit(ApplyFieldEdit(s, t, v), t, v) == ApplyFieldEdit(s, t, v)
  {
  }

  /** Edits of two different fields do not interfere: their order does not matter. */
  lemma EditsOfDistinctFieldsCommute(s: SignUpViewState, t: SignUpFieldsType, v: string,
                                     u: SignUpFieldsType, w: string)
    requires t != u
    ensures ApplyFieldEdit(ApplyFieldEdit(s, t, v), u, w) == ApplyFieldEdit(ApplyFieldEdit(s, u, w), t, v)
  {
  }

  // ---------------------------------------------------------------------------------
  // The reducer

  /** Applying any action a second time changes nothing more. */
  lemma ReduceIdempotent(s: SignUpViewState, a: SignUpAction)
    ensures Reduce(Reduce(s, a), a) == Reduce(s, a)
  {
  }

  // ---------------------------------------------------------------------------------
  // Submission

  /** Submitting with some field empty flags exactly the empty fields, keeps the texts,
      messages and loading flag, and dispatches only the `Validation` action: no loading
      transition and no view action. */
  lemma SubmitWithEmptyField(s: SignUpViewState)
    requires !AllFieldsFilled(s)
    ensures var o := Transition(s, SignUpButtonClicked);
      && (forall t :: FieldOf(o.state, t).isError <==> IsEmpty(FieldOf(s, t).value))
      && (forall t :: FieldOf(o.state, t).value == FieldOf(s, t).value)
      && SameMessages(s, o.state)
      && o.state.isLoading == s.isLoading
      && o.emitted == [Dispatched(ValidationFor(s))]
      && NoLoadingNorViewAction(o.emitted)
  {
  }

  /** Submitting with every field filled turns loading on then off, then shows the toast
      "Api Successful" and then the error dialog; the fields are kept and loading ends off. */
  lemma SubmitWithAllFieldsFilled(s: SignUpViewState)
    requires AllFieldsFilled(s)
    ensures var o := Transition(s, SignUpButtonClicked);
      && o.emitted == [Dispatched(Loading(true)), Dispatched(Loading(false)),
                       Emitted(ShowToast("Api Successful")), Emitted(ShowErrorDialog)]
      && !o.state.isLoading
      && (forall t :: FieldOf(o.state, t) == FieldOf(s, t))
  {
  }

  /** When the invariant holds, a successful submission happens with no field flagged. */
  lemma SubmitSuccessLeavesNoFlag(s: SignUpViewState)
    requires ErrorImpliesEmpty(s) && AllFieldsFilled(s)
    ensures forall t :: !FieldOf(Transition(s, SignUpButtonClicked).state, t).isError
  {
  }

  // ---------------------------------------------------------------------------------
  // Invariants of every intent and of every run

  /** Every intent keeps "a flagged field is empty". */
  lemma TransitionPreservesInvariant(s: SignUpViewState, i: SignUpIntent)
    requires ErrorImpliesEmpty(s)
    ensures ErrorImpliesEmpty(Transition(s, i).state)
  {
  }

  /** No intent changes any field's message. */
  lemma TransitionKeepsMessages(s: SignUpViewState, i: SignUpIntent)
    ensures SameMessages(s, Transition(s, i).state)
  {
  }

  lemma {:induction false} RunPreservesInvariant(s: SignUpViewState, intents: seq<SignUpIntent>)
    requires ErrorImpliesEmpty(s)
    ensures ErrorImpliesEmpty(Run(s, intents).state)
    decreases |intents|
  {
    if intents != [] {
      TransitionPreservesInvariant(s, intents[0]);
      RunPreservesInvariant(Transition(s, intents[0]).state, intents[1..]);
    }
  }

  lemma {:induction false} RunKeepsMessages(s: SignUpViewState, intents: seq<SignUpIntent>)
    ensures SameMessages(s, Run(s, intents).state)
    decreases |intents|
  {
    if intents != [] {
      TransitionKeepsMessages(s, intents[0]);
      RunKeepsMessages(Transition(s, intents[0]).state, intents[1..]);
    }
  }

  /** Between intents loading is off: a submission turns it on and off again within
      the same intent, and no other intent touches it. */
  lemma TransitionKeepsLoadingOff(s: SignUpViewState, i: SignUpIntent)
    requires !s.isLoading
    ensures !Transition(s, i).state.isLoading
  {
  }

  lemma {:induction false} RunKeepsLoadingOff(s: SignUpViewState, intents: seq<SignUpIntent>)
    requires !s.isLoading
    ensures !Run(s, intents).state.isLoading
    decreases |intents|
  {
    if intents != [] {
      TransitionKeepsLoadingOff(s, intents[0]);
      RunKeepsLoadingOff(Transition(s, intents[0]).state, intents[1..]);
    }
  }

  /** In every state reachable from the default one, a flagged field is empty, every
      message is still the default empty one, and loading is off. */
  lemma ReachableStates(intents: seq<SignUpIntent>)
    ensures ErrorImpliesEmpty(Run(DefaultViewState(), intents).state)
    ensures forall t :: FieldOf(Run(DefaultViewState(), intents).state, t).errorMessage == ""
    ensures !Run(DefaultViewState(), intents).state.isLoading
  {
    RunPreservesInvariant(DefaultViewState(), intents);
    RunKeepsMessages(DefaultViewState(), intents);
    RunKeepsLoadingOff(DefaultViewState(), intents);
  }

  /** After any sequence of field edits, each field holds the last text sent to it and is
      flagged exactly when that text is empty (a field never edited is unchanged); the
      loading flag is kept and nothing is emitted. */
  lemma {:induction false} LastEditWins(s: SignUpViewState, intents: seq<SignUpIntent>, t: SignUpFieldsType)
    requires OnlyEdits(intents)
    ensures FieldOf(Run(s, intents).state, t) ==
      match LastEditFor(intents, t)
      case None => FieldOf(s, t)
      case Some(v) => FieldOf(s, t).(value := v, isError := IsEmpty(v))
    ensures Run(s, intents).state.isLoading == s.isLoading
    ensures Run(s, intents).emitted == []
    decreases |intents|
  {
    if intents != [] {
      var first := Transition(s, intents[0]);
      assert OnlyEdits(intents[1..]) by {
        forall k | 0 <= k < |intents[1..]| ensures intents[1..][k].UpdateField? {
          assert intents[1..][k] == intents[k + 1];
        }
      }
      LastEditWins(first.state, intents[1..], t);
    }
  }
}
