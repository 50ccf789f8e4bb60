/** The sign-up view model: a holder of the current snapshot that handles intents by
    updating it in place, and a trace of what it emits (dispatched actions and view
    actions), in order. Every launched task runs to completion at once. */
module ViewModel {
  import opened ViewState
  import opened Messages
  import opened Transitions

  class SignUpViewModel {
    /** The current snapshot of the form. */
    var viewState: SignUpViewState
    /** Every action handed to the dispatcher and every view action emitted so far. */
    var trace: seq<Emission>

    constructor ()
      ensures viewState == DefaultViewState()
      ensures trace == []
      ensures ErrorImpliesEmpty(viewState) && !viewState.isLoading
    {
      viewState := DefaultViewState();
      trace := [];
      DefaultStateUnflagged();
    }

    /** Reduces the action against the current snapshot and publishes the result. */
    method Dispatcher(signUpAction: SignUpAction)
      modifies this
      ensures viewState == Reduce(old(viewState), signUpAction)
      ensures trace == old(trace) + [Dispatched(signUpAction)]
    {
      var updatedState := Reduce(viewState, signUpAction);
      viewState := updatedState;
      trace := trace + [Dispatched(signUpAction)];
    }

    /** Emits a one-shot view action; the snapshot is untouched. */
    method EmitViewAction(viewAction: SignUpViewAction)
      modifies this
      ensures viewState == old(viewState)
      ensures trace == old(trace) + [Emitted(viewAction)]
    {
      trace := trace + [Emitted(viewAction)];
    }

    method HandleIntent(signUpIntent: SignUpIntent)
      modifies this
      ensures viewState == Transition(old(viewState), signUpIntent).state
      ensures trace == old(trace) + Transition(old(viewState), signUpIntent).emitted
      ensures ErrorImpliesEmpty(old(viewState)) ==> ErrorImpliesEmpty(viewState)
      ensures SameMessages(old(viewState), viewState)
      ensures !old(viewState).isLoading ==> !viewState.isLoading
    {
      ghost var before := viewState;
      match signUpIntent {
        case UpdateField(t, v) =>
          UpdateSignUpFields(t, v);
        case SignUpButtonClicked =>
          SignUpButtonClicked();
      }
      if ErrorImpliesEmpty(before) {
        TransitionPreservesInvariant(before, signUpIntent);
      }
      TransitionKeepsMessages(before, signUpIntent);
      if !before.isLoading {
        TransitionKeepsLoadingOff(before, signUpIntent);
      }
    }

    /** Replaces the named field's text and flags it when the text is empty; the snapshot is
        assigned directly, without the dispatcher, so nothing enters the trace. */
    method UpdateSignUpFields(signUpFieldsType: SignUpFieldsType, value: string)
      modifies this
      ensures viewState == ApplyFieldEdit(old(viewState), signUpFieldsType, value)
      ensures trace == old(trace)
    {
      match signUpFieldsType
      case FULL_NAME =>
        viewState := viewState.(fullName := viewState.fullName.(value := value, isError := IsEmpty(value)));
      case EMAIL =>
        viewState := viewState.(email := viewState.email.(value := value, isError := IsEmpty(value)));
      case PASSWORD =>
        viewState := viewState.(password := viewState.password.(value := value, isError := IsEmpty(value)));
      case CONFORM_PASSWORD =>
        viewState := viewState.(confirmPassword := viewState.confirmPassword.(value := value, isError := IsEmpty(value)));
    }

    /** Validates; only when validation passes does it go loading, wait, stop loading and
        show the toast and then the dialog. */
    method SignUpButtonClicked()
      modifies this
      ensures viewState == Transition(old(viewState), Messages.SignUpButtonClicked).state
      ensures trace == old(trace) + Transition(old(viewState), Messages.SignUpButtonClicked).emitted
    {
      var isValid := ValidateSignUpFields();
      if isValid {
        Dispatcher(Loading(true));
        // The simulated two-second network delay has no observable effect here.
        Dispatcher(Loading(false));
        EmitViewAction(ShowToast("Api Successful"));
        EmitViewAction(ShowErrorDialog);
      }
    }

    /** Checks the four fields independently; dispatches a `Validation` action only when
        some field is empty, and answers whether every field is filled. */
    method ValidateSignUpFields() returns (isValid: bool)
      modifies this
      ensures isValid <==> AllFieldsFilled(old(viewState))
      ensures isValid ==> viewState == old(viewState) && trace == old(trace)
      ensures !isValid ==>
        && viewState == Reduce(old(viewState), ValidationFor(old(viewState)))
        && trace == old(trace) + [Dispatched(ValidationFor(old(viewState)))]
    {
      var fullNameHasError := false;
      var emailHasError := false;
      var passwordHasError := false;
      var confirmPasswordHasError := false;

      if IsEmpty(viewState.fullName.value) {
        fullNameHasError := true;
      }
      if IsEmpty(viewState.email.value) {
        emailHasError := true;
      }
      if IsEmpty(viewState.password.value) {
        passwordHasError := true;
      }
      if IsEmpty(viewState.confirmPassword.value) {
        confirmPasswordHasError := true;
      }

      var signUpAction: Option<SignUpAction> :=
        if fullNameHasError || emailHasError || passwordHasError || confirmPasswordHasError then
          Some(Validation(fullNameHasError, emailHasError, passwordHasError, confirmPasswordHasError))
        else
          None;

      if signUpAction.Some? {
        Dispatcher(signUpAction.value);
      }
      isValid := signUpAction == None;
      AllFieldsFilledByParts(old(viewState));
    }
  }

  /** A full name, then an empty e-mail, then a submission, on a fresh view model: the
      e-mail and the two untouched passwords are flagged, the full name is not, loading
      never starts and no view action is shown. */
  method ScenarioEmptyEmail() returns (state: SignUpViewState, emitted: seq<Emission>)
    ensures !state.fullName.isError && state.email.isError
    ensures state.password.isError && state.confirmPassword.isError
    ensures !state.isLoading
    ensures emitted == [Dispatched(Validation(false, true, true, true))]
  {
    var model := new SignUpViewModel();
    model.HandleIntent(UpdateField(FULL_NAME, "Jo"));
    model.HandleIntent(UpdateField(EMAIL, ""));
    model.HandleIntent(SignUpButtonClicked);
    state, emitted := model.viewState, model.trace;
  }

  /** Every field set to "x", then a submission: loading on, loading off, the toast, the
      dialog, in that order, and no field flagged at the end. */
  method ScenarioAllFilled() returns (state: SignUpViewState, emitted: seq<Emission>)
    ensures !state.isLoading
    ensures forall t :: FieldOf(state, t).value == "x" && !FieldOf(state, t).isError
    ensures emitted == [Dispatched(Loading(true)), Dispatched(Loading(false)),
                        Emitted(ShowToast("Api Successful")), Emitted(ShowErrorDialog)]
  {
    var model := new SignUpViewModel();
    model.HandleIntent(UpdateField(FULL_NAME, "x"));
    model.HandleIntent(UpdateField(EMAIL, "x"));
    model.HandleIntent(UpdateField(PASSWORD, "x"));
    model.HandleIntent(UpdateField(CONFORM_PASSWORD, "x"));
    model.HandleIntent(SignUpButtonClicked);
    state, emitted := model.viewState, model.trace;
  }
}
