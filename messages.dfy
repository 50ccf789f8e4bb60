/** The messages of the sign-up cycle: what the user asks for (intents), what the view
    model asks its reducer to do (actions), and the one-shot signals to the view. */
module Messages {

  /** Which of the four inputs an edit is for (the enum keeps its own spelling). */
  datatype SignUpFieldsType = FULL_NAME | EMAIL | PASSWORD | CONFORM_PASSWORD

  datatype SignUpIntent =
    | UpdateField(signUpFieldsType: SignUpFieldsType, value: string)
    | SignUpButtonClicked

  datatype SignUpAction =
    | Loading(isLoading: bool)
    | Validation(fullNameHasError: bool, emailHasError: bool,
                 passwordHasError: bool, conformPasswordHasError: bool)
    | UpdateFields(fullName: string, email: string, password: string, conformPassword: string)

  datatype SignUpViewAction =
    | ShowToast(message: string)
    | ShowErrorDialog
}
