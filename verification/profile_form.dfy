/** The Profile page's `handleSubmit`: the form fields and the signed-in user's id go
    into one `profiles` row that is upserted; the outcome is only logged. */
module ProfileForm {
  import opened Wrappers
  import Auth

  /** The form state `handleSubmit` reads. */
  datatype Form = Form(fullName: string, ageCategory: string, interests: seq<string>)

  /** The row passed to `upsert`; `id` is `undefined` when no user is signed in. */
  datatype ProfileRow = ProfileRow(id: Option<string>, fullName: string, ageCategory: string, interests: seq<string>)

  /** What the upsert did: succeeded, returned an error, or threw. */
  datatype UpsertOutcome = UpsertOk | UpsertError | UpsertThrew

  /** The row built from the form and `user?.id`. */
  function UpsertRow(form: Form, user: Option<Auth.UserRecord>): (row: ProfileRow)
    ensures row.id.Some? <==> user.Some?
    ensures user.Some? ==> row.id.value == user.value.id
  {
    ProfileRow(if user.Some? then Some(user.value.id) else None, form.fullName, form.ageCategory, form.interests)
  }

  /** The form a row records. */
  function FormOf(row: ProfileRow): Form {
    Form(row.fullName, row.ageCategory, row.interests)
  }

  /** The row passes every form field through unchanged: reading the form back from it
      gives the form that was submitted, for any user. */
  lemma UpsertRowRoundTrip(form: Form, user: Option<Auth.UserRecord>)
    ensures FormOf(UpsertRow(form, user)) == form
  {
  }

  const SubmittingLine := "Submitting Profile:"
  const SavedLine := "Profile updated successfully:"
  const SaveErrorLine := "Error saving profile:"
  const SaveThrewLine := "Error updating profile:"

  /** The line logged once the upsert has settled. */
  function OutcomeLine(outcome: UpsertOutcome): string {
    match outcome
    case UpsertOk => SavedLine
    case UpsertError => SaveErrorLine
    case UpsertThrew => SaveThrewLine
  }

  /** What `handleSubmit` did: the row it sent, the form afterwards and the lines it
      logged, in order (the logged objects are left out). */
  datatype Submitted = Submitted(row: ProfileRow, form: Form, logged: seq<string>)

  /** `handleSubmit`: the form is logged, the row is upserted, and the outcome is logged.
      Whatever the outcome, the form is left as it was. */
  function Submit(form: Form, user: Option<Auth.UserRecord>, outcome: UpsertOutcome): (r: Submitted)
    ensures r.form == form
    ensures FormOf(r.row) == form
    ensures r.row.id == (if user.Some? then Some(user.value.id) else None)
    ensures |r.logged| == 2 && r.logged[0] == SubmittingLine
    ensures r.logged[1] == SavedLine <==> outcome.UpsertOk?
    ensures r.logged[1] == SaveErrorLine <==> outcome.UpsertError?
    ensures r.logged[1] == SaveThrewLine <==> outcome.UpsertThrew?
  {
    Submitted(UpsertRow(form, user), form, [SubmittingLine, OutcomeLine(outcome)])
  }

  /** The log tells the three outcomes apart, and the row sent does not depend on the
      outcome. */
  lemma SubmitLogIdentifiesOutcome(form: Form, user: Option<Auth.UserRecord>, o1: UpsertOutcome, o2: UpsertOutcome)
    ensures Submit(form, user, o1).row == Submit(form, user, o2).row
    ensures Submit(form, user, o1).logged == Submit(form, user, o2).logged <==> o1 == o2
  {
  }
}
