/** The profile dashboard (src/app/dashboard/page.tsx): loading the user's
    `userData` row into the form with its defaults, and the Edit/Save
    toggle with its upsert payload. The session and the database answers
    are parameters; the clock is the `now` parameter. */
module Dashboard {
  import opened Wrappers
  import Text

  /** `{ title?: string; description?: string }`; `None` is a missing key. */
  datatype ProjectRow = ProjectRow(title: Option<string>, description: Option<string>)

  /** `UserDataRow`; `None` is `null`. */
  datatype UserDataRow = UserDataRow(
    id: string,
    email: Option<string>,
    name: Option<string>,
    education: Option<string>,
    hobbies: Option<string>,
    workExperience: Option<string>,
    project1: Option<ProjectRow>,
    project2: Option<ProjectRow>,
    skills: Option<string>,
    achievements: Option<string>,
    additionalData: Option<string>)

  /** The twelve text fields of the form. */
  datatype ProfileForm = ProfileForm(
    name: string,
    email: string,
    education: string,
    hobbies: string,
    workExperience: string,
    skills: string,
    project1Title: string,
    project1Description: string,
    project2Title: string,
    project2Description: string,
    achievements: string,
    additionalData: string)

  const BlankForm := ProfileForm("", "", "", "", "", "", "", "", "", "", "", "")

  datatype AuthUser = AuthUser(id: string, email: Option<string>)

  datatype QueryError = QueryError(code: string, message: string)

  /** The code `maybeSingle` reports for "no row". */
  const NotFoundCode := "PGRST116"

  datatype DashboardState = DashboardState(
    loading: bool,
    saving: bool,
    isEditing: bool,
    error: Option<string>,
    userId: Option<string>,
    form: ProfileForm,
    savedAt: Option<int>)

  const InitialState := DashboardState(true, false, false, None, None, BlankForm, None)

  // ----- load -----

  function ProjectTitle(p: Option<ProjectRow>): string {
    if p.Some? then p.value.title.GetOr("") else ""
  }

  function ProjectDescription(p: Option<ProjectRow>): string {
    if p.Some? then p.value.description.GetOr("") else ""
  }

  /** A form field shows a stored value: the value itself, or "" when it
      is missing. */
  predicate Shows(stored: Option<string>, field: string) {
    (stored.None? ==> field == "") && (stored.Some? ==> field == stored.value)
  }

  /** The form filled from a stored row: every missing value reads as "",
      and the email falls back to the session's email first. */
  function FormFromRow(row: UserDataRow, sessionEmail: Option<string>): (f: ProfileForm)
    ensures f.email == (if row.email.Some? then row.email.value else sessionEmail.GetOr(""))
    ensures Shows(row.name, f.name)
    ensures Shows(row.education, f.education)
    ensures Shows(row.hobbies, f.hobbies)
    ensures Shows(row.workExperience, f.workExperience)
    ensures Shows(row.skills, f.skills)
    ensures Shows(row.achievements, f.achievements)
    ensures Shows(row.additionalData, f.additionalData)
    ensures row.project1.None? ==> f.project1Title == "" && f.project1Description == ""
    ensures row.project1.Some? ==>
      Shows(row.project1.value.title, f.project1Title) && Shows(row.project1.value.description, f.project1Description)
    ensures row.project2.None? ==> f.project2Title == "" && f.project2Description == ""
    ensures row.project2.Some? ==>
      Shows(row.project2.value.title, f.project2Title) && Shows(row.project2.value.description, f.project2Description)
  {
    ProfileForm(
      row.name.GetOr(""),
      row.email.GetOr(sessionEmail.GetOr("")),
      row.education.GetOr(""),
      row.hobbies.GetOr(""),
      row.workExperience.GetOr(""),
      row.skills.GetOr(""),
      ProjectTitle(row.project1),
      ProjectDescription(row.project1),
      ProjectTitle(row.project2),
      ProjectDescription(row.project2),
      row.achievements.GetOr(""),
      row.additionalData.GetOr(""))
  }

  /** The state after `load`, and whether it sent the visitor to the login
      page instead. */
  datatype LoadResult = LoadResult(state: DashboardState, redirectToLogin: bool)

  /** `load`: without a signed-in user, redirect; a query error other than
      "no row" is shown and stops loading with the form untouched; a row
      fills the form; no row only fills the email from the session. */
  function Load(s: DashboardState, user: Option<AuthUser>, row: Option<UserDataRow>, err: Option<QueryError>): (r: LoadResult)
    ensures r.redirectToLogin <==> user.None?
    ensures r.redirectToLogin ==> r.state == s.(loading := true, error := None)
    ensures user.Some? ==> r.state.userId == Some(user.value.id) && !r.state.loading
    ensures user.Some? && err.Some? && err.value.code != NotFoundCode ==>
      r.state.error == Some(err.value.message) && r.state.form == s.form
    ensures user.Some? && (err.None? || err.value.code == NotFoundCode) ==>
      && r.state.error.None?
      && (row.Some? ==> r.state.form == FormFromRow(row.value, user.value.email))
      && (row.None? ==> r.state.form == s.form.(email := user.value.email.GetOr("")))
    ensures r.state.(loading := s.loading, error := s.error, userId := s.userId, form := s.form) == s
  {
    var started := s.(loading := true, error := None);
    if user.None? then LoadResult(started, true)
    else
      var withUser := started.(userId := Some(user.value.id));
      if err.Some? && err.value.code != NotFoundCode then
        LoadResult(withUser.(error := Some(err.value.message), loading := false), false)
      else if row.Some? then
        LoadResult(withUser.(form := FormFromRow(row.value, user.value.email), loading := false), false)
      else
        LoadResult(withUser.(form := withUser.form.(email := user.value.email.GetOr("")), loading := false), false)
  }

  /** A "no row" error is not an error: it loads exactly like an answer
      without error. */
  lemma NotFoundIsNotAnError(s: DashboardState, user: AuthUser, row: Option<UserDataRow>, message: string)
    ensures Load(s, Some(user), row, Some(QueryError(NotFoundCode, message))) == Load(s, Some(user), row, None)
  {
  }

  // ----- edit / save -----

  /** The upsert payload; a `None` project field is `undefined`, which the
      store receives as a missing key. */
  datatype UpsertPayload = UpsertPayload(
    id: string,
    email: string,
    name: string,
    education: string,
    hobbies: string,
    workExperience: string,
    project1: ProjectRow,
    project2: ProjectRow,
    skills: string,
    achievements: string,
    additionalData: string)

  /** The payload of `handleToggle`: the fields as typed, except that
      `value || null || undefined` leaves an empty project field out. */
  function PayloadOf(f: ProfileForm, id: string): (p: UpsertPayload)
    ensures p.id == id
    ensures p.email == f.email && p.name == f.name && p.education == f.education && p.hobbies == f.hobbies
    ensures p.workExperience == f.workExperience && p.skills == f.skills
    ensures p.achievements == f.achievements && p.additionalData == f.additionalData
    ensures p.project1 == ProjectRow(Text.OrNull(f.project1Title), Text.OrNull(f.project1Description))
    ensures p.project2 == ProjectRow(Text.OrNull(f.project2Title), Text.OrNull(f.project2Description))
  {
    UpsertPayload(id, f.email, f.name, f.education, f.hobbies, f.workExperience,
                  ProjectRow(Text.OrNull(f.project1Title), Text.OrNull(f.project1Description)),
                  ProjectRow(Text.OrNull(f.project2Title), Text.OrNull(f.project2Description)),
                  f.skills, f.achievements, f.additionalData)
  }

  /** What the upsert returns: success, an error object, or a thrown
      exception. */
  datatype UpsertOutcome = Upserted | UpsertFailed(message: string) | UpsertThrew

  /** The state after a click on the toggle, and the payload upserted, if
      any. */
  datatype ToggleResult = ToggleResult(state: DashboardState, sent: Option<UpsertPayload>)

  /** `!userId`: a missing or empty id. */
  predicate NoUser(userId: Option<string>) {
    userId.None? || userId.value == ""
  }

  /** `handleToggle`. */
  function HandleToggle(s: DashboardState, outcome: UpsertOutcome, now: int): (r: ToggleResult)
    ensures s.saving ==> r == ToggleResult(s, None)
    ensures !s.saving && !s.isEditing ==> r == ToggleResult(s.(isEditing := true), None)
    ensures !s.saving && s.isEditing && NoUser(s.userId) ==> r == ToggleResult(s, None)
    ensures r.sent.Some? <==> !s.saving && s.isEditing && !NoUser(s.userId)
    ensures r.sent.Some? ==>
      && r.sent.value == PayloadOf(s.form, s.userId.value)
      && !r.state.saving && r.state.form == s.form
      && (outcome.Upserted? ==> !r.state.isEditing && r.state.savedAt == Some(now) && r.state.error.None?)
      && (outcome.UpsertFailed? ==> r.state.isEditing && r.state.error == Some(outcome.message) && r.state.savedAt == s.savedAt)
      && (outcome.UpsertThrew? ==> r.state.isEditing && r.state.error.None? && r.state.savedAt == s.savedAt)
  {
    if s.saving then ToggleResult(s, None)
    else if !s.isEditing then ToggleResult(s.(isEditing := true), None)
    else if NoUser(s.userId) then ToggleResult(s, None)
    else
      var payload := PayloadOf(s.form, s.userId.value);
      var cleared := s.(error := None);
      var after := match outcome
        case Upserted => cleared.(isEditing := false, savedAt := Some(now))
        case UpsertFailed(m) => cleared.(error := Some(m))
        case UpsertThrew => cleared;
      ToggleResult(after.(saving := false), Some(payload))
  }

  /** Two clicks from the viewing mode with a successful save: the first
      enters editing and writes nothing, the second writes the form once and
      leaves editing. */
  lemma EditThenSave(s: DashboardState, outcome: UpsertOutcome, now: int)
    requires !s.saving && !s.isEditing && !NoUser(s.userId)
    ensures var first := HandleToggle(s, outcome, now);
      var second := HandleToggle(first.state, Upserted, now);
      && first.sent.None? && first.state.isEditing
      && second.sent == Some(PayloadOf(s.form, s.userId.value))
      && !second.state.isEditing && second.state.savedAt == Some(now)
  {
  }

  /** The row the store holds after the upsert of `p`, read back: strings
      are stored as they are and keys left out read as missing. */
  function StoredRow(p: UpsertPayload): (row: UserDataRow)
    ensures row.id == p.id && row.project1 == Some(p.project1) && row.project2 == Some(p.project2)
    ensures row.email == Some(p.email) && row.name == Some(p.name) && row.skills == Some(p.skills)
  {
    UserDataRow(p.id, Some(p.email), Some(p.name), Some(p.education), Some(p.hobbies),
                Some(p.workExperience), Some(p.project1), Some(p.project2),
                Some(p.skills), Some(p.achievements), Some(p.additionalData))
  }

  /** Saving and reloading gives back the same form: empty project fields
      left out of the payload read back as "", and a stored email, even an
      empty one, wins over the session's. */
  lemma SaveThenLoadRoundTrip(f: ProfileForm, id: string, sessionEmail: Option<string>)
    ensures FormFromRow(StoredRow(PayloadOf(f, id)), sessionEmail) == f
  {
  }
}
