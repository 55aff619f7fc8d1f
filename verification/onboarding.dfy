/** The three-step onboarding form (src/app/useronboarding/page.tsx): the
    per-step validation, the Next/Previous step machine, the shallow merge
    of each card's patches, and the mapping of the collected data to the
    `userData` insert payload. The insert itself is an outcome parameter. */
module Onboarding {
  import opened Wrappers
  import opened Text
  import Seqs
  import opened ExperienceCard

  /** `type Step = 0 | 1 | 2`. */
  type Step = s: int | 0 <= s <= 2

  datatype PersonalData = PersonalData(name: string, email: string, education: string, hobbies: string)
  datatype SkillsData = SkillsData(skills: string, achievements: string, additionalData: string)

  datatype PersonalPatch = PersonalPatch(name: Option<string>, email: Option<string>, education: Option<string>, hobbies: Option<string>)
  datatype SkillsPatch = SkillsPatch(skills: Option<string>, achievements: Option<string>, additionalData: Option<string>)

  const InitialPersonal := PersonalData("", "", "", "")
  const InitialExperience := ExperienceData([""], [EmptyProject, EmptyProject])
  const InitialSkills := SkillsData("", "", "")

  // ----- the cards' onChange: `setX(d => ({ ...d, ...patch }))` -----

  /** One key of a spread: a key the patch holds takes the patch's value,
      any other key keeps the old one. */
  predicate Merged<T(==)>(patch: Option<T>, before: T, after: T) {
    (patch.Some? ==> after == patch.value) && (patch.None? ==> after == before)
  }

  function MergePersonal(d: PersonalData, p: PersonalPatch): (r: PersonalData)
    ensures Merged(p.name, d.name, r.name) && Merged(p.email, d.email, r.email)
    ensures Merged(p.education, d.education, r.education) && Merged(p.hobbies, d.hobbies, r.hobbies)
  {
    PersonalData(p.name.GetOr(d.name), p.email.GetOr(d.email), p.education.GetOr(d.education), p.hobbies.GetOr(d.hobbies))
  }

  function MergeExperience(d: ExperienceData, p: ExperiencePatch): (r: ExperienceData)
    ensures Merged(p.workExperience, d.workExperience, r.workExperience)
    ensures Merged(p.projects, d.projects, r.projects)
  {
    ExperienceData(p.workExperience.GetOr(d.workExperience), p.projects.GetOr(d.projects))
  }

  function MergeSkills(d: SkillsData, p: SkillsPatch): (r: SkillsData)
    ensures Merged(p.skills, d.skills, r.skills) && Merged(p.achievements, d.achievements, r.achievements)
    ensures Merged(p.additionalData, d.additionalData, r.additionalData)
  {
    SkillsData(p.skills.GetOr(d.skills), p.achievements.GetOr(d.achievements), p.additionalData.GetOr(d.additionalData))
  }

  /** A shallow merge changes only the patched keys, applying the same
      patch twice is applying it once, and the empty patch changes
      nothing. */
  lemma PersonalMergeIsShallow(d: PersonalData, p: PersonalPatch)
    ensures var r := MergePersonal(d, p);
      && (r.name != d.name ==> p.name.Some?) && (r.email != d.email ==> p.email.Some?)
      && (r.education != d.education ==> p.education.Some?) && (r.hobbies != d.hobbies ==> p.hobbies.Some?)
    ensures MergePersonal(MergePersonal(d, p), p) == MergePersonal(d, p)
    ensures MergePersonal(d, PersonalPatch(None, None, None, None)) == d
  {
  }

  lemma SkillsMergeIsShallow(d: SkillsData, p: SkillsPatch)
    ensures var r := MergeSkills(d, p);
      && (r.skills != d.skills ==> p.skills.Some?) && (r.achievements != d.achievements ==> p.achievements.Some?)
      && (r.additionalData != d.additionalData ==> p.additionalData.Some?)
    ensures MergeSkills(MergeSkills(d, p), p) == MergeSkills(d, p)
    ensures MergeSkills(d, SkillsPatch(None, None, None)) == d
  {
  }

  lemma ExperienceMergeIsShallow(d: ExperienceData, p: ExperiencePatch)
    ensures var r := MergeExperience(d, p);
      && (r.workExperience != d.workExperience ==> p.workExperience.Some?)
      && (r.projects != d.projects ==> p.projects.Some?)
    ensures MergeExperience(MergeExperience(d, p), p) == MergeExperience(d, p)
    ensures MergeExperience(d, ExperiencePatch(None, None)) == d
  {
  }

  /** Editing one project field through the card changes that field of
      that slot and nothing else of the step's data. */
  lemma UpdateProjectChangesOnlyItsSlot(d: ExperienceData, index: Slot, patch: ProjectPatch)
    ensures var r := MergeExperience(d, UpdateProject(d, index, patch));
      && r.workExperience == d.workExperience
      && |r.projects| == 2
      && r.projects[1 - index] == d.projects[1 - index]
      && r.projects[index].title == patch.title.GetOr(d.projects[index].title)
      && r.projects[index].description == patch.description.GetOr(d.projects[index].description)
  {
  }

  /** After typing into the textarea, it shows exactly what was typed, and
      the list holds that one entry. */
  lemma TextareaShowsWhatWasTyped(d: ExperienceData, value: string)
    ensures var r := MergeExperience(d, EditWorkExperience(value));
      TextareaValue(r) == value && r.workExperience == [value] && r.projects == d.projects
  {
  }

  // ----- validation and the step machine -----

  /** The check of step 0: a name and an email. */
  predicate PersonalValid(p: PersonalData) {
    Trim(p.name) != "" && Trim(p.email) != ""
  }

  /** The check of step 1: the text in the textarea. */
  predicate ExperienceValid(e: ExperienceData) {
    Trim(TextareaValue(e)) != ""
  }

  /** The check of step 2: the skills. */
  predicate SkillsValid(k: SkillsData) {
    Trim(k.skills) != ""
  }

  /** `validateStep`: each step checks only the data of its own card. */
  function ValidStep(step: Step, p: PersonalData, e: ExperienceData, k: SkillsData): (ok: bool)
    ensures step == 0 ==> (ok <==> !IsBlank(p.name) && !IsBlank(p.email))
    ensures step == 1 ==> (ok <==> |e.workExperience| > 0 && !IsBlank(e.workExperience[0]))
    ensures step == 2 ==> (ok <==> !IsBlank(k.skills))
  {
    match step
    case 0 => PersonalValid(p)
    case 1 => ExperienceValid(e)
    case 2 => SkillsValid(k)
  }

  datatype Direction = Forward | Backward

  datatype Dialog = NoDialog | SuccessDialog(message: string) | ErrorDialog(message: string)

  datatype OnboardingState = OnboardingState(
    step: Step,
    direction: Direction,
    personal: PersonalData,
    experience: ExperienceData,
    skills: SkillsData,
    submitLoading: bool,
    submitError: Option<string>,
    submitSuccess: Option<string>,
    dialog: Dialog)

  const InitialState := OnboardingState(0, Forward, InitialPersonal, InitialExperience, InitialSkills,
                                        false, None, None, NoDialog)

  /** `handlePrevious`. */
  function Previous(s: OnboardingState): (r: OnboardingState)
    ensures r.step == if s.step > 0 then s.step - 1 else 0
    ensures r.direction == Backward
    ensures r.(step := s.step, direction := s.direction) == s
  {
    s.(direction := Backward, step := if s.step > 0 then s.step - 1 else s.step)
  }

  // ----- the insert payload -----

  /** `UserOnboardingPayload`; `None` is `null`. */
  datatype Payload = Payload(
    email: Option<string>,
    name: Option<string>,
    education: Option<string>,
    hobbies: Option<string>,
    workExperience: Option<string>,
    project1: Project,
    project2: Project,
    skills: Option<string>,
    achievements: Option<string>,
    additionalData: Option<string>)

  predicate NotBlank(t: string) {
    Trim(t) != ""
  }

  /** `workExperience.filter(t => t.trim() !== "").join("\n\n") || null`. */
  function WorkExperienceText(entries: seq<string>): (r: Option<string>)
    ensures r.None? <==> forall k :: 0 <= k < |entries| ==> IsBlank(entries[k])
    ensures r.Some? ==> r.value == Seqs.Join(Seqs.Filter(NotBlank, entries), "\n\n")
  {
    var kept := Seqs.Filter(NotBlank, entries);
    var text := Seqs.Join(kept, "\n\n");
    if kept != [] then
      assert NotBlank(kept[0]);
      assert text != "" by { JoinNonEmpty(kept, "\n\n"); }
      Some(text)
    else
      assert forall k :: 0 <= k < |entries| ==> !NotBlank(entries[k]) by {
        forall k | 0 <= k < |entries| ensures !NotBlank(entries[k]) {
          assert entries[k] in entries;
        }
      }
      None
  }

  /** Joining a list whose first piece is non-empty gives a non-empty
      string. */
  lemma JoinNonEmpty(xs: seq<string>, sep: string)
    requires |xs| > 0 && xs[0] != ""
    ensures Seqs.Join(xs, sep) != ""
  {
    if |xs| > 1 {
      assert Seqs.Join(xs, sep)[0] == xs[0][0];
    }
  }

  /** With the card's single textarea the list holds one entry, and the
      stored text is that entry unless it is blank. */
  lemma SingleEntryWorkExperience(value: string)
    ensures WorkExperienceText([value]) == if IsBlank(value) then None else Some(value)
  {
    if !IsBlank(value) {
      assert Seqs.Filter(NotBlank, [value][1..]) == [];
    }
  }

  /** The stored work-experience text splits back, on its blank lines, into
      the non-blank entries it was joined from, provided each entry is a
      single paragraph. */
  lemma WorkExperienceSplitsBack(entries: seq<string>)
    requires forall k :: 0 <= k < |entries| ==> IsBlank(entries[k]) || IsParagraph(entries[k])
    requires WorkExperienceText(entries).Some?
    ensures SplitParagraphs(WorkExperienceText(entries).value) == Seqs.Filter(NotBlank, entries)
  {
    var kept := Seqs.Filter(NotBlank, entries);
    assert kept != [];
    assert forall k :: 0 <= k < |kept| ==> IsParagraph(kept[k]) by {
      KeptEntriesAreParagraphs(entries);
      forall k | 0 <= k < |kept| ensures IsParagraph(kept[k]) {
        assert kept[k] in kept;
      }
    }
    SplitParagraphsUndoesJoin(kept);
  }

  /** The entries a paragraph list keeps are paragraphs. */
  lemma KeptEntriesAreParagraphs(entries: seq<string>)
    requires forall k :: 0 <= k < |entries| ==> IsBlank(entries[k]) || IsParagraph(entries[k])
    ensures forall x :: x in Seqs.Filter(NotBlank, entries) ==> IsParagraph(x)
  {
    forall x | x in Seqs.Filter(NotBlank, entries) ensures IsParagraph(x) {
      assert NotBlank(x) && x in entries;
      var i :| 0 <= i < |entries| && entries[i] == x;
    }
  }

  /** The payload built by `pushDataToSupabase`. */
  function PayloadOf(p: PersonalData, e: ExperienceData, k: SkillsData): (r: Payload)
    ensures r.name == OrNull(p.name) && r.email == OrNull(p.email)
    ensures r.education == OrNull(p.education) && r.hobbies == OrNull(p.hobbies)
    ensures r.skills == OrNull(k.skills) && r.achievements == OrNull(k.achievements)
    ensures r.additionalData == Some(k.additionalData)
    ensures r.workExperience == WorkExperienceText(e.workExperience)
    ensures r.project1 == e.projects[0] && r.project2 == e.projects[1]
  {
    Payload(OrNull(p.email), OrNull(p.name), OrNull(p.education), OrNull(p.hobbies),
            WorkExperienceText(e.workExperience), e.projects[0], e.projects[1],
            OrNull(k.skills), OrNull(k.achievements), Some(k.additionalData))
  }

  /** `||` and `??` differ on the empty string: an empty `skills` is sent
      as null, an empty `additional_data` as "", and whitespace is kept. */
  lemma EmptyAndWhitespaceMapping(p: PersonalData, e: ExperienceData, k: SkillsData)
    requires k.skills == "" && k.additionalData == "" && p.hobbies == " "
    ensures PayloadOf(p, e, k).skills == None
    ensures PayloadOf(p, e, k).additionalData == Some("")
    ensures PayloadOf(p, e, k).hobbies == Some(" ")
  {
  }

  const SavedMessage := "Your profile has been saved successfully."
  const DefaultSaveError := "Failed to save your profile. Please try again."

  /** What the insert returns: success, or an error carrying a message
      (`None` when the thrown value has none). */
  datatype InsertOutcome = InsertOk | InsertFailed(message: Option<string>)

  /** The message shown after a failed insert: the error's own message, or
      the default one when it is missing or empty. */
  function SaveErrorMessage(message: Option<string>): (m: string)
    ensures m != ""
    ensures message.Some? && message.value != "" ==> m == message.value
    ensures message.None? || message == Some("") ==> m == DefaultSaveError
  {
    if message.Some? && message.value != "" then message.value else DefaultSaveError
  }

  /** The state after `pushDataToSupabase` finishes. */
  function AfterSubmit(s: OnboardingState, outcome: InsertOutcome): (r: OnboardingState)
    ensures !r.submitLoading
    ensures outcome.InsertOk? ==>
      r.submitSuccess == Some(SavedMessage) && r.submitError.None? && r.dialog == SuccessDialog(SavedMessage)
    ensures outcome.InsertFailed? ==>
      r.submitError == Some(SaveErrorMessage(outcome.message)) && r.submitSuccess.None?
      && r.dialog == ErrorDialog(SaveErrorMessage(outcome.message))
    ensures r.(submitLoading := s.submitLoading, submitError := s.submitError,
               submitSuccess := s.submitSuccess, dialog := s.dialog) == s
  {
    match outcome
    case InsertOk =>
      s.(submitLoading := false, submitError := None, submitSuccess := Some(SavedMessage),
         dialog := SuccessDialog(SavedMessage))
    case InsertFailed(message) =>
      var m := SaveErrorMessage(message);
      s.(submitLoading := false, submitError := Some(m), submitSuccess := None, dialog := ErrorDialog(m))
  }

  /** The state after a click on Next, and the payload inserted, if any. */
  datatype NextResult = NextResult(state: OnboardingState, sent: Option<Payload>)

  /** `handleNext`: an invalid step blocks; steps 0 and 1 advance; step 2
      submits. */
  function Next(s: OnboardingState, outcome: InsertOutcome): (r: NextResult)
    ensures !ValidStep(s.step, s.personal, s.experience, s.skills) ==> r == NextResult(s, None)
    ensures ValidStep(s.step, s.personal, s.experience, s.skills) && s.step < 2 ==>
      r.sent.None? && r.state == s.(step := s.step + 1, direction := Forward)
    ensures r.sent.Some? <==> ValidStep(s.step, s.personal, s.experience, s.skills) && s.step == 2
    ensures r.sent.Some? ==>
      r.sent.value == PayloadOf(s.personal, s.experience, s.skills) && r.state == AfterSubmit(s, outcome)
  {
    if !ValidStep(s.step, s.personal, s.experience, s.skills) then NextResult(s, None)
    else if s.step < 2 then NextResult(s.(direction := Forward, step := s.step + 1), None)
    else NextResult(AfterSubmit(s, outcome), Some(PayloadOf(s.personal, s.experience, s.skills)))
  }

  /** What the user can do: type into the card on screen, or press Next or
      Previous. */
  datatype Event =
    | EditPersonal(personalPatch: PersonalPatch)
    | EditExperience(experiencePatch: ExperiencePatch)
    | EditSkills(skillsPatch: SkillsPatch)
    | PressNext(outcome: InsertOutcome)
    | PressPrevious

  /** An edit of a card that the step does not render. */
  predicate OffScreenEdit(step: Step, e: Event) {
    || (e.EditPersonal? && step != 0)
    || (e.EditExperience? && step != 1)
    || (e.EditSkills? && step != 2)
  }

  /** Only the card of the current step is rendered, so only its edits can
      happen; an edit for another card leaves the state as it is. */
  function Apply(s: OnboardingState, e: Event): (r: OnboardingState)
    ensures e.EditPersonal? && s.step == 0 ==> r == s.(personal := MergePersonal(s.personal, e.personalPatch))
    ensures e.EditExperience? && s.step == 1 ==> r == s.(experience := MergeExperience(s.experience, e.experiencePatch))
    ensures e.EditSkills? && s.step == 2 ==> r == s.(skills := MergeSkills(s.skills, e.skillsPatch))
    ensures OffScreenEdit(s.step, e) ==> r == s
    ensures e.PressNext? ==> r == Next(s, e.outcome).state
    ensures e.PressPrevious? ==> r == Previous(s)
  {
    match e
    case EditPersonal(p) => if s.step == 0 then s.(personal := MergePersonal(s.personal, p)) else s
    case EditExperience(p) => if s.step == 1 then s.(experience := MergeExperience(s.experience, p)) else s
    case EditSkills(p) => if s.step == 2 then s.(skills := MergeSkills(s.skills, p)) else s
    case PressNext(o) => Next(s, o).state
    case PressPrevious => Previous(s)
  }

  /** Every step behind the current one was valid when it was left, and
      stays valid because its card is no longer on screen. */
  ghost predicate PassedStepsValid(s: OnboardingState) {
    && (s.step >= 1 ==> PersonalValid(s.personal))
    && (s.step >= 2 ==> ExperienceValid(s.experience))
  }

  lemma PassedStepsStayValid(s: OnboardingState, e: Event)
    requires PassedStepsValid(s)
    ensures PassedStepsValid(Apply(s, e))
  {
    var r := Apply(s, e);
    match e
    case EditPersonal(p) =>
      assert r.step == s.step && (s.step != 0 ==> r.personal == s.personal) && r.experience == s.experience;
    case EditExperience(p) =>
      assert r.step == s.step && r.personal == s.personal && (s.step != 1 ==> r.experience == s.experience);
    case EditSkills(p) =>
      assert r.step == s.step && r.personal == s.personal && r.experience == s.experience;
    case PressNext(o) =>
      NextKeepsPassedStepsValid(s, o);
    case PressPrevious =>
      assert r.step <= s.step && r.personal == s.personal && r.experience == s.experience;
  }

  lemma NextKeepsPassedStepsValid(s: OnboardingState, o: InsertOutcome)
    requires PassedStepsValid(s)
    ensures PassedStepsValid(Next(s, o).state)
  {
    var r := Next(s, o).state;
    assert r.personal == s.personal && r.experience == s.experience;
    if ValidStep(s.step, s.personal, s.experience, s.skills) && s.step < 2 {
      assert r.step == s.step + 1;
      assert s.step == 0 ==> PersonalValid(s.personal);
      assert s.step == 1 ==> ExperienceValid(s.experience);
    } else {
      assert r.step == s.step;
    }
  }

  /** Any sequence of user actions from the initial form. */
  function Run(s: OnboardingState, events: seq<Event>): OnboardingState
    decreases |events|
  {
    if |events| == 0 then s else Run(Apply(s, events[0]), events[1..])
  }

  lemma {:induction false} RunKeepsPassedStepsValid(s: OnboardingState, events: seq<Event>)
    requires PassedStepsValid(s)
    ensures PassedStepsValid(Run(s, events))
    decreases |events|
  {
    if |events| > 0 {
      PassedStepsStayValid(s, events[0]);
      RunKeepsPassedStepsValid(Apply(s, events[0]), events[1..]);
    }
  }

  /** Whatever the user did before, a payload that Next sends carries a
      name, an email, a work-experience text and skills. */
  lemma SubmittedPayloadIsComplete(events: seq<Event>, outcome: InsertOutcome)
    ensures var s := Run(InitialState, events);
      var r := Next(s, outcome);
      r.sent.Some? ==>
        && r.sent.value.name.Some? && r.sent.value.email.Some?
        && r.sent.value.workExperience.Some? && r.sent.value.skills.Some?
  {
    RunKeepsPassedStepsValid(InitialState, events);
    var s := Run(InitialState, events);
    if Next(s, outcome).sent.Some? {
      BlankOfEmpty();
      if s.personal.name == "" || s.personal.email == "" || s.skills.skills == "" {
        assert false;
      }
      var entries := s.experience.workExperience;
      assert !IsBlank(entries[0]);
    }
  }

  lemma BlankOfEmpty()
    ensures IsBlank("")
  {
  }
}
