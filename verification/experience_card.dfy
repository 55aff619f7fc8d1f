/** The work-experience step of onboarding
    (src/app/useronboarding/work-experience-card.tsx): its data, the patches
    its fields emit, and the textarea's displayed value. */
module ExperienceCard {
  import opened Wrappers

  datatype Project = Project(title: string, description: string)

  const EmptyProject := Project("", "")

  /** `[Project, Project]`: exactly two project slots. */
  type ProjectPair = ps: seq<Project> | |ps| == 2 witness [EmptyProject, EmptyProject]

  /** Slot index `0 | 1`. */
  type Slot = i: int | 0 <= i < 2

  datatype ExperienceData = ExperienceData(workExperience: seq<string>, projects: ProjectPair)

  /** `Partial<Project>`. */
  datatype ProjectPatch = ProjectPatch(title: Option<string>, description: Option<string>)

  /** `Partial<ExperienceData>`, what the card hands to `onChange`. */
  datatype ExperiencePatch = ExperiencePatch(workExperience: Option<seq<string>>, projects: Option<ProjectPair>)

  /** `{ ...p, ...patch }` on one project. */
  function PatchProject(p: Project, patch: ProjectPatch): (r: Project)
    ensures patch.title.Some? ==> r.title == patch.title.value
    ensures patch.title.None? ==> r.title == p.title
    ensures patch.description.Some? ==> r.description == patch.description.value
    ensures patch.description.None? ==> r.description == p.description
  {
    Project(patch.title.GetOr(p.title), patch.description.GetOr(p.description))
  }

  /** `updateProject(index, patch)`: copies both slots, patches one, and
      hands the pair over as a `projects` patch. */
  function UpdateProject(d: ExperienceData, index: Slot, patch: ProjectPatch): (r: ExperiencePatch)
    ensures r.workExperience.None? && r.projects.Some?
    ensures r.projects.value[index] == PatchProject(d.projects[index], patch)
    ensures r.projects.value[1 - index] == d.projects[1 - index]
  {
    var copy := [d.projects[0], d.projects[1]];
    ExperiencePatch(None, Some(copy[index := PatchProject(copy[index], patch)]))
  }

  /** The textarea's `onChange`: the list becomes the single edited text,
      so entries after the first are dropped, and the projects are not part
      of the patch. */
  function EditWorkExperience(value: string): (r: ExperiencePatch)
    ensures r.workExperience.Some? && |r.workExperience.value| == 1 && r.workExperience.value[0] == value
    ensures r.projects.None?
  {
    ExperiencePatch(Some([value]), None)
  }

  /** `data.workExperience[0] ?? ""`. */
  function TextareaValue(d: ExperienceData): (v: string)
    ensures |d.workExperience| > 0 ==> v == d.workExperience[0]
    ensures |d.workExperience| == 0 ==> v == ""
  {
    if |d.workExperience| > 0 then d.workExperience[0] else ""
  }
}
