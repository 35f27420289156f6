/** The experience dashboard: a draft experience record with an achievements
    list edited through an input buffer, its create/update payloads and the
    requests they become. */
module ExperienceDashboard {
  import opened Optional
  import Api
  import ArrayField
  import FormState

  datatype Experience = Experience(id: string, title: string, company: string, period: string, description: string, achievements: seq<string>)

  /** An experience record without its `_id`: the create payload. */
  datatype ExperienceInput = ExperienceInput(title: string, company: string, period: string, description: string, achievements: seq<string>)

  /** `const { _id, ...rest } = draft`. */
  function StripId(e: Experience): ExperienceInput {
    ExperienceInput(e.title, e.company, e.period, e.description, e.achievements)
  }

  function WithId(input: ExperienceInput, id: string): Experience {
    Experience(id, input.title, input.company, input.period, input.description, input.achievements)
  }

  /** Stripping the id loses nothing else. */
  lemma IdRoundTrip(e: Experience, input: ExperienceInput, id: string)
    ensures WithId(StripId(e), e.id) == e
    ensures StripId(WithId(input, id)) == input && WithId(input, id).id == id
  {
  }

  /** The draft `resetForm` restores. */
  const Blank: Experience := Experience("", "", "", "", "", [])

  function IdOf(e: Experience): string { e.id }

  /** The form plus the achievement input buffer. */
  datatype View = View(form: FormState.Form<Experience>, newAchievement: string)

  /** `resetForm()`: blank draft in create mode; the buffer is left as is. */
  function ResetForm(v: View): (r: View)
    ensures r.form.draft == Blank && !r.form.isEditing
    ensures r.newAchievement == v.newAchievement && r.form.saving == v.form.saving && r.form.toDelete == v.form.toDelete
  {
    v.(form := FormState.Reset(v.form, Blank))
  }

  /** `addAchievement()`: the trimmed buffer is appended when it is not blank
      and not yet listed, and then the buffer is cleared; otherwise nothing
      changes. No other field of the draft changes. */
  function AddAchievement(v: View): (r: View)
    ensures var e := ArrayField.Add(v.form.draft.achievements, v.newAchievement);
      r.form.draft.achievements == e.list && r.newAchievement == e.buffer
    ensures r.form.draft == v.form.draft.(achievements := r.form.draft.achievements)
    ensures r.form.isEditing == v.form.isEditing && r.form.saving == v.form.saving && r.form.toDelete == v.form.toDelete
  {
    var e := ArrayField.Add(v.form.draft.achievements, v.newAchievement);
    View(FormState.Revise(v.form, v.form.draft.(achievements := e.list)), e.buffer)
  }

  /** `removeAchievement(a)`: every entry equal to `a` goes, the rest stay in
      order; nothing else changes. */
  function RemoveAchievement(v: View, a: string): (r: View)
    ensures r.form.draft.achievements == ArrayField.RemoveAll(v.form.draft.achievements, a)
    ensures a !in r.form.draft.achievements
    ensures forall x :: x != a ==> (x in r.form.draft.achievements <==> x in v.form.draft.achievements)
    ensures r.form.draft == v.form.draft.(achievements := r.form.draft.achievements)
    ensures r.newAchievement == v.newAchievement
    ensures r.form.isEditing == v.form.isEditing && r.form.saving == v.form.saving && r.form.toDelete == v.form.toDelete
  {
    v.(form := FormState.Revise(v.form, v.form.draft.(achievements := ArrayField.RemoveAll(v.form.draft.achievements, a))))
  }

  /** The achievements editor keeps its list free of blanks and duplicates. */
  lemma AchievementsStayTidy(v: View, a: string)
    requires ArrayField.Tidy(v.form.draft.achievements)
    ensures ArrayField.Tidy(AddAchievement(v).form.draft.achievements)
    ensures ArrayField.Tidy(RemoveAchievement(v, a).form.draft.achievements)
  {
    ArrayField.AddKeepsTidy(v.form.draft.achievements, v.newAchievement);
    ArrayField.RemoveKeepsTidy(v.form.draft.achievements, a);
  }

  /** What `handleSave` sends. */
  datatype Submission = Create(input: ExperienceInput) | Update(payload: Api.UpdatePayload<Experience>)

  /** The body of a request: a create payload or a whole record. */
  datatype Body = InputBody(input: ExperienceInput) | RecordBody(record: Experience)

  /** `handleSave`'s call: the record under its id when editing, the draft
      without `_id` when creating. */
  function Submit(v: View): (s: Submission)
    ensures v.form.isEditing ==> s.Update? && s.payload.id == v.form.draft.id && s.payload.data == v.form.draft
    ensures !v.form.isEditing ==> s.Create? && WithId(s.input, v.form.draft.id) == v.form.draft
  {
    var d := v.form.draft;
    if v.form.isEditing then Update(Api.UpdatePayload(d.id, d)) else Create(StripId(d))
  }

  /** The request a submission becomes. */
  function SubmitRequest(s: Submission): (r: Api.Request<Body>)
    ensures s.Create? ==> Api.Locate(r.verb, r.url) == Some(Api.AddCall(Api.Experiences)) && r.body == Some(InputBody(s.input))
    ensures s.Update? ==> Api.Locate(r.verb, r.url) == Some(Api.UpdateCall(Api.Experiences, s.payload.id)) && r.body == Some(RecordBody(s.payload.data))
  {
    match s
    case Create(input) => Api.AddRequest(Api.Experiences, InputBody(input))
    case Update(p) => Api.UpdateRequest(Api.Experiences, Api.UpdatePayload(p.id, RecordBody(p.data)))
  }

  /** `handleSave` once the call settles: `saving` is cleared on every path,
      including the `catch` path; a call that did not throw resets the form. */
  function SaveSettled(v: View, threw: bool): (r: View)
    ensures !r.form.saving
    ensures threw ==> r.form.draft == v.form.draft && r.form.isEditing == v.form.isEditing
    ensures !threw ==> r.form.draft == Blank && !r.form.isEditing
    ensures r.form.toDelete == v.form.toDelete && r.newAchievement == v.newAchievement
  {
    v.(form := FormState.SaveSettled(v.form, Blank, threw))
  }

  /** A save from a consistent form: a create posts the draft without an id,
      and the draft is that payload with the empty id; an update puts the
      whole draft at its own id. While the call is in flight `saving` is set. */
  lemma SaveSendsDraft(v: View)
    requires FormState.Consistent(v.form, IdOf)
    ensures FormState.SaveStarted(v.form).saving
    ensures var r := SubmitRequest(Submit(v));
      if v.form.isEditing then
        Api.Locate(r.verb, r.url) == Some(Api.UpdateCall(Api.Experiences, v.form.draft.id)) && r.body == Some(RecordBody(v.form.draft))
      else
        Api.Locate(r.verb, r.url) == Some(Api.AddCall(Api.Experiences)) && r.body.Some? && r.body.value.InputBody?
        && WithId(r.body.value.input, "") == v.form.draft
  {
  }

  /** The Delete button inside the open dialog of row `row`: the request
      deletes the picked record, and the pick is cleared unless the call threw. */
  function ConfirmDelete(v: View, row: Experience, threw: bool): (r: (Api.Request<Body>, View))
    requires FormState.DialogOpen(v.form, IdOf, row.id)
    ensures Api.Locate(r.0.verb, r.0.url) == Some(Api.DeleteCall(Api.Experiences, v.form.toDelete.value.id))
    ensures r.0.body.None?
    ensures !threw ==> r.1.form.toDelete.None? && r.1.form.draft == v.form.draft
    ensures threw ==> r.1 == v
  {
    (Api.DeleteRequest(Api.Experiences, row.id), v.(form := FormState.DeleteSettled(v.form, threw)))
  }
}
