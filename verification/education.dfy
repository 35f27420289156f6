/** The education dashboard: a draft education record with four text fields,
    its create/update payloads and the requests they become. */
module EducationDashboard {
  import opened Optional
  import Api
  import FormState

  datatype Education = Education(id: string, degree: string, institution: string, period: string, result: string)

  /** An education record without its `_id`: the create payload. */
  datatype EducationInput = EducationInput(degree: string, institution: string, period: string, result: string)

  /** `const { _id, ...rest } = draft`. */
  function StripId(e: Education): EducationInput {
    EducationInput(e.degree, e.institution, e.period, e.result)
  }

  /** Puts an id back on a create payload. */
  function WithId(input: EducationInput, id: string): Education {
    Education(id, input.degree, input.institution, input.period, input.result)
  }

  /** Stripping the id loses nothing else: the id and the payload give the
      record back, and the payload of a rebuilt record is the payload. */
  lemma IdRoundTrip(e: Education, input: EducationInput, id: string)
    ensures WithId(StripId(e), e.id) == e
    ensures StripId(WithId(input, id)) == input && WithId(input, id).id == id
  {
  }

  /** The draft `resetForm` restores. */
  const Blank: Education := Education("", "", "", "", "")

  function IdOf(e: Education): string { e.id }

  type View = FormState.Form<Education>

  datatype Field = Degree | Institution | Period | Result

  function Get(e: Education, field: Field): string {
    match field
    case Degree => e.degree
    case Institution => e.institution
    case Period => e.period
    case Result => e.result
  }

  /** Typing into one input: that field of the draft takes the typed value and
      nothing else changes. */
  function SetField(v: View, field: Field, value: string): (r: View)
    ensures Get(r.draft, field) == value
    ensures forall g :: g != field ==> Get(r.draft, g) == Get(v.draft, g)
    ensures r.draft.id == v.draft.id
    ensures r.isEditing == v.isEditing && r.saving == v.saving && r.toDelete == v.toDelete
  {
    var d := v.draft;
    FormState.Revise(v, match field
      case Degree => d.(degree := value)
      case Institution => d.(institution := value)
      case Period => d.(period := value)
      case Result => d.(result := value))
  }

  /** What `handleSave` sends. */
  datatype Submission = Create(input: EducationInput) | Update(payload: Api.UpdatePayload<Education>)

  /** The body of a request: a create payload or a whole record. */
  datatype Body = InputBody(input: EducationInput) | RecordBody(record: Education)

  /** `handleSave`'s call: the record under its id when editing, the draft
      without `_id` when creating. */
  function Submit(v: View): (s: Submission)
    ensures v.isEditing ==> s.Update? && s.payload.id == v.draft.id && s.payload.data == v.draft
    ensures !v.isEditing ==> s.Create? && WithId(s.input, v.draft.id) == v.draft
  {
    if v.isEditing then Update(Api.UpdatePayload(v.draft.id, v.draft)) else Create(StripId(v.draft))
  }

  /** The request a submission becomes. */
  function SubmitRequest(s: Submission): (r: Api.Request<Body>)
    ensures s.Create? ==> Api.Locate(r.verb, r.url) == Some(Api.AddCall(Api.Educations)) && r.body == Some(InputBody(s.input))
    ensures s.Update? ==> Api.Locate(r.verb, r.url) == Some(Api.UpdateCall(Api.Educations, s.payload.id)) && r.body == Some(RecordBody(s.payload.data))
  {
    match s
    case Create(input) => Api.AddRequest(Api.Educations, InputBody(input))
    case Update(p) => Api.UpdateRequest(Api.Educations, Api.UpdatePayload(p.id, RecordBody(p.data)))
  }

  /** A save from a consistent form: a create posts the draft without an id,
      and the draft is that payload with the empty id; an update puts the
      whole draft at its own id. */
  lemma SaveSendsDraft(v: View)
    requires FormState.Consistent(v, IdOf)
    ensures var r := SubmitRequest(Submit(v));
      if v.isEditing then
        Api.Locate(r.verb, r.url) == Some(Api.UpdateCall(Api.Educations, v.draft.id)) && r.body == Some(RecordBody(v.draft))
      else
        Api.Locate(r.verb, r.url) == Some(Api.AddCall(Api.Educations)) && r.body.Some? && r.body.value.InputBody?
        && WithId(r.body.value.input, "") == v.draft
  {
  }

  /** `handleSave` end to end: `saving` is set while the call is in flight and
      cleared afterwards on every path; a call that did not throw resets the
      form, one that threw keeps the draft and mode. */
  lemma SaveCycle(v: View, threw: bool)
    ensures FormState.SaveStarted(v).saving
    ensures var after := FormState.SaveSettled(FormState.SaveStarted(v), Blank, threw);
      && !after.saving
      && (threw ==> after.draft == v.draft && after.isEditing == v.isEditing)
      && (!threw ==> after.draft == Blank && !after.isEditing && FormState.Consistent(after, IdOf))
  {
  }

  /** The Delete button inside the open dialog of row `row`: the request
      deletes the picked record, and the pick is cleared unless the call threw. */
  function ConfirmDelete(v: View, row: Education, threw: bool): (r: (Api.Request<Body>, View))
    requires FormState.DialogOpen(v, IdOf, row.id)
    ensures Api.Locate(r.0.verb, r.0.url) == Some(Api.DeleteCall(Api.Educations, v.toDelete.value.id))
    ensures r.0.body.None?
    ensures !threw ==> r.1.toDelete.None? && r.1.draft == v.draft
    ensures threw ==> r.1 == v
  {
    (Api.DeleteRequest(Api.Educations, row.id), FormState.DeleteSettled(v, threw))
  }

  /** Field edits keep the form consistent. */
  lemma SetFieldKeepsConsistent(v: View, field: Field, value: string)
    requires FormState.Consistent(v, IdOf)
    ensures FormState.Consistent(SetField(v, field, value), IdOf)
  {
  }
}
