/** The blog dashboard: a draft post with a tag list edited through an input
    buffer and an optional cover image, its create/update payloads and the
    requests they become. Unlike the other dashboards, a create sends the
    whole draft, `_id` included. */
module BlogDashboard {
  import opened Optional
  import Api
  import ArrayField
  import FormState

  datatype CoverImage = CoverImage(url: string)

  datatype Blog = Blog(
    id: string, title: string, content: string, slug: string, excerpt: string,
    category: string, tags: seq<string>, status: string, coverImage: Option<CoverImage>)

  /** The draft `resetForm` restores. */
  const Blank: Blog := Blog("", "", "", "", "", "", [], "draft", None)

  function IdOf(b: Blog): string { b.id }

  /** The form plus the tag input buffer. */
  datatype View = View(form: FormState.Form<Blog>, newTag: string)

  /** `handleEdit(blog)`: the draft becomes the post, in edit mode. */
  function HandleEdit(v: View, b: Blog): (r: View)
    ensures r.form.draft == b && r.form.isEditing
    ensures r.newTag == v.newTag && r.form.saving == v.form.saving && r.form.toDelete == v.form.toDelete
  {
    v.(form := FormState.Edit(v.form, b))
  }

  /** `resetForm()`: blank draft (empty texts and tags, status "draft", no
      cover) in create mode; the tag buffer is left as is. */
  function ResetForm(v: View): (r: View)
    ensures r.form.draft.title == "" && r.form.draft.content == "" && r.form.draft.slug == ""
    ensures r.form.draft.excerpt == "" && r.form.draft.category == "" && r.form.draft.id == ""
    ensures r.form.draft.tags == [] && r.form.draft.status == "draft" && r.form.draft.coverImage.None?
    ensures !r.form.isEditing
    ensures r.newTag == v.newTag && r.form.saving == v.form.saving && r.form.toDelete == v.form.toDelete
  {
    v.(form := FormState.Reset(v.form, Blank))
  }

  /** `addTag()`: the trimmed buffer is appended when it is not blank and not
      yet listed, and then the buffer is cleared; otherwise nothing changes. */
  function AddTag(v: View): (r: View)
    ensures var e := ArrayField.Add(v.form.draft.tags, v.newTag);
      r.form.draft.tags == e.list && r.newTag == e.buffer
    ensures r.form.draft == v.form.draft.(tags := r.form.draft.tags)
    ensures r.form.isEditing == v.form.isEditing && r.form.saving == v.form.saving && r.form.toDelete == v.form.toDelete
  {
    var e := ArrayField.Add(v.form.draft.tags, v.newTag);
    View(FormState.Revise(v.form, v.form.draft.(tags := e.list)), e.buffer)
  }

  /** `removeTag(t)`: every tag equal to `t` goes, the rest stay in order. */
  function RemoveTag(v: View, t: string): (r: View)
    ensures r.form.draft.tags == ArrayField.RemoveAll(v.form.draft.tags, t)
    ensures t !in r.form.draft.tags
    ensures forall x :: x != t ==> (x in r.form.draft.tags <==> x in v.form.draft.tags)
    ensures r.form.draft == v.form.draft.(tags := r.form.draft.tags)
    ensures r.newTag == v.newTag
    ensures r.form.isEditing == v.form.isEditing && r.form.saving == v.form.saving && r.form.toDelete == v.form.toDelete
  {
    v.(form := FormState.Revise(v.form, v.form.draft.(tags := ArrayField.RemoveAll(v.form.draft.tags, t))))
  }

  /** The tag editor keeps the list free of blanks and duplicates, and a
      removal undoes the add that preceded it. */
  lemma TagsStayTidy(v: View, t: string)
    requires ArrayField.Tidy(v.form.draft.tags)
    ensures ArrayField.Tidy(AddTag(v).form.draft.tags)
    ensures ArrayField.Tidy(RemoveTag(v, t).form.draft.tags)
    ensures ArrayField.Accepts(v.form.draft.tags, v.newTag) ==>
      RemoveTag(AddTag(v), AddTag(v).form.draft.tags[|v.form.draft.tags|]).form.draft == v.form.draft
  {
    ArrayField.AddKeepsTidy(v.form.draft.tags, v.newTag);
    ArrayField.RemoveKeepsTidy(v.form.draft.tags, t);
    if ArrayField.Accepts(v.form.draft.tags, v.newTag) {
      ArrayField.RemoveUndoesAdd(v.form.draft.tags, v.newTag);
    }
  }

  /** `handleCoverImageUpload` after the upload: a non-empty URL becomes the
      cover; no URL, or an empty one, changes nothing. No other field changes. */
  function CoverUploaded(v: View, upload: Option<string>): (r: View)
    ensures upload.Some? && upload.value != "" ==> r.form.draft.coverImage == Some(CoverImage(upload.value))
    ensures !(upload.Some? && upload.value != "") ==> r == v
    ensures r.form.draft == v.form.draft.(coverImage := r.form.draft.coverImage)
    ensures r.newTag == v.newTag && r.form.isEditing == v.form.isEditing && r.form.saving == v.form.saving && r.form.toDelete == v.form.toDelete
  {
    match upload
    case Some(url) =>
      if url != "" then v.(form := FormState.Revise(v.form, v.form.draft.(coverImage := Some(CoverImage(url))))) else v
    case None => v
  }

  /** What `handleSave` sends: the whole draft for a create, the draft under
      its id for an update. */
  datatype Submission = Create(post: Blog) | Update(payload: Api.UpdatePayload<Blog>)

  function Submit(v: View): (s: Submission)
    ensures v.form.isEditing ==> s.Update? && s.payload.id == v.form.draft.id && s.payload.data == v.form.draft
    ensures !v.form.isEditing ==> s.Create? && s.post == v.form.draft
  {
    var d := v.form.draft;
    if v.form.isEditing then Update(Api.UpdatePayload(d.id, d)) else Create(d)
  }

  function SubmitRequest(s: Submission): (r: Api.Request<Blog>)
    ensures s.Create? ==> Api.Locate(r.verb, r.url) == Some(Api.AddCall(Api.Blogs)) && r.body == Some(s.post)
    ensures s.Update? ==> Api.Locate(r.verb, r.url) == Some(Api.UpdateCall(Api.Blogs, s.payload.id)) && r.body == Some(s.payload.data)
  {
    match s
    case Create(b) => Api.AddRequest(Api.Blogs, b)
    case Update(p) => Api.UpdateRequest(Api.Blogs, p)
  }

  /** A save from a consistent form: a create posts the whole draft and its
      body still carries the empty `_id`; an update puts the draft at its id. */
  lemma SaveSendsDraft(v: View)
    requires FormState.Consistent(v.form, IdOf)
    ensures var r := SubmitRequest(Submit(v));
      if v.form.isEditing then
        Api.Locate(r.verb, r.url) == Some(Api.UpdateCall(Api.Blogs, v.form.draft.id)) && r.body == Some(v.form.draft)
      else
        Api.Locate(r.verb, r.url) == Some(Api.AddCall(Api.Blogs)) && r.body == Some(v.form.draft) && r.body.value.id == ""
  {
  }

  /** `handleSave` once the call settles: `saving` is cleared on every path;
      a call that did not throw resets the form. */
  function SaveSettled(v: View, threw: bool): (r: View)
    ensures !r.form.saving
    ensures threw ==> r.form.draft == v.form.draft && r.form.isEditing == v.form.isEditing
    ensures !threw ==> r == ResetForm(v).(form := ResetForm(v).form.(saving := false))
  {
    v.(form := FormState.SaveSettled(v.form, Blank, threw))
  }

  /** The delete button of row `b`. */
  function AskDelete(v: View, b: Blog): (r: View)
    ensures r.form.toDelete == Some(b)
    ensures r.form.draft == v.form.draft && r.form.isEditing == v.form.isEditing && r.newTag == v.newTag
  {
    v.(form := FormState.AskDelete(v.form, b))
  }

  /** The Cancel button of the dialog. */
  function CancelDelete(v: View): (r: View)
    ensures r.form.toDelete.None?
    ensures r.form.draft == v.form.draft && r.form.isEditing == v.form.isEditing && r.newTag == v.newTag
  {
    v.(form := FormState.CancelDelete(v.form))
  }

  /** The dialog of row `rowId` is open exactly when the picked post has that
      id; after Cancel no dialog is open. */
  lemma DeleteDialog(v: View, b: Blog, rowId: string)
    ensures FormState.DialogOpen(AskDelete(v, b).form, IdOf, rowId) <==> b.id == rowId
    ensures !FormState.DialogOpen(CancelDelete(v).form, IdOf, rowId)
  {
  }

  /** The Delete button inside the open dialog of row `row`: the request
      deletes the picked post, and the pick is cleared unless the call threw. */
  function ConfirmDelete(v: View, row: Blog, threw: bool): (r: (Api.Request<Blog>, View))
    requires FormState.DialogOpen(v.form, IdOf, row.id)
    ensures Api.Locate(r.0.verb, r.0.url) == Some(Api.DeleteCall(Api.Blogs, v.form.toDelete.value.id))
    ensures r.0.body.None?
    ensures !threw ==> r.1.form.toDelete.None? && r.1.form.draft == v.form.draft
    ensures threw ==> r.1 == v
  {
    (Api.DeleteRequest(Api.Blogs, row.id), v.(form := FormState.DeleteSettled(v.form, threw)))
  }
}
