/** The project dashboard: a draft project with a technology list edited
    through an input buffer, a media list fed by image uploads and YouTube
    links, a thumbnail, its create/update payloads and the requests they
    become. */
module ProjectDashboard {
  import opened Optional
  import Api
  import ArrayField
  import FormState
  import YouTube

  datatype MediaKind = YouTubeMedia | VideoMedia | ImageMedia

  datatype Media = Media(kind: MediaKind, url: string, videoId: Option<string>, thumbnail: Option<string>)

  datatype Links = Links(live: Option<string>, client: Option<string>, server: Option<string>, github: Option<string>)

  datatype Project = Project(
    id: string, title: string, description: string, longDescription: string, category: string,
    technologies: seq<string>, image: string, repo: string, username: string, links: Links, media: seq<Media>)

  /** A project without its `_id`: the create payload. */
  datatype ProjectInput = ProjectInput(
    title: string, description: string, longDescription: string, category: string,
    technologies: seq<string>, image: string, repo: string, username: string, links: Links, media: seq<Media>)

  /** `const { _id, ...rest } = draft`. */
  function StripId(p: Project): ProjectInput {
    ProjectInput(p.title, p.description, p.longDescription, p.category, p.technologies, p.image, p.repo, p.username, p.links, p.media)
  }

  function WithId(input: ProjectInput, id: string): Project {
    Project(id, input.title, input.description, input.longDescription, input.category, input.technologies,
            input.image, input.repo, input.username, input.links, input.media)
  }

  /** Stripping the id loses nothing else. */
  lemma IdRoundTrip(p: Project, input: ProjectInput, id: string)
    ensures WithId(StripId(p), p.id) == p
    ensures StripId(WithId(input, id)) == input && WithId(input, id).id == id
  {
  }

  const NoLinks: Links := Links(None, None, None, None)

  /** The draft the dashboard mounts with and `resetForm` restores. */
  const Blank: Project := Project("", "", "", "", "Frontend", [], "", "", "rakibul58", NoLinks, [])

  function IdOf(p: Project): string { p.id }

  /** The form plus the technology buffer, the YouTube URL buffer and whether
      the YouTube input is shown. */
  datatype View = View(form: FormState.Form<Project>, newTechnology: string, youtubeUrl: string, showYoutubeInput: bool)

  /** `handleEdit(project)`: the draft becomes the project, in edit mode. */
  function HandleEdit(v: View, p: Project): (r: View)
    ensures r.form.draft == p && r.form.isEditing
    ensures r.newTechnology == v.newTechnology && r.youtubeUrl == v.youtubeUrl && r.showYoutubeInput == v.showYoutubeInput
  {
    v.(form := FormState.Edit(v.form, p))
  }

  /** `resetForm()`: the default draft (empty texts, category "Frontend",
      username "rakibul58", no technologies, links or media) in create mode,
      with the YouTube URL cleared and its input hidden. The technology buffer
      is left as is. */
  function ResetForm(v: View): (r: View)
    ensures var d := r.form.draft;
      && d.id == "" && d.title == "" && d.description == "" && d.longDescription == "" && d.image == "" && d.repo == ""
      && d.category == "Frontend" && d.username == "rakibul58"
      && d.technologies == [] && d.media == [] && d.links == Links(None, None, None, None)
    ensures !r.form.isEditing && r.youtubeUrl == "" && !r.showYoutubeInput
    ensures r.newTechnology == v.newTechnology && r.form.saving == v.form.saving && r.form.toDelete == v.form.toDelete
  {
    View(FormState.Reset(v.form, Blank), v.newTechnology, "", false)
  }

  /** A change of the draft that keeps every buffer and flag. */
  function Revise(v: View, d: Project): (r: View)
    ensures r.form.draft == d
    ensures r.form.isEditing == v.form.isEditing && r.form.saving == v.form.saving && r.form.toDelete == v.form.toDelete
    ensures r.newTechnology == v.newTechnology && r.youtubeUrl == v.youtubeUrl && r.showYoutubeInput == v.showYoutubeInput
  {
    v.(form := FormState.Revise(v.form, d))
  }

  /** `addTechnology()`: the trimmed buffer is appended when it is not blank
      and not yet listed, and then the buffer is cleared; otherwise nothing
      changes. */
  function AddTechnology(v: View): (r: View)
    ensures var e := ArrayField.Add(v.form.draft.technologies, v.newTechnology);
      r.form.draft.technologies == e.list && r.newTechnology == e.buffer
    ensures !ArrayField.Accepts(v.form.draft.technologies, v.newTechnology) ==> r == v
    ensures r.form.draft == v.form.draft.(technologies := r.form.draft.technologies)
    ensures r.youtubeUrl == v.youtubeUrl && r.showYoutubeInput == v.showYoutubeInput
    ensures r.form.isEditing == v.form.isEditing && r.form.saving == v.form.saving && r.form.toDelete == v.form.toDelete
  {
    var e := ArrayField.Add(v.form.draft.technologies, v.newTechnology);
    if e.list == v.form.draft.technologies then v
    else Revise(v, v.form.draft.(technologies := e.list)).(newTechnology := e.buffer)
  }

  /** `removeTechnology(t)`: every entry equal to `t` goes, the rest stay in
      order. */
  function RemoveTechnology(v: View, t: string): (r: View)
    ensures r.form.draft.technologies == ArrayField.RemoveAll(v.form.draft.technologies, t)
    ensures t !in r.form.draft.technologies
    ensures forall x :: x != t ==> (x in r.form.draft.technologies <==> x in v.form.draft.technologies)
    ensures r.form.draft == v.form.draft.(technologies := r.form.draft.technologies)
    ensures r.newTechnology == v.newTechnology && r.youtubeUrl == v.youtubeUrl && r.showYoutubeInput == v.showYoutubeInput
    ensures r.form.isEditing == v.form.isEditing && r.form.saving == v.form.saving && r.form.toDelete == v.form.toDelete
  {
    Revise(v, v.form.draft.(technologies := ArrayField.RemoveAll(v.form.draft.technologies, t)))
  }

  /** The technology editor keeps the list free of blanks and duplicates; a
      list grows by at most one entry and keeps its existing order. */
  lemma TechnologiesStayTidy(v: View, t: string)
    requires ArrayField.Tidy(v.form.draft.technologies)
    ensures ArrayField.Tidy(AddTechnology(v).form.draft.technologies)
    ensures ArrayField.Tidy(RemoveTechnology(v, t).form.draft.technologies)
    ensures var after := AddTechnology(v).form.draft.technologies;
      |after| <= |v.form.draft.technologies| + 1 && after[..|v.form.draft.technologies|] == v.form.draft.technologies
  {
    ArrayField.AddKeepsTidy(v.form.draft.technologies, v.newTechnology);
    ArrayField.RemoveKeepsTidy(v.form.draft.technologies, t);
  }

  /** `handleYoutubeAdd()`: when the URL is non-empty and the pattern finds an
      id, one YouTube item with that URL and id is appended, the URL buffer is
      cleared and the input hidden; otherwise nothing changes. */
  function YoutubeAdd(v: View): (r: View)
    ensures v.youtubeUrl == "" || YouTube.VideoId(v.youtubeUrl).None? ==> r == v
    ensures v.youtubeUrl != "" && YouTube.VideoId(v.youtubeUrl).Some? ==>
      && r.form.draft.media == v.form.draft.media + [Media(YouTubeMedia, v.youtubeUrl, YouTube.VideoId(v.youtubeUrl), None)]
      && r.youtubeUrl == "" && !r.showYoutubeInput
    ensures r.form.draft == v.form.draft.(media := r.form.draft.media)
    ensures r.newTechnology == v.newTechnology
    ensures r.form.isEditing == v.form.isEditing && r.form.saving == v.form.saving && r.form.toDelete == v.form.toDelete
  {
    if v.youtubeUrl == "" then v
    else
      match YouTube.VideoId(v.youtubeUrl)
      case None => v
      case Some(id) =>
        var item := Media(YouTubeMedia, v.youtubeUrl, Some(id), None);
        Revise(v, v.form.draft.(media := v.form.draft.media + [item])).(youtubeUrl := "", showYoutubeInput := false)
  }

  /** The media list grows on a YouTube add exactly when the URL holds a
      recognised prefix followed by eleven id characters, and the item it
      gains carries an eleven-character id taken from right after such a
      prefix. */
  lemma YoutubeAddGrowsOnlyOnMatch(v: View)
    ensures (|YoutubeAdd(v).form.draft.media| == |v.form.draft.media| + 1)
        <==> exists k :: YouTube.Recognised(v.youtubeUrl, k) && YouTube.IdAt(v.youtubeUrl, k)
    ensures |YoutubeAdd(v).form.draft.media| != |v.form.draft.media| + 1 ==> YoutubeAdd(v) == v
  {
    var u := v.youtubeUrl;
    var id := YouTube.VideoId(u);
    if u == "" {
      assert forall k :: !YouTube.IdAt(u, k);
    }
  }

  /** When a YouTube add grows the media list, the item it appends carries
      an eleven-character id taken from right after a recognised prefix of
      the URL. */
  lemma YoutubeItem(v: View)
    ensures |YoutubeAdd(v).form.draft.media| == |v.form.draft.media| + 1 ==>
      var item := YoutubeAdd(v).form.draft.media[|v.form.draft.media|];
      && item.kind == YouTubeMedia && item.url == v.youtubeUrl && item.videoId.Some?
      && |item.videoId.value| == YouTube.IdLength
      && (forall i :: 0 <= i < |item.videoId.value| ==> YouTube.IdChar(item.videoId.value[i]))
      && exists k :: YouTube.Recognised(v.youtubeUrl, k) && YouTube.IdAt(v.youtubeUrl, k) && item.videoId.value == v.youtubeUrl[k..k + YouTube.IdLength]
  {
    var u := v.youtubeUrl;
    var id := YouTube.VideoId(u);
    var m := v.form.draft.media;
    if |YoutubeAdd(v).form.draft.media| == |m| + 1 {
      assert u != "" && id.Some?;
      assert YoutubeAdd(v).form.draft.media[|m|] == Media(YouTubeMedia, u, id, None);
    }
  }

  /** `removeMedia(i)`: exactly the item at `i` goes and the rest keep their
      order; an index outside the list changes nothing. */
  function RemoveMedia(v: View, i: int): (r: View)
    ensures var m := v.form.draft.media;
      0 <= i < |m| ==> r.form.draft.media == m[..i] + m[i + 1..]
    ensures !(0 <= i < |v.form.draft.media|) ==> r == v
    ensures r.form.draft == v.form.draft.(media := r.form.draft.media)
    ensures r.newTechnology == v.newTechnology && r.youtubeUrl == v.youtubeUrl && r.showYoutubeInput == v.showYoutubeInput
    ensures r.form.isEditing == v.form.isEditing && r.form.saving == v.form.saving && r.form.toDelete == v.form.toDelete
  {
    var m := v.form.draft.media;
    var kept := ArrayField.RemoveAt(m, i);
    if 0 <= i < |m| then
      assert kept == m[..i] + m[i + 1..];
      Revise(v, v.form.draft.(media := kept))
    else v
  }

  /** The upload outcome the handlers test: a URL that is present and truthy. */
  predicate Uploaded(upload: Option<string>) {
    upload.Some? && upload.value != ""
  }

  /** `handleMediaUpload` after the upload: a non-empty URL appends one image
      item; anything else changes nothing. */
  function MediaUploaded(v: View, upload: Option<string>): (r: View)
    ensures Uploaded(upload) ==> r.form.draft.media == v.form.draft.media + [Media(ImageMedia, upload.value, None, None)]
    ensures !Uploaded(upload) ==> r == v
    ensures r.form.draft == v.form.draft.(media := r.form.draft.media)
    ensures r.newTechnology == v.newTechnology && r.youtubeUrl == v.youtubeUrl && r.showYoutubeInput == v.showYoutubeInput
    ensures r.form.isEditing == v.form.isEditing && r.form.saving == v.form.saving && r.form.toDelete == v.form.toDelete
  {
    if Uploaded(upload) then Revise(v, v.form.draft.(media := v.form.draft.media + [Media(ImageMedia, upload.value, None, None)]))
    else v
  }

  /** `handleThumbnailUpload` after the upload: a non-empty URL becomes the
      thumbnail; anything else changes nothing. */
  function ThumbnailUploaded(v: View, upload: Option<string>): (r: View)
    ensures Uploaded(upload) ==> r.form.draft.image == upload.value
    ensures !Uploaded(upload) ==> r == v
    ensures r.form.draft == v.form.draft.(image := r.form.draft.image)
    ensures r.newTechnology == v.newTechnology && r.youtubeUrl == v.youtubeUrl && r.showYoutubeInput == v.showYoutubeInput
    ensures r.form.isEditing == v.form.isEditing && r.form.saving == v.form.saving && r.form.toDelete == v.form.toDelete
  {
    if Uploaded(upload) then Revise(v, v.form.draft.(image := upload.value)) else v
  }

  /** `removeThumbnail()`: the thumbnail becomes empty; nothing else changes. */
  function RemoveThumbnail(v: View): (r: View)
    ensures r.form.draft == v.form.draft.(image := "")
    ensures r.newTechnology == v.newTechnology && r.youtubeUrl == v.youtubeUrl && r.showYoutubeInput == v.showYoutubeInput
    ensures r.form.isEditing == v.form.isEditing && r.form.saving == v.form.saving && r.form.toDelete == v.form.toDelete
  {
    Revise(v, v.form.draft.(image := ""))
  }

  /** What `handleSave` sends. */
  datatype Submission = Create(input: ProjectInput) | Update(payload: Api.UpdatePayload<Project>)

  /** The body of a request: a create payload or a whole record. */
  datatype Body = InputBody(input: ProjectInput) | RecordBody(record: Project)

  /** `handleSave`'s call: the project under its id when editing, the draft
      without `_id` when creating. */
  function Submit(v: View): (s: Submission)
    ensures v.form.isEditing ==> s.Update? && s.payload.id == v.form.draft.id && s.payload.data == v.form.draft
    ensures !v.form.isEditing ==> s.Create? && WithId(s.input, v.form.draft.id) == v.form.draft
  {
    var d := v.form.draft;
    if v.form.isEditing then Update(Api.UpdatePayload(d.id, d)) else Create(StripId(d))
  }

  function SubmitRequest(s: Submission): (r: Api.Request<Body>)
    ensures s.Create? ==> Api.Locate(r.verb, r.url) == Some(Api.AddCall(Api.Projects)) && r.body == Some(InputBody(s.input))
    ensures s.Update? ==> Api.Locate(r.verb, r.url) == Some(Api.UpdateCall(Api.Projects, s.payload.id)) && r.body == Some(RecordBody(s.payload.data))
  {
    match s
    case Create(input) => Api.AddRequest(Api.Projects, InputBody(input))
    case Update(p) => Api.UpdateRequest(Api.Projects, Api.UpdatePayload(p.id, RecordBody(p.data)))
  }

  /** A save from a consistent form: a create posts the draft without an id,
      and the draft is that payload with the empty id; an update puts the
      whole draft at its own id. */
  lemma SaveSendsDraft(v: View)
    requires FormState.Consistent(v.form, IdOf)
    ensures var r := SubmitRequest(Submit(v));
      if v.form.isEditing then
        Api.Locate(r.verb, r.url) == Some(Api.UpdateCall(Api.Projects, v.form.draft.id)) && r.body == Some(RecordBody(v.form.draft))
      else
        Api.Locate(r.verb, r.url) == Some(Api.AddCall(Api.Projects)) && r.body.Some? && r.body.value.InputBody?
        && WithId(r.body.value.input, "") == v.form.draft
  {
  }

  /** `handleSave` once the call settles: `saving` is cleared on every path;
      a call that did not throw runs `resetForm`, one that threw keeps the
      draft, mode and buffers. */
  function SaveSettled(v: View, threw: bool): (r: View)
    ensures !r.form.saving
    ensures threw ==> r == v.(form := v.form.(saving := false))
    ensures !threw ==> r == ResetForm(v).(form := ResetForm(v).form.(saving := false))
  {
    var done := if threw then v else ResetForm(v);
    done.(form := done.form.(saving := false))
  }

  /** The Delete button inside the open dialog of row `row`: the request
      deletes the picked project, and the pick is cleared unless the call
      threw. */
  function ConfirmDelete(v: View, row: Project, threw: bool): (r: (Api.Request<Body>, View))
    requires FormState.DialogOpen(v.form, IdOf, row.id)
    ensures Api.Locate(r.0.verb, r.0.url) == Some(Api.DeleteCall(Api.Projects, v.form.toDelete.value.id))
    ensures r.0.body.None?
    ensures !threw ==> r.1.form.toDelete.None? && r.1.form.draft == v.form.draft
    ensures threw ==> r.1 == v
  {
    (Api.DeleteRequest(Api.Projects, row.id), v.(form := FormState.DeleteSettled(v.form, threw)))
  }

  /** Every draft change above keeps the draft's id and the mode, so the form
      stays consistent. */
  lemma EditsKeepConsistent(v: View, t: string, i: int, upload: Option<string>)
    requires FormState.Consistent(v.form, IdOf)
    ensures FormState.Consistent(AddTechnology(v).form, IdOf)
    ensures FormState.Consistent(RemoveTechnology(v, t).form, IdOf)
    ensures FormState.Consistent(YoutubeAdd(v).form, IdOf)
    ensures FormState.Consistent(RemoveMedia(v, i).form, IdOf)
    ensures FormState.Consistent(MediaUploaded(v, upload).form, IdOf)
    ensures FormState.Consistent(ThumbnailUploaded(v, upload).form, IdOf)
    ensures FormState.Consistent(RemoveThumbnail(v).form, IdOf)
    ensures FormState.Consistent(SaveSettled(v, true).form, IdOf)
    ensures FormState.Consistent(SaveSettled(v, false).form, IdOf)
  {
  }
}
