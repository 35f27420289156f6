/** The state every entity dashboard keeps around its form: the draft record,
    whether the draft is an existing record being edited, whether a save is in
    flight, and the record picked for deletion (whose confirmation dialog is
    open). The transitions are the handlers the four dashboards share. */
module FormState {
  import opened Optional

  datatype Form<D> = Form(draft: D, isEditing: bool, saving: bool, toDelete: Option<D>)

  /** The state a dashboard mounts with. */
  function Start<D>(blank: D): (f: Form<D>)
    ensures f.draft == blank && !f.isEditing && !f.saving && f.toDelete.None?
  {
    Form(blank, false, false, None)
  }

  /** `handleEdit(record)`: the draft becomes the record, in edit mode. */
  function Edit<D>(f: Form<D>, record: D): (r: Form<D>)
    ensures r.draft == record && r.isEditing
    ensures r.saving == f.saving && r.toDelete == f.toDelete
  {
    f.(draft := record, isEditing := true)
  }

  /** `resetForm()`: the draft goes back to the blank record, in create mode. */
  function Reset<D>(f: Form<D>, blank: D): (r: Form<D>)
    ensures r.draft == blank && !r.isEditing
    ensures r.saving == f.saving && r.toDelete == f.toDelete
  {
    f.(draft := blank, isEditing := false)
  }

  /** A change to the draft's content that leaves the mode and flags alone. */
  function Revise<D>(f: Form<D>, draft: D): (r: Form<D>)
    ensures r.draft == draft
    ensures r.isEditing == f.isEditing && r.saving == f.saving && r.toDelete == f.toDelete
  {
    f.(draft := draft)
  }

  /** The delete button of a row: that row's record is picked for deletion. */
  function AskDelete<D>(f: Form<D>, record: D): (r: Form<D>)
    ensures r.toDelete == Some(record)
    ensures r.draft == f.draft && r.isEditing == f.isEditing && r.saving == f.saving
  {
    f.(toDelete := Some(record))
  }

  /** The Cancel button, or the dialog closing: nothing is picked. */
  function CancelDelete<D>(f: Form<D>): (r: Form<D>)
    ensures r.toDelete.None?
    ensures r.draft == f.draft && r.isEditing == f.isEditing && r.saving == f.saving
  {
    f.(toDelete := None)
  }

  /** `handleDelete(record)` once the awaited delete call settles: the pick is
      cleared unless the call threw. */
  function DeleteSettled<D>(f: Form<D>, threw: bool): (r: Form<D>)
    ensures threw ==> r == f
    ensures !threw ==> r.toDelete.None?
    ensures r.draft == f.draft && r.isEditing == f.isEditing && r.saving == f.saving
  {
    if threw then f else f.(toDelete := None)
  }

  /** The confirmation dialog of the row whose id is `rowId` is open: the
      picked record has that id. */
  predicate DialogOpen<D>(f: Form<D>, idOf: D -> string, rowId: string) {
    f.toDelete.Some? && idOf(f.toDelete.value) == rowId
  }

  /** Picking a record opens the dialog of exactly the rows with its id. */
  lemma PickOpensOwnDialog<D>(f: Form<D>, record: D, idOf: D -> string, rowId: string)
    ensures DialogOpen(AskDelete(f, record), idOf, rowId) <==> idOf(record) == rowId
  {
  }

  /** After Cancel no dialog is open. */
  lemma CancelClosesDialogs<D>(f: Form<D>, idOf: D -> string, rowId: string)
    ensures !DialogOpen(CancelDelete(f), idOf, rowId)
  {
  }

  /** `handleSave` sets `saving` before the awaited call. */
  function SaveStarted<D>(f: Form<D>): (r: Form<D>)
    ensures r.saving
    ensures r.draft == f.draft && r.isEditing == f.isEditing && r.toDelete == f.toDelete
  {
    f.(saving := true)
  }

  /** `handleSave` once the awaited call settles: when the call did not throw
      the form is reset; on every path, the `finally` clears `saving`. */
  function SaveSettled<D>(f: Form<D>, blank: D, threw: bool): (r: Form<D>)
    ensures !r.saving && r.toDelete == f.toDelete
    ensures threw ==> r.draft == f.draft && r.isEditing == f.isEditing
    ensures !threw ==> r.draft == blank && !r.isEditing
  {
    var done := if threw then f else Reset(f, blank);
    done.(saving := false)
  }

  /** How an awaited mutation trigger settles. The dashboards await the
      trigger without `.unwrap()`, so a server error resolves the promise with
      an `error` field just as a success resolves it with `data`; only a
      rejection of the promise itself reaches the `catch`. */
  datatype Settlement = ServerOk | ServerError | Rejected

  /** Whether the `await` throws, given how the trigger settled. */
  predicate Throws(s: Settlement) {
    s.Rejected?
  }

  /** A save or delete the server refused settles exactly like one it
      accepted: the form is reset and the pick is cleared, because neither
      handler looks at the resolved value. Only a rejected promise keeps the
      draft, the mode and the pick. */
  lemma ServerErrorActsAsSuccess<D>(f: Form<D>, blank: D)
    ensures SaveSettled(f, blank, Throws(ServerError)) == SaveSettled(f, blank, Throws(ServerOk))
    ensures SaveSettled(f, blank, Throws(ServerError)).draft == blank && !SaveSettled(f, blank, Throws(ServerError)).isEditing
    ensures DeleteSettled(f, Throws(ServerError)) == DeleteSettled(f, Throws(ServerOk))
    ensures DeleteSettled(f, Throws(ServerError)).toDelete.None?
    ensures SaveSettled(f, blank, Throws(Rejected)).draft == f.draft && DeleteSettled(f, Throws(Rejected)) == f
  {
  }

  /** The draft of a form in create mode has the empty id. */
  ghost predicate Consistent<D>(f: Form<D>, idOf: D -> string) {
    !f.isEditing ==> idOf(f.draft) == ""
  }

  /** Every transition keeps the create-mode draft id-less, given a blank
      record with the empty id and revisions that keep the draft's id. */
  lemma TransitionsKeepConsistent<D>(f: Form<D>, idOf: D -> string, blank: D, record: D, draft: D, threw: bool)
    requires idOf(blank) == ""
    requires Consistent(f, idOf)
    requires idOf(draft) == idOf(f.draft)
    ensures Consistent(Start(blank), idOf)
    ensures Consistent(Edit(f, record), idOf)
    ensures Consistent(Reset(f, blank), idOf)
    ensures Consistent(Revise(f, draft), idOf)
    ensures Consistent(AskDelete(f, record), idOf)
    ensures Consistent(CancelDelete(f), idOf)
    ensures Consistent(DeleteSettled(f, threw), idOf)
    ensures Consistent(SaveStarted(f), idOf)
    ensures Consistent(SaveSettled(f, blank, threw), idOf)
  {
  }
}
