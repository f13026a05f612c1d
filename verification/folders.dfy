/**
 Folder pickers and dialogs. A folder reference passed between components can
 be `undefined`, `null` or a folder id; the select widget itself needs a
 string, and uses "root" for "no folder".
 */
module Folders {
  import opened Seqs
  import opened Strings

  /** A `string | null | undefined` folder id. */
  datatype FolderRef = Undefined | Null | Id(id: string)

  /** `FolderSelect.handleValueChange`: "root" is reported as null, anything else unchanged. */
  function ReportedValue(selected: string): (r: Option<string>)
    ensures selected == "root" <==> r.None?
    ensures r.Some? ==> r.value == selected
  {
    if selected == "root" then None else Some(selected)
  }

  /** `value ?? "root"`: what the select shows for a folder reference. */
  function DisplayedValue(value: FolderRef): (r: string)
    ensures value.Id? ==> r == value.id
    ensures !value.Id? ==> r == "root"
  {
    match value
    case Id(s) => s
    case _ => "root"
  }

  /** Showing a value and reporting it back is the identity, except for a folder literally named "root". */
  lemma DisplayThenReport(value: FolderRef)
    ensures value.Id? && value.id != "root" ==> ReportedValue(DisplayedValue(value)) == Some(value.id)
    ensures !value.Id? ==> ReportedValue(DisplayedValue(value)) == None
    ensures ReportedValue(DisplayedValue(Id("root"))) == None
  {
  }

  /** The select's option values: "root" first when allowed, then the folders. */
  function Options(allowRoot: bool, folderIds: seq<string>): (r: seq<string>)
    ensures allowRoot ==> |r| > 0 && r[0] == "root"
    ensures !allowRoot ==> r == folderIds
  {
    (if allowRoot then ["root"] else []) + folderIds
  }

  /**
   Picking the option at position `i` reports null for the root option and the
   folder's id otherwise, provided no folder id is literally "root".
   */
  lemma PickedOptionReported(allowRoot: bool, folderIds: seq<string>, i: nat)
    requires i < |Options(allowRoot, folderIds)|
    requires forall j :: 0 <= j < |folderIds| ==> folderIds[j] != "root"
    ensures allowRoot && i == 0 ==> ReportedValue(Options(allowRoot, folderIds)[i]) == None
    ensures allowRoot && i > 0 ==> ReportedValue(Options(allowRoot, folderIds)[i]) == Some(folderIds[i - 1])
    ensures !allowRoot ==> ReportedValue(Options(allowRoot, folderIds)[i]) == Some(folderIds[i])
  {
    if allowRoot && i > 0 {
      assert Options(allowRoot, folderIds)[i] == folderIds[i - 1];
    }
  }

  /** Every value the select can show is one of its options, given an allowed root and a known folder. */
  lemma DisplayedIsOffered(value: FolderRef, folderIds: seq<string>)
    requires !value.Id? || value.id in folderIds
    ensures DisplayedValue(value) in Options(true, folderIds)
  {
    if value.Id? {
      var k :| 0 <= k < |folderIds| && folderIds[k] == value.id;
      assert Options(true, folderIds)[k + 1] == value.id;
    }
  }

  /** The move dialog's selection; `None` stands for null, the root. */
  type Selection = Option<string>

  /** `currentFolderId || null`: an absent or empty id selects the root. */
  function InitialSelection(current: FolderRef): (r: Selection)
    ensures r.Some? <==> current.Id? && current.id != ""
    ensures r.Some? ==> r.value == current.id
  {
    if current.Id? && current.id != "" then Some(current.id) else None
  }

  /** `selectedFolderId !== currentFolderId`, strict comparison as written. */
  predicate HasChanged(selected: Selection, current: FolderRef) {
    match (selected, current)
    case (None, Null) => false
    case (Some(s), Id(t)) => s != t
    case _ => true
  }

  /** The Move button is disabled while the request runs or when nothing changed. */
  predicate MoveDisabled(pending: bool, selected: Selection, current: FolderRef) {
    pending || !HasChanged(selected, current)
  }

  /** As written, the dialog opened for a note without a folder id counts as changed before any choice. */
  lemma AbsentFolderCountsAsChanged()
    ensures HasChanged(InitialSelection(Undefined), Undefined)
    ensures HasChanged(InitialSelection(Id("")), Id(""))
    ensures !MoveDisabled(false, InitialSelection(Undefined), Undefined)
  {
  }

  /** The same comparison made against the normalised current folder. */
  predicate HasChangedIntended(selected: Selection, current: FolderRef) {
    selected != InitialSelection(current)
  }

  /** The Move button's rule with the normalised comparison. */
  predicate MoveDisabledIntended(pending: bool, selected: Selection, current: FolderRef) {
    pending || !HasChangedIntended(selected, current)
  }

  /** With the normalised comparison the freshly opened dialog never counts as changed, so Move starts disabled. */
  lemma IntendedOpensUnchanged(current: FolderRef, selected: Selection)
    ensures !HasChangedIntended(InitialSelection(current), current)
    ensures MoveDisabledIntended(false, InitialSelection(current), current)
    ensures !MoveDisabledIntended(false, selected, current) <==> selected != InitialSelection(current)
    ensures current.Null? || (current.Id? && current.id != "") ==>
      (HasChangedIntended(selected, current) <==> HasChanged(selected, current))
  {
  }

  /** The move request. */
  datatype MoveRequest = MoveRequest(noteId: string, folderId: Selection)

  /** `handleSubmit`: nothing without a note id, else a move to the selected folder (null for the root). */
  function MoveSubmit(noteId: Option<string>, selected: Selection): (r: Option<MoveRequest>)
    ensures r.None? <==> !Truthy(noteId)
    ensures r.Some? ==> r.value == MoveRequest(noteId.value, selected)
  {
    if !Truthy(noteId) then None else Some(MoveRequest(noteId.value, selected))
  }

  /**
   An enabled Move button on a dialog with a note sends the folder picked in
   the select: null for the root option, else the folder's id, and always a
   folder that differs from the note's current one.
   */
  lemma EnabledMoveSendsPick(noteId: Option<string>, current: FolderRef, picked: string)
    requires Truthy(noteId)
    requires !MoveDisabled(false, ReportedValue(picked), current)
    ensures var r := MoveSubmit(noteId, ReportedValue(picked));
      && r.Some? && r.value.noteId == noteId.value
      && (r.value.folderId.None? <==> picked == "root")
      && (r.value.folderId.Some? ==> r.value.folderId.value == picked)
      && HasChanged(r.value.folderId, current)
  {
  }

  /** `handleOpenChange`: closing the dialog puts the selection back. */
  function MoveOpenChange(newOpen: bool, current: FolderRef, selected: Selection): (r: Selection)
    ensures !newOpen ==> r == InitialSelection(current)
    ensures newOpen ==> r == selected
  {
    if !newOpen then InitialSelection(current) else selected
  }

  /** Whatever was chosen, closing and re-opening shows the initial selection. */
  lemma CloseDiscardsChoice(current: FolderRef, a: Selection, b: Selection)
    ensures MoveOpenChange(false, current, a) == MoveOpenChange(false, current, b)
  {
  }

  /** A successful move closes the dialog through the parent's callback, skipping the reset. */
  function MoveSucceeded(selected: Selection): (r: (bool, Selection))
    ensures !r.0
    ensures r.1 == selected
  {
    (false, selected)
  }

  /** Cancel puts the selection back; a successful move leaves the chosen folder selected. */
  lemma SuccessKeepsChoice(current: FolderRef, selected: Selection)
    requires selected != InitialSelection(current)
    ensures MoveSucceeded(selected).1 != MoveOpenChange(false, current, selected)
  {
  }

  /** The ten folder colours; new folders start with the first. */
  const FolderColors: seq<string> := [
    "#3b82f6", "#ef4444", "#10b981", "#f59e0b", "#8b5cf6",
    "#06b6d4", "#84cc16", "#f97316", "#ec4899", "#6b7280"]

  /** The create dialog's form. */
  datatype FolderForm = FolderForm(name: string, description: string, color: string, parentId: Option<string>)

  /** The form as first shown, and as reset on success and on close. */
  function EmptyForm(parentId: Option<string>): (f: FolderForm)
    ensures f.name == "" && f.description == "" && f.color == "#3b82f6" && f.parentId == parentId
  {
    FolderForm("", "", FolderColors[0], parentId)
  }

  datatype CreateFolderRequest = CreateFolderRequest(name: string, description: Option<string>, color: string, parentId: Option<string>)

  /** `handleSubmit`: nothing for a blank name; the name is trimmed and a blank description dropped. */
  function CreateSubmit(f: FolderForm): (r: Option<CreateFolderRequest>)
    ensures r.None? <==> IsBlank(f.name)
    ensures r.Some? ==> r.value.name == Trim(f.name) && r.value.name != ""
    ensures r.Some? ==> (r.value.description.None? <==> IsBlank(f.description))
    ensures r.Some? && r.value.description.Some? ==> r.value.description.value == Trim(f.description)
    ensures r.Some? ==> r.value.color == f.color && r.value.parentId == f.parentId
  {
    TrimEmptyIffBlank(f.name);
    TrimEmptyIffBlank(f.description);
    if Trim(f.name) == "" then None
    else
      var d := Trim(f.description);
      Some(CreateFolderRequest(Trim(f.name), if d == "" then None else Some(d), f.color, f.parentId))
  }

  /** The Create button is disabled while pending or when the name is blank. */
  predicate CreateDisabled(pending: bool, f: FolderForm) {
    pending || Trim(f.name) == ""
  }

  /** An enabled Create button always leads to a request. */
  lemma EnabledCreateSends(f: FolderForm)
    requires !CreateDisabled(false, f)
    ensures CreateSubmit(f).Some?
  {
    TrimEmptyIffBlank(f.name);
  }

  /** Success and closing both reset to the empty form for the dialog's parent folder. */
  function CreateOpenChange(newOpen: bool, parentId: Option<string>, f: FolderForm): (r: FolderForm)
    ensures !newOpen ==> r == EmptyForm(parentId)
    ensures newOpen ==> r == f
  {
    if !newOpen then EmptyForm(parentId) else f
  }

  /** A successful create resets the form and closes the dialog through the parent's callback. */
  function CreateSucceeded(parentId: Option<string>, f: FolderForm): (r: (bool, FolderForm))
    ensures !r.0
    ensures !r.1.parentId.None? <==> parentId.Some?
  {
    (false, EmptyForm(parentId))
  }

  /** Success and cancel leave the same form behind, whatever was typed. */
  lemma SuccessAndCancelAgree(parentId: Option<string>, f: FolderForm, g: FolderForm)
    ensures CreateSucceeded(parentId, f).1 == CreateOpenChange(false, parentId, g)
  {
  }

  /** The empty form is never submittable. */
  lemma EmptyFormBlocked(parentId: Option<string>)
    ensures CreateDisabled(false, EmptyForm(parentId)) && CreateSubmit(EmptyForm(parentId)).None?
  {
  }
}
