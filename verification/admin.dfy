/** The admin console: its state (form open, product being edited, product
    awaiting delete confirmation, and the always-mounted product editor) and
    its transitions, the table's name and category columns, and what the
    product card shows while the list loads. */
module Admin {
  import opened Optional
  import opened JsStrings
  import opened Products
  import T = Translations
  import LC = LanguageContext
  import PD = ProductDisplay
  import PF = ProductForm

  // ---------------------------------------------------------------------------
  // Table columns

  /** The name column: the current language's name, else the English one */
  function AdminName(p: Product, code: string): (r: string)
    ensures PD.NameFor(p, code) != "" ==> r == PD.NameFor(p, code)
    ensures PD.NameFor(p, code) == "" ==> r == p.nameEn
  {
    Or(PD.NameFor(p, code), p.nameEn)
  }

  /** The table and the detail dialog name a product alike. */
  lemma AdminAgreesWithDetail(p: Product, code: string)
    ensures AdminName(p, code) == PD.DetailName(p, code)
  {
  }

  /** The category column: the three codes through `t`, anything else as
      it is */
  function CategoryLabel(code: string, category: string): (r: string)
    ensures category != "men" && category != "women" && category != "children" ==> r == category
    ensures category == "men" || category == "women" || category == "children" ==>
      r == LC.Translate(code, category)
  {
    if category == "men" || category == "women" || category == "children" then LC.Translate(code, category)
    else category
  }

  /** Under one of the four languages each category shows its own table
      entry, never empty; under an unknown language it shows its code. */
  lemma CategoryLabelTranslated(l: T.Language, c: Category)
    ensures CategoryLabel(T.Code(l), CategoryCode(c)) == T.Entry(l, match c case Men => T.Men case Women => T.Women case Children => T.Children)
    ensures CategoryLabel(T.Code(l), CategoryCode(c)) != ""
  {
    T.CategoryKeysDefined(l);
    var k := match c case Men => T.Men case Women => T.Women case Children => T.Children;
    T.EntriesNonEmpty(l, k);
    LC.TranslateDefined(l, CategoryCode(c), T.Entry(l, k));
  }

  lemma CategoryLabelUnknownLanguage(code: string, c: Category)
    requires T.ParseLanguage(code).None?
    ensures CategoryLabel(code, CategoryCode(c)) == CategoryCode(c)
  {
    LC.TranslateUnknownLanguage(code, CategoryCode(c));
  }

  const AdminDefaultImage: string := "https://images.unsplash.com/photo-1441986300917-64674bd600d8?w=100&h=100&fit=crop"

  /** The thumbnail column: the first image when it is not empty */
  function Thumbnail(p: Product): (r: string)
    ensures |p.images| > 0 && p.images[0] != "" ==> r == p.images[0]
    ensures |p.images| == 0 || p.images[0] == "" ==> r == AdminDefaultImage
  {
    Or(if |p.images| > 0 then p.images[0] else "", AdminDefaultImage)
  }

  /** The count in the card title: the list length, 0 before any data */
  function ProductCount(data: Option<seq<Product>>): (n: nat)
    ensures data.None? ==> n == 0
    ensures data.Some? ==> n == |data.value|
  {
    match data
    case Some(rows) => |rows|
    case None => 0
  }

  /** What the product card holds */
  datatype View = Spinner | NoProducts | ProductTable(rows: seq<Product>)

  function ViewOf(isLoading: bool, data: Option<seq<Product>>): (v: View)
    ensures v.Spinner? <==> isLoading
    ensures v.ProductTable? <==> !isLoading && ProductCount(data) > 0
    ensures v.ProductTable? ==> Some(v.rows) == data
  {
    if isLoading then Spinner
    else match data
      case Some(rows) => if |rows| == 0 then NoProducts else ProductTable(rows)
      case None => NoProducts
  }

  // ---------------------------------------------------------------------------
  // State

  /** The page's three state variables and the product editor, which stays
      mounted while its dialog is closed and so keeps its values */
  datatype AdminState = AdminState(formOpen: bool, editing: Option<Product>, deleteConfirm: Option<string>,
                                   editor: PF.Editor)

  /** The page as first shown: the editor's mount effect has run the
      create-mode reset. */
  function Initial(): (s: AdminState)
    ensures !s.formOpen && s.editing.None? && s.deleteConfirm.None?
    ensures s.editor.images == [] && s.editor.colors == [] && s.editor.sizes == []
    ensures !PF.ValidForm(s.editor.form)
  {
    PF.CreateModeNeedsNames(PF.InitialEditor(), "", "", "", "");
    AdminState(false, None, None, PF.Reset(PF.InitialEditor(), None))
  }

  /** What the administrator can do */
  datatype AdminEvent =
    | AddClicked                  // the add button
    | EditClicked(p: Product)     // a row's pencil
    | FormEdited(editor: PF.Editor) // typing and the list editors inside the open form
    | SaveClicked(ok: bool)       // the save button, `ok` telling whether the request succeeds
    | FormClosed                  // the form dialog dismissed
    | TrashClicked(id: string)    // a row's bin
    | DialogOpenChanged           // the confirmation dialog dismissed
    | DeleteConfirmed(ok: bool)   // the confirm button, `ok` telling whether the delete succeeds

  /** `handleCloseForm` */
  function Close(s: AdminState): (r: AdminState)
    ensures !r.formOpen && r.editing.None?
    ensures r.deleteConfirm == s.deleteConfirm && r.editor == s.editor
  {
    s.(formOpen := false, editing := None)
  }

  /** The request a save sends: the editor's submission for the edited
      product, or for none */
  function SaveRequest(s: AdminState): (r: PF.Submission)
    ensures r.Rejected? <==> !PF.ValidForm(s.editor.form)
    ensures r.CreateRequest? <==> PF.ValidForm(s.editor.form) && s.editing.None?
    ensures r.UpdateRequest? ==> r.id == s.editing.value.id
  {
    PF.Submit(s.editor, s.editing)
  }

  /** The delete dialog is open exactly while an id awaits confirmation */
  predicate DialogOpen(s: AdminState) {
    s.deleteConfirm.Some? && s.deleteConfirm.value != ""
  }

  /** The outcome of confirming a delete: the new state and the id a delete
      request was issued for, if any */
  datatype DeleteStep = DeleteStep(state: AdminState, issued: Option<string>)

  /** `handleDelete` on its own: a delete is issued only for a pending id;
      the id is cleared once the request succeeds and stays set if it
      fails. */
  function HandleDelete(s: AdminState, succeeded: bool): (r: DeleteStep)
    ensures r.issued.Some? <==> DialogOpen(s)
    ensures r.issued.Some? ==> r.issued == s.deleteConfirm
    ensures r.state.formOpen == s.formOpen && r.state.editing == s.editing && r.state.editor == s.editor
    ensures r.state.deleteConfirm.None? <==> s.deleteConfirm.None? || (DialogOpen(s) && succeeded)
    ensures !(DialogOpen(s) && succeeded) ==> r.state == s
  {
    if DialogOpen(s) then
      DeleteStep(if succeeded then s.(deleteConfirm := None) else s, s.deleteConfirm)
    else DeleteStep(s, None)
  }

  /** A click on the confirm button: the button is one of the dialog's close
      buttons, so besides running `handleDelete` it fires `onOpenChange`,
      which clears the pending id whatever the request's outcome. */
  function ConfirmDelete(s: AdminState, succeeded: bool): (r: DeleteStep)
    ensures r.issued == HandleDelete(s, succeeded).issued
    ensures r.state == s.(deleteConfirm := None)
    ensures !DialogOpen(r.state)
  {
    var d := HandleDelete(s, succeeded);
    DeleteStep(d.state.(deleteConfirm := None), d.issued)
  }

  /** The page's handlers, before the editor's effect reacts */
  function Handle(s: AdminState, ev: AdminEvent): (r: AdminState)
    ensures ev.EditClicked? ==> r.formOpen && r.editing == Some(ev.p)
    ensures ev.FormClosed? ==> r == Close(s)
    ensures ev.AddClicked? ==> r == s.(formOpen := true)
    ensures !ev.FormEdited? ==> r.editor == s.editor
    ensures ev.FormEdited? ==> r.editing == s.editing
  {
    match ev
    case AddClicked => s.(formOpen := true)
    case EditClicked(p) => s.(editing := Some(p), formOpen := true)
    case FormEdited(e) => if s.formOpen then s.(editor := e) else s
    case SaveClicked(ok) => if s.formOpen && PF.ValidForm(s.editor.form) && ok then Close(s) else s
    case FormClosed => Close(s)
    case TrashClicked(id) => s.(deleteConfirm := Some(id))
    case DialogOpenChanged => s.(deleteConfirm := None)
    case DeleteConfirmed(ok) => ConfirmDelete(s, ok).state
  }

  /** One event: the handler, then the editor's effect, which resets the
      editor when, and only when, the product it is handed has changed. */
  function Apply(s: AdminState, ev: AdminEvent): (r: AdminState)
    ensures ev.EditClicked? ==> r.formOpen && r.editing == Some(ev.p)
    ensures ev.FormClosed? ==> !r.formOpen && r.editing.None?
    ensures ev.AddClicked? ==> r == s.(formOpen := true)
    ensures ev.FormEdited? ==> r == (if s.formOpen then s.(editor := ev.editor) else s)
    ensures ev.SaveClicked? && !(s.formOpen && PF.ValidForm(s.editor.form) && ev.ok) ==> r == s
    ensures ev.SaveClicked? && s.formOpen && PF.ValidForm(s.editor.form) && ev.ok ==> !r.formOpen && r.editing.None?
    ensures r.editing != s.editing ==> r.editor == PF.Reset(s.editor, r.editing)
    ensures r.editing == s.editing && !ev.FormEdited? ==> r.editor == s.editor
    ensures ev.TrashClicked? ==> r == s.(deleteConfirm := Some(ev.id))
    ensures ev.DialogOpenChanged? || ev.DeleteConfirmed? ==> r == s.(deleteConfirm := None)
    ensures !ev.TrashClicked? && !ev.DialogOpenChanged? && !ev.DeleteConfirmed? ==> r.deleteConfirm == s.deleteConfirm
  {
    var h := Handle(s, ev);
    if h.editing != s.editing then h.(editor := PF.Reset(h.editor, h.editing)) else h
  }

  function ApplyAll(s: AdminState, evs: seq<AdminEvent>): AdminState
    decreases |evs|
  {
    if evs == [] then s else ApplyAll(Apply(s, evs[0]), evs[1..])
  }

  /** A product is being edited only while the form is open */
  predicate Consistent(s: AdminState) {
    s.editing.Some? ==> s.formOpen
  }

  lemma {:induction false} ConsistentAlways(s: AdminState, evs: seq<AdminEvent>)
    requires Consistent(s)
    ensures Consistent(ApplyAll(s, evs))
    decreases |evs|
  {
    if evs != [] {
      ConsistentAlways(Apply(s, evs[0]), evs[1..]);
    }
  }

  /** From any reachable state where the form is closed, the add button
      opens the form in create mode: an earlier edit never leaks into it. */
  lemma AddAfterCloseCreates(evs: seq<AdminEvent>)
    requires !ApplyAll(Initial(), evs).formOpen
    ensures Apply(ApplyAll(Initial(), evs), AddClicked) == ApplyAll(Initial(), evs).(formOpen := true)
    ensures Apply(ApplyAll(Initial(), evs), AddClicked).editing.None?
  {
    ConsistentAlways(Initial(), evs);
  }

  /** Editing, closing and adding again opens an emptied form: closing hands
      the editor no product, which triggers the create-mode reset. */
  lemma EditCloseAdd(s: AdminState, p: Product)
    ensures ApplyAll(s, [EditClicked(p), FormClosed, AddClicked])
            == s.(formOpen := true, editing := None, editor := PF.Reset(s.editor, None))
  {
    assert [EditClicked(p), FormClosed, AddClicked][1..] == [FormClosed, AddClicked];
    assert [FormClosed, AddClicked][1..] == [AddClicked];
    var s1 := Apply(s, EditClicked(p));
    assert s1.editor.newImage == s.editor.newImage && s1.editor.newColor == s.editor.newColor
           && s1.editor.newSize == s.editor.newSize;
  }

  /** Dismissing a create-mode form and adding again reopens it exactly as
      it was left: the product handed to the editor stays `null`, so no
      reset runs. */
  lemma StaleCreateForm(s: AdminState)
    requires s.editing.None?
    ensures ApplyAll(s, [FormClosed, AddClicked]) == s.(formOpen := true)
  {
    assert [FormClosed, AddClicked][1..] == [AddClicked];
  }

  /** After a successful create, the add button reopens the form with the
      values just saved, and saving again sends the same insert. */
  lemma CreateSavedThenAddResubmits(s: AdminState)
    requires s.formOpen && s.editing.None? && PF.ValidForm(s.editor.form)
    ensures SaveRequest(s).CreateRequest?
    ensures ApplyAll(s, [SaveClicked(true), AddClicked]) == s
    ensures SaveRequest(ApplyAll(s, [SaveClicked(true), AddClicked])) == SaveRequest(s)
  {
    assert [SaveClicked(true), AddClicked][1..] == [AddClicked];
  }

  /** One event with the editor reset whenever the form opens, as well as
      when the product it is handed changes */
  function FixedApply(s: AdminState, ev: AdminEvent): (r: AdminState)
    ensures r.formOpen && !s.formOpen ==> r.editor == PF.Reset(s.editor, r.editing)
    ensures r.formOpen == Apply(s, ev).formOpen && r.editing == Apply(s, ev).editing
    ensures r.deleteConfirm == Apply(s, ev).deleteConfirm
    ensures !(r.formOpen && !s.formOpen) ==> r == Apply(s, ev)
  {
    var h := Handle(s, ev);
    if h.editing != s.editing || (h.formOpen && !s.formOpen) then h.(editor := PF.Reset(h.editor, h.editing))
    else h
  }

  /** With the corrected effect the add button always opens an empty form,
      which cannot be saved until the four names are filled in. */
  lemma FixedAddOpensEmpty(s: AdminState)
    requires !s.formOpen && s.editing.None?
    ensures FixedApply(s, AddClicked).formOpen && FixedApply(s, AddClicked).editing.None?
    ensures FixedApply(s, AddClicked).editor == PF.Reset(s.editor, None)
    ensures FixedApply(s, AddClicked).editor.images == [] && FixedApply(s, AddClicked).editor.colors == []
    ensures SaveRequest(FixedApply(s, AddClicked)).Rejected?
  {
    PF.CreateModeNeedsNames(s.editor, "", "", "", "");
  }

  /** Confirming a delete sends the request for the chosen id and closes the
      dialog whether the request succeeds or fails; nothing else changes. */
  lemma DeleteOutcome(s: AdminState, id: string, ok: bool)
    requires id != ""
    ensures ConfirmDelete(Apply(s, TrashClicked(id)), ok).issued == Some(id)
    ensures ApplyAll(s, [TrashClicked(id), DeleteConfirmed(ok)]) == s.(deleteConfirm := None)
    ensures !DialogOpen(ApplyAll(s, [TrashClicked(id), DeleteConfirmed(ok)]))
  {
    assert [TrashClicked(id), DeleteConfirmed(ok)][1..] == [DeleteConfirmed(ok)];
    var t := Apply(s, TrashClicked(id));
    assert ApplyAll(t, [DeleteConfirmed(ok)]) == Apply(t, DeleteConfirmed(ok));
  }

  /** Whatever the admin form saves is stored unfeatured, so the card's
      featured badge is off on the inserted or updated row. */
  lemma FormSaveClearsBadge(s: AdminState, id: string, now: string, offerDefault: bool)
    ensures SaveRequest(s).CreateRequest? ==> !PD.FeaturedBadge(NewRow(SaveRequest(s).payload, id, now, offerDefault))
    ensures SaveRequest(s).UpdateRequest? ==>
      !PD.FeaturedBadge(ApplyPatch(s.editing.value, PayloadPatch(SaveRequest(s).payload)))
  {
    var q := SaveRequest(s);
    if q.UpdateRequest? {
      assert PayloadPatch(q.payload).isFeatured == Some(false);
    }
  }
}
