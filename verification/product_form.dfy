/** The admin product editor: the form values and their schema, the three
    list editors (images, colours, sizes), the reset performed when the
    product handed to the editor changes, and the record sent on submit. */
module ProductForm {
  import opened Optional
  import opened JsStrings
  import opened Products

  /** The form values. A `None` optional is a field the form does not hold
      (`undefined`); `category` is whatever text the select last set. */
  datatype FormValues = FormValues(
    nameAr: string,
    nameFr: string,
    nameEn: string,
    nameBer: string,
    descriptionAr: Option<string>,
    descriptionFr: Option<string>,
    descriptionEn: Option<string>,
    descriptionBer: Option<string>,
    price: real,
    category: string,
    phone: Option<string>,
    whatsapp: Option<string>,
    address: Option<string>
  )

  /** The fields the schema can reject */
  datatype FormField = NameArField | NameFrField | NameEnField | NameBerField | PriceField | CategoryField

  /** The schema: each name at least one character, price at least 0,
      category one of the three codes; every other field optional */
  predicate ValidForm(f: FormValues) {
    && Utf16Length(f.nameAr) >= 1
    && Utf16Length(f.nameFr) >= 1
    && Utf16Length(f.nameEn) >= 1
    && Utf16Length(f.nameBer) >= 1
    && f.price >= 0.0
    && ParseCategory(f.category).Some?
  }

  /** The fields the schema reports, one check per field */
  function FormErrors(f: FormValues): (e: set<FormField>)
    ensures NameArField in e <==> f.nameAr == ""
    ensures NameFrField in e <==> f.nameFr == ""
    ensures NameEnField in e <==> f.nameEn == ""
    ensures NameBerField in e <==> f.nameBer == ""
    ensures PriceField in e <==> f.price < 0.0
    ensures CategoryField in e <==> f.category != "men" && f.category != "women" && f.category != "children"
  {
    (if Utf16Length(f.nameAr) < 1 then {NameArField} else {})
    + (if Utf16Length(f.nameFr) < 1 then {NameFrField} else {})
    + (if Utf16Length(f.nameEn) < 1 then {NameEnField} else {})
    + (if Utf16Length(f.nameBer) < 1 then {NameBerField} else {})
    + (if f.price < 0.0 then {PriceField} else {})
    + (if ParseCategory(f.category).None? then {CategoryField} else {})
  }

  /** The schema accepts exactly the values on which no field is reported. */
  lemma ValidIffNoErrors(f: FormValues)
    ensures ValidForm(f) <==> FormErrors(f) == {}
  {
    if !ValidForm(f) {
      if ParseCategory(f.category).None? {
        assert CategoryField in FormErrors(f);
      }
    }
  }

  /** The editor: the form values, the three lists and the three inputs the
      list editors read from */
  datatype Editor = Editor(
    form: FormValues,
    images: seq<string>,
    colors: seq<string>,
    sizes: seq<string>,
    newImage: string,
    newColor: string,
    newSize: string
  )

  /** The colour input's initial value */
  const DefaultColor: string := "#000000"

  /** The editor as first rendered, before its mount effect runs the
      create-mode reset. Until then the form holds only the category; the
      empty names and zero price here stand for values never observed. */
  function InitialEditor(): (e: Editor)
    ensures e.images == [] && e.colors == [] && e.sizes == []
    ensures e.newImage == "" && e.newColor == DefaultColor && e.newSize == ""
    ensures e.form.category == "men"
  {
    Editor(FormValues("", "", "", "", None, None, None, None, 0.0, "men", None, None, None),
           [], [], [], "", DefaultColor, "")
  }

  /** The values loaded from an existing row: absent texts become `""` */
  function LoadForm(p: Product): (f: FormValues)
    ensures f.nameAr == p.nameAr && f.nameFr == p.nameFr && f.nameEn == p.nameEn && f.nameBer == p.nameBer
    ensures f.price == p.price && ParseCategory(f.category) == Some(p.category)
    ensures f.descriptionAr.Some? && f.phone.Some? && f.whatsapp.Some? && f.address.Some?
  {
    ParseCategoryCode(p.category);
    FormValues(
      p.nameAr, p.nameFr, p.nameEn, p.nameBer,
      Some(p.descriptionAr.GetOr("")), Some(p.descriptionFr.GetOr("")),
      Some(p.descriptionEn.GetOr("")), Some(p.descriptionBer.GetOr("")),
      p.price, CategoryCode(p.category),
      Some(p.phone.GetOr("")), Some(p.whatsapp.GetOr("")), Some(p.address.GetOr(""))
    )
  }

  /** The reset the editor's effect runs on mount and whenever the product
      it is handed changes (not when the dialog opens): the form and the
      three lists are replaced; the three inputs keep their text. In create
      mode the names are empty, the price 0, the category `men` and every
      other field unset. */
  function Reset(e: Editor, product: Option<Product>): (r: Editor)
    ensures r.newImage == e.newImage && r.newColor == e.newColor && r.newSize == e.newSize
    ensures product.Some? ==> r.form == LoadForm(product.value)
    ensures product.Some? ==> r.images == product.value.images && r.colors == product.value.colors && r.sizes == product.value.sizes
    ensures product.None? ==> r.images == [] && r.colors == [] && r.sizes == []
    ensures product.None? ==> r.form.price == 0.0 && r.form.category == "men"
    ensures product.None? ==> r.form.descriptionAr.None? && r.form.descriptionFr.None?
                              && r.form.descriptionEn.None? && r.form.descriptionBer.None?
    ensures product.None? ==> r.form.phone.None? && r.form.whatsapp.None? && r.form.address.None?
    ensures product.None? ==> FormErrors(r.form) == {NameArField, NameFrField, NameEnField, NameBerField}
  {
    match product
    case Some(p) =>
      e.(form := LoadForm(p), images := p.images, colors := p.colors, sizes := p.sizes)
    case None =>
      var f := FormValues("", "", "", "", None, None, None, None, 0.0, "men", None, None, None);
      assert FormErrors(f) == {NameArField, NameFrField, NameEnField, NameBerField};
      e.(form := f, images := [], colors := [], sizes := [])
  }

  /** In create mode the form is accepted as soon as the four names are
      filled in. */
  lemma CreateModeNeedsNames(e: Editor, ar: string, fr: string, en: string, ber: string)
    ensures !ValidForm(Reset(e, None).form)
    ensures ValidForm(Reset(e, None).form.(nameAr := ar, nameFr := fr, nameEn := en, nameBer := ber))
            <==> ar != "" && fr != "" && en != "" && ber != ""
  {
    ValidIffNoErrors(Reset(e, None).form);
  }

  // ---------------------------------------------------------------------------
  // The list editors

  predicate Distinct(s: seq<string>) {
    forall i, j :: 0 <= i < j < |s| ==> s[i] != s[j]
  }

  /** `addImage`: the trimmed input appended, duplicates allowed, and the
      input cleared, when the input is not blank; otherwise nothing changes. */
  function AddImage(e: Editor): (r: Editor)
    ensures !AllWhitespace(e.newImage) ==> r == e.(images := e.images + [Trim(e.newImage)], newImage := "")
    ensures AllWhitespace(e.newImage) ==> r == e
  {
    TrimEmptyIff(e.newImage);
    if Trim(e.newImage) != "" then e.(images := e.images + [Trim(e.newImage)], newImage := "")
    else e
  }

  /** An image already in the list is added a second time. */
  lemma AddImageKeepsDuplicates(e: Editor)
    requires e.newImage != "" && e.newImage in e.images && Trim(e.newImage) == e.newImage
    ensures |AddImage(e).images| == |e.images| + 1
    ensures !Distinct(AddImage(e).images)
  {
    TrimEmptyIff(e.newImage);
    var r := AddImage(e).images;
    var i :| 0 <= i < |e.images| && e.images[i] == e.newImage;
    assert r[i] == r[|e.images|];
  }

  /** `addColor`: the selected colour appended unless already present; the
      input keeps its value. */
  function AddColor(e: Editor): (r: Editor)
    ensures e.newColor in e.colors ==> r == e
    ensures e.newColor !in e.colors ==> r == e.(colors := e.colors + [e.newColor])
  {
    if e.newColor !in e.colors then e.(colors := e.colors + [e.newColor]) else e
  }

  /** `addSize`: the trimmed input appended, and the input cleared, when it
      is not blank and not already present; otherwise nothing changes. */
  function AddSize(e: Editor): (r: Editor)
    ensures !AllWhitespace(e.newSize) && Trim(e.newSize) !in e.sizes ==>
      r == e.(sizes := e.sizes + [Trim(e.newSize)], newSize := "")
    ensures AllWhitespace(e.newSize) || Trim(e.newSize) in e.sizes ==> r == e
  {
    TrimEmptyIff(e.newSize);
    var s := Trim(e.newSize);
    if s != "" && s !in e.sizes then e.(sizes := e.sizes + [s], newSize := "") else e
  }

  /** Appending a value the list lacks keeps it duplicate-free. */
  lemma AppendFreshDistinct(s: seq<string>, x: string)
    requires Distinct(s) && x !in s
    ensures Distinct(s + [x])
  {
    var t := s + [x];
    forall i, j | 0 <= i < j < |t| ensures t[i] != t[j] {
      if j == |s| {
        assert t[i] == s[i];
      } else {
        assert t[i] == s[i] && t[j] == s[j];
      }
    }
  }

  /** The colour and size editors never introduce a duplicate, and after
      either the value offered is in the list. */
  lemma AddKeepsDistinct(e: Editor)
    ensures Distinct(e.colors) ==> Distinct(AddColor(e).colors)
    ensures e.newColor in AddColor(e).colors
    ensures Distinct(e.sizes) ==> Distinct(AddSize(e).sizes)
    ensures !AllWhitespace(e.newSize) ==> Trim(e.newSize) in AddSize(e).sizes
  {
    if e.newColor !in e.colors && Distinct(e.colors) {
      AppendFreshDistinct(e.colors, e.newColor);
    }
    TrimEmptyIff(e.newSize);
    if !AllWhitespace(e.newSize) && Trim(e.newSize) !in e.sizes && Distinct(e.sizes) {
      AppendFreshDistinct(e.sizes, Trim(e.newSize));
    }
  }

  /** `xs.filter((_, i) => i !== index)`: position `index` dropped, the rest
      kept in order; an index outside the list removes nothing. */
  function RemoveAt(xs: seq<string>, index: int): (r: seq<string>)
    ensures 0 <= index < |xs| ==> r == xs[..index] + xs[index + 1..]
    ensures !(0 <= index < |xs|) ==> r == xs
  {
    if xs == [] then []
    else
      var rest := RemoveAt(xs[1..], index - 1);
      assert xs == [xs[0]] + xs[1..];
      if index == 0 then rest
      else
        assert 0 < index < |xs| ==> [xs[0]] + (xs[1..][..index - 1] + xs[1..][index..]) == xs[..index] + xs[index + 1..] by {
          if 0 < index < |xs| {
            assert xs[1..][..index - 1] == xs[1..index];
            assert xs[1..][index..] == xs[index + 1..];
            assert [xs[0]] + xs[1..index] == xs[..index];
          }
        }
        [xs[0]] + rest
  }

  /** Removing the entry just added restores the list. */
  lemma RemoveUndoesAppend(xs: seq<string>, x: string)
    ensures RemoveAt(xs + [x], |xs|) == xs
  {
    assert (xs + [x])[..|xs|] == xs;
  }

  /** The position in `xs` that position `k` of the shortened list came from */
  function Origin(index: int, k: nat): nat {
    if k < index then k else k + 1
  }

  lemma RemoveAtOrigin(xs: seq<string>, index: int, k: nat)
    requires 0 <= index < |xs| && k < |xs| - 1
    ensures |RemoveAt(xs, index)| == |xs| - 1
    ensures RemoveAt(xs, index)[k] == xs[Origin(index, k)]
  {
    var r := RemoveAt(xs, index);
    if k >= index {
      assert r[k] == xs[index + 1..][k - index];
    }
  }

  /** Removal keeps a list duplicate-free, one entry shorter. */
  lemma RemoveKeepsDistinct(xs: seq<string>, index: int)
    requires Distinct(xs) && 0 <= index < |xs|
    ensures Distinct(RemoveAt(xs, index))
    ensures |RemoveAt(xs, index)| == |xs| - 1
  {
    var r := RemoveAt(xs, index);
    assert |r| == |xs| - 1;
    forall i, j | 0 <= i < j < |r| ensures r[i] != r[j] {
      RemoveAtOrigin(xs, index, i);
      RemoveAtOrigin(xs, index, j);
    }
  }

  /** In a duplicate-free list the removed value is gone afterwards. */
  lemma RemoveDropsValue(xs: seq<string>, index: int)
    requires Distinct(xs) && 0 <= index < |xs|
    ensures xs[index] !in RemoveAt(xs, index)
  {
    var r := RemoveAt(xs, index);
    forall k | 0 <= k < |r| ensures r[k] != xs[index] {
      RemoveAtOrigin(xs, index, k);
    }
  }

  /** `removeImage`, `removeColor` and `removeSize` */
  function RemoveImage(e: Editor, index: int): (r: Editor)
    ensures 0 <= index < |e.images| ==> r.images == e.images[..index] + e.images[index + 1..]
    ensures !(0 <= index < |e.images|) ==> r == e
    ensures r == e.(images := r.images)
  {
    e.(images := RemoveAt(e.images, index))
  }

  function RemoveColor(e: Editor, index: int): (r: Editor)
    ensures 0 <= index < |e.colors| ==> r.colors == e.colors[..index] + e.colors[index + 1..]
    ensures !(0 <= index < |e.colors|) ==> r == e
    ensures r == e.(colors := r.colors)
  {
    e.(colors := RemoveAt(e.colors, index))
  }

  function RemoveSize(e: Editor, index: int): (r: Editor)
    ensures 0 <= index < |e.sizes| ==> r.sizes == e.sizes[..index] + e.sizes[index + 1..]
    ensures !(0 <= index < |e.sizes|) ==> r == e
    ensures r == e.(sizes := r.sizes)
  {
    e.(sizes := RemoveAt(e.sizes, index))
  }

  /** Removing the size just added restores the sizes and leaves the
      cleared input. */
  lemma AddSizeThenRemove(e: Editor)
    requires !AllWhitespace(e.newSize) && Trim(e.newSize) !in e.sizes
    ensures RemoveSize(AddSize(e), |e.sizes|) == e.(newSize := "")
  {
    RemoveUndoesAppend(e.sizes, Trim(e.newSize));
  }

  // ---------------------------------------------------------------------------
  // Submit

  /** `value || null`: an absent or empty text is sent as `null`. */
  function EmptyToNull(o: Option<string>): (r: Option<string>)
    ensures r.None? <==> o.None? || o.value == ""
    ensures r.Some? ==> r == o
  {
    if o.Some? && o.value != "" then o else None
  }

  /** What a submit does: nothing but report errors, insert a new row, or
      update the edited row */
  datatype Submission =
    | Rejected(errors: set<FormField>)
    | CreateRequest(payload: ProductPayload)
    | UpdateRequest(id: string, payload: ProductPayload)

  /** `onSubmit`, run only once the schema accepts: empty optional texts
      become `null`, the lists are the editor's, the product is never
      featured and has no location. */
  function Submit(e: Editor, product: Option<Product>): (r: Submission)
    ensures r.Rejected? <==> !ValidForm(e.form)
    ensures r.Rejected? ==> r.errors == FormErrors(e.form) && r.errors != {}
    ensures r.CreateRequest? <==> ValidForm(e.form) && product.None?
    ensures r.UpdateRequest? ==> product.Some? && r.id == product.value.id
    ensures !r.Rejected? ==>
      && r.payload.nameAr == e.form.nameAr && r.payload.nameFr == e.form.nameFr
      && r.payload.nameEn == e.form.nameEn && r.payload.nameBer == e.form.nameBer
      && r.payload.price == e.form.price
      && CategoryCode(r.payload.category) == e.form.category
      && r.payload.descriptionAr == EmptyToNull(e.form.descriptionAr)
      && r.payload.descriptionFr == EmptyToNull(e.form.descriptionFr)
      && r.payload.descriptionEn == EmptyToNull(e.form.descriptionEn)
      && r.payload.descriptionBer == EmptyToNull(e.form.descriptionBer)
      && r.payload.phone == EmptyToNull(e.form.phone)
      && r.payload.whatsapp == EmptyToNull(e.form.whatsapp)
      && r.payload.address == EmptyToNull(e.form.address)
      && r.payload.images == e.images && r.payload.colors == e.colors && r.payload.sizes == e.sizes
      && !r.payload.isFeatured && r.payload.locationLat.None? && r.payload.locationLng.None?
  {
    ValidIffNoErrors(e.form);
    if !ValidForm(e.form) then Rejected(FormErrors(e.form))
    else
      var f := e.form;
      var pl := ProductPayload(
        f.nameAr, f.nameFr, f.nameEn, f.nameBer,
        EmptyToNull(f.descriptionAr), EmptyToNull(f.descriptionFr),
        EmptyToNull(f.descriptionEn), EmptyToNull(f.descriptionBer),
        f.price, ParseCategory(f.category).value,
        EmptyToNull(f.phone), EmptyToNull(f.whatsapp), EmptyToNull(f.address),
        e.images, e.colors, e.sizes,
        false, None, None
      );
      match product
      case Some(p) => UpdateRequest(p.id, pl)
      case None => CreateRequest(pl)
  }

  /** A row the form can load and submit unchanged */
  predicate Editable(p: Product) {
    p.nameAr != "" && p.nameFr != "" && p.nameEn != "" && p.nameBer != "" && p.price >= 0.0
  }

  /** Opening a row for editing and saving it untouched writes back its
      names, price, category, lists, offer flag and timestamps; it clears
      the featured flag and the location, and stores empty texts as `null`. */
  lemma EditRoundTrip(e: Editor, p: Product)
    requires Editable(p)
    ensures Submit(Reset(e, Some(p)), Some(p)).UpdateRequest?
    ensures
      var s := Submit(Reset(e, Some(p)), Some(p));
      ApplyPatch(p, PayloadPatch(s.payload)) == p.(
        descriptionAr := EmptyToNull(p.descriptionAr), descriptionFr := EmptyToNull(p.descriptionFr),
        descriptionEn := EmptyToNull(p.descriptionEn), descriptionBer := EmptyToNull(p.descriptionBer),
        phone := EmptyToNull(p.phone), whatsapp := EmptyToNull(p.whatsapp), address := EmptyToNull(p.address),
        isFeatured := false, locationLat := None, locationLng := None)
  {
    ParseCategoryCode(p.category);
  }

  /** An untouched resubmission is a fixed point once the row is in the
      shape the form writes. */
  lemma EditRoundTripStable(e: Editor, p: Product)
    requires Editable(p)
    requires !p.isFeatured && p.locationLat.None? && p.locationLng.None?
    requires p.descriptionAr != Some("") && p.descriptionFr != Some("")
    requires p.descriptionEn != Some("") && p.descriptionBer != Some("")
    requires p.phone != Some("") && p.whatsapp != Some("") && p.address != Some("")
    ensures ApplyPatch(p, PayloadPatch(Submit(Reset(e, Some(p)), Some(p)).payload)) == p
  {
    EditRoundTrip(e, p);
  }
}
