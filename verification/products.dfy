/** The `Product` row of the `products` table, the record the admin form
    writes, and the partial record an update merges into a row. */
module Products {
  import opened Optional

  /** The closed set of categories */
  datatype Category = Men | Women | Children

  /** The text the category column holds */
  function CategoryCode(c: Category): string {
    match c
    case Men => "men"
    case Women => "women"
    case Children => "children"
  }

  /** The category a text names, if any */
  function ParseCategory(s: string): (r: Option<Category>)
    ensures r.Some? ==> CategoryCode(r.value) == s
    ensures r.None? ==> forall c :: CategoryCode(c) != s
  {
    if s == "men" then Some(Men)
    else if s == "women" then Some(Women)
    else if s == "children" then Some(Children)
    else None
  }

  /** Every category is recognised from its own code. */
  lemma ParseCategoryCode(c: Category)
    ensures ParseCategory(CategoryCode(c)) == Some(c)
  {
  }

  /** One row of the `products` table. `price` and the coordinates are
      JavaScript numbers; `createdAt` and `updatedAt` are the timestamps as
      the backend returns them (ISO-8601 text). */
  datatype Product = Product(
    id: string,
    nameAr: string,
    nameFr: string,
    nameEn: string,
    nameBer: string,
    descriptionAr: Option<string>,
    descriptionFr: Option<string>,
    descriptionEn: Option<string>,
    descriptionBer: Option<string>,
    price: real,
    category: Category,
    images: seq<string>,
    colors: seq<string>,
    sizes: seq<string>,
    phone: Option<string>,
    whatsapp: Option<string>,
    locationLat: Option<real>,
    locationLng: Option<real>,
    address: Option<string>,
    isFeatured: bool,
    isOffer: bool,
    createdAt: string,
    updatedAt: string
  )

  /** The record the admin form sends on submit: every column except the
      identifier, the timestamps and `is_offer` */
  datatype ProductPayload = ProductPayload(
    nameAr: string,
    nameFr: string,
    nameEn: string,
    nameBer: string,
    descriptionAr: Option<string>,
    descriptionFr: Option<string>,
    descriptionEn: Option<string>,
    descriptionBer: Option<string>,
    price: real,
    category: Category,
    phone: Option<string>,
    whatsapp: Option<string>,
    address: Option<string>,
    images: seq<string>,
    colors: seq<string>,
    sizes: seq<string>,
    isFeatured: bool,
    locationLat: Option<real>,
    locationLng: Option<real>
  )

  /** `Partial<Product>` without the identifier: `None` is a field left out,
      `Some(v)` a field set to `v` (for a nullable column `v` may itself be
      `None`, the explicit `null`). */
  datatype Patch = Patch(
    nameAr: Option<string>,
    nameFr: Option<string>,
    nameEn: Option<string>,
    nameBer: Option<string>,
    descriptionAr: Option<Option<string>>,
    descriptionFr: Option<Option<string>>,
    descriptionEn: Option<Option<string>>,
    descriptionBer: Option<Option<string>>,
    price: Option<real>,
    category: Option<Category>,
    images: Option<seq<string>>,
    colors: Option<seq<string>>,
    sizes: Option<seq<string>>,
    phone: Option<Option<string>>,
    whatsapp: Option<Option<string>>,
    locationLat: Option<Option<real>>,
    locationLng: Option<Option<real>>,
    address: Option<Option<string>>,
    isFeatured: Option<bool>,
    isOffer: Option<bool>,
    createdAt: Option<string>,
    updatedAt: Option<string>
  )

  /** The patch that supplies no field */
  const EmptyPatch: Patch := Patch(None, None, None, None, None, None, None, None, None, None,
                                   None, None, None, None, None, None, None, None, None, None,
                                   None, None)

  /** One column after an update: a column the patch leaves out keeps its
      value, a supplied column takes the supplied value */
  predicate Patched<T(==)>(before: T, supplied: Option<T>, after: T) {
    && (supplied.None? ==> after == before)
    && (supplied.Some? ==> after == supplied.value)
  }

  /** The supplied fields of `q` written over `p`; the identifier is never
      part of a patch, and every column the patch leaves out is kept */
  function ApplyPatch(p: Product, q: Patch): (r: Product)
    ensures r.id == p.id
    ensures Patched(p.nameAr, q.nameAr, r.nameAr)
    ensures Patched(p.nameFr, q.nameFr, r.nameFr)
    ensures Patched(p.nameEn, q.nameEn, r.nameEn)
    ensures Patched(p.nameBer, q.nameBer, r.nameBer)
    ensures Patched(p.descriptionAr, q.descriptionAr, r.descriptionAr)
    ensures Patched(p.descriptionFr, q.descriptionFr, r.descriptionFr)
    ensures Patched(p.descriptionEn, q.descriptionEn, r.descriptionEn)
    ensures Patched(p.descriptionBer, q.descriptionBer, r.descriptionBer)
    ensures Patched(p.price, q.price, r.price)
    ensures Patched(p.category, q.category, r.category)
    ensures Patched(p.images, q.images, r.images)
    ensures Patched(p.colors, q.colors, r.colors)
    ensures Patched(p.sizes, q.sizes, r.sizes)
    ensures Patched(p.phone, q.phone, r.phone)
    ensures Patched(p.whatsapp, q.whatsapp, r.whatsapp)
    ensures Patched(p.locationLat, q.locationLat, r.locationLat)
    ensures Patched(p.locationLng, q.locationLng, r.locationLng)
    ensures Patched(p.address, q.address, r.address)
    ensures Patched(p.isFeatured, q.isFeatured, r.isFeatured)
    ensures Patched(p.isOffer, q.isOffer, r.isOffer)
    ensures Patched(p.createdAt, q.createdAt, r.createdAt)
    ensures Patched(p.updatedAt, q.updatedAt, r.updatedAt)
  {
    Product(
      p.id,
      q.nameAr.GetOr(p.nameAr),
      q.nameFr.GetOr(p.nameFr),
      q.nameEn.GetOr(p.nameEn),
      q.nameBer.GetOr(p.nameBer),
      q.descriptionAr.GetOr(p.descriptionAr),
      q.descriptionFr.GetOr(p.descriptionFr),
      q.descriptionEn.GetOr(p.descriptionEn),
      q.descriptionBer.GetOr(p.descriptionBer),
      q.price.GetOr(p.price),
      q.category.GetOr(p.category),
      q.images.GetOr(p.images),
      q.colors.GetOr(p.colors),
      q.sizes.GetOr(p.sizes),
      q.phone.GetOr(p.phone),
      q.whatsapp.GetOr(p.whatsapp),
      q.locationLat.GetOr(p.locationLat),
      q.locationLng.GetOr(p.locationLng),
      q.address.GetOr(p.address),
      q.isFeatured.GetOr(p.isFeatured),
      q.isOffer.GetOr(p.isOffer),
      q.createdAt.GetOr(p.createdAt),
      q.updatedAt.GetOr(p.updatedAt)
    )
  }

  /** An update that supplies only the price leaves every other column,
      the featured badge included, as it was. */
  lemma PricePatchKeepsRest(p: Product, v: real)
    ensures ApplyPatch(p, EmptyPatch.(price := Some(v))) == p.(price := v)
  {
  }

  /** A patch that supplies nothing changes nothing. */
  lemma EmptyPatchIsIdentity(p: Product)
    ensures ApplyPatch(p, EmptyPatch) == p
  {
  }

  /** Applying the same patch twice is applying it once. */
  lemma ApplyPatchIdempotent(p: Product, q: Patch)
    ensures ApplyPatch(ApplyPatch(p, q), q) == ApplyPatch(p, q)
  {
  }

  /** A patch that supplies every column but the identifier determines the
      row it produces: what the row held before is overwritten entirely. */
  lemma FullPatchDeterminesRow(p: Product, p': Product, q: Patch)
    requires p.id == p'.id
    requires q.nameAr.Some? && q.nameFr.Some? && q.nameEn.Some? && q.nameBer.Some?
    requires q.descriptionAr.Some? && q.descriptionFr.Some? && q.descriptionEn.Some? && q.descriptionBer.Some?
    requires q.price.Some? && q.category.Some? && q.images.Some? && q.colors.Some? && q.sizes.Some?
    requires q.phone.Some? && q.whatsapp.Some? && q.locationLat.Some? && q.locationLng.Some?
    requires q.address.Some? && q.isFeatured.Some? && q.isOffer.Some?
    requires q.createdAt.Some? && q.updatedAt.Some?
    ensures ApplyPatch(p, q) == ApplyPatch(p', q)
  {
  }

  /** The update the form sends: every payload field supplied, `is_offer` and
      the timestamps left out */
  function PayloadPatch(pl: ProductPayload): (q: Patch)
    ensures q.isOffer.None? && q.createdAt.None? && q.updatedAt.None?
  {
    Patch(
      Some(pl.nameAr), Some(pl.nameFr), Some(pl.nameEn), Some(pl.nameBer),
      Some(pl.descriptionAr), Some(pl.descriptionFr), Some(pl.descriptionEn), Some(pl.descriptionBer),
      Some(pl.price), Some(pl.category),
      Some(pl.images), Some(pl.colors), Some(pl.sizes),
      Some(pl.phone), Some(pl.whatsapp), Some(pl.locationLat), Some(pl.locationLng), Some(pl.address),
      Some(pl.isFeatured), None, None, None
    )
  }

  /** The row an insert of the payload creates; the identifier, the
      timestamps and the `is_offer` column default come from the backend. */
  function NewRow(pl: ProductPayload, id: string, now: string, offerDefault: bool): (p: Product)
    ensures p.id == id && p.createdAt == now && p.isOffer == offerDefault
  {
    Product(
      id, pl.nameAr, pl.nameFr, pl.nameEn, pl.nameBer,
      pl.descriptionAr, pl.descriptionFr, pl.descriptionEn, pl.descriptionBer,
      pl.price, pl.category, pl.images, pl.colors, pl.sizes,
      pl.phone, pl.whatsapp, pl.locationLat, pl.locationLng, pl.address,
      pl.isFeatured, offerDefault, now, now
    )
  }

  /** Inserting a payload and updating any row with it agree on every
      column the payload carries. */
  lemma InsertAgreesWithUpdate(pl: ProductPayload, p: Product)
    ensures ApplyPatch(p, PayloadPatch(pl)) == NewRow(pl, p.id, p.createdAt, p.isOffer).(updatedAt := p.updatedAt)
  {
  }
}
