/** What the product card and the product detail dialog show: names and
    descriptions with their fallbacks, the gallery and its navigation, the
    contact links, and the colour preview of the card. */
module ProductDisplay {
  import opened Optional
  import opened JsStrings
  import opened Products
  import T = Translations

  // ---------------------------------------------------------------------------
  // Names and descriptions

  /** `names[language]`: the name in the current language, `undefined` (here
      `""`, equally falsy) for a code that is none of the four */
  function NameFor(p: Product, code: string): (r: string)
    ensures T.ParseLanguage(code).None? ==> r == ""
    ensures T.ParseLanguage(code) == Some(T.Ar) ==> r == p.nameAr
    ensures T.ParseLanguage(code) == Some(T.Fr) ==> r == p.nameFr
    ensures T.ParseLanguage(code) == Some(T.En) ==> r == p.nameEn
    ensures T.ParseLanguage(code) == Some(T.Ber) ==> r == p.nameBer
  {
    var l := T.ParseLanguage(code);
    if l == Some(T.Ar) then p.nameAr
    else if l == Some(T.Fr) then p.nameFr
    else if l == Some(T.En) then p.nameEn
    else if l == Some(T.Ber) then p.nameBer
    else ""
  }

  /** The name in the detail dialog (and in the admin table): the current
      language's, else the English one */
  function DetailName(p: Product, code: string): (r: string)
    ensures NameFor(p, code) != "" ==> r == NameFor(p, code)
    ensures NameFor(p, code) == "" ==> r == p.nameEn
  {
    Or(NameFor(p, code), p.nameEn)
  }

  /** The name on the card: the current language's, else the English one,
      else the Arabic one */
  function CardName(p: Product, code: string): (r: string)
    ensures r == "" <==> NameFor(p, code) == "" && p.nameEn == "" && p.nameAr == ""
    ensures r in {NameFor(p, code), p.nameEn, p.nameAr}
  {
    Or(Or(NameFor(p, code), p.nameEn), p.nameAr)
  }

  /** The card and the dialog show the same name except when both the
      current language's and the English name are empty, where only the
      card falls back to the Arabic one. */
  lemma CardAgreesWithDetail(p: Product, code: string)
    ensures DetailName(p, code) != "" ==> CardName(p, code) == DetailName(p, code)
    ensures DetailName(p, code) == "" ==> CardName(p, code) == p.nameAr
  {
  }

  /** A row the admin form saved has non-empty names, so no fallback is ever
      taken for it under one of the four languages. */
  lemma SavedNamesNeedNoFallback(p: Product, l: T.Language)
    requires p.nameAr != "" && p.nameFr != "" && p.nameEn != "" && p.nameBer != ""
    ensures DetailName(p, T.Code(l)) == NameFor(p, T.Code(l)) == CardName(p, T.Code(l))
    ensures NameFor(p, T.Code(l)) != ""
  {
    T.ParseCode(l);
  }

  /** An unknown stored language shows the English name. */
  lemma UnknownLanguageShowsEnglish(p: Product, code: string)
    requires T.ParseLanguage(code).None?
    ensures DetailName(p, code) == p.nameEn
    ensures p.nameEn != "" ==> CardName(p, code) == p.nameEn
  {
  }

  /** `descriptions[language]`, a `null` column being falsy */
  function DescriptionFor(p: Product, code: string): string {
    var l := T.ParseLanguage(code);
    if l == Some(T.Ar) then p.descriptionAr.GetOr("")
    else if l == Some(T.Fr) then p.descriptionFr.GetOr("")
    else if l == Some(T.En) then p.descriptionEn.GetOr("")
    else if l == Some(T.Ber) then p.descriptionBer.GetOr("")
    else ""
  }

  /** The description in the dialog: the current language's, else the
      English one, else empty */
  function DetailDescription(p: Product, code: string): (r: string)
    ensures r == "" <==> DescriptionFor(p, code) == "" && (p.descriptionEn.None? || p.descriptionEn == Some(""))
    ensures r != "" ==> r == DescriptionFor(p, code) || Some(r) == p.descriptionEn
    ensures DescriptionFor(p, code) != "" ==> r == DescriptionFor(p, code)
    ensures DescriptionFor(p, code) == "" ==> r == p.descriptionEn.GetOr("")
  {
    Or(Or(DescriptionFor(p, code), p.descriptionEn.GetOr("")), "")
  }

  /** The description paragraph is rendered only for a non-empty text. */
  predicate DescriptionShown(p: Product, code: string) {
    DetailDescription(p, code) != ""
  }

  /** With an English description every language shows one. */
  lemma EnglishDescriptionSuffices(p: Product, code: string)
    requires p.descriptionEn.Some? && p.descriptionEn.value != ""
    ensures DescriptionShown(p, code)
  {
  }

  /** The description follows the same fallback as the dialog's name: under
      an unknown stored language the English text is shown, and under
      English nothing else is ever consulted. */
  lemma DescriptionFallsBackToEnglish(p: Product, code: string)
    ensures T.ParseLanguage(code).None? ==> DetailDescription(p, code) == p.descriptionEn.GetOr("")
    ensures DetailDescription(p, T.Code(T.En)) == p.descriptionEn.GetOr("")
  {
    T.ParseCode(T.En);
  }

  // ---------------------------------------------------------------------------
  // Gallery

  const DetailDefaultImage: string := "https://images.unsplash.com/photo-1441986300917-64674bd600d8?w=800&h=800&fit=crop"

  /** The images the dialog cycles through: the product's, or the single
      default picture when it has none */
  function GalleryImages(p: Product): (g: seq<string>)
    ensures |g| >= 1
    ensures |p.images| > 0 ==> g == p.images
    ensures |p.images| == 0 ==> g == [DetailDefaultImage]
  {
    if |p.images| > 0 then p.images else [DetailDefaultImage]
  }

  lemma MulSucc(x: int, m: int)
    ensures (x + 1) * m == x * m + m
  {
  }

  lemma MulLe(x: int, y: int, m: int)
    requires m >= 1 && x <= y
    ensures x * m <= y * m
  {
  }

  /** A remainder is fixed by any quotient that leaves it in range. */
  lemma ModUnique(a: int, m: int, q: int, r: int)
    requires m >= 1 && 0 <= r < m && a == q * m + r
    ensures a % m == r
  {
    var q' := a / m;
    MulSucc(q, m);
    MulSucc(q', m);
    if q' > q {
      MulLe(q + 1, q', m);
    } else if q' < q {
      MulLe(q' + 1, q, m);
    }
  }

  lemma ModShiftDown(a: int, m: int)
    requires a >= m >= 1
    ensures (a - m) % m == a % m
  {
    MulSucc((a - m) / m, m);
    ModUnique(a, m, (a - m) / m + 1, (a - m) % m);
  }

  /** The remainder of `a` by `m`, by repeated subtraction */
  function Rem(a: nat, m: nat): (r: nat)
    requires m >= 1
    ensures r < m
    ensures a < m ==> r == a
    decreases a
  {
    if a < m then a else Rem(a - m, m)
  }

  /** Repeated subtraction computes the mathematical remainder. Kept apart
      from `Rem`'s contract so that `%` stays out of the navigation proofs. */
  lemma {:induction false} RemIsMod(a: nat, m: nat)
    requires m >= 1
    ensures Rem(a, m) == a % m
    decreases a
  {
    if a < m {
      ModUnique(a, m, 0, a);
    } else {
      ModShiftDown(a, m);
      RemIsMod(a - m, m);
    }
  }

  /** JavaScript `a % b`: the remainder truncated toward zero, so it takes
      the sign of `a` */
  function JsRem(a: int, b: int): (r: int)
    requires b != 0
    ensures a >= 0 ==> 0 <= r < (if b > 0 then b else -b)
    ensures a < 0 ==> -(if b > 0 then b else -b) < r <= 0
  {
    var m := if b > 0 then b else -b;
    if a >= 0 then Rem(a, m) else -(Rem(-a, m) as int)
  }
  /** The value of `JsRem`: the remainder of the magnitudes, carrying the
      sign of the dividend, as JavaScript's `%` on integers gives it. */
  lemma JsRemTruncates(a: int, b: int)
    requires b != 0
    ensures a >= 0 ==> JsRem(a, b) == a % (if b > 0 then b else -b)
    ensures a < 0 ==> JsRem(a, b) == -((-a) % (if b > 0 then b else -b))
  {
    var m := if b > 0 then b else -b;
    if a >= 0 {
      RemIsMod(a, m);
    } else {
      RemIsMod(-a, m);
    }
  }


  /** Adding the modulus does not change the remainder. */
  lemma RemShift(a: nat, m: nat)
    requires m >= 1
    ensures Rem(a + m, m) == Rem(a, m)
  {
  }

  /** Reducing before adding one gives the same remainder as after. */
  lemma {:induction false} RemSuccessor(a: nat, m: nat)
    requires m >= 1
    ensures Rem(Rem(a, m) + 1, m) == Rem(a + 1, m)
    decreases a
  {
    if a >= m {
      RemSuccessor(a - m, m);
      assert Rem(a + 1, m) == Rem(a + 1 - m, m);
    }
  }

  /** `nextImage` and `prevImage` over `n` images */
  function NextIndex(i: int, n: int): int
    requires n >= 1
  {
    JsRem(i + 1, n)
  }

  function PrevIndex(i: int, n: int): int
    requires n >= 1
  {
    JsRem(i - 1 + n, n)
  }

  /** From a valid position both moves give a valid position: the next one
      along, or round from the last to the first and back, and the two moves
      undo each other. */
  lemma NavigationInRange(i: int, n: int)
    requires n >= 1 && 0 <= i < n
    ensures 0 <= NextIndex(i, n) < n && 0 <= PrevIndex(i, n) < n
    ensures NextIndex(i, n) == if i == n - 1 then 0 else i + 1
    ensures PrevIndex(i, n) == if i == 0 then n - 1 else i - 1
    ensures PrevIndex(NextIndex(i, n), n) == i
    ensures NextIndex(PrevIndex(i, n), n) == i
  {
    if i == n - 1 {
      assert Rem(n, n) == Rem(0, n);
    }
    if i > 0 {
      RemShift(i - 1, n);
    }
  }

  /** `k` presses of the next button */
  function NextTimes(i: int, n: int, k: nat): int
    requires n >= 1
  {
    if k == 0 then i else NextIndex(NextTimes(i, n, k - 1), n)
  }

  lemma {:induction false} NextTimesFormula(i: nat, n: int, k: nat)
    requires n >= 1 && i < n
    ensures NextTimes(i, n, k) == Rem(i + k, n)
  {
    if k > 0 {
      NextTimesFormula(i, n, k - 1);
      RemSuccessor(i + k - 1, n);
    }
  }

  /** `n` presses of the next button come back to the image shown. */
  lemma NextCycles(i: int, n: int)
    requires n >= 1 && 0 <= i < n
    ensures NextTimes(i, n, n) == i
  {
    NextTimesFormula(i, n, n);
    RemShift(i, n);
  }

  /** What the viewer can do in the gallery: the arrows, or a click on the
      indicator for position `index` */
  datatype GalleryEvent = Next | Prev | Jump(index: int)

  /** The index after one event; an indicator exists only for a real
      position */
  function Step(p: Product, i: int, ev: GalleryEvent): int {
    var n := |GalleryImages(p)|;
    match ev
    case Next => NextIndex(i, n)
    case Prev => PrevIndex(i, n)
    case Jump(k) => if 0 <= k < n then k else i
  }

  function Run(p: Product, i: int, evs: seq<GalleryEvent>): int
    decreases |evs|
  {
    if evs == [] then i else Run(p, Step(p, i, evs[0]), evs[1..])
  }

  /** For a fixed product, whatever the viewer clicks, the shown position is
      a real image of the gallery. */
  lemma {:induction false} GalleryIndexInRange(p: Product, i: int, evs: seq<GalleryEvent>)
    requires 0 <= i < |GalleryImages(p)|
    ensures 0 <= Run(p, i, evs) < |GalleryImages(p)|
    decreases |evs|
  {
    if evs != [] {
      NavigationInRange(i, |GalleryImages(p)|);
      GalleryIndexInRange(p, Step(p, i, evs[0]), evs[1..]);
    }
  }

  /** The arrows and indicators are rendered only for more than one image;
      with a single image every move stays on it. */
  predicate NavigationShown(p: Product) {
    |GalleryImages(p)| > 1
  }

  lemma SingleImageStays(p: Product, ev: GalleryEvent)
    requires !NavigationShown(p)
    ensures Step(p, 0, ev) == 0
  {
  }

  // ---------------------------------------------------------------------------
  // Contact links

  /** A text column is truthy when present and non-empty */
  predicate Truthy(o: Option<string>) {
    o.Some? && o.value != ""
  }

  const WhatsAppPrefix: string := "https://wa.me/"

  /** The address the WhatsApp button opens, when it is rendered */
  function WhatsAppTarget(p: Product): (r: Option<string>)
    ensures r.Some? <==> Truthy(p.whatsapp)
    ensures r.Some? ==> r.value == WhatsAppPrefix + Digits(p.whatsapp.value)
  {
    if Truthy(p.whatsapp) then Some(WhatsAppPrefix + Digits(p.whatsapp.value)) else None
  }

  /** The link keeps the digits of the number in their order, whatever
      separators surround them, and a number of digits only is used as is. */
  lemma WhatsAppDigits(p: Product, a: string, b: string)
    requires p.whatsapp == Some(a + b) && a + b != ""
    ensures WhatsAppTarget(p) == Some(WhatsAppPrefix + (Digits(a) + Digits(b)))
    ensures (forall i :: 0 <= i < |a + b| ==> IsAsciiDigit((a + b)[i])) ==> WhatsAppTarget(p) == Some(WhatsAppPrefix + (a + b))
  {
    DigitsAppend(a, b);
    DigitsFixedIff(a + b);
  }

  /** `+213 55` opens `https://wa.me/21355`: the plus sign and the space
      are dropped. */
  lemma WhatsAppExample(p: Product)
    requires p.whatsapp == Some("+213 55")
    ensures WhatsAppTarget(p) == Some("https://wa.me/21355")
  {
    assert Digits("+213 55") == "21355";
    assert WhatsAppPrefix + "21355" == "https://wa.me/21355";
  }

  /** The address the call button opens, when it is rendered */
  function CallTarget(p: Product): (r: Option<string>)
    ensures r.Some? <==> Truthy(p.phone)
    ensures r.Some? ==> r.value == "tel:" + p.phone.value
  {
    if Truthy(p.phone) then Some("tel:" + p.phone.value) else None
  }

  /** A number column is truthy when present and not zero */
  predicate NumberTruthy(o: Option<real>) {
    o.Some? && o.value != 0.0
  }

  /** The coordinates the map button opens, when it is rendered */
  function LocationTarget(p: Product): (r: Option<(real, real)>)
    ensures r.Some? <==> NumberTruthy(p.locationLat) && NumberTruthy(p.locationLng)
    ensures r.Some? ==> r.value == (p.locationLat.value, p.locationLng.value)
  {
    if NumberTruthy(p.locationLat) && NumberTruthy(p.locationLng) then
      Some((p.locationLat.value, p.locationLng.value))
    else None
  }

  /** A point on the equator or the prime meridian gets no map button. */
  lemma ZeroCoordinateHidesMap(p: Product)
    requires p.locationLat == Some(0.0) || p.locationLng == Some(0.0)
    ensures LocationTarget(p).None?
  {
  }

  /** A row saved by the admin form never has a map button. */
  lemma FormRowsHaveNoMap(e: Products.ProductPayload, id: string, now: string, offer: bool)
    requires e.locationLat.None?
    ensures LocationTarget(NewRow(e, id, now, offer)).None?
  {
  }

  // ---------------------------------------------------------------------------
  // Card

  const CardDefaultImage: string := "https://images.unsplash.com/photo-1558171813-4c088753af8f?w=400&h=500&fit=crop"

  /** `images?.[0] || default` */
  function CoverImage(p: Product): (r: string)
    ensures |p.images| > 0 && p.images[0] != "" ==> r == p.images[0]
    ensures |p.images| == 0 || p.images[0] == "" ==> r == CardDefaultImage
  {
    Or(if |p.images| > 0 then p.images[0] else "", CardDefaultImage)
  }

  /** The card cover and the dialog's first picture differ only when the
      first image is the empty string, which the dialog shows as such. */
  lemma CoverMatchesGallery(p: Product)
    ensures |p.images| == 0 || p.images[0] != "" ==>
      CoverImage(p) == if |p.images| == 0 then CardDefaultImage else GalleryImages(p)[0]
    ensures |p.images| > 0 && p.images[0] == "" ==> GalleryImages(p)[0] == "" != CoverImage(p)
  {
  }

  const SwatchLimit: nat := 5

  /** The colours the card previews: the first five */
  function Swatches(p: Product): (r: seq<string>)
    ensures |r| <= SwatchLimit && |r| <= |p.colors|
    ensures r == p.colors[..|r|]
    ensures |r| == SwatchLimit || r == p.colors
  {
    if |p.colors| <= SwatchLimit then p.colors else p.colors[..SwatchLimit]
  }

  /** The `+k` after the swatches, when there are more colours */
  function Overflow(p: Product): (r: Option<nat>)
    ensures r.Some? <==> |p.colors| > SwatchLimit
  {
    if |p.colors| > SwatchLimit then Some(|p.colors| - SwatchLimit) else None
  }

  /** The swatches and the count account for every colour exactly once. */
  lemma PreviewAccountsForAll(p: Product)
    ensures |Swatches(p)| + Overflow(p).GetOr(0) == |p.colors|
    ensures Overflow(p).Some? ==> Overflow(p).value >= 1
  {
  }

  /** The colour row is rendered only for a product with colours */
  predicate ColorRowShown(p: Product) {
    |p.colors| > 0
  }

  /** The featured badge follows the row's flag */
  predicate FeaturedBadge(p: Product) {
    p.isFeatured
  }
}
