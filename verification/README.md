# Boutique storefront core, modelled in Dafny

This project models the logic at the heart of a small bilingual-to-quadrilingual
clothing storefront (Arabic, French, English, Amazigh). The storefront is a
React application over a hosted `products` table. The model covers:

- **Localisation** (`translations.dfy`, `language_context.dfy`): the four
  translation tables, `languageNames`, `isRTL`, and the language context.
  The context covers the stored language and its `fr` default,
  `setLanguage`, the text direction, and `t`. `t` splits a key on `.`, walks
  the current table, and falls back to the key itself.
- **Catalogue queries and mutations** (`catalog.dfy`, `query_keys.dfy`):
  - the four read hooks, as pure functions over the table held as a
    `seq<Product>`: list by category newest first, the ten newest, search
    over four name columns, and fetch by id;
  - create, update and delete;
  - the cache keys the hooks use, and the prefix invalidation the mutations
    perform.
- **Admin product form** (`product_form.dfy`):
  - the schema, and the reset run on mount and whenever the product handed
    to the editor changes (not when its dialog opens);
  - the image, colour and size list editors;
  - the record built on submit, and what an untouched edit writes back.
- **Order form** (`order_form.dfy`): the schema, the defaults, the colour and
  size pickers, and the order record.
- **Product display** (`product_display.dfy`):
  - the per-language name and description fallbacks, which differ between
    the detail dialog, the card and the admin table;
  - the gallery and its cyclic navigation;
  - the WhatsApp, call and map links;
  - the card's five-swatch preview with its `+k` count.
- **Admin console** (`admin.dfy`): the form-open, editing and
  delete-confirmation state, the product editor that stays mounted beside
  them, and their transitions; the table's name, category and count
  columns.

JavaScript semantics are written out where they matter (`js_strings.dfy`):
- `trim` and its white-space set;
- `||` on strings, where `""` is falsy;
- `length` in UTF-16 code units;
- `split`;
- `replace(/[^0-9]/g, '')`;
- the truncating `%`.

The database's case mapping for `ilike` and its text ordering are
represented as follows:
- Case mapping is a parameter `fold: char -> char`.
- Text ordering is code-point lexicographic order. Timestamps are compared
  as the ISO-8601 text the backend returns.

In three places the code does something a reader might not expect; the model
follows the code:
- The form demands all four names, non-empty (`src/components/admin/ProductFormModal.tsx:27-30`). Empty names are not backfilled from another language on write.
- The tables have 41 keys each.
- The featured query returns the ten newest rows whatever their `is_featured` flag (`src/hooks/useProducts.ts:56-60`).

## Model

| member | source | states |
|---|---|---|
| JsStrings.Trim | src/hooks/useProducts.ts:72 | `trim` yields the infix of the input that neither starts nor ends with white space; everything cut off is white space |
| JsStrings.TrimEmptyIff | src/hooks/useProducts.ts:72 | a term trims to nothing exactly when every character is white space |
| JsStrings.Utf16Length | src/components/admin/ProductFormModal.tsx:27-30 | `length` counts UTF-16 code units, between the number of characters and twice it, and is 0 only for the empty string |
| JsStrings.Split | src/contexts/LanguageContext.tsx:34 | `split('.')` gives at least one part, no part holds a `.`, joining the parts with `.` gives the key back, and there is one part exactly when the key has no `.` |
| JsStrings.Digits | src/components/products/ProductDetailModal.tsx:66 | stripping non-digits leaves only ASCII digits and never lengthens the text; one character is kept exactly when it is a digit, which with `DigitsAppend` fixes the result as exactly the digits in order |
| JsStrings.DigitsAppend | src/components/products/ProductDetailModal.tsx:66 | stripping commutes with concatenation, so digits keep their order |
| JsStrings.DigitsFixedIff | src/components/products/ProductDetailModal.tsx:66 | stripping changes nothing exactly when the text is all digits |
| JsStrings.Fold | src/hooks/useProducts.ts:77 | case folding maps each character in place and keeps the length |
| Translations.ParseLanguage | src/i18n/translations.ts:1 | a code names a language exactly when it is one of `ar`, `fr`, `en`, `ber`, and then it is that language's code |
| Translations.ParseCode | src/i18n/translations.ts:1 | each language is recognised from its own code |
| Translations.RtlOnlyArabic | src/i18n/translations.ts:248 | `isRTL` holds for Arabic's code and for no other language's |
| Translations.LanguageNamesComplete | src/i18n/translations.ts:241-246 | `languageNames` has exactly one entry per language; the entries are non-empty and pairwise different |
| Translations.ParseKey | src/i18n/translations.ts:4-61 | a name is recognised as a key exactly when some key has that name, and then it is that key's name |
| Translations.Lookup | src/i18n/translations.ts:4-238 | a table has an entry under a name exactly when the name is one of the key names, and the entry is that table's entry for a key of that name |
| Translations.TablesShareKeys | src/i18n/translations.ts:4-238 | the `ar`, `fr`, `en` and `ber` tables define the same names |
| Translations.EntriesNonEmpty | src/i18n/translations.ts:4-238 | every entry of every table is non-empty |
| Translations.CategoryKeysDefined | src/i18n/translations.ts:7-9 | `men`, `women` and `children` are defined in every table (also lines 66-68, 125-127, 184-186) |
| Translations.KeyNamesUndotted | src/i18n/translations.ts:4-61 | no key name contains a `.`, so every table is flat |
| LanguageContext.LanguageNamesAgree | src/contexts/LanguageContext.tsx:6-11 | the second `languageNames` equals the first entry for entry |
| LanguageContext.Start | src/contexts/LanguageContext.tsx:35 | the walk starts at a table exactly when the current code is one of the four languages, and then at that language's table |
| LanguageContext.Step | src/contexts/LanguageContext.tsx:37 | one step never reaches a table, and reaches a string only from a table that has an entry under the segment |
| LanguageContext.WalkNested | src/contexts/LanguageContext.tsx:36-38 | a path of two or more segments always ends at `undefined` (string properties aside, see Left out) |
| LanguageContext.Translate | src/contexts/LanguageContext.tsx:33-40 | whenever `t` returns something other than the key, the current code is a language and the result is that table's entry under the key as written |
| LanguageContext.TranslateDefined | src/contexts/LanguageContext.tsx:33-39 | a defined undotted key of a known language translates to its entry |
| LanguageContext.TranslateDotted | src/contexts/LanguageContext.tsx:34-39 | any key containing `.` comes back unchanged (string properties aside, see Left out) |
| LanguageContext.TranslateUndefined | src/contexts/LanguageContext.tsx:37-39 | a key the current table lacks comes back unchanged |
| LanguageContext.TranslateUnknownLanguage | src/contexts/LanguageContext.tsx:35-39 | under a code that is none of the four languages every key comes back unchanged |
| LanguageContext.TranslateNonEmpty | src/contexts/LanguageContext.tsx:39 | `t` returns the empty string only for the empty key |
| LanguageContext.DirRtlIffArabic | src/contexts/LanguageContext.tsx:42 | the direction is right-to-left exactly when the current code is `ar` |
| LanguageContext.Init | src/contexts/LanguageContext.tsx:23-26 | start-up keeps storage as it is; the current code is the stored value whenever that is non-empty, language code or not, and `fr` when nothing or the empty string is stored |
| LanguageContext.SetLanguage | src/contexts/LanguageContext.tsx:28-31 | after `setLanguage` the current code names the chosen language and a non-empty value is stored |
| LanguageContext.SetLanguageSurvivesReload | src/contexts/LanguageContext.tsx:28-31 | re-initialising from storage after `setLanguage(l)` yields exactly the state `setLanguage` left, with `l` current |
| LanguageContext.InitDefault | src/contexts/LanguageContext.tsx:23-26 | with nothing or `""` stored the interface starts in French, left to right |
| LanguageContext.InitUnvalidated | src/contexts/LanguageContext.tsx:23-26 | a stored value that is no language becomes current as is, and `t` then returns every key unchanged |
| Products.ParseCategory | src/hooks/useProducts.ts:16 | a text names a category exactly when it is `men`, `women` or `children`, and then it is that category's code |
| Products.ApplyPatch | src/hooks/useProducts.ts:140-146 | an update never changes the identifier; for every patch and every column, a column the patch leaves out keeps its value and a supplied column takes the supplied value |
| Products.PricePatchKeepsRest | src/hooks/useProducts.ts:140-146 | an update that supplies only the price changes the price and nothing else, the featured badge included |
| Products.EmptyPatchIsIdentity | src/hooks/useProducts.ts:140-146 | an update that supplies no field leaves the row unchanged |
| Products.ApplyPatchIdempotent | src/hooks/useProducts.ts:140-146 | applying the same update twice is applying it once |
| Products.FullPatchDeterminesRow | src/hooks/useProducts.ts:140-146 | an update supplying every column but the id gives the same row whatever the row held before |
| Products.PayloadPatch | src/components/admin/ProductFormModal.tsx:137-138 | the form's update leaves `is_offer` and both timestamps out |
| Products.NewRow | src/hooks/useProducts.ts:109-114 | an insert takes its id, creation time and `is_offer` from the backend |
| Products.InsertAgreesWithUpdate | src/hooks/useProducts.ts:109-114 | inserting a payload and updating any row with it agree on every column the payload carries |
| Catalog.StrLeTotal | src/hooks/useProducts.ts:38 | the text order compares any two values |
| Catalog.StrLeTransitive | src/hooks/useProducts.ts:38 | the text order is transitive |
| Catalog.Insert | src/hooks/useProducts.ts:38 | inserting into a sorted list keeps it sorted and adds exactly the one row |
| Catalog.Sort | src/hooks/useProducts.ts:38 | the result is in the requested order and is a permutation of the input |
| Catalog.Filter | src/hooks/useProducts.ts:40-42 | a row is kept, with all its occurrences, exactly when it satisfies the condition |
| Catalog.ListProducts | src/hooks/useProducts.ts:35-43 | newest first; with a falsy category every row, otherwise exactly the rows of that category, counted with multiplicity |
| Catalog.FeaturedProducts | src/hooks/useProducts.ts:56-60 | ten rows (or all, if fewer), newest first, drawn from the table whatever their featured flag, with no omitted row newer than a returned one |
| Catalog.SearchEnabledIff | src/hooks/useProducts.ts:83 | the search query runs exactly when the term is not all white space |
| Catalog.SearchProducts | src/hooks/useProducts.ts:72-78 | a blank term yields no rows; otherwise, ordered by Arabic name, exactly the rows one of whose four names contains the untrimmed term up to case |
| Catalog.SearchUntrimmed | src/hooks/useProducts.ts:77 | `robe` finds a product named `robe` and ` robe` does not |
| Catalog.SearchFindsName | src/hooks/useProducts.ts:72-78 | a term equal to a row's Arabic name, if not blank, finds that row whatever the case mapping |
| Catalog.SearchMissesPadded | src/hooks/useProducts.ts:72-78 | for any table, any case mapping and any term that starts with a space, no row is found when none of its four names holds a character that folds like a space |
| Catalog.GetProduct | src/hooks/useProducts.ts:89-100 | `null` exactly when no row has the id; an error exactly when two different rows carry the id; a found row has the id, and is every row with that id |
| Catalog.GetProductStored | src/hooks/useProducts.ts:91-95 | with unique ids, fetching a stored row's id returns that row |
| Catalog.FetchById | src/hooks/useProducts.ts:87-102 | no request and no data exactly when the id is empty (`enabled: !!id`); otherwise the lookup's answer |
| Catalog.FetchByIdStored | src/hooks/useProducts.ts:100 | with unique ids, a stored row is fetched by its id unless that id is empty, which is never fetched |
| Catalog.UpdateProduct | src/hooks/useProducts.ts:140-146 | fails exactly when no row has the id; otherwise the row with the id receives the patch and every other row is unchanged, in place |
| Catalog.DeleteProduct | src/hooks/useProducts.ts:172-176 | afterwards no row has the id, and every row with another id is kept with its multiplicity |
| Catalog.CreateProduct | src/hooks/useProducts.ts:109-114 | the table gains exactly the new row, which is then fetched by its id |
| Catalog.DeletedNotListed | src/hooks/useProducts.ts:172-176 | after deleting an id no list, in any category, shows a row with that id |
| QueryKeys.MutationInvalidates | src/hooks/useProducts.ts:120 | the `['products']` filter (also at lines 152 and 181) selects the list, featured and search keys and not the `['product', id]` key |
| QueryKeys.ListUnknownCategory | src/hooks/useProducts.ts:40-42 | a category that names none of the three lists no rows |
| QueryKeys.ListKeyCollides | src/hooks/useProducts.ts:33 | the list key for category `featured` equals the featured key, though the two queries answer differently |
| QueryKeys.FixedKeyOf | src/hooks/useProducts.ts:33 | the corrected keys still start with `products` (or `product` for a fetch by id) |
| QueryKeys.FixedKeysSeparate | src/hooks/useProducts.ts:33 | with the corrected list key, equal keys mean the same query and hence the same answer |
| QueryKeys.FixedKeysInvalidated | src/hooks/useProducts.ts:120 | the corrected keys are invalidated exactly as the declared ones |
| ProductForm.FormErrors | src/components/admin/ProductFormModal.tsx:26-40 | a name is reported exactly when empty, the price when negative, the category when not one of the three codes |
| ProductForm.ValidIffNoErrors | src/components/admin/ProductFormModal.tsx:26-40 | the schema accepts exactly when no field is reported |
| ProductForm.InitialEditor | src/components/admin/ProductFormModal.tsx:59-64 | before its mount effect the editor has empty lists, empty image and size inputs, colour `#000000` and category `men` |
| ProductForm.LoadForm | src/components/admin/ProductFormModal.tsx:81-95 | loading a row copies its names, price and category, and fills absent texts with `""` |
| ProductForm.Reset | src/components/admin/ProductFormModal.tsx:79-112 | a product loads the row and its lists; none empties the lists and sets empty names, price 0, category `men` and every other field unset, so exactly the four names are reported; the three inputs keep their text |
| ProductForm.CreateModeNeedsNames | src/components/admin/ProductFormModal.tsx:99-111 | the create form is rejected until, and accepted as soon as, all four names are non-empty |
| ProductForm.AddImage | src/components/admin/ProductFormModal.tsx:146-151 | a non-blank input is appended trimmed and cleared; a blank one changes nothing |
| ProductForm.AddImageKeepsDuplicates | src/components/admin/ProductFormModal.tsx:146-151 | an image already listed is appended again |
| ProductForm.AddColor | src/components/admin/ProductFormModal.tsx:157-161 | the colour is appended unless present, and the input is never cleared |
| ProductForm.AddSize | src/components/admin/ProductFormModal.tsx:167-172 | a non-blank, not yet listed size is appended trimmed and the input cleared; otherwise nothing changes |
| ProductForm.AddKeepsDistinct | src/components/admin/ProductFormModal.tsx:157-172 | the colour and size editors keep a duplicate-free list duplicate-free, and the offered value ends up listed |
| ProductForm.RemoveAt | src/components/admin/ProductFormModal.tsx:153-155 | position `i` is dropped and the rest kept in order; an index out of range changes nothing |
| ProductForm.RemoveUndoesAppend | src/components/admin/ProductFormModal.tsx:153-155 | removing the last position undoes an append |
| ProductForm.RemoveKeepsDistinct | src/components/admin/ProductFormModal.tsx:163-165 | removal keeps a duplicate-free list duplicate-free and one shorter |
| ProductForm.RemoveDropsValue | src/components/admin/ProductFormModal.tsx:174-176 | in a duplicate-free list the removed value is gone |
| ProductForm.RemoveImage | src/components/admin/ProductFormModal.tsx:153-155 | only the images change, losing exactly position `i` |
| ProductForm.RemoveColor | src/components/admin/ProductFormModal.tsx:163-165 | only the colours change, losing exactly position `i` |
| ProductForm.RemoveSize | src/components/admin/ProductFormModal.tsx:174-176 | only the sizes change, losing exactly position `i` |
| ProductForm.AddSizeThenRemove | src/components/admin/ProductFormModal.tsx:167-176 | removing the size just added restores the list |
| ProductForm.EmptyToNull | src/components/admin/ProductFormModal.tsx:120-128 | an absent or empty text is sent as `null`, any other as is |
| ProductForm.Submit | src/components/admin/ProductFormModal.tsx:114-141 | rejected exactly when the schema fails; otherwise an insert, or an update of the edited row's id, carrying the names, price, category and lists, empty texts as `null`, not featured and without location |
| ProductForm.EditRoundTrip | src/components/admin/ProductFormModal.tsx:80-138 | saving a loaded row untouched keeps everything but clears the featured flag and the location and turns empty texts into `null` |
| ProductForm.EditRoundTripStable | src/components/admin/ProductFormModal.tsx:80-138 | a row already in the form's shape is saved back unchanged, `is_offer` included |
| OrderForm.OrderErrors | src/components/products/OrderForm.tsx:21-28 | the name is reported below 2 code units, the phone below 8, the quantity below 1 |
| OrderForm.ValidIffNoErrors | src/components/products/OrderForm.tsx:21-28 | the schema accepts exactly when no field is reported |
| OrderForm.DefaultOrder | src/components/products/OrderForm.tsx:50-52 | the form starts at quantity 1 with nothing picked, failing only on name and phone |
| OrderForm.OptionalFieldsOptional | src/components/products/OrderForm.tsx:22-27 | name, phone and quantity alone suffice; the phone need not be digits and the quantity need not be whole |
| OrderForm.SubmitOrder | src/components/products/OrderForm.tsx:55-64 | an order is sent exactly when the schema accepts, for the shown product, with every field copied unchanged |
| OrderForm.Apply | src/components/products/OrderForm.tsx:118-159 | picking sets the colour (size) to the chosen rendered item and touches nothing else |
| OrderForm.ChoicesStayOffered | src/components/products/OrderForm.tsx:118-159 | after any sequence of events a chosen colour or size is one the product offers, and none is chosen when it offers none |
| OrderForm.SubmittedChoicesOffered | src/components/products/OrderForm.tsx:55-64 | a submitted order names only a colour and size the product offers |
| ProductDisplay.NameFor | src/components/products/ProductDetailModal.tsx:34-40 | the name in the current language, and `""` for a code that is none of the four |
| ProductDisplay.DetailName | src/components/products/ProductDetailModal.tsx:33-41 | the current language's name when non-empty, else the English one |
| ProductDisplay.CardName | src/components/products/ProductCard.tsx:17-25 | one of the current, English or Arabic names, empty only when all three are |
| ProductDisplay.CardAgreesWithDetail | src/components/products/ProductCard.tsx:24 | card and dialog agree unless both first choices are empty, where only the card shows the Arabic name |
| ProductDisplay.SavedNamesNeedNoFallback | src/components/products/ProductCard.tsx:24 | for a row with four names no fallback is taken under any of the four languages |
| ProductDisplay.UnknownLanguageShowsEnglish | src/components/products/ProductDetailModal.tsx:40 | an unknown stored language shows the English name |
| ProductDisplay.DetailDescription | src/components/products/ProductDetailModal.tsx:43-51 | the current language's description when non-empty, else the English one, else empty |
| ProductDisplay.DescriptionFallsBackToEnglish | src/components/products/ProductDetailModal.tsx:43-51 | an unknown stored language, and English itself, show the English description |
| ProductDisplay.EnglishDescriptionSuffices | src/components/products/ProductDetailModal.tsx:164 | with an English description the paragraph is shown in every language |
| ProductDisplay.GalleryImages | src/components/products/ProductDetailModal.tsx:53-54 | the product's images, or the one default picture, so never empty |
| ProductDisplay.RemIsMod | src/components/products/ProductDetailModal.tsx:57 | repeated subtraction yields the mathematical remainder |
| ProductDisplay.JsRem | src/components/products/ProductDetailModal.tsx:57 | JavaScript `%` is smaller than the divisor in magnitude and takes the sign of the dividend |
| ProductDisplay.JsRemTruncates | src/components/products/ProductDetailModal.tsx:57 | JavaScript `%` is the remainder of the magnitudes by the divisor's magnitude, carrying the sign of the dividend |
| ProductDisplay.NavigationInRange | src/components/products/ProductDetailModal.tsx:56-62 | next and previous stay in range, wrap at the ends, and undo each other |
| ProductDisplay.NextTimesFormula | src/components/products/ProductDetailModal.tsx:56-58 | `k` presses of next advance by `k` modulo the image count |
| ProductDisplay.NextCycles | src/components/products/ProductDetailModal.tsx:56-58 | as many presses of next as there are images come back to the start |
| ProductDisplay.GalleryIndexInRange | src/components/products/ProductDetailModal.tsx:133-139 | arrows and indicator clicks always show an existing image |
| ProductDisplay.SingleImageStays | src/components/products/ProductDetailModal.tsx:112 | with one image the navigation is hidden and every move stays on it |
| ProductDisplay.WhatsAppTarget | src/components/products/ProductDetailModal.tsx:64-68 | a link exactly when the number is non-empty: the `wa.me` prefix followed by the number's digits |
| ProductDisplay.WhatsAppDigits | src/components/products/ProductDetailModal.tsx:66 | the digits appear in order; a digits-only number is used unchanged |
| ProductDisplay.WhatsAppExample | src/components/products/ProductDetailModal.tsx:66 | `+213 55` opens `https://wa.me/21355` |
| ProductDisplay.CallTarget | src/components/products/ProductDetailModal.tsx:70-74 | a `tel:` link exactly when the phone is non-empty |
| ProductDisplay.LocationTarget | src/components/products/ProductDetailModal.tsx:76-83 | a map link exactly when both coordinates are present and non-zero |
| ProductDisplay.ZeroCoordinateHidesMap | src/components/products/ProductDetailModal.tsx:227 | a zero latitude or longitude hides the map button |
| ProductDisplay.FormRowsHaveNoMap | src/components/admin/ProductFormModal.tsx:133-134 | a row inserted from the admin form never shows a map button |
| ProductDisplay.CoverImage | src/components/products/ProductCard.tsx:41 | the first image when present and non-empty, else the default |
| ProductDisplay.CoverMatchesGallery | src/components/products/ProductCard.tsx:41 | card cover and dialog's first picture agree except for an empty first image |
| ProductDisplay.Swatches | src/components/products/ProductCard.tsx:83 | at most five swatches, the first colours in order, all of them when five or fewer |
| ProductDisplay.Overflow | src/components/products/ProductCard.tsx:91-95 | the `+k` count appears exactly when there are more than five colours |
| ProductDisplay.PreviewAccountsForAll | src/components/products/ProductCard.tsx:83-95 | swatches plus `k` is the number of colours, and `k` is at least 1 when shown |
| Admin.AdminName | src/pages/Admin.tsx:38-46 | the current language's name when non-empty, else the English one |
| Admin.AdminAgreesWithDetail | src/pages/Admin.tsx:38-46 | the table and the detail dialog name every product alike |
| Admin.CategoryLabelTranslated | src/pages/Admin.tsx:48-55 | under a known language each category shows its own non-empty table entry |
| Admin.CategoryLabelUnknownLanguage | src/pages/Admin.tsx:48-58 | under an unknown language a category shows its code |
| Admin.CategoryLabel | src/pages/Admin.tsx:56-57 | any text other than the three codes is shown as it is |
| Admin.Thumbnail | src/pages/Admin.tsx:127 | the first image when present and non-empty, else the small default |
| Admin.ProductCount | src/pages/Admin.tsx:98 | the number of rows, 0 before any data |
| Admin.ViewOf | src/pages/Admin.tsx:102-110 | a spinner exactly while loading; the table exactly when loaded with at least one row |
| Admin.Initial | src/components/admin/ProductFormModal.tsx:79-112 | the page starts with the form and dialog closed and the editor already reset for create mode: empty lists, not savable |
| Admin.Close | src/pages/Admin.tsx:73-76 | closing shuts the form and forgets the product, leaving the dialog and the editor's contents alone |
| Admin.SaveRequest | src/components/admin/ProductFormModal.tsx:114-141 | a save is rejected exactly when the schema fails, inserts exactly when no product is being edited, and otherwise updates the edited product's id |
| Admin.HandleDelete | src/pages/Admin.tsx:66-71 | `handleDelete` on its own: a delete is issued exactly for a pending id; the id is cleared only when the request succeeds; nothing else changes |
| Admin.ConfirmDelete | src/pages/Admin.tsx:181-192 | the confirm click issues `handleDelete`'s request and, through the dialog's `onOpenChange`, clears the pending id whatever the outcome |
| Admin.Handle | src/pages/Admin.tsx:61-86 | edit opens the form on the product, close shuts it and forgets the product, add only opens it; only form input changes the editor |
| Admin.Apply | src/components/admin/ProductFormModal.tsx:79-112 | the handler followed by the editor's effect: the editor is reset exactly when the edited product changes, add reopens the form with the editor untouched, a failed or invalid save changes nothing, and the bin and dialog events touch only the pending id (also `src/pages/Admin.tsx:61-86`, `:174-181`) |
| Admin.ConsistentAlways | src/pages/Admin.tsx:61-76 | a product is being edited only while the form is open, after any sequence of events |
| Admin.AddAfterCloseCreates | src/pages/Admin.tsx:85-86 | from any reachable state with the form closed, the add button opens it in create mode with the editor as it was |
| Admin.EditCloseAdd | src/pages/Admin.tsx:61-86 | edit, close, add opens a form emptied by the create-mode reset, because closing hands the editor no product |
| Admin.StaleCreateForm | src/components/admin/ProductFormModal.tsx:79-112 | dismissing a create-mode form and adding again reopens it exactly as it was left |
| Admin.CreateSavedThenAddResubmits | src/components/admin/ProductFormModal.tsx:137-143 | after a successful insert, add reopens the same filled form and saving again sends the same insert |
| Admin.FixedApply | src/components/admin/ProductFormModal.tsx:79-112 | with the reset also run on opening, every opening presents the editor reset for the product handed to it; otherwise events act as before |
| Admin.FixedAddOpensEmpty | src/pages/Admin.tsx:85-86 | with that correction, add from a closed create-mode page opens an emptied form that cannot be saved |
| Admin.DeleteOutcome | src/pages/Admin.tsx:181-192 | confirming a chosen id sends its delete and closes the dialog whether the request succeeds or fails, with nothing else changed |
| Admin.FormSaveClearsBadge | src/components/products/ProductCard.tsx:65 | a row inserted or updated from the admin form has the featured badge off, since the form sends `is_featured: false` |

## Left out

- Storage, the DOM, the network, the query cache and toasts are not modelled. Storage is one optional string. The `dir` and `lang` attributes written to the document are left out. Each hook is a pure function of the table. The backend's fresh id, clock and `is_offer` default are parameters.
- Object.prototype members and string properties are not modelled. `t` and the per-language name records treat property access on a string, or an inherited member such as `toString`, as `undefined`. JavaScript would find the inherited member.
- SQL `ilike` wildcards are not modelled. The term is spliced into the filter unescaped (`src/hooks/useProducts.ts:77`), so `%`, `_` or `,` in a term change its meaning. The model matches the term as plain text. Case folding is an abstract parameter, and the database collation is code-point order.
- Catalog.SearchProducts: does not model the request failing for a term whose commas or parentheses break the filter syntax.
- Floating point is not modelled. Prices, quantities and coordinates are reals; NaN, infinities and `toLocaleString` formatting are left out. The map link's text formatting of the coordinates is reduced to the pair of numbers.
- Request failures are modelled only for update with no matching row, the admin save and the admin delete. All other errors are left out.
- Catalog.UpdateProduct: patches every row that carries the id. When two rows share an id, `.single()` (`src/hooks/useProducts.ts:140-146`) would fail instead. This cannot happen while `id` is the table's primary key, and `Catalog.GetProduct` models the same case as an error.
- The gallery index is not reset when the dialog's product changes (`src/components/products/ProductDetailModal.tsx:28`). Navigation is modelled for one fixed product.
- Admin.ConfirmDelete: takes from the dialog library that its action button closes the dialog and so fires `onOpenChange`. The wrapper at `src/components/ui/alert-dialog.tsx` is not part of this model.
- Admin.Apply: the editor's effect fires when the product object changes identity. The model compares values, so handing over a refetched but equal row does not reset the editor.
- Admin.Apply: the form's own inputs are one event that replaces the editor with any value. The individual list editors are modelled in `product_form.dfy`.
- The title of the product form, the order success callback and the order-form back button are presentational and not modelled.
- Translations.ParseKey: injectivity of key names is not proved. The properties of `t` are stated through `Lookup` and `ParseKey`, which do not need it.
- ProductForm.InitialEditor: the form values before the mount effect's reset are taken as empty names and zero price. In the code they are unset, and the reset replaces them at once.
- Authentication, order persistence (`src/hooks/useOrders.ts`), the splash screen and the navigation and layout components are not part of this model.
- `src/pages/Category.tsx:26-37` and `src/components/home/CategorySection.tsx` repeat the category-label switch of `src/pages/Admin.tsx:48-59`, which is modelled once as Admin.CategoryLabel.

## Findings

| source | as written | input that shows it | evidently intended | confidence | as-written member | corrected member |
|---|---|---|---|---|---|---|
| src/hooks/useProducts.ts:33 | the list query's key is `['products', category]`, with the route parameter passed unchecked (`src/pages/Category.tsx:10-12`) | visiting `/category/featured` gives key `['products', 'featured']`, the featured query's key; the list answer is empty, the featured answer is the ten newest rows | a key segment that keeps list queries apart from the featured and search queries, for example `['products', 'list', category]` | not executed | QueryKeys.ListKeyCollides | QueryKeys.FixedKeysSeparate |
| src/components/admin/ProductFormModal.tsx:79-112 | the editor is reset only when the `product` it is handed changes; the add button (`src/pages/Admin.tsx:85-86`) leaves that product `null`, and the editor stays mounted (`src/pages/Admin.tsx:174-178`) | add, fill in the four names and image `x`, save, then add again: the form shows the same names and `[x]`, and saving sends a second identical insert | each opening of the form in create mode starts from empty values | not executed | Admin.CreateSavedThenAddResubmits | Admin.FixedAddOpensEmpty |
