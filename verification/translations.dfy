/** The static translation tables: one flat table per language, all four
    over the same 41 keys, the language names shown in the picker, and the
    right-to-left flag. */
module Translations {
  import opened Optional

  /** The four interface languages */
  datatype Language = Ar | Fr | En | Ber

  const AllLanguages: set<Language> := {Ar, Fr, En, Ber}

  /** The code a language is stored and compared under */
  function Code(l: Language): string {
    match l
    case Ar => "ar"
    case Fr => "fr"
    case En => "en"
    case Ber => "ber"
  }

  /** The language a code names, if any */
  function ParseLanguage(code: string): (r: Option<Language>)
    ensures r.Some? ==> Code(r.value) == code
    ensures r.None? ==> forall l :: Code(l) != code
  {
    if code == "ar" then Some(Ar)
    else if code == "fr" then Some(Fr)
    else if code == "en" then Some(En)
    else if code == "ber" then Some(Ber)
    else None
  }

  /** Every language is recognised from its own code. */
  lemma ParseCode(l: Language)
    ensures ParseLanguage(Code(l)) == Some(l)
  {
  }

  /** `isRTL`: a plain comparison of the code with `'ar'` */
  predicate IsRtl(code: string) {
    code == "ar"
  }

  /** Only Arabic is written right to left. */
  lemma RtlOnlyArabic(l: Language)
    ensures IsRtl(Code(l)) <==> l == Ar
  {
  }

  /** `languageNames`: each language's name in its own script */
  function LanguageNames(): map<Language, string> {
    map[Ar := "العربية", Fr := "Français", En := "English", Ber := "ⵜⴰⵎⴰⵣⵉⵖⵜ"]
  }

  /** `languageNames` has one entry per language, and the names are distinct
      and non-empty. */
  lemma LanguageNamesComplete()
    ensures LanguageNames().Keys == AllLanguages
    ensures forall l :: l in LanguageNames() && LanguageNames()[l] != ""
    ensures forall l, l' :: l != l' ==> LanguageNames()[l] != LanguageNames()[l']
  {
    var m := LanguageNames();
    assert m.Keys == AllLanguages;
    forall l ensures l in m && m[l] != "" {
      match l
      case Ar => assert |m[Ar]| == 7;
      case Fr => assert |m[Fr]| == 8;
      case En => assert |m[En]| == 7;
      case Ber => assert |m[Ber]| == 8;
    }
    assert m[Ar] != m[Fr] && m[Ar] != m[En] && m[Ar] != m[Ber] by {
      assert m[Ar][0] != m[Fr][0] && m[Ar][0] != m[En][0] && m[Ar][0] != m[Ber][0];
    }
    assert m[Fr] != m[En] && m[Fr] != m[Ber] && m[En] != m[Ber] by {
      assert m[Fr][0] != m[En][0] && m[Fr][0] != m[Ber][0] && m[En][0] != m[Ber][0];
    }
  }

  /** The keys of the tables; every table defines every one of them */
  datatype Key =
    Home | Men | Women | Children | Settings | Admin
    | LatestProducts | ViewAll | Categories | Price | Colors | Sizes
    | OrderNow | ProductDetails | Contact | Location | OrderForm | YourName
    | YourPhone | YourAddress | SelectColor | SelectSize | Quantity | SubmitOrder
    | OrderSuccess | DarkMode | Language | AddProduct | EditProduct | DeleteProduct
    | ProductName | ProductDescription | ProductImages | ProductCategory | Save | Cancel
    | ConfirmDelete | Copyright | Loading | NoProducts | Search

  /** The property name a key is looked up under */
  function KeyName(k: Key): string {
    match k
    case Home => "home"
    case Men => "men"
    case Women => "women"
    case Children => "children"
    case Settings => "settings"
    case Admin => "admin"
    case LatestProducts => "latestProducts"
    case ViewAll => "viewAll"
    case Categories => "categories"
    case Price => "price"
    case Colors => "colors"
    case Sizes => "sizes"
    case OrderNow => "orderNow"
    case ProductDetails => "productDetails"
    case Contact => "contact"
    case Location => "location"
    case OrderForm => "orderForm"
    case YourName => "yourName"
    case YourPhone => "yourPhone"
    case YourAddress => "yourAddress"
    case SelectColor => "selectColor"
    case SelectSize => "selectSize"
    case Quantity => "quantity"
    case SubmitOrder => "submitOrder"
    case OrderSuccess => "orderSuccess"
    case DarkMode => "darkMode"
    case Language => "language"
    case AddProduct => "addProduct"
    case EditProduct => "editProduct"
    case DeleteProduct => "deleteProduct"
    case ProductName => "productName"
    case ProductDescription => "productDescription"
    case ProductImages => "productImages"
    case ProductCategory => "productCategory"
    case Save => "save"
    case Cancel => "cancel"
    case ConfirmDelete => "confirmDelete"
    case Copyright => "copyright"
    case Loading => "loading"
    case NoProducts => "noProducts"
    case Search => "search"
  }

  /** The keys in the order the source lists them */
  const AllKeys: seq<Key> := [
    Home, Men, Women, Children, Settings, Admin,
    LatestProducts, ViewAll, Categories, Price, Colors, Sizes,
    OrderNow, ProductDetails, Contact, Location, OrderForm, YourName,
    YourPhone, YourAddress, SelectColor, SelectSize, Quantity, SubmitOrder,
    OrderSuccess, DarkMode, Language, AddProduct, EditProduct, DeleteProduct,
    ProductName, ProductDescription, ProductImages, ProductCategory, Save, Cancel,
    ConfirmDelete, Copyright, Loading, NoProducts, Search
  ]

  lemma AllKeysListed(k: Key)
    ensures k in AllKeys
  {
    match k
    case Home => assert AllKeys[0] == Home;
    case Men => assert AllKeys[1] == Men;
    case Women => assert AllKeys[2] == Women;
    case Children => assert AllKeys[3] == Children;
    case Settings => assert AllKeys[4] == Settings;
    case Admin => assert AllKeys[5] == Admin;
    case LatestProducts => assert AllKeys[6] == LatestProducts;
    case ViewAll => assert AllKeys[7] == ViewAll;
    case Categories => assert AllKeys[8] == Categories;
    case Price => assert AllKeys[9] == Price;
    case Colors => assert AllKeys[10] == Colors;
    case Sizes => assert AllKeys[11] == Sizes;
    case OrderNow => assert AllKeys[12] == OrderNow;
    case ProductDetails => assert AllKeys[13] == ProductDetails;
    case Contact => assert AllKeys[14] == Contact;
    case Location => assert AllKeys[15] == Location;
    case OrderForm => assert AllKeys[16] == OrderForm;
    case YourName => assert AllKeys[17] == YourName;
    case YourPhone => assert AllKeys[18] == YourPhone;
    case YourAddress => assert AllKeys[19] == YourAddress;
    case SelectColor => assert AllKeys[20] == SelectColor;
    case SelectSize => assert AllKeys[21] == SelectSize;
    case Quantity => assert AllKeys[22] == Quantity;
    case SubmitOrder => assert AllKeys[23] == SubmitOrder;
    case OrderSuccess => assert AllKeys[24] == OrderSuccess;
    case DarkMode => assert AllKeys[25] == DarkMode;
    case Language => assert AllKeys[26] == Language;
    case AddProduct => assert AllKeys[27] == AddProduct;
    case EditProduct => assert AllKeys[28] == EditProduct;
    case DeleteProduct => assert AllKeys[29] == DeleteProduct;
    case ProductName => assert AllKeys[30] == ProductName;
    case ProductDescription => assert AllKeys[31] == ProductDescription;
    case ProductImages => assert AllKeys[32] == ProductImages;
    case ProductCategory => assert AllKeys[33] == ProductCategory;
    case Save => assert AllKeys[34] == Save;
    case Cancel => assert AllKeys[35] == Cancel;
    case ConfirmDelete => assert AllKeys[36] == ConfirmDelete;
    case Copyright => assert AllKeys[37] == Copyright;
    case Loading => assert AllKeys[38] == Loading;
    case NoProducts => assert AllKeys[39] == NoProducts;
    case Search => assert AllKeys[40] == Search;
  }

  /** The first key of `ks` at or after position `i` named `s`, as a search
      over an object's own properties finds it */
  function FindKey(s: string, ks: seq<Key>, i: nat): (r: Option<Key>)
    requires i <= |ks|
    ensures r.Some? ==> KeyName(r.value) == s && r.value in ks
    ensures r.None? ==> forall j :: i <= j < |ks| ==> KeyName(ks[j]) != s
    decreases |ks| - i
  {
    if i == |ks| then None
    else if KeyName(ks[i]) == s then Some(ks[i])
    else FindKey(s, ks, i + 1)
  }

  /** The key a property name denotes, if any */
  function ParseKey(s: string): (r: Option<Key>)
    ensures r.Some? ==> KeyName(r.value) == s
    ensures r.None? <==> forall k :: KeyName(k) != s
  {
    var r := FindKey(s, AllKeys, 0);
    if r.None? then
      assert forall k :: KeyName(k) != s by {
        forall k ensures KeyName(k) != s {
          AllKeysListed(k);
          var j :| 0 <= j < |AllKeys| && AllKeys[j] == k;
        }
      }
      r
    else r
  }

  /** The entry of a key in a language's table */
  function Entry(l: Language, k: Key): string {
    match l
    case Ar => ArEntry(k)
    case Fr => FrEntry(k)
    case En => EnEntry(k)
    case Ber => BerEntry(k)
  }

  function ArEntry(k: Key): string {
    match k
    case Home => "الرئيسية"
    case Men => "ملابس رجالية"
    case Women => "ملابس نسائية"
    case Children => "ملابس أطفال"
    case Settings => "الإعدادات"
    case Admin => "لوحة التحكم"
    case LatestProducts => "أحدث المنتجات"
    case ViewAll => "عرض الكل"
    case Categories => "الأقسام"
    case Price => "السعر"
    case Colors => "الألوان المتوفرة"
    case Sizes => "الأحجام المتوفرة"
    case OrderNow => "اطلب الآن"
    case ProductDetails => "تفاصيل المنتج"
    case Contact => "اتصل بنا"
    case Location => "موقع المحل"
    case OrderForm => "نموذج الطلب"
    case YourName => "اسمك"
    case YourPhone => "رقم هاتفك"
    case YourAddress => "عنوانك"
    case SelectColor => "اختر اللون"
    case SelectSize => "اختر الحجم"
    case Quantity => "الكمية"
    case SubmitOrder => "إرسال الطلب"
    case OrderSuccess => "تم إرسال طلبك بنجاح!"
    case DarkMode => "الوضع الليلي"
    case Language => "اللغة"
    case AddProduct => "إضافة منتج"
    case EditProduct => "تعديل المنتج"
    case DeleteProduct => "حذف المنتج"
    case ProductName => "اسم المنتج"
    case ProductDescription => "وصف المنتج"
    case ProductImages => "صور المنتج"
    case ProductCategory => "قسم المنتج"
    case Save => "حفظ"
    case Cancel => "إلغاء"
    case ConfirmDelete => "هل أنت متأكد من حذف هذا المنتج؟"
    case Copyright => "جميع الحقوق محفوظة"
    case Loading => "جاري التحميل..."
    case NoProducts => "لا توجد منتجات"
    case Search => "بحث"
  }

  function FrEntry(k: Key): string {
    match k
    case Home => "Accueil"
    case Men => "Vêtements Hommes"
    case Women => "Vêtements Femmes"
    case Children => "Vêtements Enfants"
    case Settings => "Paramètres"
    case Admin => "Panneau Admin"
    case LatestProducts => "Derniers Produits"
    case ViewAll => "Voir Tout"
    case Categories => "Catégories"
    case Price => "Prix"
    case Colors => "Couleurs Disponibles"
    case Sizes => "Tailles Disponibles"
    case OrderNow => "Commander"
    case ProductDetails => "Détails du Produit"
    case Contact => "Nous Contacter"
    case Location => "Emplacement du Magasin"
    case OrderForm => "Formulaire de Commande"
    case YourName => "Votre Nom"
    case YourPhone => "Votre Téléphone"
    case YourAddress => "Votre Adresse"
    case SelectColor => "Choisir la Couleur"
    case SelectSize => "Choisir la Taille"
    case Quantity => "Quantité"
    case SubmitOrder => "Envoyer la Commande"
    case OrderSuccess => "Votre commande a été envoyée avec succès!"
    case DarkMode => "Mode Sombre"
    case Language => "Langue"
    case AddProduct => "Ajouter un Produit"
    case EditProduct => "Modifier le Produit"
    case DeleteProduct => "Supprimer le Produit"
    case ProductName => "Nom du Produit"
    case ProductDescription => "Description du Produit"
    case ProductImages => "Images du Produit"
    case ProductCategory => "Catégorie du Produit"
    case Save => "Enregistrer"
    case Cancel => "Annuler"
    case ConfirmDelete => "Êtes-vous sûr de vouloir supprimer ce produit?"
    case Copyright => "Tous droits réservés"
    case Loading => "Chargement..."
    case NoProducts => "Aucun produit"
    case Search => "Rechercher"
  }

  function EnEntry(k: Key): string {
    match k
    case Home => "Home"
    case Men => "Men's Clothing"
    case Women => "Women's Clothing"
    case Children => "Children's Clothing"
    case Settings => "Settings"
    case Admin => "Admin Panel"
    case LatestProducts => "Latest Products"
    case ViewAll => "View All"
    case Categories => "Categories"
    case Price => "Price"
    case Colors => "Available Colors"
    case Sizes => "Available Sizes"
    case OrderNow => "Order Now"
    case ProductDetails => "Product Details"
    case Contact => "Contact Us"
    case Location => "Store Location"
    case OrderForm => "Order Form"
    case YourName => "Your Name"
    case YourPhone => "Your Phone"
    case YourAddress => "Your Address"
    case SelectColor => "Select Color"
    case SelectSize => "Select Size"
    case Quantity => "Quantity"
    case SubmitOrder => "Submit Order"
    case OrderSuccess => "Your order has been sent successfully!"
    case DarkMode => "Dark Mode"
    case Language => "Language"
    case AddProduct => "Add Product"
    case EditProduct => "Edit Product"
    case DeleteProduct => "Delete Product"
    case ProductName => "Product Name"
    case ProductDescription => "Product Description"
    case ProductImages => "Product Images"
    case ProductCategory => "Product Category"
    case Save => "Save"
    case Cancel => "Cancel"
    case ConfirmDelete => "Are you sure you want to delete this product?"
    case Copyright => "All rights reserved"
    case Loading => "Loading..."
    case NoProducts => "No products"
    case Search => "Search"
  }

  function BerEntry(k: Key): string {
    match k
    case Home => "ⴰⵙⵏⵓⴱⴳ"
    case Men => "ⵉⵙⵍⵎⴰⵏ ⵏ ⵉⵔⴳⴰⵣⵏ"
    case Women => "ⵉⵙⵍⵎⴰⵏ ⵏ ⵜⵎⵖⴰⵔⵉⵏ"
    case Children => "ⵉⵙⵍⵎⴰⵏ ⵏ ⵉⵃⵏⵊⵉⵔⵏ"
    case Settings => "ⵉⵙⵖⴰⵍⵏ"
    case Admin => "ⴰⵙⵉⵔⴰ ⵏ ⵓⵏⴱⴹ"
    case LatestProducts => "ⵉⴼⴰⵔⵙⵏ ⵉⵎⴳⴳⵓⵔⴰ"
    case ViewAll => "ⵥⵕ ⴽⵓⵍⵍⵓ"
    case Categories => "ⵜⴰⴳⴳⴰⵢⵉⵏ"
    case Price => "ⴰⵙⵡⴰⵎ"
    case Colors => "ⵉⵏⵉⵜⵏ ⵉⵍⵍⴰⵏ"
    case Sizes => "ⵜⵉⴷⴷⵉ ⵉⵍⵍⴰⵏ"
    case OrderNow => "ⴰⵣⵣⵏ ⴷⵖⵉ"
    case ProductDetails => "ⵉⵙⴰⵍⵏ ⵏ ⵓⴼⴰⵔⵙ"
    case Contact => "ⵎⵍⴰⵏ ⴰⵖ"
    case Location => "ⴰⴷⵖⴰⵔ ⵏ ⵜⵃⴰⵏⵓⵜ"
    case OrderForm => "ⵜⴰⵎⵓⵔⵜ ⵏ ⵓⵣⵣⵏ"
    case YourName => "ⵉⵙⵎ ⵏⵏⴽ"
    case YourPhone => "ⵓⵟⵟⵓⵏ ⵏⵏⴽ"
    case YourAddress => "ⵜⴰⵏⵙⴰ ⵏⵏⴽ"
    case SelectColor => "ⵙⵜⵉ ⵉⵏⵉ"
    case SelectSize => "ⵙⵜⵉ ⵜⴰⴷⴷⵉ"
    case Quantity => "ⵜⴰⵎⵣⵉ"
    case SubmitOrder => "ⴰⵣⵏ ⴰⵣⵣⵏ"
    case OrderSuccess => "ⵉⵜⵜⵡⴰⵣⵏ ⵓⵣⵣⵏ ⵏⵏⴽ!"
    case DarkMode => "ⴰⵙⴽⴰⵔ ⴰⴱⵔⴽⴰⵏ"
    case Language => "ⵜⵓⵜⵍⴰⵢⵜ"
    case AddProduct => "ⵔⵏⵓ ⴰⴼⴰⵔⵙ"
    case EditProduct => "ⵙⵏⴼⵍ ⴰⴼⴰⵔⵙ"
    case DeleteProduct => "ⴽⴽⵙ ⴰⴼⴰⵔⵙ"
    case ProductName => "ⵉⵙⵎ ⵏ ⵓⴼⴰⵔⵙ"
    case ProductDescription => "ⴰⴳⵍⴰⵎ ⵏ ⵓⴼⴰⵔⵙ"
    case ProductImages => "ⵜⵉⵡⵍⴰⴼⵉⵏ ⵏ ⵓⴼⴰⵔⵙ"
    case ProductCategory => "ⵜⴰⴳⴳⴰⵢⵜ ⵏ ⵓⴼⴰⵔⵙ"
    case Save => "ⵃⴹⵓ"
    case Cancel => "ⵙⵔ"
    case ConfirmDelete => "ⵉⵙ ⵜⵅⵙⴷ ⴰⴷ ⵜⴽⴽⵙⴷ ⴰⴼⴰⵔⵙ ⴰⴷ?"
    case Copyright => "ⴰⵣⵔⴼ ⵉⵜⵜⵡⴰⵃⵔⵣ"
    case Loading => "ⴰⵙⵔⴰⴳ..."
    case NoProducts => "ⵓⵔ ⵍⵍⵉⵏ ⵉⴼⴰⵔⵙⵏ"
    case Search => "ⵔⵣⵓ"
  }

  /** `translations[l][name]` for a flat property name: the entry, or
      `undefined` for a name that is not a key */
  function Lookup(l: Language, name: string): (r: Option<string>)
    ensures r.Some? <==> exists k :: KeyName(k) == name
    ensures r.Some? ==> exists k :: KeyName(k) == name && r.value == Entry(l, k)
  {
    match ParseKey(name)
    case Some(k) => Some(Entry(l, k))
    case None => None
  }

  /** Whether a table defines a name does not depend on the language: the
      four tables share one key set. */
  lemma TablesShareKeys(l: Language, l': Language, name: string)
    ensures Lookup(l, name).Some? <==> Lookup(l', name).Some?
  {
  }

  /** No table maps a key to the empty string. */
  lemma EntriesNonEmpty(l: Language, k: Key)
    ensures Entry(l, k) != ""
  {
    match k {
      case Home =>
      case Men =>
      case Women =>
      case Children =>
      case Settings =>
      case Admin =>
      case LatestProducts =>
      case ViewAll =>
      case Categories =>
      case Price =>
      case Colors =>
      case Sizes =>
      case OrderNow =>
      case ProductDetails =>
      case Contact =>
      case Location =>
      case OrderForm =>
      case YourName =>
      case YourPhone =>
      case YourAddress =>
      case SelectColor =>
      case SelectSize =>
      case Quantity =>
      case SubmitOrder =>
      case OrderSuccess =>
      case DarkMode =>
      case Language =>
      case AddProduct =>
      case EditProduct =>
      case DeleteProduct =>
      case ProductName =>
      case ProductDescription =>
      case ProductImages =>
      case ProductCategory =>
      case Save =>
      case Cancel =>
      case ConfirmDelete =>
      case Copyright =>
      case Loading =>
      case NoProducts =>
      case Search =>
    }
  }

  /** The three category keys are recognised by name ... */
  lemma CategoryKeysNamed()
    ensures ParseKey("men") == Some(Men)
    ensures ParseKey("women") == Some(Women)
    ensures ParseKey("children") == Some(Children)
  {
    assert AllKeys[0] == Home && AllKeys[1] == Men && AllKeys[2] == Women && AllKeys[3] == Children;
    assert FindKey("men", AllKeys, 1) == Some(Men);
    assert FindKey("women", AllKeys, 1) == FindKey("women", AllKeys, 2) == Some(Women);
    assert FindKey("children", AllKeys, 2) == FindKey("children", AllKeys, 3) == Some(Children);
  }

  /** ... so they are defined in every table. */
  lemma CategoryKeysDefined(l: Language)
    ensures Lookup(l, "men") == Some(Entry(l, Men))
    ensures Lookup(l, "women") == Some(Entry(l, Women))
    ensures Lookup(l, "children") == Some(Entry(l, Children))
  {
    CategoryKeysNamed();
  }

  /** No key name contains the `.` that `t` splits on. */
  lemma KeyNamesUndotted(k: Key)
    ensures '.' !in KeyName(k)
  {
    if k == Home || k == Men || k == Women || k == Children || k == Settings || k == Admin || k == LatestProducts {
      UndottedGroup0(k);
    } else if k == ViewAll || k == Categories || k == Price || k == Colors || k == Sizes || k == OrderNow || k == ProductDetails {
      UndottedGroup1(k);
    } else if k == Contact || k == Location || k == OrderForm || k == YourName || k == YourPhone || k == YourAddress || k == SelectColor {
      UndottedGroup2(k);
    } else if k == SelectSize || k == Quantity || k == SubmitOrder || k == OrderSuccess || k == DarkMode || k == Language || k == AddProduct {
      UndottedGroup3(k);
    } else if k == EditProduct || k == DeleteProduct || k == ProductName || k == ProductDescription || k == ProductImages || k == ProductCategory || k == Save {
      UndottedGroup4(k);
    } else {
      UndottedGroup5(k);
    }
  }

  lemma UndottedGroup0(k: Key)
    requires k == Home || k == Men || k == Women || k == Children || k == Settings || k == Admin || k == LatestProducts
    ensures '.' !in KeyName(k)
  {
  }

  lemma UndottedGroup1(k: Key)
    requires k == ViewAll || k == Categories || k == Price || k == Colors || k == Sizes || k == OrderNow || k == ProductDetails
    ensures '.' !in KeyName(k)
  {
  }

  lemma UndottedGroup2(k: Key)
    requires k == Contact || k == Location || k == OrderForm || k == YourName || k == YourPhone || k == YourAddress || k == SelectColor
    ensures '.' !in KeyName(k)
  {
  }

  lemma UndottedGroup3(k: Key)
    requires k == SelectSize || k == Quantity || k == SubmitOrder || k == OrderSuccess || k == DarkMode || k == Language || k == AddProduct
    ensures '.' !in KeyName(k)
  {
  }

  lemma UndottedGroup4(k: Key)
    requires k == EditProduct || k == DeleteProduct || k == ProductName || k == ProductDescription || k == ProductImages || k == ProductCategory || k == Save
    ensures '.' !in KeyName(k)
  {
  }

  lemma UndottedGroup5(k: Key)
    requires k == Cancel || k == ConfirmDelete || k == Copyright || k == Loading || k == NoProducts || k == Search
    ensures '.' !in KeyName(k)
  {
  }
}
