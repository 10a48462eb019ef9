/** The language context: the current language (read back from storage at
    start-up, written to it on change), the text direction derived from it,
    and the translation function `t`. */
module LanguageContext {
  import opened Optional
  import opened JsStrings
  import T = Translations

  /** The storage key the chosen language is kept under */
  const StorageKey: string := "boutique-mancer-language"

  /** The language used when nothing usable is stored */
  const DefaultCode: string := "fr"

  /** `languageNames` as this file declares it a second time */
  function ContextLanguageNames(): map<T.Language, string> {
    map[T.Ar := "العربية", T.Fr := "Français", T.En := "English", T.Ber := "ⵜⴰⵎⴰⵣⵉⵖⵜ"]
  }

  /** The two declarations of `languageNames` agree entry for entry. */
  lemma LanguageNamesAgree()
    ensures ContextLanguageNames() == T.LanguageNames()
  {
  }

  // ---------------------------------------------------------------------------
  // The translation function `t`

  /** What the lookup loop of `t` holds after each step: a language's table
      object, a string, or `undefined` */
  datatype Value = Table(lang: T.Language) | Str(text: string) | Undefined

  /** `translations[code]`: a table for one of the four codes, `undefined`
      for any other stored value */
  function Start(code: string): (v: Value)
    ensures v.Table? <==> T.ParseLanguage(code).Some?
    ensures v.Table? ==> v.lang == T.ParseLanguage(code).value
  {
    match T.ParseLanguage(code)
    case Some(l) => Table(l)
    case None => Undefined
  }

  /** `value = value?.[name]`: a table yields its entry or `undefined`; a
      string or `undefined` yields `undefined` */
  function Step(v: Value, name: string): (r: Value)
    ensures !r.Table?
    ensures r.Str? ==> v.Table? && T.Lookup(v.lang, name) == Some(r.text)
  {
    match v
    case Table(l) =>
      (match T.Lookup(l, name)
       case Some(e) => Str(e)
       case None => Undefined)
    case _ => Undefined
  }

  /** The `for (const k of keys)` loop of `t` */
  function Walk(v: Value, names: seq<string>): Value
    decreases |names|
  {
    if names == [] then v else Walk(Step(v, names[0]), names[1..])
  }

  /** Once the walk has left the tables it stays `undefined`. */
  lemma {:induction false} WalkPastTable(v: Value, names: seq<string>)
    requires !v.Table? && names != []
    ensures Walk(v, names) == Undefined
    decreases |names|
  {
    if |names| > 1 {
      WalkPastTable(Step(v, names[0]), names[1..]);
    }
  }

  /** A walk of two or more segments never reaches a string, the tables
      being flat. */
  lemma WalkNested(v: Value, names: seq<string>)
    requires |names| >= 2
    ensures Walk(v, names) == Undefined
  {
    WalkPastTable(Step(v, names[0]), names[1..]);
  }

  /** `t(key)`: the entry the dotted path leads to when it is a non-empty
      string, otherwise the key itself. Any other outcome is an entry of the
      current language's table under the key as written. */
  function Translate(code: string, key: string): (r: string)
    ensures r != key ==>
      && T.ParseLanguage(code).Some?
      && T.Lookup(T.ParseLanguage(code).value, key) == Some(r)
  {
    var names := Split(key, '.');
    var w := Walk(Start(code), names);
    assert |names| >= 2 ==> w == Undefined by {
      if |names| >= 2 {
        WalkNested(Start(code), names);
      }
    }
    if w.Str? && w.text != "" then
      assert names[0] == key && names[1..] == [];
      assert w == Walk(Step(Start(code), key), []);
      w.text
    else key
  }

  /** A defined, undotted key of a known language translates to its entry. */
  lemma TranslateDefined(l: T.Language, key: string, e: string)
    requires T.Lookup(l, key) == Some(e)
    ensures Translate(T.Code(l), key) == e
  {
    var k := T.ParseKey(key).value;
    T.KeyNamesUndotted(k);
    T.EntriesNonEmpty(l, k);
    T.ParseCode(l);
    var names := Split(key, '.');
    assert names == [key];
    assert Start(T.Code(l)) == Table(l);
    assert Walk(Start(T.Code(l)), names) == Step(Table(l), key) == Str(e);
  }

  /** A key that contains a `.` falls back to itself, whichever segments
      exist, because every table is flat. */
  lemma TranslateDotted(code: string, key: string)
    requires '.' in key
    ensures Translate(code, key) == key
  {
    WalkNested(Start(code), Split(key, '.'));
  }

  /** A key the current table does not define falls back to itself. */
  lemma TranslateUndefined(l: T.Language, key: string)
    requires T.Lookup(l, key).None?
    ensures Translate(T.Code(l), key) == key
  {
    T.ParseCode(l);
  }

  /** Under a stored code that is none of the four languages, every key
      falls back to itself. */
  lemma TranslateUnknownLanguage(code: string, key: string)
    requires T.ParseLanguage(code).None?
    ensures Translate(code, key) == key
  {
  }

  /** The empty value never escapes: `t` returns the empty string only for
      the empty key. */
  lemma TranslateNonEmpty(code: string, key: string)
    requires key != ""
    ensures Translate(code, key) != ""
  {
    var r := Translate(code, key);
    if r != key {
      var l := T.ParseLanguage(code).value;
      T.EntriesNonEmpty(l, T.ParseKey(key).value);
    }
  }

  // ---------------------------------------------------------------------------
  // Direction and the persisted language

  datatype Direction = Ltr | Rtl

  /** `dir`, derived from the current code */
  function DirOf(code: string): Direction {
    if T.IsRtl(code) then Rtl else Ltr
  }

  /** The direction is right-to-left exactly for Arabic, and left-to-right
      for every other code, stored garbage included. */
  lemma DirRtlIffArabic(code: string)
    ensures DirOf(code) == Rtl <==> T.ParseLanguage(code) == Some(T.Ar)
  {
  }

  /** The provider's state: the current language code and the value stored
      under `StorageKey` (`None` when nothing is stored) */
  datatype State = State(language: string, stored: Option<string>)

  /** Start-up: the stored value when present and non-empty, else French.
      The stored value is not checked against the four languages. */
  function Init(stored: Option<string>): (s: State)
    ensures s.stored == stored
    ensures s.language != DefaultCode ==> stored == Some(s.language)
    ensures stored.Some? && T.ParseLanguage(stored.value).Some? ==> s.language == stored.value
    ensures stored.Some? && stored.value != "" ==> s.language == stored.value
    ensures stored.None? || stored == Some("") ==> s.language == DefaultCode
  {
    State(Or(stored.GetOr(""), DefaultCode), stored)
  }

  /** `setLanguage`: the new code becomes current and is stored. */
  function SetLanguage(s: State, l: T.Language): (s': State)
    ensures s'.stored.Some? && s'.stored.value != ""
    ensures T.ParseLanguage(s'.language) == Some(l)
  {
    T.ParseCode(l);
    State(T.Code(l), Some(T.Code(l)))
  }

  /** A language chosen before a reload is the language after it. */
  lemma SetLanguageSurvivesReload(s: State, l: T.Language)
    ensures Init(SetLanguage(s, l).stored).language == T.Code(l)
    ensures Init(SetLanguage(s, l).stored) == SetLanguage(s, l)
  {
  }

  /** With nothing stored, or an empty string stored, the interface starts
      in French, left to right. */
  lemma InitDefault(stored: Option<string>)
    requires stored.None? || stored == Some("")
    ensures Init(stored).language == T.Code(T.Fr)
    ensures DirOf(Init(stored).language) == Ltr
  {
  }

  /** An unrecognised stored value becomes the current language as is, and
      then `t` returns every key unchanged. */
  lemma InitUnvalidated(stored: string, key: string)
    requires stored != "" && T.ParseLanguage(stored).None?
    ensures Init(Some(stored)).language == stored
    ensures Translate(Init(Some(stored)).language, key) == key
  {
  }
}
