/** The option defaults filled in when the engine is constructed. */
module Config {
  import opened Wrappers
  import opened JsValues

  datatype MenuGeometry = MenuGeometry(width: int, x: int, y: int)

  /** The options the engine reads. `languages` and `menu` are objects, so
      they are absent (None) or truthy. */
  datatype Options = Options(
    name: JsVal,
    languages: Option<seq<string>>,
    defaultLang: JsVal,
    menu: Option<MenuGeometry>,
    header: JsVal, headerType: JsVal, headerFile: JsVal,
    footer: JsVal, footerType: JsVal, footerFile: JsVal)

  const DefaultMenu := MenuGeometry(65, 3, 2)
  const MissingName := "The workshopper needs a name to store the progress."

  /** The first language, or undefined for an empty list. */
  function FirstLanguage(langs: seq<string>): JsVal {
    if |langs| > 0 then Str(langs[0]) else Undefined
  }

  /** The checks and defaults of the constructor: a name is mandatory; the
      language list defaults to English, the default language to the first
      language, the menu geometry to 65 wide at (3, 2). */
  function ApplyDefaults(o: Options): (r: Result<Options, string>)
    ensures r.Failure? <==> !Truthy(o.name)
    ensures r.Failure? ==> r.error == MissingName
    ensures r.Success? ==>
      && r.value.name == o.name
      && r.value.languages.Some?
      && (o.languages.Some? ==> r.value.languages == o.languages)
      && (o.languages.None? ==> r.value.languages == Some(["en"]))
      && (Truthy(o.defaultLang) ==> r.value.defaultLang == o.defaultLang)
      && (!Truthy(o.defaultLang) ==> r.value.defaultLang == FirstLanguage(r.value.languages.value))
      && r.value.menu.Some?
      && (o.menu.Some? ==> r.value.menu == o.menu)
      && (o.menu.None? ==> r.value.menu == Some(MenuGeometry(65, 3, 2)))
      && r.value.(languages := o.languages, defaultLang := o.defaultLang, menu := o.menu) == o
  {
    if !Truthy(o.name) then Failure(MissingName)
    else
      var langs := if o.languages.Some? then o.languages.value else ["en"];
      var lang := if Truthy(o.defaultLang) then o.defaultLang else FirstLanguage(langs);
      var menu := if o.menu.Some? then o.menu.value else DefaultMenu;
      Success(o.(languages := Some(langs), defaultLang := lang, menu := Some(menu)))
  }

  /** Filling in the defaults twice changes nothing more. */
  lemma ApplyDefaultsIdempotent(o: Options)
    requires ApplyDefaults(o).Success?
    ensures ApplyDefaults(ApplyDefaults(o).value) == ApplyDefaults(o)
  {
  }
}
