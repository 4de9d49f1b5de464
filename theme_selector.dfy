/**
 * The theme picker (src/components/ThemeSelector.tsx): the chosen theme is kept in
 * component state, on `document.body.dataset.theme` and in `localStorage` under one key.
 */
module ThemeSelector {
  import opened Wrappers
  import Storage

  /** The theme ids the code knows. */
  datatype ThemeId = CoolArt | DarkGallery | GalleryWhite | PinkPurple

  function IdText(t: ThemeId): string {
    match t
    case CoolArt => "cool-art"
    case DarkGallery => "dark-gallery"
    case GalleryWhite => "gallery-white"
    case PinkPurple => "pink-purple"
  }

  /** Distinct themes have distinct texts. */
  lemma IdTextInjective(a: ThemeId, b: ThemeId)
    requires IdText(a) == IdText(b)
    ensures a == b
  {
  }

  const StorageKey: string := "wlb-theme"

  const DefaultTheme: ThemeId := CoolArt

  /** One option of the picker. */
  datatype ThemeOption = ThemeOption(id: ThemeId, title: string, hint: string)

  /** `THEMES`: the options offered, in order; Dark Gallery is not among them. */
  const Themes: seq<ThemeOption> := [
    ThemeOption(CoolArt, "Cool Art", "Cobalt + mint, glassy"),
    ThemeOption(PinkPurple, "Pink–Purple Art", "Soft, expressive"),
    ThemeOption(GalleryWhite, "Gallery White", "Minimal, bright")
  ]

  /** The comparisons `readSavedTheme` makes: the text names one of the four known ids. */
  function ParseThemeId(v: string): (r: Option<ThemeId>)
    ensures forall t :: r == Some(t) <==> v == IdText(t)
  {
    if v == "cool-art" then Some(CoolArt)
    else if v == "dark-gallery" then Some(DarkGallery)
    else if v == "gallery-white" then Some(GalleryWhite)
    else if v == "pink-purple" then Some(PinkPurple)
    else None
  }

  /**
   * `readSavedTheme()`: the stored theme exactly when the key holds one of the four
   * known ids; anything else, a missing key included, gives `null`.
   */
  function ReadSavedTheme(items: map<string, string>): (r: Option<ThemeId>)
    ensures forall t :: r == Some(t) <==> StorageKey in items && items[StorageKey] == IdText(t)
  {
    match Storage.GetItem(items, StorageKey)
    case None => None
    case Some(v) => ParseThemeId(v)
  }

  /** The ids of earlier releases, such as `cyber-cool`, fall back to nothing. */
  lemma LegacyThemeIgnored(items: map<string, string>)
    requires StorageKey in items && items[StorageKey] == "cyber-cool"
    ensures ReadSavedTheme(items) == None
  {
  }

  /** The theme the mount effect starts with: the saved one, else Cool Art. */
  function InitialTheme(items: map<string, string>): (r: ThemeId)
    ensures ReadSavedTheme(items).Some? ==> r == ReadSavedTheme(items).value
    ensures ReadSavedTheme(items).None? ==> r == DefaultTheme
  {
    ReadSavedTheme(items).GetOr(DefaultTheme)
  }

  /** `THEMES.find(t => t.id === theme)?.hint`: the hint of the first option with that id. */
  function FindHint(options: seq<ThemeOption>, t: ThemeId): (r: Option<string>)
    ensures r.None? <==> forall i :: 0 <= i < |options| ==> options[i].id != t
    ensures r.Some? ==>
              exists i :: 0 <= i < |options| && options[i].id == t && options[i].hint == r.value
                          && forall j :: 0 <= j < i ==> options[j].id != t
  {
    if options == [] then None
    else if options[0].id == t then Some(options[0].hint)
    else FindHint(options[1..], t)
  }

  /** No id appears twice among the options. */
  lemma ThemesDistinct()
    ensures forall i, j :: 0 <= i < j < |Themes| ==> Themes[i].id != Themes[j].id
  {
  }

  /** Every offered option's hint is found by its id. */
  lemma HintOfEachOption(i: nat)
    requires i < |Themes|
    ensures FindHint(Themes, Themes[i].id) == Some(Themes[i].hint)
  {
  }

  /** Dark Gallery passes validation but has no option, so it has no hint. */
  lemma DarkGalleryHasNoHint()
    ensures ParseThemeId("dark-gallery") == Some(DarkGallery)
    ensures FindHint(Themes, DarkGallery) == None
  {
  }

  /** `document.body`: the `data-theme` attribute, absent until first set. */
  class Body {
    var theme: Option<string>

    constructor ()
      ensures theme == None
    {
      theme := None;
    }
  }

  /**
   * `applyTheme(theme)`: the body and the storage key both get the theme's id, and
   * reading the saved theme back gives that theme.
   */
  method ApplyTheme(body: Body, storage: Storage.LocalStorage, theme: ThemeId)
    modifies body, storage
    ensures body.theme == Some(IdText(theme))
    ensures storage.items == old(storage.items)[StorageKey := IdText(theme)]
    ensures ReadSavedTheme(storage.items) == Some(theme)
  {
    body.theme := Some(IdText(theme));
    storage.SetItem(StorageKey, IdText(theme));
  }

  /** The component's state. */
  class ThemePicker {
    var theme: ThemeId

    /** `useState(defaultTheme)`. */
    constructor ()
      ensures theme == DefaultTheme
    {
      theme := DefaultTheme;
    }

    /** The mount effect: the initial theme becomes the state and is applied. */
    method Mount(body: Body, storage: Storage.LocalStorage)
      modifies this, body, storage
      ensures theme == InitialTheme(old(storage.items))
      ensures body.theme == Some(IdText(theme))
      ensures storage.items == old(storage.items)[StorageKey := IdText(theme)]
      ensures ReadSavedTheme(storage.items) == Some(theme)
    {
      var initial := InitialTheme(storage.items);
      theme := initial;
      ApplyTheme(body, storage, initial);
    }

    /** The select's `onChange`: state, body and storage all take the chosen theme. */
    method OnChange(body: Body, storage: Storage.LocalStorage, next: ThemeId)
      modifies this, body, storage
      ensures theme == next
      ensures body.theme == Some(IdText(next))
      ensures storage.items == old(storage.items)[StorageKey := IdText(next)]
    {
      theme := next;
      ApplyTheme(body, storage, next);
    }

    /** The hint shown under the picker; none for a theme without an option. */
    function Hint(): (r: Option<string>)
      reads this
      ensures r.None? <==> theme == DarkGallery
    {
      FindHint(Themes, theme)
    }
  }
}
