/** Theme preference in the root route: the form schema, the switch's
    three-state cycle, the optimistic value read from pending fetchers,
    the rendered theme, the theme action and the page title. */
module Theme {
  import opened Wrappers

  /** The values the theme form accepts. */
  datatype Mode = System | Light | Dark

  /** A concrete colour scheme: what a stored preference, a client hint and
      the rendered page hold. */
  type Scheme = m: Mode | m != System witness Light

  function ModeName(m: Mode): string
  {
    match m
    case System => "system"
    case Light => "light"
    case Dark => "dark"
  }

  /** `z.enum(['system', 'light', 'dark'])` on the `theme` field. */
  function ParseMode(field: Option<string>): (m: Option<Mode>)
    ensures m.Some? <==> field.Some? && field.value in {"system", "light", "dark"}
    ensures m.Some? ==> ModeName(m.value) == field.value
  {
    match field
    case None => None
    case Some(s) =>
      if s == "system" then Some(System)
      else if s == "light" then Some(Light)
      else if s == "dark" then Some(Dark)
      else None
  }

  /** Every mode's name parses back to that mode. */
  lemma ParseModeName(m: Mode)
    ensures ParseMode(Some(ModeName(m))) == Some(m)
  {
  }

  /** The switch's next mode: system, then light, then dark, then system. */
  function NextMode(m: Mode): (next: Mode)
    ensures next != m
    ensures m == System ==> next == Light
    ensures m == Light ==> next == Dark
  {
    match m
    case System => Light
    case Light => Dark
    case Dark => System
  }

  /** Three presses return to the start, passing through every mode. */
  lemma NextModeCycles(m: Mode)
    ensures NextMode(NextMode(NextMode(m))) == m
    ensures {m, NextMode(m), NextMode(NextMode(m))} == {System, Light, Dark}
  {
  }

  /** The switch's current mode: the optimistic value, else the stored
      preference, else system. */
  function DisplayedMode(optimistic: Option<Mode>, preference: Option<Scheme>): (mode: Mode)
    ensures optimistic.Some? ==> mode == optimistic.value
    ensures optimistic.None? && preference.Some? ==> mode == preference.value
    ensures optimistic.None? && preference.None? ==> mode == System
  {
    if optimistic.Some? then optimistic.value
    else if preference.Some? then preference.value
    else System
  }

  /** `useTheme`: an optimistic `system` means the client hint, any other
      optimistic value is used as it is; without one, the stored preference,
      else the client hint. */
  function UseTheme(optimistic: Option<Mode>, preference: Option<Scheme>, hint: Scheme): (theme: Scheme)
    ensures optimistic == Some(System) ==> theme == hint
    ensures optimistic.Some? && optimistic.value != System ==> theme == optimistic.value
    ensures optimistic.None? ==> theme == if preference.Some? then preference.value else hint
  {
    match optimistic
    case Some(m) => if m == System then hint else m
    case None => if preference.Some? then preference.value else hint
  }

  /** What a mode shows, given the client hint. */
  function SchemeOf(m: Mode, hint: Scheme): (s: Scheme)
    ensures m != System ==> s == m
  {
    if m == System then hint else m
  }

  /** The page's theme agrees with the switch: it is the displayed mode with
      `system` read as the client hint. */
  lemma {:induction false} ThemeMatchesSwitch(optimistic: Option<Mode>, preference: Option<Scheme>, hint: Scheme)
    ensures UseTheme(optimistic, preference, hint) == SchemeOf(DisplayedMode(optimistic, preference), hint)
  {
    match optimistic
    case Some(m) =>
    case None =>
      if preference.Some? {
        assert DisplayedMode(optimistic, preference) == preference.value;
      }
  }

  /** A pending fetcher: the action it posts to and, while submitting, its form fields. */
  datatype Fetcher = Fetcher(formAction: Option<string>, formData: Option<map<string, string>>)

  /** `fetchers.find(f => f.formAction === '/')`: the first such position. */
  function FindRootFetcher(fetchers: seq<Fetcher>): (r: Option<nat>)
    ensures r.Some? ==> r.value < |fetchers| && fetchers[r.value].formAction == Some("/")
    ensures r.Some? ==> forall j :: 0 <= j < r.value ==> fetchers[j].formAction != Some("/")
    ensures r.None? <==> forall j :: 0 <= j < |fetchers| ==> fetchers[j].formAction != Some("/")
  {
    if fetchers == [] then None
    else if fetchers[0].formAction == Some("/") then Some(0)
    else match FindRootFetcher(fetchers[1..])
      case None => None
      case Some(k) => Some(k + 1)
  }

  /** Position `i` holds the first fetcher posting to "/". */
  predicate IsFirstRoot(fetchers: seq<Fetcher>, i: int)
  {
    0 <= i < |fetchers| && fetchers[i].formAction == Some("/") &&
    forall j :: 0 <= j < i ==> fetchers[j].formAction != Some("/")
  }

  /** `find` returns the one position that holds the first such fetcher. */
  lemma FirstRootFound(fetchers: seq<Fetcher>)
    ensures forall i :: IsFirstRoot(fetchers, i) ==> FindRootFetcher(fetchers) == Some(i)
  {
  }

  /** `useOptimisticThemeMode`: the theme being submitted by the first
      fetcher posting to "/", if that fetcher carries form data and the
      theme parses; only that first fetcher is looked at. */
  function OptimisticMode(fetchers: seq<Fetcher>): (m: Option<Mode>)
    ensures m.Some? ==>
              exists i :: IsFirstRoot(fetchers, i) &&
                          fetchers[i].formData.Some? && "theme" in fetchers[i].formData.value &&
                          ModeName(m.value) == fetchers[i].formData.value["theme"]
    ensures forall i :: IsFirstRoot(fetchers, i) &&
                        fetchers[i].formData.Some? && "theme" in fetchers[i].formData.value ==>
                          m == ParseMode(Some(fetchers[i].formData.value["theme"]))
    ensures (forall i :: 0 <= i < |fetchers| ==> fetchers[i].formAction != Some("/")) ==> m == None
  {
    FirstRootFound(fetchers);
    match FindRootFetcher(fetchers)
    case None => None
    case Some(i) =>
      var f := fetchers[i];
      if f.formData.None? then None
      else ParseMode(if "theme" in f.formData.value then Some(f.formData.value["theme"]) else None)
  }

  /** A later fetcher is never consulted when the first one posting to "/"
      has no form data. */
  lemma FirstRootFetcherDecides(first: Fetcher, rest: seq<Fetcher>)
    requires first.formAction == Some("/") && first.formData.None?
    ensures OptimisticMode([first] + rest) == None
  {
    assert ([first] + rest)[0] == first;
  }

  // ---------------------------------------------------------------------
  // The theme action and the title
  // ---------------------------------------------------------------------

  datatype ThemeForm = ThemeForm(intent: string, theme: Option<string>)

  /** Idle (200), invalid (400), or the mode to store with a set-cookie header. */
  datatype ThemeResponse = ThemeIdle | ThemeInvalid | ThemeSaved(mode: Mode)

  function ThemeStatus(r: ThemeResponse): (code: nat)
    ensures code == 400 <==> r.ThemeInvalid?
    ensures code == 200 <==> !r.ThemeInvalid?
  {
    if r.ThemeInvalid? then 400 else 200
  }

  function ThemeAction(form: ThemeForm): (r: ThemeResponse)
    ensures r.ThemeIdle? <==> form.intent != "submit"
    ensures r.ThemeInvalid? <==> form.intent == "submit" && ParseMode(form.theme).None?
    ensures r.ThemeSaved? ==> Some(ModeName(r.mode)) == form.theme
  {
    if form.intent != "submit" then ThemeIdle
    else match ParseMode(form.theme)
      case None => ThemeInvalid
      case Some(m) => ThemeSaved(m)
  }

  /** The document title: "shrnq" when the loader produced data, else an error title. */
  function Title(hasLoaderData: bool): (title: string)
    ensures hasLoaderData <==> title == "shrnq"
    ensures !hasLoaderData ==> title == "Error | shrnq"
  {
    if hasLoaderData then "shrnq" else "Error | shrnq"
  }
}
