/** The light/dark theme holder (src/utils/theme.ts).

    The browser's `localStorage` entry "theme" is the field `stored`, the
    `(prefers-color-scheme: dark)` media query is the flag `systemDark`, and the
    document's `data-theme` attribute is the field `attribute`. The stored value is
    read back without validation, so a theme here is any string; only `setTheme`
    is typed to the two literals. */
module Theme {
  import opened Types

  type ThemeName = s: string | s == "light" || s == "dark" witness "light"

  /** The theme the media query asks for. */
  function SystemTheme(dark: bool): (r: ThemeName)
    ensures r == "dark" <==> dark
  {
    if dark then "dark" else "light"
  }

  /** `currentTheme === 'light' ? 'dark' : 'light'`. */
  function Toggled(t: string): (r: ThemeName)
    ensures r == "dark" <==> t == "light"
    ensures (t == "light" || t == "dark") ==> r != t
  {
    if t == "light" then "dark" else "light"
  }

  /** The whole state the theme holder reads and writes. */
  datatype ThemeState = ThemeState(current: string, stored: Option<string>, systemDark: bool, attribute: string)

  /** The document attribute shows the current theme. */
  predicate Mirrors(s: ThemeState) {
    s.attribute == s.current
  }

  /** An explicit choice is on record (`localStorage.getItem('theme')` is truthy). */
  predicate Chosen(s: ThemeState) {
    Truthy(s.stored)
  }

  /** State after the constructor: the stored value when truthy, else the system's. */
  function Init(saved: Option<string>, systemDark: bool): (r: ThemeState)
    ensures Mirrors(r) && r.stored == saved && r.systemDark == systemDark
    ensures Truthy(saved) ==> r.current == saved.value
    ensures !Truthy(saved) ==> r.current == SystemTheme(systemDark)
  {
    var t := if Truthy(saved) then saved.value else SystemTheme(systemDark);
    ThemeState(t, saved, systemDark, t)
  }

  function Toggle(s: ThemeState): (r: ThemeState)
    ensures Mirrors(r) && Chosen(r) && r.stored == Some(r.current) && r.systemDark == s.systemDark
    ensures (s.current == "light" || s.current == "dark") ==> r.current != s.current
  {
    var t := Toggled(s.current);
    s.(current := t, stored := Some(t), attribute := t)
  }

  function Set(s: ThemeState, t: ThemeName): (r: ThemeState)
    ensures Mirrors(r) && Chosen(r) && r.current == t && r.stored == Some(t) && r.systemDark == s.systemDark
  {
    s.(current := t, stored := Some(t), attribute := t)
  }

  /** The media-query change listener. */
  function SystemChange(s: ThemeState, matches: bool): (r: ThemeState)
    ensures r.systemDark == matches && r.stored == s.stored
    ensures Chosen(s) ==> r.current == s.current && r.attribute == s.attribute
    ensures !Chosen(s) ==> r.current == SystemTheme(matches) && Mirrors(r)
  {
    if Chosen(s) then s.(systemDark := matches)
    else
      var t := SystemTheme(matches);
      s.(current := t, systemDark := matches, attribute := t)
  }

  /** A run of media-query changes, in order. */
  function SystemChanges(s: ThemeState, events: seq<bool>): ThemeState
    decreases |events|
  {
    if events == [] then s else SystemChanges(SystemChange(s, events[0]), events[1..])
  }

  lemma InitialTheme(saved: Option<string>, systemDark: bool)
    ensures Truthy(saved) ==> Init(saved, systemDark).current == saved.value
    ensures !Truthy(saved) ==> Init(saved, systemDark).current == (if systemDark then "dark" else "light")
    ensures Init(saved, systemDark).stored == saved
  {
  }

  /** Every operation leaves the document attribute equal to the current theme. */
  lemma AttributeMirrorsCurrent(s: ThemeState, t: ThemeName, matches: bool, saved: Option<string>, dark: bool)
    ensures Mirrors(Init(saved, dark))
    ensures Mirrors(Toggle(s)) && Mirrors(Set(s, t))
    ensures Mirrors(s) ==> Mirrors(SystemChange(s, matches))
  {
  }

  lemma {:induction false} AttributeMirrorsAfterSystemChanges(s: ThemeState, events: seq<bool>)
    requires Mirrors(s)
    ensures Mirrors(SystemChanges(s, events))
    decreases |events|
  {
    if events != [] {
      AttributeMirrorsAfterSystemChanges(SystemChange(s, events[0]), events[1..]);
    }
  }

  /** Toggling records the new theme as the explicit choice. */
  lemma ToggleRecordsChoice(s: ThemeState)
    ensures Toggle(s).stored == Some(Toggle(s).current) && Chosen(Toggle(s))
    ensures Toggle(s).current == (if s.current == "light" then "dark" else "light")
  {
  }

  /** Two toggles from a proper theme come back to it, now stored. */
  lemma ToggleTwice(s: ThemeState)
    requires s.current == "light" || s.current == "dark"
    ensures Toggle(Toggle(s)).current == s.current
    ensures Toggle(Toggle(s)).stored == Some(s.current)
    ensures Toggle(Toggle(s)).systemDark == s.systemDark
  {
  }

  /** Setting a theme makes it both current and stored; setting it again changes nothing. */
  lemma SetIdempotent(s: ThemeState, t: ThemeName)
    ensures Set(s, t).current == t && Set(s, t).stored == Some(t) && Chosen(Set(s, t))
    ensures Set(Set(s, t), t) == Set(s, t)
  {
  }

  /** Once a choice is on record no media-query change alters the theme. */
  lemma {:induction false} ChoiceIgnoresSystem(s: ThemeState, events: seq<bool>)
    requires Chosen(s)
    ensures SystemChanges(s, events).current == s.current
    ensures SystemChanges(s, events).stored == s.stored
    ensures SystemChanges(s, events).attribute == s.attribute
    decreases |events|
  {
    if events != [] {
      ChoiceIgnoresSystem(SystemChange(s, events[0]), events[1..]);
    }
  }

  /** With nothing on record the theme follows the last media-query change. */
  lemma {:induction false} UnchosenFollowsSystem(s: ThemeState, events: seq<bool>)
    requires !Chosen(s) && events != []
    ensures SystemChanges(s, events).current == SystemTheme(events[|events| - 1])
    ensures !Chosen(SystemChanges(s, events))
    decreases |events|
  {
    if |events| > 1 {
      UnchosenFollowsSystem(SystemChange(s, events[0]), events[1..]);
    }
  }

  /** Starting with nothing stored, a toggle flips the system default, records it, and
      later system changes no longer move the theme. */
  lemma {:induction false} ToggleFromSystemDefault(dark: bool, events: seq<bool>)
    ensures Toggle(Init(None, dark)).current == SystemTheme(!dark)
    ensures SystemChanges(Toggle(Init(None, dark)), events).current == SystemTheme(!dark)
    ensures SystemChanges(Toggle(Init(None, dark)), events).stored == Some(SystemTheme(!dark))
  {
    ChoiceIgnoresSystem(Toggle(Init(None, dark)), events);
  }

  /** The theme holder object; its methods change the abstract state as the
      functions above say. */
  class ThemeManager {
    var currentTheme: string
    var stored: Option<string>
    var systemDark: bool
    var attribute: string

    function State(): ThemeState
      reads this
    {
      ThemeState(currentTheme, stored, systemDark, attribute)
    }

    ghost predicate Valid()
      reads this
    {
      Mirrors(State())
    }

    /** `saved` is what storage holds at start-up, `dark` what the media query reports. */
    constructor (saved: Option<string>, dark: bool)
      ensures Valid() && State() == Init(saved, dark)
    {
      stored := saved;
      systemDark := dark;
      var system := SystemTheme(dark);
      currentTheme := if Truthy(saved) then saved.value else system;
      attribute := currentTheme;
    }

    method GetTheme() returns (t: string)
      ensures t == currentTheme
    {
      t := currentTheme;
    }

    method ApplyTheme(t: string)
      modifies this
      ensures State() == old(State()).(current := t, attribute := t)
    {
      attribute := t;
      currentTheme := t;
    }

    method ToggleTheme()
      modifies this
      ensures Valid() && State() == Toggle(old(State()))
    {
      currentTheme := if currentTheme == "light" then "dark" else "light";
      stored := Some(currentTheme);
      ApplyTheme(currentTheme);
    }

    method SetTheme(t: ThemeName)
      modifies this
      ensures Valid() && State() == Set(old(State()), t)
    {
      currentTheme := t;
      stored := Some(t);
      ApplyTheme(t);
    }

    /** The media query's change listener, with the event's `matches`. */
    method OnSystemChange(matches: bool)
      requires Valid()
      modifies this
      ensures Valid() && State() == SystemChange(old(State()), matches)
    {
      systemDark := matches;
      if !Truthy(stored) {
        currentTheme := if matches then "dark" else "light";
        ApplyTheme(currentTheme);
      }
    }
  }
}
