/**
 * The site-wide light/dark theme controller (`ThemeProvider`).
 *
 * The provider's state is the current theme, a `mounted` flag, the
 * persisted `"theme"` storage key, the host's dark-mode preference, the
 * `isSystemTheme` flag as last rendered and whether the preference listener
 * is subscribed. Every transition is first given as a function on a
 * `Snapshot`; the class `ThemeProvider` at the end holds the same six
 * things as fields and its methods are proved to perform exactly those
 * transitions.
 *
 * The current theme is a `string`, not a `Theme`: the stored value is cast
 * to the theme type without validation, so any non-empty stored string
 * becomes the theme.
 */
module ThemeContext {
  import opened Optional

  /** The two appearance modes. */
  datatype Theme = Light | Dark {
    /** The string the provider stores and compares for this mode. */
    function Name(): (s: string)
      ensures s != ""
      ensures s == "light" <==> this == Light
      ensures s == "dark" <==> this == Dark
    {
      match this
      case Light => "light"
      case Dark => "dark"
    }
  }

  /** The mode a string names, if it names one. */
  function Parse(s: string): (r: Option<Theme>)
    ensures r.Some? ==> r.value.Name() == s
    ensures forall t: Theme :: t.Name() == s ==> r == Some(t)
  {
    if s == "light" then Some(Light) else if s == "dark" then Some(Dark) else None
  }

  predicate IsTheme(s: string) {
    Parse(s).Some?
  }

  /** What `getSystemTheme` can see: no window at all (rendering on the
      server), or a window whose `prefers-color-scheme: dark` query matches
      or not. */
  datatype Host = NoWindow | Window(prefersDark: bool)

  /** `getSystemTheme`: dark exactly when there is a window and it prefers dark. */
  function SystemTheme(h: Host): (t: Theme)
    ensures t == Dark <==> h == Window(true)
    ensures h.NoWindow? ==> t == Light
  {
    if h.Window? && h.prefersDark then Dark else Light
  }

  /** JavaScript truthiness of `localStorage.getItem("theme")`: both a
      missing key (`null`) and the empty string are falsy. */
  function HasOverride(saved: Option<string>): (r: bool)
    ensures r <==> saved != None && saved != Some("")
  {
    saved.Some? && saved.value != ""
  }

  /** The theme the provider settles on for a given storage value and host
      preference: a truthy stored value wins, otherwise the system theme. */
  function Resolved(saved: Option<string>, prefersDark: bool): (r: string)
    ensures HasOverride(saved) ==> r == saved.value
    ensures !HasOverride(saved) ==> IsTheme(r) && (r == "dark" <==> prefersDark)
  {
    if HasOverride(saved) then saved.value else SystemTheme(Window(prefersDark)).Name()
  }

  /** The theme `toggleTheme` switches to: anything other than exactly
      `"light"` toggles to light. */
  function Toggled(current: string): (t: Theme)
    ensures t == Dark <==> current == "light"
  {
    if current == "light" then Dark else Light
  }

  /** One entry of the `colorSystem` table. */
  datatype Palette = Palette(
    background: string,
    border: string,
    shadow: string,
    textPrimary: string,
    textSecondary: string,
    accent: string,
    controlBg: string,
    pageBackground: string)

  const ColorSystem: map<Theme, Palette> := map[
    Light := Palette(
      "rgba(255, 255, 255, 0.80)",
      "rgba(0, 0, 0, 0.08)",
      "rgba(0, 0, 0, 0.12)",
      "#1D1D1F",
      "rgba(60, 60, 67, 0.85)",
      "#007AFF",
      "rgba(0, 0, 0, 0.05)",
      "#F2F2F7"),
    Dark := Palette(
      "rgba(28, 28, 30, 0.85)",
      "rgba(255, 255, 255, 0.12)",
      "rgba(0, 0, 0, 0.35)",
      "#F2F2F7",
      "rgba(235, 235, 245, 0.65)",
      "#0A84FF",
      "rgba(255, 255, 255, 0.08)",
      "#000000")
  ]

  /** The table is total over both modes and gives them different palettes. */
  lemma ColorSystemTotal()
    ensures forall t: Theme :: t in ColorSystem
    ensures ColorSystem[Light] != ColorSystem[Dark]
  {
    forall t: Theme ensures t in ColorSystem {
      if t == Light {
        assert Light in ColorSystem;
      } else {
        assert Dark in ColorSystem;
      }
    }
    assert ColorSystem[Light].accent[2] != ColorSystem[Dark].accent[2];
  }

  /** `colorSystem[name]` indexed by the current theme string, over the
      table's own two keys: defined exactly when the string names a mode. */
  function Colors(name: string): (p: Option<Palette>)
    ensures p.Some? <==> IsTheme(name)
    ensures p.Some? ==> p.value == ColorSystem[Parse(name).value]
  {
    match Parse(name)
    case Some(t) => Some(ColorSystem[t])
    case None => None
  }

  // ---------------------------------------------------------------------
  // The provider's state and its transitions as functions

  /** The provider's state: its two React state variables, the storage
      key, the host's preference, the `isSystemTheme` flag as the last
      render computed it and the context hands it out, and whether the
      media-query listener is subscribed. */
  datatype Snapshot = Snapshot(
    theme: string,
    isMounted: bool,
    saved: Option<string>,
    prefersDark: bool,
    isSystemTheme: bool,
    listening: bool)

  /** The `isSystemTheme` expression evaluated on a state, which is what the
      next render provides: true before mounting, afterwards true exactly
      when no truthy key is stored. */
  function SystemThemeFlag(s: Snapshot): (r: bool)
    ensures r <==> !s.isMounted || s.saved == None || s.saved == Some("")
  {
    if s.isMounted then !HasOverride(s.saved) else true
  }

  /** React renders again only when a state setter changed `theme` or
      `isMounted` (a setter given the current value is skipped, and a storage
      write never renders); that render re-evaluates the flag on the storage
      of that moment. Otherwise the provided flag stays as it was. */
  function Rendered(before: Snapshot, after: Snapshot): Snapshot {
    if after.theme != before.theme || after.isMounted != before.isMounted
    then after.(isSystemTheme := SystemThemeFlag(after))
    else after.(isSystemTheme := before.isSystemTheme)
  }

  /** The state when the provider first renders: theme `"light"`, not
      mounted, so the flag is true, and no listener yet. */
  function Start(saved: Option<string>, prefersDark: bool): (r: Snapshot)
    ensures r.theme == "light" && !r.isMounted && r.isSystemTheme && !r.listening
    ensures r.saved == saved && r.prefersDark == prefersDark
  {
    Snapshot("light", false, saved, prefersDark, true, false)
  }

  /** The mount effect: adopt the stored value or the system theme. The
      first mount always renders, with the flag read from that storage. It
      only queues `isMounted`; the listener is subscribed by a later run of
      the listener effect (`Subscribed`). */
  function Initialized(s: Snapshot): (r: Snapshot)
    ensures r.isMounted && r.theme == Resolved(s.saved, s.prefersDark)
    ensures r.saved == s.saved && r.prefersDark == s.prefersDark && r.listening == s.listening
    ensures !s.isMounted ==> r.isSystemTheme == !HasOverride(s.saved)
    ensures s.isMounted && r.theme == s.theme ==> r.isSystemTheme == s.isSystemTheme
  {
    Rendered(s, s.(theme := Resolved(s.saved, s.prefersDark), isMounted := true))
  }

  /** The storage half of the apply-theme effect: once mounted, rewrite the
      key with the theme, but only when the key is present (`!== null`). */
  function Applied(s: Snapshot): (r: Snapshot)
    ensures r.theme == s.theme && r.isMounted == s.isMounted && r.prefersDark == s.prefersDark
    ensures r.isSystemTheme == s.isSystemTheme && r.listening == s.listening
    ensures r.saved == if s.isMounted && s.saved != None then Some(s.theme) else s.saved
  {
    if s.isMounted && s.saved.Some? then s.(saved := Some(s.theme)) else s
  }

  /** `toggleTheme`: switch and persist. The theme always changes, so a
      render follows and sees the new key. */
  function Toggle(s: Snapshot): (r: Snapshot)
    ensures IsTheme(r.theme) && r.theme != s.theme && r.theme == Toggled(s.theme).Name()
    ensures r.saved == Some(r.theme)
    ensures r.isMounted == s.isMounted && r.prefersDark == s.prefersDark && r.listening == s.listening
    ensures r.isSystemTheme == !s.isMounted
  {
    var t := Toggled(s.theme).Name();
    Rendered(s, s.(theme := t, saved := Some(t)))
  }

  /** `resetToSystemTheme`: drop the key and re-read the host. */
  function ResetToSystem(s: Snapshot): (r: Snapshot)
    ensures r.saved == None && IsTheme(r.theme) && (r.theme == "dark" <==> s.prefersDark)
    ensures r.isMounted == s.isMounted && r.prefersDark == s.prefersDark && r.listening == s.listening
    ensures r.theme != s.theme ==> r.isSystemTheme
    ensures r.theme == s.theme ==> r.isSystemTheme == s.isSystemTheme
  {
    Rendered(s, s.(saved := None, theme := SystemTheme(Window(s.prefersDark)).Name()))
  }

  /** The `setTheme` the context hands out: set and persist. */
  function SetTo(s: Snapshot, t: Theme): (r: Snapshot)
    ensures Parse(r.theme) == Some(t) && r.saved == Some(r.theme)
    ensures r.isMounted == s.isMounted && r.prefersDark == s.prefersDark && r.listening == s.listening
    ensures s.theme != t.Name() ==> r.isSystemTheme == !s.isMounted
    ensures s.theme == t.Name() ==> r.isSystemTheme == s.isSystemTheme
  {
    Rendered(s, s.(theme := t.Name(), saved := Some(t.Name())))
  }

  /** The listener effect: it returns early while the `isMounted` it sees is
      false, and otherwise subscribes the preference listener. It sets no
      state, so nothing renders. */
  function Subscribed(s: Snapshot): (r: Snapshot)
    ensures r.listening == s.isMounted
    ensures r == s.(listening := s.isMounted)
  {
    s.(listening := s.isMounted)
  }

  /** The host's preference changes. Only a subscribed listener sees the
      event, and it follows it only while no truthy key is stored. */
  function PreferenceChanged(s: Snapshot, matches: bool): (r: Snapshot)
    ensures r.prefersDark == matches && r.saved == s.saved && r.isMounted == s.isMounted
    ensures r.listening == s.listening
    ensures s.listening && !HasOverride(s.saved) ==> IsTheme(r.theme) && (r.theme == "dark" <==> matches)
    ensures !s.listening || HasOverride(s.saved) ==> r.theme == s.theme
    ensures r.theme != s.theme ==> r.isSystemTheme
    ensures r.theme == s.theme ==> r.isSystemTheme == s.isSystemTheme
  {
    Rendered(s, s.(prefersDark := matches,
                   theme := if s.listening && !HasOverride(s.saved)
                            then (if matches then Dark else Light).Name()
                            else s.theme))
  }

  datatype Event =
    | Initialize
    | Apply
    | ToggleTheme
    | Reset
    | Set(t: Theme)
    | Subscribe
    | HostChange(matches: bool)

  function Step(s: Snapshot, e: Event): Snapshot {
    match e
    case Initialize => Initialized(s)
    case Apply => Applied(s)
    case ToggleTheme => Toggle(s)
    case Reset => ResetToSystem(s)
    case Set(t) => SetTo(s, t)
    case Subscribe => Subscribed(s)
    case HostChange(m) => PreferenceChanged(s, m)
  }

  /** The state after a sequence of events, in any order the browser and the
      user produce them. */
  function Run(s: Snapshot, es: seq<Event>): Snapshot
    decreases |es|
  {
    if es == [] then s else Run(Step(s, es[0]), es[1..])
  }

  // ---------------------------------------------------------------------
  // Properties of the single transitions

  /** A stored string that is neither mode is adopted as the theme. */
  lemma UnvalidatedValueAdopted(saved: Option<string>, prefersDark: bool)
    requires HasOverride(saved) && !IsTheme(saved.value)
    ensures Initialized(Start(saved, prefersDark)).theme == saved.value
    ensures !IsTheme(Initialized(Start(saved, prefersDark)).theme)
    ensures Colors(Initialized(Start(saved, prefersDark)).theme) == None
  {
  }

  /** The context's `setTheme(t)`: theme and key become `t`, so the next
      render reports a manual theme exactly when mounted; a call that changes
      the theme is that render. Repeating the call changes nothing. */
  lemma SetThemeOverrides(s: Snapshot, t: Theme)
    ensures SetTo(s, t).theme == t.Name() && SetTo(s, t).saved == Some(t.Name())
    ensures SystemThemeFlag(SetTo(s, t)) <==> !s.isMounted
    ensures s.theme != t.Name() ==> SetTo(s, t).isSystemTheme == SystemThemeFlag(SetTo(s, t))
    ensures SetTo(SetTo(s, t), t) == SetTo(s, t)
  {
  }

  /** Setting the theme it already has renders nothing: a provided flag
      that said "system" keeps saying so although a real key is now stored,
      and a later host change is ignored while the flag still says "system". */
  lemma SameValueSetKeepsStaleFlag(s: Snapshot, t: Theme, matches: bool)
    requires s.isMounted && s.theme == t.Name() && s.isSystemTheme
    ensures SetTo(s, t).isSystemTheme && !SystemThemeFlag(SetTo(s, t))
    ensures PreferenceChanged(SetTo(s, t), matches).theme == t.Name()
    ensures PreferenceChanged(SetTo(s, t), matches).isSystemTheme
  {
  }

  /** A concrete run: no key, the host prefers dark; the user picks the dark
      mode already shown, then the host switches to light. The theme stays
      dark while the provided flag still says it follows the system. */
  lemma StaleFlagScenario()
    ensures var f := Run(Start(None, true), [Initialize, Subscribe, Apply, Set(Dark), HostChange(false)]);
      f.isSystemTheme && f.theme == "dark" && !f.prefersDark && f.saved == Some("dark")
  {
  }

  /** The render rule over every event: when the theme or the mounted flag
      changes, the provided flag is the fresh value of the expression;
      otherwise it is the old one. */
  lemma RenderRule(s: Snapshot, e: Event)
    ensures Step(s, e).theme != s.theme || Step(s, e).isMounted != s.isMounted ==>
      Step(s, e).isSystemTheme == SystemThemeFlag(Step(s, e))
    ensures Step(s, e).theme == s.theme && Step(s, e).isMounted == s.isMounted ==>
      Step(s, e).isSystemTheme == s.isSystemTheme
  {
  }

  /** `toggleTheme` swaps the two modes and persists the result, and any other
      theme string toggles to light. */
  lemma ToggleSwaps(s: Snapshot)
    ensures s.theme == "light" ==> Toggle(s).theme == "dark"
    ensures s.theme != "light" ==> Toggle(s).theme == "light"
    ensures Toggle(s).saved == Some(Toggle(s).theme)
    ensures Toggle(s).isMounted == s.isMounted && Toggle(s).prefersDark == s.prefersDark
  {
  }

  /** Toggling twice restores a valid theme and leaves it stored; an invalid
      theme string ends up as dark instead. */
  lemma ToggleTwice(s: Snapshot)
    ensures IsTheme(s.theme) ==> Toggle(Toggle(s)) == s.(saved := Some(s.theme), isSystemTheme := !s.isMounted)
    ensures !IsTheme(s.theme) ==> Toggle(Toggle(s)).theme == "dark"
  {
  }

  /** `resetToSystemTheme` removes the key and follows the host, so the next
      render reports the system theme; a reset that changes the theme is that
      render, one that does not leaves the provided flag as it was. Apart from
      that flag, whatever was set before is lost. */
  lemma ResetFollowsSystem(s: Snapshot, t: Theme)
    ensures ResetToSystem(s).saved == None
    ensures ResetToSystem(s).theme == SystemTheme(Window(s.prefersDark)).Name()
    ensures SystemThemeFlag(ResetToSystem(s))
    ensures ResetToSystem(s).theme != s.theme ==> ResetToSystem(s).isSystemTheme
    ensures ResetToSystem(s).theme == s.theme ==> ResetToSystem(s).isSystemTheme == s.isSystemTheme
    ensures ResetToSystem(SetTo(s, t)).(isSystemTheme := true) == ResetToSystem(s).(isSystemTheme := true)
  {
  }

  /** The apply effect never creates a key: the key is present afterwards
      exactly when it was before, and then it holds the theme. It is
      idempotent and leaves the theme alone. */
  lemma ApplyNeverCreatesOverride(s: Snapshot)
    ensures Applied(s).saved.None? <==> s.saved.None?
    ensures Applied(s).theme == s.theme && Applied(s).isMounted == s.isMounted
    ensures s.isMounted && s.saved.Some? ==> Applied(s).saved == Some(s.theme)
    ensures !s.isMounted ==> Applied(s) == s
    ensures Applied(Applied(s)) == Applied(s)
  {
  }

  /** An empty stored string counts as absent everywhere except in the apply
      effect, which overwrites it with the theme, turning it into a real
      override. No render follows the write, so the provided flag keeps the
      value it had. */
  lemma EmptyKeyBecomesOverride(s: Snapshot)
    requires s.isMounted && s.saved == Some("") && IsTheme(s.theme)
    ensures SystemThemeFlag(s)
    ensures HasOverride(Applied(s).saved) && !SystemThemeFlag(Applied(s))
    ensures Applied(s).isSystemTheme == s.isSystemTheme
  {
  }

  // ---------------------------------------------------------------------
  // "A persisted key overrides the system preference"

  /** What holds in every reachable state: a listener only exists once
      mounted, and once mounted a truthy stored value is the theme, and
      otherwise the theme is some mode. */
  predicate Consistent(s: Snapshot) {
    (s.listening ==> s.isMounted) &&
    (s.isMounted && HasOverride(s.saved) ==> s.theme == s.saved.value) &&
    (s.isMounted && !HasOverride(s.saved) ==> IsTheme(s.theme))
  }

  /** The stronger rule: once mounted, the theme is what initialisation
      would choose from the current storage and preference, the truthy
      stored value, else the system theme. */
  predicate Coherent(s: Snapshot) {
    (s.listening ==> s.isMounted) &&
    (s.isMounted ==> s.theme == Resolved(s.saved, s.prefersDark))
  }

  /** A host change that nobody hears: the mount effect has read the
      preference, but the listener effect has not yet subscribed. */
  predicate Missed(s: Snapshot, e: Event) {
    e.HostChange? && s.isMounted && !s.listening
  }

  /** No host change of the run falls into that gap. */
  predicate NoneMissed(s: Snapshot, es: seq<Event>)
    decreases |es|
  {
    es == [] || (!Missed(s, es[0]) && NoneMissed(Step(s, es[0]), es[1..]))
  }

  lemma CoherentIsConsistent(s: Snapshot)
    requires Coherent(s)
    ensures Consistent(s)
  {
  }

  lemma StepKeepsConsistent(s: Snapshot, e: Event)
    requires Consistent(s)
    ensures Consistent(Step(s, e))
  {
  }

  lemma {:induction false} RunKeepsConsistent(s: Snapshot, es: seq<Event>)
    requires Consistent(s)
    ensures Consistent(Run(s, es))
    decreases |es|
  {
    if es != [] {
      StepKeepsConsistent(s, es[0]);
      RunKeepsConsistent(Step(s, es[0]), es[1..]);
    }
  }

  lemma StepKeepsCoherent(s: Snapshot, e: Event)
    requires Coherent(s) && !Missed(s, e)
    ensures Coherent(Step(s, e))
  {
  }

  /** A missed change keeps the rule exactly when a truthy key decides the
      theme anyway or the preference did not really change. */
  lemma MissedChangeBreaksCoherent(s: Snapshot, matches: bool)
    requires Coherent(s) && Missed(s, HostChange(matches))
    ensures Coherent(PreferenceChanged(s, matches)) <==> HasOverride(s.saved) || matches == s.prefersDark
  {
  }

  lemma {:induction false} RunKeepsCoherent(s: Snapshot, es: seq<Event>)
    requires Coherent(s) && NoneMissed(s, es)
    ensures Coherent(Run(s, es))
    decreases |es|
  {
    if es != [] {
      StepKeepsCoherent(s, es[0]);
      RunKeepsCoherent(Step(s, es[0]), es[1..]);
    }
  }

  /** No key, the host prefers light; the host turns dark after the mount
      effect and before the listener subscribes. The provider ends mounted
      and listening, showing light while the host prefers dark and the flag
      says it follows the system. */
  lemma LostChangeScenario()
    ensures var f := Run(Start(None, false), [Initialize, HostChange(true), Subscribe, Apply]);
      f.isMounted && f.listening && f.theme == "light" && f.prefersDark &&
      f.saved == None && f.isSystemTheme && SystemThemeFlag(f) && !Coherent(f)
  {
  }

  /** From the initial state, whatever happens, once mounted: when the next
      render would not report a system theme, the theme is the stored value,
      and a host preference change leaves it in place; when it would, the
      theme is a mode, and it is the host's preference unless a host change
      fell between the mount effect and the subscription. (The flag already
      provided may lag; see `SameValueSetKeepsStaleFlag`.) */
  lemma {:induction false} OverrideWins(saved: Option<string>, prefersDark: bool, es: seq<Event>, matches: bool)
    ensures var s := Run(Start(saved, prefersDark), es);
      (s.isMounted && !SystemThemeFlag(s) ==>
        s.theme == s.saved.value && PreferenceChanged(s, matches).theme == s.saved.value) &&
      (s.isMounted && SystemThemeFlag(s) ==> IsTheme(s.theme)) &&
      (NoneMissed(Start(saved, prefersDark), es) && s.isMounted && SystemThemeFlag(s) ==>
        s.theme == SystemTheme(Window(s.prefersDark)).Name())
  {
    RunKeepsConsistent(Start(saved, prefersDark), es);
    if NoneMissed(Start(saved, prefersDark), es) {
      RunKeepsCoherent(Start(saved, prefersDark), es);
    }
  }

  // ---------------------------------------------------------------------
  // The theme stays a mode

  /** A storage value that cannot smuggle in a non-mode theme: absent, empty
      or one of the two mode names. */
  predicate SafeStored(saved: Option<string>) {
    saved.None? || saved.value == "" || IsTheme(saved.value)
  }

  predicate Safe(s: Snapshot) {
    SafeStored(s.saved) && IsTheme(s.theme)
  }

  /** Every value that changes the key is a mode name: toggle and set write
      one, and the apply effect writes the theme, which is a mode whenever
      that write changes the key. Reset only removes the key. */
  lemma WritesAreModes(s: Snapshot, e: Event)
    requires Consistent(s)
    requires Step(s, e).saved.Some? && Step(s, e).saved != s.saved
    ensures IsTheme(Step(s, e).saved.value)
  {
  }

  lemma StepKeepsSafe(s: Snapshot, e: Event)
    requires Safe(s)
    ensures Safe(Step(s, e))
  {
  }

  lemma {:induction false} RunKeepsSafe(s: Snapshot, es: seq<Event>)
    requires Safe(s)
    ensures Safe(Run(s, es))
    decreases |es|
  {
    if es != [] {
      StepKeepsSafe(s, es[0]);
      RunKeepsSafe(Step(s, es[0]), es[1..]);
    }
  }

  /** If storage starts absent, empty or holding a mode name, the theme is a
      mode after every sequence of events, so the colour lookup is defined. */
  lemma {:induction false} ThemeStaysMode(saved: Option<string>, prefersDark: bool, es: seq<Event>)
    requires SafeStored(saved)
    ensures IsTheme(Run(Start(saved, prefersDark), es).theme)
    ensures Colors(Run(Start(saved, prefersDark), es).theme).Some?
  {
    RunKeepsSafe(Start(saved, prefersDark), es);
  }

  // ---------------------------------------------------------------------
  // The provider as an object

  /** `ThemeProvider`, with `localStorage["theme"]` and the media query
      held as plain fields. */
  class ThemeProvider {
    var theme: string
    var isMounted: bool
    var saved: Option<string>
    var prefersDark: bool
    /** The flag the last render handed out through the context. */
    var isSystemTheme: bool
    /** Whether the media-query listener is subscribed. */
    var listening: bool

    function State(): Snapshot
      reads this
    {
      Snapshot(theme, isMounted, saved, prefersDark, isSystemTheme, listening)
    }

    /** The weak override rule holds of the object at all times; the strong
        one (`Coherent`) is kept by every method but a missed host change. */
    predicate Ok()
      reads this
    {
      Consistent(State())
    }

    constructor (saved0: Option<string>, prefersDark0: bool)
      ensures State() == Start(saved0, prefersDark0)
      ensures theme == "light" && !isMounted && isSystemTheme && !listening
      ensures Ok() && Coherent(State())
    {
      theme := "light";
      isMounted := false;
      saved := saved0;
      prefersDark := prefersDark0;
      isSystemTheme := true;
      listening := false;
    }

    /** The mount effect. */
    method Initialize()
      requires Ok()
      modifies this
      ensures Ok()
      ensures old(Coherent(State())) ==> Coherent(State())
      ensures State() == Initialized(old(State()))
      ensures isMounted && theme == Resolved(saved, prefersDark)
      ensures saved == old(saved) && prefersDark == old(prefersDark)
      ensures !old(isMounted) ==> isSystemTheme == !HasOverride(saved)
    {
      var theme0, mounted0 := theme, isMounted;
      var initial := if HasOverride(saved) then saved.value else SystemTheme(Window(prefersDark)).Name();
      theme := initial;
      isMounted := true;
      if theme != theme0 || isMounted != mounted0 {
        isSystemTheme := SystemThemeFlag(State());
      }
      StepKeepsConsistent(old(State()), Event.Initialize);
      if old(Coherent(State())) {
        StepKeepsCoherent(old(State()), Event.Initialize);
      }
    }

    /** The storage part of the apply-theme effect. */
    method ApplyTheme()
      requires Ok()
      modifies this
      ensures Ok()
      ensures old(Coherent(State())) ==> Coherent(State())
      ensures State() == Applied(old(State()))
      ensures theme == old(theme) && isMounted == old(isMounted) && prefersDark == old(prefersDark)
      ensures saved == if old(isMounted) && old(saved).Some? then Some(theme) else old(saved)
      ensures isSystemTheme == old(isSystemTheme)
    {
      if isMounted {
        if saved != None {
          saved := Some(theme);
        }
      }
      StepKeepsConsistent(old(State()), Event.Apply);
      if old(Coherent(State())) {
        StepKeepsCoherent(old(State()), Event.Apply);
      }
    }

    method ToggleTheme()
      requires Ok()
      modifies this
      ensures Ok()
      ensures old(Coherent(State())) ==> Coherent(State())
      ensures State() == Toggle(old(State()))
      ensures theme == (if old(theme) == "light" then "dark" else "light") && saved == Some(theme)
      ensures isMounted == old(isMounted) && prefersDark == old(prefersDark)
      ensures isSystemTheme == !isMounted
    {
      var theme0, mounted0 := theme, isMounted;
      var newTheme := if theme == "light" then "dark" else "light";
      theme := newTheme;
      saved := Some(newTheme);
      if theme != theme0 || isMounted != mounted0 {
        isSystemTheme := SystemThemeFlag(State());
      }
      StepKeepsConsistent(old(State()), Event.ToggleTheme);
      if old(Coherent(State())) {
        StepKeepsCoherent(old(State()), Event.ToggleTheme);
      }
    }

    method ResetToSystemTheme()
      requires Ok()
      modifies this
      ensures Ok()
      ensures old(Coherent(State())) ==> Coherent(State())
      ensures State() == ResetToSystem(old(State()))
      ensures saved == None && theme == SystemTheme(Window(prefersDark)).Name()
      ensures isMounted == old(isMounted) && prefersDark == old(prefersDark)
      ensures isSystemTheme == (theme != old(theme) || old(isSystemTheme))
    {
      var theme0, mounted0 := theme, isMounted;
      saved := None;
      theme := SystemTheme(Window(prefersDark)).Name();
      if theme != theme0 || isMounted != mounted0 {
        isSystemTheme := SystemThemeFlag(State());
      }
      StepKeepsConsistent(old(State()), Event.Reset);
      if old(Coherent(State())) {
        StepKeepsCoherent(old(State()), Event.Reset);
      }
    }

    /** The `setTheme` handed out through the context. */
    method SetTheme(newTheme: Theme)
      requires Ok()
      modifies this
      ensures Ok()
      ensures old(Coherent(State())) ==> Coherent(State())
      ensures State() == SetTo(old(State()), newTheme)
      ensures theme == newTheme.Name() && saved == Some(newTheme.Name())
      ensures isMounted == old(isMounted) && prefersDark == old(prefersDark)
      ensures isSystemTheme == if theme != old(theme) then !isMounted else old(isSystemTheme)
    {
      var theme0, mounted0 := theme, isMounted;
      theme := newTheme.Name();
      saved := Some(newTheme.Name());
      if theme != theme0 || isMounted != mounted0 {
        isSystemTheme := SystemThemeFlag(State());
      }
      StepKeepsConsistent(old(State()), Event.Set(newTheme));
      if old(Coherent(State())) {
        StepKeepsCoherent(old(State()), Event.Set(newTheme));
      }
    }

    /** The listener effect: subscribe once mounted. */
    method SubscribeListener()
      requires Ok()
      modifies this
      ensures Ok()
      ensures old(Coherent(State())) ==> Coherent(State())
      ensures State() == Subscribed(old(State()))
      ensures listening == isMounted
      ensures theme == old(theme) && isMounted == old(isMounted) && saved == old(saved)
      ensures prefersDark == old(prefersDark) && isSystemTheme == old(isSystemTheme)
    {
      if !isMounted {
        listening := false;
        return;
      }
      listening := true;
    }

    /** The host's `change` event on the media query; it reaches the
        provider only through a subscribed listener. */
    method HostPreferenceChanged(matches: bool)
      requires Ok()
      modifies this
      ensures Ok()
      ensures old(Coherent(State())) && !Missed(old(State()), Event.HostChange(matches)) ==> Coherent(State())
      ensures State() == PreferenceChanged(old(State()), matches)
      ensures prefersDark == matches && saved == old(saved) && isMounted == old(isMounted)
      ensures theme == if old(listening) && !HasOverride(old(saved))
                       then SystemTheme(Window(matches)).Name() else old(theme)
      ensures isSystemTheme == (theme != old(theme) || old(isSystemTheme))
    {
      var theme0, mounted0 := theme, isMounted;
      prefersDark := matches;
      if listening {
        if !HasOverride(saved) {
          theme := if matches then "dark" else "light";
        }
      }
      if theme != theme0 || isMounted != mounted0 {
        isSystemTheme := SystemThemeFlag(State());
      }
      StepKeepsConsistent(old(State()), Event.HostChange(matches));
      if old(Coherent(State())) && !Missed(old(State()), Event.HostChange(matches)) {
        StepKeepsCoherent(old(State()), Event.HostChange(matches));
      }
    }
  }
}
