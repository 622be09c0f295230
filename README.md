# Theme controller and splash sequencer of a portfolio website

This project models the two pieces of state logic in a personal portfolio
website built with React.

- **`ThemeProvider`** (module `ThemeContext`, `theme_context.dfy`) is the site-wide
  light/dark theme controller. It holds the current theme, a `mounted` flag,
  the persisted `"theme"` storage key (absent, or any string) and the
  host's dark-mode preference. Its transitions are the mount effect, the
  apply-theme effect, `toggleTheme`, `resetToSystemTheme`, the `setTheme`
  handed out through the context, the listener effect that subscribes to
  the host's preference, and the host's preference-change event.
  It also holds the `isSystemTheme` flag as the last render computed it,
  and whether the listener is subscribed.
  Each transition is a function on a `Snapshot` value. The class
  `ThemeProvider` holds the same six things as fields, and each of its
  methods is proved to perform exactly that transition. The central rule is
  the predicate `Coherent`: once mounted, the theme is the stored value when
  the key holds a non-empty string, and the system preference otherwise.
  Every transition preserves it, in any order of events, except a host
  change that arrives after the mount effect and before the listener
  subscribes. Such a change is lost, and the theme then stays off the host
  preference (`MissedChangeBreaksCoherent`, `LostChangeScenario`). The
  weaker rule `Consistent` survives everything: once mounted, a truthy
  stored value is the theme, and otherwise the theme is some mode.
- **`SplashScreen`** (module `Splash`, `splash_screen.dfy`) is the intro
  screen. It starts shown, in the `Loading` step, with two single-shot
  timeouts. At 2000 ms the step becomes `Welcome`, at 3200 ms the screen
  hides, and unmounting clears both pending timeouts. Time is an
  elapsed-milliseconds counter moved by `Advance(ms)` events. The component
  takes no props and calls no completion callback.
- `Optional` (`optional.dfy`) holds the `Option` type for the storage key.

The model follows the code where it is looser than its own types suggest:

- The stored value is cast to the theme type without validation. So the
  theme is a `string`, and any non-empty stored string becomes the theme.
  `ThemeStaysMode` proves that the theme is always `"light"` or `"dark"`
  when storage starts absent, empty or holding one of those two names.
- An empty stored string is falsy, so the mount effect, the preference
  listener and `isSystemTheme` treat it as absent. But it is not `null`, so
  the apply effect overwrites it with the theme (`EmptyKeyBecomesOverride`).
- Any theme string other than exactly `"light"` toggles to `"light"`.
- The `isSystemTheme` the context hands out is computed while rendering
  (ThemeContext.tsx:97). React renders again only when a state setter
  changes `theme` or `isMounted`; a storage write alone never renders. So
  the provided flag can lag behind storage. One case is a `setTheme` of the
  mode already shown, which stores a key while the flag still says
  "system" (`SameValueSetKeepsStaleFlag`, `StaleFlagScenario`). Others are a
  reset that leaves the theme as it was, and the apply effect's write over
  an empty key. `Rendered` models this rule, and `RenderRule` states it for
  every event.

The effects are separate events (`Initialize`, `Subscribe`, `Apply`), as
are the host's `HostChange` events. The invariant lemmas quantify over
every sequence of events, so they hold for whatever order React runs the
effects in and whenever the host changes. The host's preference is a field
that `HostChange` always sets. The theme follows that event only once the
listener is subscribed. The mount effect sets `isMounted` but, within the
same run of effects, the listener effect still sees `false` and returns
early (ThemeContext.tsx:42, 47). It subscribes only when it runs again after
the next render (line 59).

Further points about the code:

- Unmounting the splash screen clears both pending timeouts
  (SplashScreen.tsx:28-31).
- `SplashScreen` takes no props (SplashScreen.tsx:19), so the `onComplete`
  passed at ClientLayout.tsx:26 is never called.
- The splash `step` has two values, and `show` is a separate flag
  (SplashScreen.tsx:20-21).

## Model

| member | source | states |
|---|---|---|
| `ThemeContext.Theme.Name` | website/src/contexts/ThemeContext.tsx:5 | each mode has a non-empty name; `"light"` names exactly the light mode and `"dark"` exactly the dark mode |
| `ThemeContext.Parse` | website/src/contexts/ThemeContext.tsx:5 | a string names a mode exactly when it is that mode's name |
| `ThemeContext.HasOverride` | website/src/contexts/ThemeContext.tsx:53-54 | the stored value is truthy exactly when the key is present and not the empty string |
| `ThemeContext.Resolved` | website/src/contexts/ThemeContext.tsx:39-40 | a truthy stored value wins; otherwise the result is a mode, dark exactly when the host prefers dark |
| `ThemeContext.SystemThemeFlag` | website/src/contexts/ThemeContext.tsx:97 | the flag a render computes from the current state: true exactly when not mounted, or the key is absent or empty |
| `ThemeContext.Start` | website/src/contexts/ThemeContext.tsx:34-35 | theme `"light"`, not mounted, so the first render's flag is true; storage and host preference as given |
| `ThemeContext.Initialized` | website/src/contexts/ThemeContext.tsx:38-43 | mounted, with the resolved theme (the truthy stored value, else the host's mode); storage and preference unchanged; the first mount renders, so the provided flag is true exactly when no truthy key is stored; a repeated mount that keeps the theme renders nothing and keeps the flag |
| `ThemeContext.Applied` | website/src/contexts/ThemeContext.tsx:66-74 | when mounted and the key is present, the key becomes the theme; otherwise storage is unchanged; theme, mounted flag and preference never change, and neither does the provided `isSystemTheme`, since a storage write does not render |
| `ThemeContext.Toggle` | website/src/contexts/ThemeContext.tsx:86-90 | the new theme is the toggled mode of the old string (so a mode, and different from it), and it is stored; the theme changed, so the render that follows provides a flag that is false exactly when mounted |
| `ThemeContext.ResetToSystem` | website/src/contexts/ThemeContext.tsx:92-97 | key removed; the theme is a mode, dark exactly when the host prefers dark; the provided flag becomes true if the theme changed and is otherwise kept |
| `ThemeContext.SetTo` | website/src/contexts/ThemeContext.tsx:97-111 | the theme names the given mode and is stored; if the theme changed, the provided flag is false exactly when mounted, otherwise it is kept |
| `ThemeContext.Subscribed` | website/src/contexts/ThemeContext.tsx:46-62 | the listener is subscribed exactly when the provider is mounted; nothing else changes and nothing renders |
| `ThemeContext.PreferenceChanged` | website/src/contexts/ThemeContext.tsx:46-56 | records the preference; when the listener is subscribed and no truthy key is stored the theme becomes the mode the event matches, otherwise it is unchanged; storage untouched; the provided flag becomes true if the theme changed and is otherwise kept |
| `ThemeContext.SystemTheme` | website/src/contexts/ThemeContext.tsx:20-27 | dark exactly when a window exists and prefers dark; light when there is no window |
| `ThemeContext.Toggled` | website/src/contexts/ThemeContext.tsx:86-87 | the toggled theme is dark exactly when the current theme string is `"light"` |
| `ThemeContext.ColorSystemTotal` | website/src/contexts/ThemeContext.tsx:134-155 | the colour table has an entry for both modes, and the two entries differ |
| `ThemeContext.Colors` | website/src/contexts/ThemeContext.tsx:81 | indexing the table's own keys by the theme string is defined exactly when the string names a mode, and then gives that mode's entry |
| `ThemeContext.UnvalidatedValueAdopted` | website/src/contexts/ThemeContext.tsx:39-40 | a non-empty stored string that names no mode becomes the theme at mount, and the table has no own entry for it |
| `ThemeContext.SetThemeOverrides` | website/src/contexts/ThemeContext.tsx:97-111 | `setTheme(t)` makes both theme and stored key `t`; the next render's `isSystemTheme` is false exactly when mounted, and a call that changes the theme is that render; a second identical call changes nothing |
| `ThemeContext.SameValueSetKeepsStaleFlag` | website/src/contexts/ThemeContext.tsx:97-111 | a `setTheme` of the mode already shown renders nothing: a provided flag saying "system" keeps saying so although a real key is now stored, and a following host change leaves the theme and that flag as they were |
| `ThemeContext.StaleFlagScenario` | website/src/contexts/ThemeContext.tsx:38-111 | with no key and a dark host: mount, subscribe, apply, `setTheme("dark")`, host turns light; the theme stays dark and stored while the provided flag still says "system" |
| `ThemeContext.RenderRule` | website/src/contexts/ThemeContext.tsx:34-111 | for every event: if the theme or the mounted flag changed, the provided flag is the freshly computed one; otherwise it is the old one |
| `ThemeContext.ToggleSwaps` | website/src/contexts/ThemeContext.tsx:86-90 | light becomes dark and every other theme string becomes light; the new theme is stored; mounted flag and host preference are unchanged |
| `ThemeContext.ToggleTwice` | website/src/contexts/ThemeContext.tsx:86-90 | toggling a mode twice restores it and leaves it stored, with the provided flag false exactly when mounted; toggling a non-mode string twice gives dark |
| `ThemeContext.ResetFollowsSystem` | website/src/contexts/ThemeContext.tsx:92-97 | reset removes the key and sets the theme to the host preference, so the next render's `isSystemTheme` holds; the provided flag becomes true when the theme changed and is kept when it did not; apart from that flag, resetting after any `setTheme` gives the same state as resetting directly |
| `ThemeContext.ApplyNeverCreatesOverride` | website/src/contexts/ThemeContext.tsx:66-74 | the key is present after the apply effect exactly when it was before, and then holds the theme; the theme is unchanged; before mounting nothing changes; applying twice equals applying once |
| `ThemeContext.EmptyKeyBecomesOverride` | website/src/contexts/ThemeContext.tsx:71-97 | an empty stored string counts as system theme, and the apply effect turns it into a real override; no render follows that write, so the provided flag keeps its earlier value |
| `ThemeContext.CoherentIsConsistent` | website/src/contexts/ThemeContext.tsx:38-111 | the strong override rule implies the weak one |
| `ThemeContext.StepKeepsConsistent` | website/src/contexts/ThemeContext.tsx:38-111 | every transition, a lost host change included, preserves "a listener only once mounted; once mounted, a truthy stored value is the theme, else the theme is a mode" |
| `ThemeContext.RunKeepsConsistent` | website/src/contexts/ThemeContext.tsx:38-111 | that weak rule survives every sequence of events |
| `ThemeContext.StepKeepsCoherent` | website/src/contexts/ThemeContext.tsx:38-111 | every transition except a host change between the mount effect and the subscription preserves "once mounted, the theme is the truthy stored value, else the system theme" |
| `ThemeContext.MissedChangeBreaksCoherent` | website/src/contexts/ThemeContext.tsx:40-62 | a host change before the listener subscribes keeps that rule exactly when a truthy key is stored or the preference did not change |
| `ThemeContext.RunKeepsCoherent` | website/src/contexts/ThemeContext.tsx:38-111 | the strong rule survives every sequence of events in which no host change is missed |
| `ThemeContext.LostChangeScenario` | website/src/contexts/ThemeContext.tsx:38-97 | no key, host light: mount, host turns dark, subscribe, apply; the provider is mounted and listening, shows light, reports the system theme and breaks the strong rule |
| `ThemeContext.OverrideWins` | website/src/contexts/ThemeContext.tsx:51-97 | from the initial state and after any events, once mounted: when the next render's `isSystemTheme` would be false, the theme is the stored value and a preference change keeps it; when it would be true, the theme is a mode, and the host preference if no host change was missed |
| `ThemeContext.WritesAreModes` | website/src/contexts/ThemeContext.tsx:70-111 | in any state where the weak override rule holds, every value that changes the key is a mode name: toggle and set write one, and the apply effect writes the theme, which is a mode whenever that write changes the key; reset only removes the key |
| `ThemeContext.StepKeepsSafe` | website/src/contexts/ThemeContext.tsx:38-111 | with storage absent, empty or a mode name and the theme a mode, every transition keeps both so |
| `ThemeContext.RunKeepsSafe` | website/src/contexts/ThemeContext.tsx:38-111 | the same across every sequence of events |
| `ThemeContext.ThemeStaysMode` | website/src/contexts/ThemeContext.tsx:39-111 | if storage starts absent, empty or holding a mode name, the theme is a mode after every sequence of events, so the colour lookup is defined |
| `ThemeContext.ThemeProvider.constructor` | website/src/contexts/ThemeContext.tsx:34-35 | theme starts as `"light"`, not mounted, flag true, no listener, and both override rules hold |
| `ThemeContext.ThemeProvider.Initialize` | website/src/contexts/ThemeContext.tsx:38-43 | performs the mount transition: mounted, theme resolved from storage and preference, the first mount's flag read from storage, keeping the weak override rule (`Ok`) and, when it held, `Coherent` |
| `ThemeContext.ThemeProvider.ApplyTheme` | website/src/contexts/ThemeContext.tsx:65-74 | rewrites the key with the theme only when mounted and the key is present, leaving the provided flag alone, keeping the weak override rule (`Ok`) and, when it held, `Coherent` |
| `ThemeContext.ThemeProvider.ToggleTheme` | website/src/contexts/ThemeContext.tsx:86-90 | switches the theme and stores the new one, re-rendering the flag, keeping the weak override rule (`Ok`) and, when it held, `Coherent` |
| `ThemeContext.ThemeProvider.ResetToSystemTheme` | website/src/contexts/ThemeContext.tsx:92-97 | removes the key and adopts the host preference; the flag becomes true only if the theme changed; keeps the weak override rule (`Ok`) and, when it held, `Coherent` |
| `ThemeContext.ThemeProvider.SetTheme` | website/src/contexts/ThemeContext.tsx:97-111 | sets and stores the given theme; the flag is re-rendered only if the theme changed; keeps the weak override rule (`Ok`) and, when it held, `Coherent` |
| `ThemeContext.ThemeProvider.SubscribeListener` | website/src/contexts/ThemeContext.tsx:46-62 | performs the listener effect: subscribed exactly when mounted, nothing else changes, both override rules kept |
| `ThemeContext.ThemeProvider.HostPreferenceChanged` | website/src/contexts/ThemeContext.tsx:46-62 | records the new preference and follows it only when the listener is subscribed and no truthy key is stored; the flag becomes true only if the theme changed; keeps the weak override rule (`Ok`), and `Coherent` unless the change was missed |
| `Splash.AccentColor` | website/src/components/SplashScreen/SplashScreen.tsx:16-17 | `"#a78bfa"` for exactly `"dark"`, `"#2563eb"` for every other string |
| `Splash.StepText` | website/src/components/SplashScreen/SplashScreen.tsx:96 | the text is `"Loading..."` exactly in the loading step, `"Welcome"` otherwise |
| `Splash.Displayed` | website/src/components/SplashScreen/SplashScreen.tsx:38-97 | nothing is on screen once hidden; otherwise the step's text |
| `Splash.Mounted` | website/src/components/SplashScreen/SplashScreen.tsx:20-27 | shown, loading, no time elapsed, both timeouts pending, theme the mode of the host |
| `Splash.Advanced` | website/src/components/SplashScreen/SplashScreen.tsx:26-27 | time moves by `ms`; the step is `Welcome` exactly if it was or the pending welcome delay is reached; hidden exactly if it was or the pending exit delay is reached; a timeout stays pending only while its delay is not reached |
| `Splash.Unmounted` | website/src/components/SplashScreen/SplashScreen.tsx:28-31 | no timeout pending; everything else unchanged |
| `Splash.Timeline` | website/src/components/SplashScreen/SplashScreen.tsx:26-27 | the closed-form state at time `t`: `Welcome` exactly from 2000 ms, hidden exactly from 3200 ms, meeting the phase-order invariant |
| `Splash.RunFollowsTimeline` | website/src/components/SplashScreen/SplashScreen.tsx:24-27 | while never unmounted, the state after any events is the one fixed by the total elapsed time |
| `Splash.MountedSchedule` | website/src/components/SplashScreen/SplashScreen.tsx:20-27 | from mount, with no unmount: the step is `Welcome` exactly once 2000 ms have passed, the screen is hidden exactly once 3200 ms have passed, and the theme is the host's |
| `Splash.MountedValid` | website/src/components/SplashScreen/SplashScreen.tsx:20-27 | the mounted state is shown, loading, with both timeouts pending, and meets the phase-order invariant |
| `Splash.StepKeepsValid` | website/src/components/SplashScreen/SplashScreen.tsx:26-31 | time passing and unmounting preserve the phase-order invariant |
| `Splash.RunKeepsValid` | website/src/components/SplashScreen/SplashScreen.tsx:26-31 | the phase-order invariant survives every sequence of events |
| `Splash.WelcomeBeforeHide` | website/src/components/SplashScreen/SplashScreen.tsx:26-27 | after any events from mount, a hidden screen has reached `Welcome` |
| `Splash.RunIsMonotone` | website/src/components/SplashScreen/SplashScreen.tsx:26-27 | the step never returns to `Loading`, and a hidden screen never shows again |
| `Splash.IdleRun` | website/src/components/SplashScreen/SplashScreen.tsx:28-31 | with no timeout pending, no event changes `show`, `step` or the theme |
| `Splash.FrozenAfterUnmount` | website/src/components/SplashScreen/SplashScreen.tsx:28-31 | after unmount, `show` and `step` keep their values at unmount whatever time passes |
| `Splash.SplashScreen.constructor` | website/src/components/SplashScreen/SplashScreen.tsx:20-27 | shown, loading, the host's theme, both timeouts scheduled |
| `Splash.SplashScreen.Advance` | website/src/components/SplashScreen/SplashScreen.tsx:26-27 | fires each pending timeout whose delay is reached, once, and keeps the invariant |
| `Splash.SplashScreen.Unmount` | website/src/components/SplashScreen/SplashScreen.tsx:28-31 | clears both timeouts and changes nothing else |

## Left out

- DOM writes of the apply effect (`data-theme`, `className`, the transition style, body colours; ThemeContext.tsx:67-68, 77-82) are browser side effects.
- Colors: only the table's own keys `light` and `dark` are looked up. In JavaScript, indexing the object literal also finds names inherited from `Object.prototype` (`"constructor"`, `"toString"`, `"__proto__"`, ...), which give a value, not `undefined`.
- UnvalidatedValueAdopted: a theme that is neither a mode nor an inherited `Object.prototype` name makes the first render of the colour consumers throw (NavBar.tsx:55 looks the theme up and NavBar.tsx:68 reads a field of the result; `PageWrapper` does the same but is only rendered once the splash has finished, which never happens, see ClientLayout.tsx:29), which tears down the tree before the provider's effects run for that theme. The model does not represent that crash and keeps accepting events. `ThemeStaysMode` rules the crash out whenever storage starts absent, empty or holding a mode name.
- The hydration placeholder and the `useTheme` missing-context error (ThemeContext.tsx:100-102, 122-128) are React rendering and context plumbing.
- ResetFollowsSystem: resetting after a `setTheme` equals resetting directly only up to the provided `isSystemTheme`, because whether a render happens depends on whether the theme changed at each step.
- Unsubscribing the media-query listener (ThemeContext.tsx:60-61) happens only on unmount, since `isMounted` never returns to false; the provider's unmount is not modelled.
- Storage changes made outside the provider (another tab, developer tools) are not events of the model. The initial storage value is a free parameter, so any such value is covered at start.
- `localStorage`, `matchMedia` and the clock are fields or parameters. Timers fire in scheduling order within one `Advance`. Real time is not modelled. Of React's rendering, the model keeps only that a state setter renders when it changes the value; re-renders started by a parent are not events, so the provided `isSystemTheme` refreshes only when `theme` or `isMounted` changes.
- The splash screen's own copy of `getSystemTheme` (SplashScreen.tsx:7-14) is identical to the provider's, and is modelled by `ThemeContext.SystemTheme`. Its `useState(getSystemTheme())` value during server rendering is replaced by the mount effect's read (line 25). The model keeps only the value read at mount.
- All JSX and animation parameters (framer-motion durations, easing, gradients) are presentation.
- `NavBar`, `ClientLayout`, the page components, `PageWrapper`, `ContentWrapper`, `not-found`, the link configuration tables and `option2_static.tsx` are layout or static content. The `onComplete` that `ClientLayout` passes is never called, because `SplashScreen` takes no props.
