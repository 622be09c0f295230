/**
 * The splash screen's two-timer phase machine (`SplashScreen`).
 *
 * On mount the screen is shown in the `Loading` step and two single-shot
 * timeouts are scheduled: at 2000 ms the step becomes `Welcome`, at 3200 ms
 * the screen hides. Unmounting cancels whichever timeout is still pending.
 * Time is a discrete elapsed-milliseconds counter moved by `Advance`
 * events; there is no clock. The component takes no props and calls no
 * completion callback.
 */
module Splash {
  import ThemeContext

  /** Delay of the `loadingTimeout`, in milliseconds. */
  const WelcomeDelay: nat := 2000
  /** Delay of the `exitTimeout`, in milliseconds. */
  const ExitDelay: nat := 3200

  datatype SplashStep = Loading | Welcome

  /** `getAccentColor`: soft purple for exactly `"dark"`, blue for any other
      string. */
  function AccentColor(theme: string): (c: string)
    ensures theme == "dark" ==> c == "#a78bfa"
    ensures theme != "dark" ==> c == "#2563eb"
  {
    if theme == "dark" then "#a78bfa" else "#2563eb"
  }

  /** The text under the avatar. */
  function StepText(step: SplashStep): (text: string)
    ensures text == "Loading..." <==> step == Loading
    ensures step == Welcome ==> text == "Welcome"
  {
    if step == Loading then "Loading..." else "Welcome"
  }

  /** The component's state: its `show`, `step` and `theme` state variables,
      the elapsed time since mount, and whether each timeout is still
      scheduled. */
  datatype SplashState = SplashState(
    show: bool,
    step: SplashStep,
    theme: string,
    elapsed: nat,
    welcomePending: bool,
    exitPending: bool)

  /** Mounting and its effect: shown, loading, the host's theme, both
      timeouts scheduled. */
  function Mounted(h: ThemeContext.Host): (r: SplashState)
    ensures r.show && r.step == Loading && r.elapsed == 0
    ensures r.welcomePending && r.exitPending
    ensures ThemeContext.IsTheme(r.theme) && (r.theme == "dark" <==> h == ThemeContext.Window(true))
  {
    SplashState(true, Loading, ThemeContext.SystemTheme(h).Name(), 0, true, true)
  }

  /** Time moves on by `ms`: every pending timeout whose delay has been
      reached fires, once, and is no longer pending. */
  function Advanced(s: SplashState, ms: nat): (r: SplashState)
    ensures r.elapsed == s.elapsed + ms && r.theme == s.theme
    ensures r.step == Welcome <==> s.step == Welcome || (s.welcomePending && r.elapsed >= WelcomeDelay)
    ensures !r.show <==> !s.show || (s.exitPending && r.elapsed >= ExitDelay)
    ensures r.welcomePending <==> s.welcomePending && r.elapsed < WelcomeDelay
    ensures r.exitPending <==> s.exitPending && r.elapsed < ExitDelay
  {
    var now := s.elapsed + ms;
    var fireWelcome := s.welcomePending && now >= WelcomeDelay;
    var fireExit := s.exitPending && now >= ExitDelay;
    s.(elapsed := now,
       step := if fireWelcome then Welcome else s.step,
       welcomePending := s.welcomePending && !fireWelcome,
       show := if fireExit then false else s.show,
       exitPending := s.exitPending && !fireExit)
  }

  /** The effect's cleanup: both timeouts are cleared. */
  function Unmounted(s: SplashState): (r: SplashState)
    ensures !r.welcomePending && !r.exitPending
    ensures r.show == s.show && r.step == s.step && r.theme == s.theme && r.elapsed == s.elapsed
  {
    s.(welcomePending := false, exitPending := false)
  }

  /** What is on screen: the text when shown, nothing once hidden. */
  function Displayed(s: SplashState): (text: string)
    ensures !s.show ==> text == ""
    ensures s.show ==> text == StepText(s.step)
  {
    if s.show then StepText(s.step) else ""
  }

  datatype Event = Advance(ms: nat) | Unmount

  function Step(s: SplashState, e: Event): SplashState {
    match e
    case Advance(ms) => Advanced(s, ms)
    case Unmount => Unmounted(s)
  }

  function Run(s: SplashState, es: seq<Event>): SplashState
    decreases |es|
  {
    if es == [] then s else Run(Step(s, es[0]), es[1..])
  }

  /** Total time the events let pass. */
  function Elapsed(es: seq<Event>): nat
    decreases |es|
  {
    if es == [] then 0
    else (match es[0] case Advance(ms) => ms case Unmount => 0) + Elapsed(es[1..])
  }

  predicate NoUnmount(es: seq<Event>) {
    forall i :: 0 <= i < |es| ==> es[i].Advance?
  }

  // ---------------------------------------------------------------------
  // While mounted, the state is a function of the elapsed time

  /** The state `t` ms after mounting, while still mounted. */
  function Timeline(theme: string, t: nat): (r: SplashState)
    ensures r.step == Welcome <==> t >= WelcomeDelay
    ensures !r.show <==> t >= ExitDelay
    ensures r.elapsed == t && r.theme == theme
    ensures Valid(r)
  {
    SplashState(
      t < ExitDelay,
      if t < WelcomeDelay then Loading else Welcome,
      theme,
      t,
      t < WelcomeDelay,
      t < ExitDelay)
  }

  lemma {:induction false} RunFollowsTimeline(theme: string, t: nat, es: seq<Event>)
    requires NoUnmount(es)
    ensures Run(Timeline(theme, t), es) == Timeline(theme, t + Elapsed(es))
    decreases |es|
  {
    if es != [] {
      assert es[0].Advance?;
      assert Step(Timeline(theme, t), es[0]) == Timeline(theme, t + es[0].ms);
      assert NoUnmount(es[1..]) by {
        forall i | 0 <= i < |es[1..]| ensures es[1..][i].Advance? {
          assert es[1..][i] == es[i + 1];
        }
      }
      RunFollowsTimeline(theme, t + es[0].ms, es[1..]);
    }
  }

  /** Starting from mount and never unmounted: the step is `Welcome` exactly
      once 2000 ms have passed, and the screen is hidden exactly once 3200 ms
      have passed. */
  lemma MountedSchedule(h: ThemeContext.Host, es: seq<Event>)
    requires NoUnmount(es)
    ensures Run(Mounted(h), es).step == Welcome <==> Elapsed(es) >= WelcomeDelay
    ensures !Run(Mounted(h), es).show <==> Elapsed(es) >= ExitDelay
    ensures Run(Mounted(h), es).theme == ThemeContext.SystemTheme(h).Name()
  {
    assert Mounted(h) == Timeline(ThemeContext.SystemTheme(h).Name(), 0);
    RunFollowsTimeline(ThemeContext.SystemTheme(h).Name(), 0, es);
  }

  // ---------------------------------------------------------------------
  // Invariants over every sequence of events

  /** The phases are ordered: an unmount clears both timeouts, the welcome
      timeout fires before the exit one, and the screen only hides after the
      welcome step was reached. */
  predicate Valid(s: SplashState) {
    (s.welcomePending ==> s.exitPending && s.step == Loading && s.elapsed < WelcomeDelay) &&
    (s.exitPending ==> s.show && s.elapsed < ExitDelay) &&
    (s.exitPending && !s.welcomePending ==> s.step == Welcome) &&
    (!s.show ==> s.step == Welcome)
  }

  lemma MountedValid(h: ThemeContext.Host)
    ensures Valid(Mounted(h))
  {
  }

  lemma StepKeepsValid(s: SplashState, e: Event)
    requires Valid(s)
    ensures Valid(Step(s, e))
  {
  }

  lemma {:induction false} RunKeepsValid(s: SplashState, es: seq<Event>)
    requires Valid(s)
    ensures Valid(Run(s, es))
    decreases |es|
  {
    if es != [] {
      StepKeepsValid(s, es[0]);
      RunKeepsValid(Step(s, es[0]), es[1..]);
    }
  }

  /** Whatever happens after mounting, a hidden screen has shown `Welcome`. */
  lemma {:induction false} WelcomeBeforeHide(h: ThemeContext.Host, es: seq<Event>)
    ensures !Run(Mounted(h), es).show ==> Run(Mounted(h), es).step == Welcome
  {
    MountedValid(h);
    RunKeepsValid(Mounted(h), es);
  }

  /** The step never goes back to `Loading` and a hidden screen never shows
      again. */
  lemma {:induction false} RunIsMonotone(s: SplashState, es: seq<Event>)
    ensures s.step == Welcome ==> Run(s, es).step == Welcome
    ensures !s.show ==> !Run(s, es).show
    decreases |es|
  {
    if es != [] {
      RunIsMonotone(Step(s, es[0]), es[1..]);
    }
  }

  /** With no timeout pending, nothing but the clock changes any more. */
  lemma {:induction false} IdleRun(s: SplashState, es: seq<Event>)
    requires !s.welcomePending && !s.exitPending
    ensures Run(s, es).show == s.show && Run(s, es).step == s.step && Run(s, es).theme == s.theme
    ensures !Run(s, es).welcomePending && !Run(s, es).exitPending
    decreases |es|
  {
    if es != [] {
      IdleRun(Step(s, es[0]), es[1..]);
    }
  }

  /** After unmounting, neither timeout fires: `show` and `step` keep the
      values they had at unmount, whatever time passes. */
  lemma FrozenAfterUnmount(s: SplashState, es: seq<Event>)
    ensures Run(Unmounted(s), es).show == s.show
    ensures Run(Unmounted(s), es).step == s.step
  {
    IdleRun(Unmounted(s), es);
  }

  // ---------------------------------------------------------------------
  // The component as an object

  /** `SplashScreen`, with time advanced explicitly. */
  class SplashScreen {
    var show: bool
    var step: SplashStep
    var theme: string
    var elapsed: nat
    var welcomePending: bool
    var exitPending: bool

    function State(): SplashState
      reads this
    {
      SplashState(show, step, theme, elapsed, welcomePending, exitPending)
    }

    predicate Ok()
      reads this
    {
      Valid(State())
    }

    /** Mount: initial state, then the effect re-reads the system theme and
        schedules both timeouts. */
    constructor (h: ThemeContext.Host)
      ensures State() == Mounted(h) && Ok()
      ensures show && step == Loading && welcomePending && exitPending
    {
      show := true;
      step := Loading;
      theme := ThemeContext.SystemTheme(h).Name();
      elapsed := 0;
      welcomePending := true;
      exitPending := true;
    }

    method Advance(ms: nat)
      requires Ok()
      modifies this
      ensures Ok()
      ensures State() == Advanced(old(State()), ms)
      ensures elapsed == old(elapsed) + ms && theme == old(theme)
      ensures step == (if old(welcomePending) && elapsed >= WelcomeDelay then Welcome else old(step))
      ensures show == (old(show) && !(old(exitPending) && elapsed >= ExitDelay))
    {
      elapsed := elapsed + ms;
      if welcomePending && elapsed >= WelcomeDelay {
        step := Welcome;
        welcomePending := false;
      }
      if exitPending && elapsed >= ExitDelay {
        show := false;
        exitPending := false;
      }
      StepKeepsValid(old(State()), Event.Advance(ms));
    }

    method Unmount()
      requires Ok()
      modifies this
      ensures Ok()
      ensures State() == Unmounted(old(State()))
      ensures !welcomePending && !exitPending
      ensures show == old(show) && step == old(step) && elapsed == old(elapsed)
    {
      welcomePending := false;
      exitPending := false;
    }
  }
}
