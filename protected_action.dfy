/**
 * The role gate and the login-prompt interceptor that wrap a protected UI
 * action. The gate ranks roles admin 3 > user 2 > viewer 1; the interceptor
 * stops a refused click from propagating further and opens the login
 * prompt, after the wrapped element's own handler has already run.
 */
module ProtectedAction {
  import opened Wrappers
  import opened AuthContext

  /** The role ranking of the permission check. */
  function Level(r: Role): (n: int)
    ensures 1 <= n <= 3
  {
    match r
    case AdminRole => 3
    case UserRole => 2
    case ViewerRole => 1
  }

  /** The requirement when the caller names none. */
  const DefaultRequiredRole: Role := UserRole

  /** The `requiredRole` prop with its default. */
  function RequiredRole(requested: Option<Role>): Role {
    match requested
    case Some(role) => role
    case None => DefaultRequiredRole
  }

  /** `hasPermission()`. */
  predicate HasPermission(isAuthenticated: bool, user: Option<User>, required: Role) {
    if !isAuthenticated || user.None? then false
    else Level(user.value.role) >= Level(required)
  }

  /**
   * The hierarchy admin > user > viewer stated without numbers: a role covers
   * itself, admin covers everything, everything covers viewer.
   */
  predicate Covers(held: Role, required: Role) {
    held == required || held == AdminRole || required == ViewerRole
  }

  /** The ranking decides exactly the hierarchy `Covers` describes. */
  lemma PermissionIsHierarchy(isAuthenticated: bool, user: Option<User>, required: Role)
    ensures HasPermission(isAuthenticated, user, required)
      <==> isAuthenticated && user.Some? && Covers(user.value.role, required)
  {
  }

  /** `Covers` is a total order on the three roles. */
  lemma CoversIsTotalOrder(a: Role, b: Role, c: Role)
    ensures Covers(a, a)
    ensures Covers(a, b) && Covers(b, a) ==> a == b
    ensures Covers(a, b) && Covers(b, c) ==> Covers(a, c)
    ensures Covers(a, b) || Covers(b, a)
  {
  }

  /**
   * Permission is monotone in the requirement: what passes a higher
   * requirement passes every lower one, and no signed-out state passes any.
   */
  lemma PermissionMonotone(isAuthenticated: bool, user: Option<User>, higher: Role, lower: Role)
    requires Covers(higher, lower)
    ensures HasPermission(isAuthenticated, user, higher) ==> HasPermission(isAuthenticated, user, lower)
    ensures !isAuthenticated || user.None? ==> !HasPermission(isAuthenticated, user, lower)
  {
  }

  /** Admin passes every requirement; every signed-in user passes `viewer`. */
  lemma AdminAndViewerBounds(user: User, required: Role)
    ensures user.role == AdminRole ==> HasPermission(true, Some(user), required)
    ensures HasPermission(true, Some(user), ViewerRole)
  {
  }

  /**
   * A signed-in viewer is refused an action that needs `user`; once `login`
   * succeeds as "user", the same requirement is met.
   */
  lemma ViewerThenUserLogin(c: Codec, s: AuthState, now: int)
    requires s.isAuthenticated && s.user.Some? && s.user.value.role == ViewerRole
    ensures !HasPermission(s.isAuthenticated, s.user, RequiredRole(None))
    ensures var s' := LoginStep(c, s, "user", "user123", now).0;
      HasPermission(s'.isAuthenticated, s'.user, RequiredRole(None))
  {
    LookupFindsTheMatch("user", "user123", 1);
  }

  /** A prompt-relevant event of the wrapper. */
  datatype Event =
    | Click           // the wrapped element is clicked
    | LoginSucceeded  // the prompt reports a successful sign-in
    | Cancelled       // the prompt is closed without signing in

  /**
   * What one event does: the new `showLoginModal`, whether the wrapped
   * element's own click handler (the protected action) ran, and whether the
   * click went on to the browser's default action and to the handlers above
   * the wrapper.
   */
  datatype Effect = Effect(open: bool, actionRan: bool, propagated: bool)

  /**
   * One event as the wrapper is written. `handleClick` is the `onClick` of
   * the wrapping `div`, and React runs click handlers from the clicked
   * element outwards: the wrapped element's own handler has already run when
   * the permission is checked, and `preventDefault` and `stopPropagation`
   * stop only what comes after it. `permitted` is the permission check at
   * the moment of the event.
   */
  function Next(open: bool, e: Event, permitted: bool): Effect {
    match e
    case Click => Effect(open || !permitted, true, permitted)
    case LoginSucceeded => Effect(false, false, false)
    case Cancelled => Effect(false, false, false)
  }

  /**
   * One event with the check made in the capture phase (`onClickCapture`),
   * which runs before the wrapped element's handler: a refused click stops
   * at the wrapper and the protected action does not run.
   */
  function NextCapturing(open: bool, e: Event, permitted: bool): Effect {
    var eff := Next(open, e, permitted);
    eff.(actionRan := eff.actionRan && permitted)
  }

  /** An event and the permission check at the time it happens. */
  type Observed = (Event, bool)

  /** One observed event, as written or with the capturing check. */
  function Step(open: bool, o: Observed, capturing: bool): Effect {
    if capturing then NextCapturing(open, o.0, o.1) else Next(open, o.0, o.1)
  }

  /** The outcome of a run: the final prompt state, how often the action ran and how many clicks propagated. */
  datatype Tally = Tally(open: bool, actions: nat, propagated: nat)

  /** A run of events from prompt state `open`. */
  function Run(open: bool, trace: seq<Observed>, capturing: bool): Tally
    decreases |trace|
  {
    if trace == [] then Tally(open, 0, 0)
    else
      var eff := Step(open, trace[0], capturing);
      var rest := Run(eff.open, trace[1..], capturing);
      Tally(rest.open,
        rest.actions + (if eff.actionRan then 1 else 0),
        rest.propagated + (if eff.propagated then 1 else 0))
  }

  /** How many events are clicks. */
  function Clicks(trace: seq<Observed>): nat {
    if trace == [] then 0
    else Clicks(trace[1..]) + if trace[0].0 == Click then 1 else 0
  }

  /** How many events are clicks made while permitted. */
  function PermittedClicks(trace: seq<Observed>): nat {
    if trace == [] then 0
    else PermittedClicks(trace[1..]) + if trace[0] == (Click, true) then 1 else 0
  }

  /**
   * As written, the protected action runs on every click, permitted or not;
   * what the wrapper blocks is only the default action and the outer
   * handlers, which go on exactly for the permitted clicks.
   */
  lemma {:induction false} ActionRunsOnEveryClick(open: bool, trace: seq<Observed>)
    ensures Run(open, trace, false).actions == Clicks(trace)
    ensures Run(open, trace, false).propagated == PermittedClicks(trace)
    decreases |trace|
  {
    if trace != [] {
      ActionRunsOnEveryClick(Step(open, trace[0], false).open, trace[1..]);
    }
  }

  /** The smallest case: a signed-out click runs the action and opens the prompt. */
  lemma RefusedClickStillRunsAction()
    ensures var t := Run(false, [(Click, false)], false);
      t.actions == 1 && t.propagated == 0 && t.open
  {
    ActionRunsOnEveryClick(false, [(Click, false)]);
  }

  /**
   * With the capturing check the action runs exactly once per permitted
   * click, and a refused click is not replayed by a later sign-in nor by
   * anything else.
   */
  lemma {:induction false} CapturingRunsOnlyPermittedClicks(open: bool, trace: seq<Observed>)
    ensures Run(open, trace, true).actions == PermittedClicks(trace)
    ensures Run(open, trace, true).propagated == PermittedClicks(trace)
    decreases |trace|
  {
    if trace != [] {
      CapturingRunsOnlyPermittedClicks(Step(open, trace[0], true).open, trace[1..]);
    }
  }

  /**
   * The prompt state after a run, read backwards: the last event that
   * decides it (a refused click opens, a sign-in or cancel closes), or the
   * starting state when no event decides.
   */
  function OpenAfter(open: bool, trace: seq<Observed>): bool {
    if trace == [] then open
    else
      var last := trace[|trace| - 1];
      if last == (Click, true) then OpenAfter(open, trace[..|trace| - 1])
      else last.0 == Click
  }

  lemma {:induction false} RunAppend(open: bool, trace: seq<Observed>, e: Observed, capturing: bool)
    ensures Run(open, trace + [e], capturing).open == Step(Run(open, trace, capturing).open, e, capturing).open
    decreases |trace|
  {
    if trace != [] {
      assert (trace + [e])[1..] == trace[1..] + [e];
      RunAppend(Step(open, trace[0], capturing).open, trace[1..], e, capturing);
    }
  }

  /**
   * The prompt is open after a run exactly when the last deciding event was
   * a refused click, whether the check is made as written or capturing.
   */
  lemma {:induction false} PromptFollowsLastDecision(open: bool, trace: seq<Observed>, capturing: bool)
    ensures Run(open, trace, capturing).open == OpenAfter(open, trace)
    decreases |trace|
  {
    if trace != [] {
      var init := trace[..|trace| - 1];
      var last := trace[|trace| - 1];
      assert trace == init + [last];
      RunAppend(open, init, last, capturing);
      PromptFollowsLastDecision(open, init, capturing);
    }
  }

  /** Without a refused click, a closed prompt stays closed. */
  lemma {:induction false} NoRefusalKeepsPromptClosed(trace: seq<Observed>)
    requires forall i :: 0 <= i < |trace| ==> trace[i] != (Click, false)
    ensures !OpenAfter(false, trace)
    decreases |trace|
  {
    if trace != [] {
      var last := trace[|trace| - 1];
      NoRefusalKeepsPromptClosed(trace[..|trace| - 1]);
      if last.0 == Click {
        assert last.1 by {
          assert last != (Click, false);
        }
        assert last == (Click, true);
      }
    }
  }

  /** What the wrapper renders. */
  datatype View =
    | FallbackOnly           // the fallback replaces the wrapped content
    | Guarded(promptOpen: bool)  // the content with the click interceptor and the prompt

  /** The render choice; `hasFallback` is "a fallback was supplied". */
  function Render(permitted: bool, hasFallback: bool, showLoginModal: bool): View {
    if !permitted && hasFallback then FallbackOnly else Guarded(showLoginModal)
  }

  /** The login prompt is on screen. */
  predicate PromptVisible(v: View) {
    v.Guarded? && v.promptOpen
  }

  /**
   * With a fallback the prompt never shows. A refused user sees the fallback,
   * which has no click interceptor, so every click reaches the wrapper while
   * permitted; the prompt then stays closed, and whatever the permission is
   * at the next render, no prompt is visible.
   */
  lemma FallbackNeverShowsPrompt(trace: seq<Observed>, capturing: bool, permitted: bool)
    requires forall i :: 0 <= i < |trace| && trace[i].0 == Click ==> Render(trace[i].1, true, false).Guarded?
    ensures !PromptVisible(Render(permitted, true, Run(false, trace, capturing).open))
  {
    forall i | 0 <= i < |trace|
      ensures trace[i] != (Click, false)
    {
      if trace[i].0 == Click {
        assert Render(trace[i].1, true, false).Guarded?;
      }
    }
    NoRefusalKeepsPromptClosed(trace);
    PromptFollowsLastDecision(false, trace, capturing);
  }

  /** One `ProtectedAction` element and its `showLoginModal` state. */
  class Interceptor {
    const action: string
    const requiredRole: Role
    var showLoginModal: bool

    constructor (action: string, requested: Option<Role>)
      ensures this.action == action
      ensures requiredRole == RequiredRole(requested)
      ensures !showLoginModal
    {
      this.action := action;
      requiredRole := RequiredRole(requested);
      showLoginModal := false;
    }

    /** The permission check against the provider's current state. */
    function Permitted(auth: AuthProvider): bool
      reads auth
    {
      HasPermission(auth.isAuthenticated, auth.user, requiredRole)
    }

    /**
     * `handleClick`, reached after the wrapped element's own handler:
     * returns whether the click goes on to the default action and the
     * outer handlers.
     */
    method HandleClick(auth: AuthProvider) returns (propagates: bool)
      modifies this
      ensures var eff := Next(old(showLoginModal), Click, Permitted(auth));
        eff.actionRan && showLoginModal == eff.open && propagates == eff.propagated
      ensures propagates == Permitted(auth)
      ensures propagates ==> showLoginModal == old(showLoginModal)
      ensures !propagates ==> showLoginModal
    {
      propagates := Permitted(auth);
      if !propagates {
        showLoginModal := true;
      }
    }

    /**
     * The same check made in the capture phase: returns whether the wrapped
     * element's handler runs, and with it the rest of the click.
     */
    method HandleClickCapture(auth: AuthProvider) returns (proceeds: bool)
      modifies this
      ensures var eff := NextCapturing(old(showLoginModal), Click, Permitted(auth));
        showLoginModal == eff.open && proceeds == eff.actionRan && proceeds == eff.propagated
      ensures proceeds == Permitted(auth)
      ensures !proceeds ==> showLoginModal
    {
      proceeds := Permitted(auth);
      if !proceeds {
        showLoginModal := true;
      }
    }

    /** `handleLoginSuccess`: close the prompt; no click is replayed. */
    method HandleLoginSuccess()
      modifies this
      ensures Next(old(showLoginModal), LoginSucceeded, false) == Effect(showLoginModal, false, false)
      ensures !showLoginModal
    {
      showLoginModal := false;
    }

    /** The prompt's `onClose`: close it and change nothing else. */
    method Close()
      modifies this
      ensures Next(old(showLoginModal), Cancelled, false) == Effect(showLoginModal, false, false)
      ensures !showLoginModal
    {
      showLoginModal := false;
    }
  }
}
