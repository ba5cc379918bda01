/**
 * The home page's dashboard user: the signed-in user's fields with
 * fallbacks to what the sign-up page passed along, a sign-up bonus of 10
 * XP and a star badge on arrival from sign-up, and confetti that shows on
 * that arrival until a 5 s timeout hides it.
 */
module HomePage {
  import opened Wrappers
  import opened AuthUser
  import opened SignUpPage

  /** The record the dashboard is drawn from. */
  datatype DisplayUser = DisplayUser(name: string, avatar: string, xp: int, badges: seq<string>, level: int)

  /** `Boolean(location.state?.fromSignup)`. */
  predicate FromSignup(state: Option<SignupState>) {
    state.Some? && state.value.fromSignup
  }

  /** `a ?? b ?? c` over optional values: the first present one, else `c`. */
  function FirstPresent(a: Option<string>, b: Option<string>, c: string): (r: string)
    ensures a.Some? ==> r == a.value
    ensures a.None? && b.Some? ==> r == b.value
    ensures a.None? && b.None? ==> r == c
  {
    if a.Some? then a.value else b.GetOr(c)
  }

  /**
   * `displayUser`: name and avatar from the signed-in user, else from the
   * sign-up state, else the defaults; on arrival from sign-up 10 XP and
   * the star badge whatever the signed-in user holds; level 1 by default.
   * Only missing fields fall back (`??`): an empty name is shown as is.
   */
  function Display(auth: Option<User>, state: Option<SignupState>): (d: DisplayUser)
    ensures auth.Some? && auth.value.name.Some? ==> d.name == auth.value.name.value
    ensures (auth.None? || auth.value.name.None?) && state.Some? && state.value.username.Some? ==> d.name == state.value.username.value
    ensures (auth.None? || auth.value.name.None?) && (state.None? || state.value.username.None?) ==> d.name == "EcoExplorer"
    ensures auth.Some? && auth.value.avatar.Some? ==> d.avatar == auth.value.avatar.value
    ensures (auth.None? || auth.value.avatar.None?) && state.Some? && state.value.avatar.Some? ==> d.avatar == state.value.avatar.value
    ensures (auth.None? || auth.value.avatar.None?) && (state.None? || state.value.avatar.None?) ==> d.avatar == "🪴"
    ensures FromSignup(state) ==> d.xp == 10 && d.badges == ["🌟"]
    ensures !FromSignup(state) && auth.Some? && auth.value.xp.Some? ==> d.xp == auth.value.xp.value
    ensures !FromSignup(state) && (auth.None? || auth.value.xp.None?) ==> d.xp == 0
    ensures !FromSignup(state) && auth.Some? && auth.value.badges.Some? ==> d.badges == auth.value.badges.value
    ensures !FromSignup(state) && (auth.None? || auth.value.badges.None?) ==> d.badges == []
    ensures auth.Some? && auth.value.level.Some? ==> d.level == auth.value.level.value
    ensures auth.None? || auth.value.level.None? ==> d.level == 1
  {
    var signupName := if state.Some? then state.value.username else None;
    var signupAvatar := if state.Some? then state.value.avatar else None;
    DisplayUser(
      FirstPresent(if auth.Some? then auth.value.name else None, signupName, "EcoExplorer"),
      FirstPresent(if auth.Some? then auth.value.avatar else None, signupAvatar, "🪴"),
      if FromSignup(state) then 10 else if auth.Some? then auth.value.xp.GetOr(0) else 0,
      if FromSignup(state) then ["🌟"] else if auth.Some? then auth.value.badges.GetOr([]) else [],
      if auth.Some? then auth.value.level.GetOr(1) else 1)
  }

  /**
   * Sign-up followed by the home page: the dashboard greets the new user
   * by the name login stored (the username, or "Student"), shows the
   * chosen avatar, the 10 XP bonus, the star badge and level 1.
   */
  lemma DashboardAfterSignup(form: Form, fromPath: Option<string>, stamp: string)
    requires Submit(form, fromPath, stamp).SignedUp?
    ensures var o := Submit(form, fromPath, stamp);
      Display(Some(o.user), Some(o.nav.state))
        == DisplayUser(if form.username == "" then "Student" else form.username, form.avatar.value, 10, ["🌟"], 1)
  {
  }

  /** A visitor who is neither signed in nor arriving from sign-up sees the defaults. */
  lemma AnonymousDashboard()
    ensures Display(None, None) == DisplayUser("EcoExplorer", "🪴", 0, [], 1)
  {
  }

  /** The confetti overlay. */
  class Celebration {
    var showConfetti: bool
    /** Whether the 5 s hide timeout is scheduled and has not fired. */
    var hidePending: bool

    ghost predicate Valid()
      reads this
    {
      showConfetti ==> hidePending
    }

    /** Confetti starts shown exactly on arrival from sign-up, with its hide timeout scheduled. */
    constructor (state: Option<SignupState>)
      ensures Valid()
      ensures showConfetti == FromSignup(state) && hidePending == FromSignup(state)
    {
      showConfetti := FromSignup(state);
      hidePending := FromSignup(state);
    }

    /** The timeout fires and hides the confetti. */
    method HideTimerFires()
      requires Valid() && hidePending
      modifies this
      ensures Valid() && !showConfetti && !hidePending
    {
      showConfetti, hidePending := false, false;
    }
  }
}
