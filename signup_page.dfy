/**
 * The sign-up form's submit handler: it rejects mismatched passwords, then
 * a missing avatar; otherwise it logs in a new user and navigates to the
 * page the visitor first asked for, or to the home page, carrying a
 * sign-up marker the home page reads.
 */
module SignUpPage {
  import opened Wrappers
  import opened JsText
  import opened AuthUser

  /** The form's controlled inputs; `avatar` is null until one is picked. */
  datatype Form = Form(
    username: string,
    email: string,
    password: string,
    confirmPassword: string,
    age: string,
    avatar: Option<string>)

  /** The emoji the form offers as avatars. */
  const Avatars: seq<string> := ["🌱", "🌳", "🐢", "🦉", "🐝", "🦋", "🐧", "🐼"]

  /** The router state handed to the next page. */
  datatype SignupState = SignupState(fromSignup: bool, username: Option<string>, avatar: Option<string>)

  /** `navigate(to, { replace, state })`. */
  datatype Navigation = Navigation(to: string, replace: bool, state: SignupState)

  datatype Outcome =
    | Alerted(message: string)
    | SignedUp(user: User, nav: Navigation)

  const MismatchAlert: string := "Passwords do not match!"
  const AvatarAlert: string := "Please select an avatar!"

  /** `!avatar`: null and the empty string are both falsy. */
  predicate HasAvatar(form: Form) {
    form.avatar.Some? && form.avatar.value != ""
  }

  /**
   * The user record passed to `login`: `id` is the submission time stamp,
   * the name is the username or "Student" when it is empty.
   */
  function NewUser(form: Form, stamp: string): (u: User)
    ensures u.name == Some(OrElse(Some(form.username), "Student"))
    ensures u.id == Some(stamp) && u.email == Some(form.email) && u.avatar == form.avatar && u.age == Some(form.age)
    ensures u.xp.None? && u.badges.None? && u.level.None? && u.className.None? && u.school.None?
  {
    Blank().(id := Some(stamp), name := Some(OrElse(Some(form.username), "Student")), email := Some(form.email),
             avatar := form.avatar, age := Some(form.age))
  }

  /** `location.state?.from?.pathname || "/home"`. */
  function RedirectTarget(fromPath: Option<string>): (to: string)
    ensures to != ""
    ensures fromPath.Some? && fromPath.value != "" ==> to == fromPath.value
    ensures fromPath.None? || fromPath.value == "" ==> to == "/home"
  {
    OrElse(fromPath, "/home")
  }

  /**
   * `handleSubmit`: what the submission decides. The password check comes
   * first, then the avatar check; a valid form signs up with a replacing
   * navigation whose state marks the arrival from sign-up.
   */
  function Submit(form: Form, fromPath: Option<string>, stamp: string): (o: Outcome)
    ensures form.password != form.confirmPassword ==> o == Alerted(MismatchAlert)
    ensures form.password == form.confirmPassword && !HasAvatar(form) ==> o == Alerted(AvatarAlert)
    ensures o.SignedUp? <==> form.password == form.confirmPassword && HasAvatar(form)
    ensures o.SignedUp? ==>
      && o.user == NewUser(form, stamp)
      && o.nav == Navigation(RedirectTarget(fromPath), true, SignupState(true, Some(form.username), form.avatar))
  {
    if form.password != form.confirmPassword then Alerted(MismatchAlert)
    else if !HasAvatar(form) then Alerted(AvatarAlert)
    else SignedUp(NewUser(form, stamp),
                  Navigation(RedirectTarget(fromPath), true, SignupState(true, Some(form.username), form.avatar)))
  }

  /** A signed-up user always has a non-empty name and the chosen avatar. */
  lemma SignedUpUserIsComplete(form: Form, fromPath: Option<string>, stamp: string)
    requires Submit(form, fromPath, stamp).SignedUp?
    ensures var u := Submit(form, fromPath, stamp).user;
      u.name.Some? && u.name.value != "" && u.avatar == form.avatar && u.avatar.Some? && u.avatar.value != ""
    ensures form.username != "" ==> Submit(form, fromPath, stamp).user.name == Some(form.username)
    ensures form.username == "" ==> Submit(form, fromPath, stamp).user.name == Some("Student")
  {
  }

  /** Mismatched passwords are reported even when no avatar was picked. */
  lemma MismatchReportedFirst(form: Form, fromPath: Option<string>, stamp: string)
    requires form.password != form.confirmPassword && form.avatar.None?
    ensures Submit(form, fromPath, stamp) == Alerted(MismatchAlert)
  {
  }

  /** The authentication context: the signed-in user, or none. */
  class Auth {
    var user: Option<User>

    constructor (stored: Option<User>)
      ensures user == stored
    {
      user := stored;
    }

    /** `login(userObj)`. */
    method Login(u: User)
      modifies this
      ensures user == Some(u)
    {
      user := Some(u);
    }
  }

  /**
   * The submit handler against the authentication context: a rejected
   * form shows an alert and leaves the signed-in user alone; an accepted
   * one logs the new user in and navigates.
   */
  method HandleSubmit(auth: Auth, form: Form, fromPath: Option<string>, stamp: string)
    returns (alert: Option<string>, nav: Option<Navigation>)
    modifies auth
    ensures var o := Submit(form, fromPath, stamp);
      && (o.Alerted? ==> alert == Some(o.message) && nav.None? && auth.user == old(auth.user))
      && (o.SignedUp? ==> alert.None? && nav == Some(o.nav) && auth.user == Some(o.user))
  {
    var o := Submit(form, fromPath, stamp);
    if o.Alerted? {
      return Some(o.message), None;
    }
    auth.Login(o.user);
    return None, Some(o.nav);
  }
}
