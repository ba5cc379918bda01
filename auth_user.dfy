/**
 * The user record that the authentication context stores and hands to the
 * pages. Every field is optional because the record is whatever object was
 * last passed to `login`.
 */
module AuthUser {
  import opened Wrappers

  datatype User = User(
    id: Option<string>,
    name: Option<string>,
    email: Option<string>,
    avatar: Option<string>,
    age: Option<string>,
    xp: Option<int>,
    badges: Option<seq<string>>,
    level: Option<int>,
    className: Option<string>,
    school: Option<string>)

  /** A record holding only the given fields. */
  function Blank(): User {
    User(None, None, None, None, None, None, None, None, None, None)
  }

  /** `{ ...user, xp: (user.xp || 0) + amount }`: only the xp field changes. */
  function WithAddedXP(u: User, amount: int): (r: User)
    ensures r.xp.Some? && r.xp.value == u.xp.GetOr(0) + amount
    ensures r.(xp := u.xp) == u
  {
    u.(xp := Some(u.xp.GetOr(0) + amount))
  }
}
