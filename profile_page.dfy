/**
 * The profile page: the signed-in user's name, e-mail, avatar and XP with
 * their fallbacks, the sample leaderboard with the user merged in, and the
 * test that decides whether the avatar is drawn as an image or as an
 * emoji.
 */
module ProfilePage {
  import opened Wrappers
  import opened JsText
  import opened AuthUser

  /** `user?.name || "EcoExplorer"`: a missing or empty name falls back. */
  function Username(user: Option<User>): (name: string)
    ensures name != ""
    ensures user.Some? && user.value.name.Some? && user.value.name.value != "" ==> name == user.value.name.value
  {
    OrElse(if user.Some? then user.value.name else None, "EcoExplorer")
  }

  /** `user?.email || "—"`. */
  function Email(user: Option<User>): (email: string)
    ensures email != ""
    ensures user.Some? && user.value.email.Some? && user.value.email.value != "" ==> email == user.value.email.value
  {
    OrElse(if user.Some? then user.value.email else None, "—")
  }

  /** `user?.avatar ?? "🪴"`: only a missing avatar falls back; an empty one is kept. */
  function Avatar(user: Option<User>): (avatar: string)
    ensures user.Some? && user.value.avatar.Some? ==> avatar == user.value.avatar.value
    ensures user.None? || user.value.avatar.None? ==> avatar == "🪴"
  {
    if user.Some? then user.value.avatar.GetOr("🪴") else "🪴"
  }

  /** `Number(user?.xp ?? 0)`. */
  function Xp(user: Option<User>): (xp: int)
    ensures user.Some? && user.value.xp.Some? ==> xp == user.value.xp.value
    ensures user.None? || user.value.xp.None? ==> xp == 0
  {
    if user.Some? then user.value.xp.GetOr(0) else 0
  }

  /** One row of the sample leaderboard. */
  datatype Entry = Entry(name: string, avatar: string, xp: int, level: int)

  const BaseLeaderboard: seq<Entry> := [
    Entry("Aarav", "🦁", 120, 5),
    Entry("Meera", "🦋", 110, 4),
    Entry("Rohan", "🐬", 95, 4),
    Entry("Anika", "🌿", 80, 3),
    Entry("Dev", "🐢", 70, 3)
  ]

  /** The row that stands for the user: level 1. */
  function You(user: Option<User>): (y: Entry)
    ensures y.name == Username(user) && y.avatar == Avatar(user) && y.xp == Xp(user) && y.level == 1
  {
    Entry(Username(user), Avatar(user), Xp(user), 1)
  }

  predicate HasName(board: seq<Entry>, name: string) {
    exists i :: 0 <= i < |board| && board[i].name == name
  }

  /** The rows named as `you` take the user's avatar and the higher of the two XP values. */
  function Adopt(board: seq<Entry>, you: Entry): (r: seq<Entry>)
    ensures |r| == |board|
    ensures forall i :: 0 <= i < |board| ==>
      r[i] == if board[i].name == you.name
              then board[i].(avatar := you.avatar, xp := if board[i].xp >= you.xp then board[i].xp else you.xp)
              else board[i]
  {
    seq(|board|, i requires 0 <= i < |board| =>
      if board[i].name == you.name
      then board[i].(avatar := you.avatar, xp := if board[i].xp >= you.xp then board[i].xp else you.xp)
      else board[i])
  }

  /** A row with the user's name carries the user's avatar and at least the user's XP once adopted. */
  lemma AdoptKeepsYou(board: seq<Entry>, you: Entry)
    requires HasName(board, you.name)
    ensures exists i :: 0 <= i < |board| && var a := Adopt(board, you)[i];
      a.name == you.name && a.avatar == you.avatar && a.xp >= you.xp
  {
    var k :| 0 <= k < |board| && board[k].name == you.name;
    assert Adopt(board, you)[k].name == you.name;
  }

  /**
   * The user merged into a board: rows with the user's name take the
   * user's avatar and keep the higher XP (and their level); without such
   * a row the user is put first.
   */
  function Merge(board: seq<Entry>, you: Entry): (r: seq<Entry>)
    ensures HasName(board, you.name) ==> |r| == |board|
    ensures !HasName(board, you.name) ==> r == [you] + board
    ensures HasName(board, you.name) ==> r == Adopt(board, you)
    ensures HasName(board, you.name) ==> forall i :: 0 <= i < |board| && board[i].name != you.name ==> r[i] == board[i]
    ensures exists i :: 0 <= i < |r| && r[i].name == you.name && r[i].avatar == you.avatar && r[i].xp >= you.xp
  {
    if HasName(board, you.name) then
      AdoptKeepsYou(board, you);
      Adopt(board, you)
    else
      var r := [you] + board;
      assert r[0] == you;
      r
  }

  /** Merging the same user again changes nothing. */
  lemma MergeIdempotent(board: seq<Entry>, you: Entry)
    ensures Merge(Merge(board, you), you) == Merge(board, you)
  {
    var once := Merge(board, you);
    if !HasName(board, you.name) {
      assert once[0] == you;
      assert HasName(once, you.name);
    }
  }

  /** No row of the merged board loses XP, and the names stay in place. */
  lemma MergeNeverLowers(board: seq<Entry>, you: Entry)
    ensures HasName(board, you.name) ==> forall i :: 0 <= i < |board| ==>
      Merge(board, you)[i].name == board[i].name && Merge(board, you)[i].xp >= board[i].xp
    ensures !HasName(board, you.name) ==> forall i :: 0 <= i < |board| ==>
      Merge(board, you)[i + 1].name == board[i].name && Merge(board, you)[i + 1].xp >= board[i].xp
  {
    var r := Merge(board, you);
    if HasName(board, you.name) {
      assert r == Adopt(board, you);
    } else {
      forall i | 0 <= i < |board| ensures r[i + 1] == board[i] {
        assert ([you] + board)[i + 1] == board[i];
      }
    }
  }

  /** `leaderboard`: the sample board with the signed-in user merged in. */
  function Leaderboard(user: Option<User>): (r: seq<Entry>)
    ensures 5 <= |r| <= 6
    ensures exists i :: 0 <= i < |r| && r[i].name == Username(user) && r[i].xp >= Xp(user)
  {
    Merge(BaseLeaderboard, You(user))
  }

  /** A sample player's name is merged in place; any other name joins at the top. */
  lemma LeaderboardShape(user: Option<User>)
    ensures HasName(BaseLeaderboard, Username(user)) ==> |Leaderboard(user)| == 5
    ensures !HasName(BaseLeaderboard, Username(user)) ==> Leaderboard(user)[0] == You(user) && |Leaderboard(user)| == 6
  {
  }

  /** `/^(https?:|data:|\/|\.{1,2}\/)/.test(avatar)`. */
  predicate IsImageLike(avatar: string) {
    || StartsWith(avatar, "http:") || StartsWith(avatar, "https:") || StartsWith(avatar, "data:")
    || StartsWith(avatar, "/") || StartsWith(avatar, "./") || StartsWith(avatar, "../")
  }

  /**
   * The same test read character by character, as the pattern's
   * alternatives are: `http` with an optional `s` then `:`; `data:`; `/`;
   * one or two dots then `/`.
   */
  predicate MatchesImagePattern(a: string) {
    || (|a| >= 5 && a[0] == 'h' && a[1] == 't' && a[2] == 't' && a[3] == 'p'
        && (a[4] == ':' || (|a| >= 6 && a[4] == 's' && a[5] == ':')))
    || (|a| >= 5 && a[0] == 'd' && a[1] == 'a' && a[2] == 't' && a[3] == 'a' && a[4] == ':')
    || (|a| >= 1 && a[0] == '/')
    || (|a| >= 2 && a[0] == '.' && a[1] == '/')
    || (|a| >= 3 && a[0] == '.' && a[1] == '.' && a[2] == '/')
  }

  lemma IsImageLikeMatchesPattern(a: string)
    ensures IsImageLike(a) <==> MatchesImagePattern(a)
  {
    if |a| >= 6 && a[..6] == "https:" {
      assert a[0] == 'h' && a[4] == 's' && a[5] == ':';
    }
    if |a| >= 5 && a[..5] == "http:" {
      assert a[0] == 'h' && a[4] == ':';
    }
    if |a| >= 5 && a[..5] == "data:" {
      assert a[0] == 'd';
    }
    if |a| >= 3 && a[..3] == "../" {
      assert a[0] == '.' && a[2] == '/';
    }
    if |a| >= 2 && a[..2] == "./" {
      assert a[0] == '.';
    }
  }

  /** The fallback and the sample emoji avatars are drawn as emoji; web links and paths as images. */
  lemma AvatarKinds()
    ensures !IsImageLike("🪴")
    ensures forall e :: e in BaseLeaderboard ==> !IsImageLike(e.avatar)
    ensures IsImageLike("https://example.org/a.png") && IsImageLike("/avatars/a.png")
    ensures !IsImageLike("") && !IsImageLike(".avatar") && !IsImageLike("...")
  {
    IsImageLikeMatchesPattern("🪴");
    IsImageLikeMatchesPattern("");
    IsImageLikeMatchesPattern(".avatar");
    IsImageLikeMatchesPattern("...");
    IsImageLikeMatchesPattern("https://example.org/a.png");
    IsImageLikeMatchesPattern("/avatars/a.png");
    forall e | e in BaseLeaderboard ensures !IsImageLike(e.avatar) {
      IsImageLikeMatchesPattern(e.avatar);
    }
  }
}
