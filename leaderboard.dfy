/**
 * The leaderboard: a mock roster, the signed-in user merged into it, a
 * class or school filter with an optional name search, ranking by XP and
 * the split into a podium of three and the rest, and the per-row progress
 * bar.
 *
 * `Array.prototype.sort` is stable, so ranking sorts by XP from high to
 * low and keeps the roster order among equal XP; `SortByXp` is a stable
 * insertion sort with those properties proved.
 */
module Leaderboard {
  import opened Wrappers
  import opened JsText
  import opened Seqs
  import opened AuthUser

  /** The roster's numeric ids, and `"me"` for the signed-in user. */
  datatype StudentId = Listed(n: nat) | Me

  /** One row; the avatar colour only affects rendering. */
  datatype Student = Student(id: StudentId, name: string, className: string, school: string, xp: int)

  datatype Ranked = Ranked(student: Student, rank: nat)

  const MockStudents: seq<Student> := [
    Student(Listed(1), "Srinidhi", "10-A", "Kennedy", 3120),
    Student(Listed(2), "Mitesh", "10-A", "Kennedy", 2890),
    Student(Listed(3), "Aakanksha", "9-B", "Kennedy", 1980),
    Student(Listed(4), "Lalith", "9-B", "Little Angels", 2440),
    Student(Listed(5), "Spandhan", "10-A", "Little Angels", 3310),
    Student(Listed(6), "Rupak", "8-C", "Little Angels", 1730),
    Student(Listed(7), "Zoya I.", "10-A", "Silver Oaks", 2650),
    Student(Listed(8), "Kabir T.", "9-B", "Silver Oaks", 2205),
    Student(Listed(9), "Meera P.", "9-B", "Kennedy", 1980)
  ]

  // ---------------------------------------------------------------- ranking

  /** Ordered from high to low XP. */
  predicate SortedByXp(s: seq<Student>) {
    forall i, j :: 0 <= i < j < |s| ==> s[i].xp >= s[j].xp
  }

  /** Puts `x` in front of the first element with no more XP than it has. */
  function Insert(x: Student, t: seq<Student>): (r: seq<Student>)
    ensures multiset(r) == multiset(t) + multiset{x}
  {
    if t == [] || t[0].xp <= x.xp then [x] + t
    else
      assert t == [t[0]] + t[1..];
      [t[0]] + Insert(x, t[1..])
  }

  /** An upper bound on the XP of `x` and of every element of `t` bounds the result too. */
  lemma {:induction false} InsertBounded(x: Student, t: seq<Student>, bound: int)
    requires x.xp <= bound && forall i :: 0 <= i < |t| ==> t[i].xp <= bound
    ensures forall i :: 0 <= i < |Insert(x, t)| ==> Insert(x, t)[i].xp <= bound
  {
    if t != [] && t[0].xp > x.xp {
      InsertBounded(x, t[1..], bound);
    }
  }

  /** A head with at least the XP of every element keeps a sorted list sorted. */
  lemma ConsSorted(h: Student, s: seq<Student>)
    requires SortedByXp(s) && forall i :: 0 <= i < |s| ==> s[i].xp <= h.xp
    ensures SortedByXp([h] + s)
  {
    var r := [h] + s;
    forall i, j | 0 <= i < j < |r| ensures r[i].xp >= r[j].xp {
      assert r[j] == s[j - 1];
      if i > 0 {
        assert r[i] == s[i - 1];
      }
    }
  }

  /** Inserting into a sorted list keeps it sorted. */
  lemma {:induction false} InsertSorted(x: Student, t: seq<Student>)
    requires SortedByXp(t)
    ensures SortedByXp(Insert(x, t))
  {
    if t != [] && t[0].xp > x.xp {
      InsertSorted(x, t[1..]);
      InsertBounded(x, t[1..], t[0].xp);
      ConsSorted(t[0], Insert(x, t[1..]));
    } else {
      ConsSorted(x, t);
    }
  }

  /** `[...items].sort((a, b) => b.xp - a.xp)`. */
  function SortByXp(s: seq<Student>): (r: seq<Student>)
    ensures multiset(r) == multiset(s) && |r| == |s|
    ensures SortedByXp(r)
  {
    if s == [] then []
    else
      assert s == [s[0]] + s[1..];
      var t := SortByXp(s[1..]);
      InsertSorted(s[0], t);
      Insert(s[0], t)
  }

  /** The students of `s` with exactly `v` XP, in order. */
  function WithXp(s: seq<Student>, v: int): (r: seq<Student>)
    ensures forall x :: x in r <==> x in s && x.xp == v
  {
    FilterMembers(s, (st: Student) => st.xp == v);
    Filter(s, (st: Student) => st.xp == v)
  }

  lemma {:induction false} InsertWithXp(x: Student, t: seq<Student>, v: int)
    ensures WithXp(Insert(x, t), v) == if x.xp == v then [x] + WithXp(t, v) else WithXp(t, v)
  {
    if t == [] || t[0].xp <= x.xp {
      var r := [x] + t;
      assert r[0] == x && r[1..] == t;
    } else {
      var r := [t[0]] + Insert(x, t[1..]);
      assert r[0] == t[0] && r[1..] == Insert(x, t[1..]);
      InsertWithXp(x, t[1..], v);
    }
  }

  /** Sorting is stable: students with the same XP keep their relative order. */
  lemma {:induction false} SortStable(s: seq<Student>, v: int)
    ensures WithXp(SortByXp(s), v) == WithXp(s, v)
  {
    if s != [] {
      SortStable(s[1..], v);
      InsertWithXp(s[0], SortByXp(s[1..]), v);
    }
  }

  /** The students of a ranking, in rank order. */
  function Students(r: seq<Ranked>): (s: seq<Student>)
    ensures |s| == |r| && forall i :: 0 <= i < |r| ==> s[i] == r[i].student
  {
    seq(|r|, i requires 0 <= i < |r| => r[i].student)
  }

  /** `rankByXP`: sorted by XP, ranks 1, 2, 3, ... in that order. */
  function RankByXp(items: seq<Student>): (r: seq<Ranked>)
    ensures |r| == |items| && multiset(Students(r)) == multiset(items)
    ensures forall i :: 0 <= i < |r| ==> r[i].rank == i + 1
    ensures forall i, j :: 0 <= i < j < |r| ==> r[i].student.xp >= r[j].student.xp
    ensures forall v :: WithXp(Students(r), v) == WithXp(items, v)
  {
    var sorted := SortByXp(items);
    var r := seq(|sorted|, i requires 0 <= i < |sorted| => Ranked(sorted[i], i + 1));
    assert Students(r) == sorted;
    forall v ensures WithXp(Students(r), v) == WithXp(items, v) {
      SortStable(items, v);
    }
    r
  }

  /** The first-ranked student has the most XP. */
  lemma TopRankHasMostXP(items: seq<Student>)
    requires items != []
    ensures forall st :: st in items ==> RankByXp(items)[0].student.xp >= st.xp
  {
    var r := RankByXp(items);
    forall st | st in items ensures r[0].student.xp >= st.xp {
      assert st in multiset(Students(r));
      var j :| 0 <= j < |r| && Students(r)[j] == st;
    }
  }

  // ---------------------------------------------------------------- merging the user

  /** `user.name || "You"` and the other fallbacks that make the user's row. */
  function You(u: User): (y: Student)
    ensures y.id == Me && y.xp == u.xp.GetOr(0)
    ensures y.name == OrElse(u.name, "You")
    ensures y.className == OrElse(u.className, "10-A") && y.school == OrElse(u.school, "Your School")
  {
    Student(Me, OrElse(u.name, "You"), OrElse(u.className, "10-A"), OrElse(u.school, "Your School"), u.xp.GetOr(0))
  }

  /** A row is the user's when it bears their name. */
  predicate NamedLike(s: seq<Student>, name: string) {
    exists i :: 0 <= i < |s| && s[i].name == name
  }

  /** Raises every row named as `you` to at least `you.xp`. */
  function RaiseNamed(s: seq<Student>, you: Student): (r: seq<Student>)
    ensures |r| == |s|
    ensures forall i :: 0 <= i < |s| ==>
      r[i] == if s[i].name == you.name then s[i].(xp := if s[i].xp >= you.xp then s[i].xp else you.xp) else s[i]
  {
    seq(|s|, i requires 0 <= i < |s| =>
      if s[i].name == you.name then s[i].(xp := if s[i].xp >= you.xp then s[i].xp else you.xp) else s[i])
  }

  /**
   * The user's row merged into a roster: rows with the same name keep the
   * higher XP, and without such a row the user is appended.
   */
  function MergeYou(s: seq<Student>, you: Student): (r: seq<Student>)
    ensures NamedLike(s, you.name) ==> |r| == |s|
    ensures !NamedLike(s, you.name) ==> r == s + [you]
    ensures NamedLike(s, you.name) ==> r == RaiseNamed(s, you)
    ensures forall i :: 0 <= i < |s| ==> r[i].id == s[i].id && r[i].name == s[i].name && r[i].xp >= s[i].xp
    ensures forall i :: 0 <= i < |s| && s[i].name != you.name ==> r[i] == s[i]
    ensures exists i :: 0 <= i < |r| && r[i].name == you.name && r[i].xp >= you.xp
  {
    if NamedLike(s, you.name) then
      var r := RaiseNamed(s, you);
      var k :| 0 <= k < |s| && s[k].name == you.name;
      assert r[k].name == you.name && r[k].xp >= you.xp;
      r
    else
      var r := s + [you];
      assert r[|s|] == you;
      r
  }

  /** Merging the same user twice changes nothing more. */
  lemma MergeYouIdempotent(s: seq<Student>, you: Student)
    ensures MergeYou(MergeYou(s, you), you) == MergeYou(s, you)
  {
    var once := MergeYou(s, you);
    if !NamedLike(s, you.name) {
      assert once[|s|] == you;
      assert NamedLike(once, you.name);
    }
  }

  /** `baseData`: the roster, with the signed-in user merged in. */
  function BaseData(user: Option<User>): (r: seq<Student>)
    ensures user.None? ==> r == MockStudents
    ensures user.Some? ==> r == MergeYou(MockStudents, You(user.value))
  {
    if user.None? then MockStudents else MergeYou(MockStudents, You(user.value))
  }

  /** `isMe`: the user's own row, or a roster row with the user's name. */
  predicate IsMe(user: Option<User>, s: Student) {
    user.Some? && (s.id == Me || s.name == OrElse(user.value.name, "You"))
  }

  /** A signed-in user always has a row on the board with at least their XP, marked as theirs. */
  lemma UserAlwaysListed(u: User)
    ensures var r := BaseData(Some(u));
      exists i :: 0 <= i < |r| && IsMe(Some(u), r[i]) && r[i].xp >= u.xp.GetOr(0)
  {
    var r := BaseData(Some(u));
    var i :| 0 <= i < |r| && r[i].name == You(u).name && r[i].xp >= You(u).xp;
    assert IsMe(Some(u), r[i]);
  }

  // ---------------------------------------------------------------- classes and schools

  /** `Array.from(new Set(s))`: each value once, in order of first occurrence. */
  function Dedup(s: seq<string>): (r: seq<string>)
    ensures forall x :: x in r <==> x in s
    ensures forall i, j :: 0 <= i < j < |r| ==> r[i] != r[j]
    ensures s != [] ==> r != [] && r[0] == s[0]
  {
    if s == [] then []
    else
      var d := Dedup(s[..|s| - 1]);
      assert s == s[..|s| - 1] + [s[|s| - 1]];
      if s[|s| - 1] in d then d else d + [s[|s| - 1]]
  }

  /** A list without repetitions is its own deduplication. */
  lemma {:induction false} DedupDistinct(s: seq<string>)
    requires forall i, j :: 0 <= i < j < |s| ==> s[i] != s[j]
    ensures Dedup(s) == s
  {
    if s != [] {
      var init := s[..|s| - 1];
      assert forall i, j :: 0 <= i < j < |init| ==> init[i] != init[j];
      DedupDistinct(init);
      assert s[|s| - 1] !in init by {
        forall i | 0 <= i < |init| ensures init[i] != s[|s| - 1] {
          assert init[i] == s[i];
        }
      }
    }
  }

  /** Deduplicating a prefix gives a prefix of the deduplication: values keep the order they first appear in. */
  lemma {:induction false} DedupPrefix(s: seq<string>, n: nat)
    requires n <= |s|
    ensures Dedup(s[..n]) <= Dedup(s)
    decreases |s| - n
  {
    if n < |s| {
      var init := s[..|s| - 1];
      DedupPrefix(init, n);
      assert init[..n] == s[..n];
    } else {
      assert s[..n] == s;
    }
  }

  /** `classes`: every class on the roster once, the first row's class first. */
  function Classes(data: seq<Student>): (r: seq<string>)
    ensures forall c :: c in r <==> exists st :: st in data && st.className == c
    ensures forall i, j :: 0 <= i < j < |r| ==> r[i] != r[j]
    ensures data != [] ==> r != [] && r[0] == data[0].className
  {
    var names := seq(|data|, i requires 0 <= i < |data| => data[i].className);
    assert forall c :: c in names <==> exists st :: st in data && st.className == c by {
      forall c ensures c in names <==> exists st :: st in data && st.className == c {
        if c in names {
          var i :| 0 <= i < |names| && names[i] == c;
          assert data[i] in data;
        }
        if exists st :: st in data && st.className == c {
          var st :| st in data && st.className == c;
          var i :| 0 <= i < |data| && data[i] == st;
          assert names[i] == c;
        }
      }
    }
    Dedup(names)
  }

  /** `schools`: every school on the roster once, the first row's school first. */
  function Schools(data: seq<Student>): (r: seq<string>)
    ensures forall c :: c in r <==> exists st :: st in data && st.school == c
    ensures forall i, j :: 0 <= i < j < |r| ==> r[i] != r[j]
    ensures data != [] ==> r != [] && r[0] == data[0].school
  {
    var names := seq(|data|, i requires 0 <= i < |data| => data[i].school);
    assert forall c :: c in names <==> exists st :: st in data && st.school == c by {
      forall c ensures c in names <==> exists st :: st in data && st.school == c {
        if c in names {
          var i :| 0 <= i < |names| && names[i] == c;
          assert data[i] in data;
        }
        if exists st :: st in data && st.school == c {
          var st :| st in data && st.school == c;
          var i :| 0 <= i < |data| && data[i] == st;
          assert names[i] == c;
        }
      }
    }
    Dedup(names)
  }

  /** `classes[0] || ""` and `schools[0] || ""`: the first choice, or none. */
  function FirstOr(choices: seq<string>): (r: string)
    ensures choices != [] ==> r == choices[0]
    ensures choices == [] ==> r == ""
  {
    if choices == [] then "" else choices[0]
  }

  /** The initial class selection is the class of the first row. */
  lemma InitialClassIsFirstRow(data: seq<Student>)
    requires data != []
    ensures FirstOr(Classes(data)) == data[0].className
  {
  }

  // ---------------------------------------------------------------- filtering

  datatype Mode = ByClass | BySchool

  /** The row is in the selected class, or school, according to the mode. */
  predicate InGroup(mode: Mode, selClass: string, selSchool: string, s: Student) {
    if mode == ByClass then s.className == selClass else s.school == selSchool
  }

  /** A blank query matches everyone; otherwise a case-insensitive substring of the name. */
  predicate NameMatches(query: string, s: Student) {
    Trim(query) != "" ==> Contains(ToLower(s.name), ToLower(query))
  }

  /** Shown by the filters: in the selected group and matching the query. */
  predicate Visible(mode: Mode, selClass: string, selSchool: string, query: string, s: Student) {
    InGroup(mode, selClass, selSchool, s) && NameMatches(query, s)
  }

  /** `base`: the rows of the selected class or school, in order. */
  function GroupRows(mode: Mode, selClass: string, selSchool: string, data: seq<Student>): (r: seq<Student>)
    ensures forall st :: st in r <==> st in data && InGroup(mode, selClass, selSchool, st)
  {
    FilterMembers(data, (st: Student) => InGroup(mode, selClass, selSchool, st));
    Filter(data, (st: Student) => InGroup(mode, selClass, selSchool, st))
  }

  /** `byName`: a blank query keeps every row, otherwise the rows whose name matches. */
  function NameRows(query: string, base: seq<Student>): (r: seq<Student>)
    ensures forall st :: st in r <==> st in base && NameMatches(query, st)
  {
    FilterMembers(base, (st: Student) => NameMatches(query, st));
    if Trim(query) != "" then Filter(base, (st: Student) => NameMatches(query, st)) else base
  }

  /** The visible rows keep each occurrence of a matching row and drop the others. */
  lemma VisibleRowsCount(mode: Mode, selClass: string, selSchool: string, query: string, data: seq<Student>)
    ensures forall st :: (multiset(NameRows(query, GroupRows(mode, selClass, selSchool, data)))[st] ==
      if Visible(mode, selClass, selSchool, query, st) then multiset(data)[st] else 0)
  {
    FilterMultiset(data, (st: Student) => InGroup(mode, selClass, selSchool, st));
    if Trim(query) != "" {
      FilterMultiset(GroupRows(mode, selClass, selSchool, data), (st: Student) => NameMatches(query, st));
    }
  }

  /** `filtered`: the group, narrowed by the name query, ranked. */
  function Filtered(mode: Mode, selClass: string, selSchool: string, query: string, data: seq<Student>): (r: seq<Ranked>)
    ensures forall st :: (multiset(Students(r))[st] ==
      if Visible(mode, selClass, selSchool, query, st) then multiset(data)[st] else 0)
    ensures forall i :: 0 <= i < |r| ==> r[i].rank == i + 1
    ensures forall i, j :: 0 <= i < j < |r| ==> r[i].student.xp >= r[j].student.xp
  {
    VisibleRowsCount(mode, selClass, selSchool, query, data);
    RankByXp(NameRows(query, GroupRows(mode, selClass, selSchool, data)))
  }

  /** A row is on the filtered board exactly when it is in the data and visible. */
  lemma FilteredMembers(mode: Mode, selClass: string, selSchool: string, query: string, data: seq<Student>)
    ensures forall st :: st in Students(Filtered(mode, selClass, selSchool, query, data)) <==>
      st in data && Visible(mode, selClass, selSchool, query, st)
  {
    var f := Students(Filtered(mode, selClass, selSchool, query, data));
    forall st ensures st in f <==> st in data && Visible(mode, selClass, selSchool, query, st) {
      assert st in f <==> st in multiset(f);
      assert st in data <==> st in multiset(data);
    }
  }

  /** `filtered.slice(0, 3)`. */
  function Podium(f: seq<Ranked>): (p: seq<Ranked>)
    ensures |p| == (if |f| < 3 then |f| else 3) && p == f[..|p|]
  {
    if |f| < 3 then f else f[..3]
  }

  /** `filtered.slice(3)`. */
  function Rest(f: seq<Ranked>): (q: seq<Ranked>)
    ensures |q| == if |f| < 3 then 0 else |f| - 3
  {
    if |f| < 3 then [] else f[3..]
  }

  /** The podium and the rest together are the whole ranking, in order. */
  lemma PodiumAndRest(f: seq<Ranked>)
    ensures Podium(f) + Rest(f) == f
  {
  }

  /**
   * Below the podium of a ranking, ranks start at 4 and every podium row
   * has at least the XP of every other row.
   */
  lemma RestBelowPodium(f: seq<Ranked>)
    requires forall i :: 0 <= i < |f| ==> f[i].rank == i + 1
    requires forall i, j :: 0 <= i < j < |f| ==> f[i].student.xp >= f[j].student.xp
    ensures forall i :: 0 <= i < |Rest(f)| ==> Rest(f)[i].rank == i + 4
    ensures forall p, q :: p in Podium(f) && q in Rest(f) ==> p.student.xp >= q.student.xp
  {
    forall p, q | p in Podium(f) && q in Rest(f) ensures p.student.xp >= q.student.xp {
      var i :| 0 <= i < |Podium(f)| && Podium(f)[i] == p;
      var j :| 0 <= j < |Rest(f)| && Rest(f)[j] == q;
      assert f[i] == p && f[j + 3] == q;
    }
  }

  // ---------------------------------------------------------------- progress bar

  /** JavaScript's `a % b` for `b > 0`: the remainder takes the sign of `a`. */
  function JsRem(a: int, b: int): (r: int)
    requires b > 0
    ensures a >= 0 ==> r == a % b
    ensures a < 0 ==> -b < r <= 0
  {
    if a >= 0 then a % b else -((-a) % b)
  }

  /**
   * `Math.min(100, Math.round((xp % 1000) / 10))`. `Math.round(x)` is
   * `floor(x + 0.5)`, so for an integer `r` it is `floor((r + 5) / 10)`,
   * which is Dafny's division by the positive 10.
   */
  function ProgressPct(xp: int): (pct: int)
    ensures -100 <= pct <= 100
    ensures xp >= 0 ==> 0 <= pct <= 100
  {
    var r := (JsRem(xp, 1000) + 5) / 10;
    if r < 100 then r else 100
  }

  /** For non-negative XP the bar shows progress within the current thousand. */
  lemma ProgressWithinThousand(xp: int)
    requires xp >= 0
    ensures ProgressPct(xp + 1000) == ProgressPct(xp)
    ensures ProgressPct(xp) == 100 <==> xp % 1000 >= 995
    ensures ProgressPct(xp) == 0 <==> xp % 1000 < 5
  {
    assert (xp + 1000) % 1000 == xp % 1000;
  }
}
