/**
 * The ten-question trivia round. A difficulty (avatar) is picked first;
 * each answer is chosen, submitted (which locks the question and scores
 * it) and after a 500 ms timeout the round advances or finishes. Only a
 * perfect round earns XP, awarded to the signed-in user at most once.
 *
 * Submitting is not guarded by the lock, and restarting does not cancel a
 * scheduled advance. Both are modelled as written (`SubmitAsWritten`,
 * `RestartAsWritten`) with a run that shows the effect, and corrected
 * (`Submit`, `Restart`); the invariant `Valid` holds for the corrected
 * operations.
 */
module TriviaQuiz {
  import opened Wrappers
  import opened JsText
  import opened AuthUser

  /** A question: how many options it offers and the index of the right one. */
  datatype Question = Question(optionCount: nat, answer: nat)

  const Questions: seq<Question> := [
    Question(4, 1), Question(3, 0), Question(3, 1), Question(3, 2), Question(3, 1),
    Question(3, 0), Question(3, 1), Question(3, 1), Question(3, 1), Question(3, 0)
  ]

  const Total: nat := 10

  lemma QuestionsWellFormed()
    ensures |Questions| == Total
    ensures forall i :: 0 <= i < |Questions| ==> Questions[i].answer < Questions[i].optionCount
  {
  }

  /** A difficulty tile of the picker. */
  datatype Avatar = Avatar(difficulty: string, icon: string)

  const Avatars: seq<Avatar> := [Avatar("easy", "🙂"), Avatar("moderate", "😎"), Avatar("hard", "🧠")]

  /** `xpFor`: 2 for easy, 4 for moderate, 5 for anything else. */
  function XpFor(difficulty: string): (xp: nat)
    ensures xp == 2 <==> difficulty == "easy"
    ensures xp == 4 <==> difficulty == "moderate"
    ensures xp == 2 || xp == 4 || xp == 5
  {
    if difficulty == "easy" then 2 else if difficulty == "moderate" then 4 else 5
  }

  /** `avatar?.difficulty || "easy"`. */
  function DifficultyOf(avatar: Option<Avatar>): (d: string)
    ensures avatar.None? ==> d == "easy"
    ensures avatar.Some? && avatar.value.difficulty != "" ==> d == avatar.value.difficulty
    ensures avatar.Some? && avatar.value.difficulty == "" ==> d == "easy"
  {
    OrElse(if avatar.Some? then Some(avatar.value.difficulty) else None, "easy")
  }

  /** `rewardXP`: the difficulty's XP for a finished perfect round, otherwise 0. */
  function RewardXP(finished: bool, score: nat, avatar: Option<Avatar>): (xp: nat)
    ensures xp > 0 <==> finished && score == Total
    ensures xp > 0 ==> xp == XpFor(DifficultyOf(avatar))
  {
    if finished && score == Total then XpFor(DifficultyOf(avatar)) else 0
  }

  /** The three tiles reward 2, 4 and 5 XP; a round without a tile counts as easy. */
  lemma PerfectRoundRewards()
    ensures RewardXP(true, Total, Some(Avatars[0])) == 2
    ensures RewardXP(true, Total, Some(Avatars[1])) == 4
    ensures RewardXP(true, Total, Some(Avatars[2])) == 5
    ensures RewardXP(true, Total, None) == 2
  {
  }

  /** How many of the answers, given in question order, are right. */
  function CorrectCount(answers: seq<nat>): (n: nat)
    requires |answers| <= Total
    ensures n <= |answers|
  {
    if answers == [] then 0
    else
      var k := |answers| - 1;
      CorrectCount(answers[..k]) + (if answers[k] == Questions[k].answer then 1 else 0)
  }

  /** All answers are right exactly when every one of them counts. */
  lemma {:induction false} CorrectCountFull(answers: seq<nat>)
    requires |answers| <= Total
    ensures CorrectCount(answers) == |answers| <==>
      forall i :: 0 <= i < |answers| ==> answers[i] == Questions[i].answer
  {
    if answers != [] {
      var k := |answers| - 1;
      var init := answers[..k];
      CorrectCountFull(init);
      if CorrectCount(answers) == |answers| {
        assert CorrectCount(init) == |init|;
        forall i | 0 <= i < |answers| ensures answers[i] == Questions[i].answer {
          if i < k { assert answers[i] == init[i]; }
        }
      }
      if forall i :: 0 <= i < |answers| ==> answers[i] == Questions[i].answer {
        assert forall i :: 0 <= i < |init| ==> init[i] == Questions[i].answer;
      }
    }
  }

  /** Answering one more question adds one exactly when the answer is right. */
  lemma CorrectCountStep(answers: seq<nat>, x: nat)
    requires |answers| < Total
    ensures CorrectCount(answers + [x]) ==
      CorrectCount(answers) + (if x == Questions[|answers|].answer then 1 else 0)
  {
    assert (answers + [x])[..|answers|] == answers;
  }

  class Quiz {
    var showPicker: bool
    var current: nat
    var score: nat
    var selected: Option<nat>
    var locked: bool
    var finished: bool
    var avatar: Option<Avatar>
    /** `awardedRef.current`. */
    var awarded: bool
    /** The `current + 1` captured by each submit whose timeout has not fired yet, oldest first. */
    var pending: seq<nat>
    /** The option submitted for each question so far. */
    ghost var answers: seq<nat>

    /** What every operation, as written or corrected, keeps. */
    predicate Shape()
      reads this
    {
      && current < Total
      && (forall i :: 0 <= i < |pending| ==> 1 <= pending[i] <= Total)
      && (selected.Some? ==> selected.value < Questions[current].optionCount)
    }

    /**
     * The round invariant: the answers submitted are one per question up
     * to the current one, the score counts the right ones, and an advance
     * is scheduled exactly while a question is locked and the round is
     * not finished.
     */
    ghost predicate Valid()
      reads this
    {
      && Shape()
      && |answers| == current + (if locked then 1 else 0)
      && score == CorrectCount(answers)
      && (locked ==> selected.Some? && answers[current] == selected.value)
      && (finished ==> locked && current == Total - 1)
      && (pending != [] <==> locked && !finished)
      && |pending| <= 1
      && (pending != [] ==> pending[0] == current + 1)
    }

    /** The reward shown for the round as it stands. */
    function Reward(): nat
      reads this
    {
      RewardXP(finished, score, avatar)
    }

    /** The picker is shown over question 1, nothing answered. */
    constructor ()
      ensures Valid()
      ensures showPicker && current == 0 && score == 0 && selected == None && !locked && !finished
      ensures avatar == None && !awarded && pending == [] && answers == []
    {
      showPicker, current, score, selected, locked, finished := true, 0, 0, None, false, false;
      avatar, awarded, pending, answers := None, false, [], [];
    }

    /** A difficulty tile is clicked. */
    method PickAvatar(a: Avatar)
      requires Shape() && showPicker && a in Avatars
      modifies this`avatar
      ensures old(Valid()) ==> Valid()
      ensures Shape() && avatar == Some(a)
    {
      avatar := Some(a);
    }

    /** The picker's Reset button. */
    method ClearAvatar()
      requires Shape() && showPicker
      modifies this`avatar
      ensures old(Valid()) ==> Valid()
      ensures Shape() && avatar == None
    {
      avatar := None;
    }

    /** The picker's Start Quiz button: closes the picker once a difficulty is picked. */
    method StartQuiz()
      requires Shape() && showPicker
      modifies this`showPicker
      ensures old(Valid()) ==> Valid()
      ensures Shape() && showPicker == (avatar == None)
    {
      if avatar == None {
        return;
      }
      showPicker := false;
    }

    /** `choose(idx)`: an option of the current question is clicked; ignored while locked. */
    method Choose(idx: nat)
      requires Shape() && !finished && idx < Questions[current].optionCount
      modifies this`selected
      ensures old(Valid()) ==> Valid()
      ensures Shape()
      ensures selected == if locked then old(selected) else Some(idx)
    {
      if !locked {
        selected := Some(idx);
      }
    }

    /**
     * `submit` as written: with an option selected it locks the question,
     * scores it and schedules the advance, even when the question is
     * already locked.
     */
    method SubmitAsWritten()
      requires Shape() && !finished
      modifies this`locked, this`score, this`pending, this`answers
      ensures Shape()
      ensures old(selected) == None ==>
        locked == old(locked) && score == old(score) && pending == old(pending) && answers == old(answers)
      ensures old(selected).Some? ==>
        && locked
        && score == old(score) + (if old(selected).value == Questions[current].answer then 1 else 0)
        && pending == old(pending) + [current + 1]
        && answers == old(answers) + [old(selected).value]
    {
      if selected == None {
        return;
      }
      locked := true;
      if selected.value == Questions[current].answer {
        score := score + 1;
      }
      pending := pending + [current + 1];
      answers := answers + [selected.value];
    }

    /**
     * `submit` as evidently intended: as written, but ignored while the
     * question is locked, so each question is scored once.
     */
    method Submit()
      requires Valid() && !finished
      modifies this`locked, this`score, this`pending, this`answers
      ensures Valid()
      ensures old(selected) == None || old(locked) ==>
        locked == old(locked) && score == old(score) && pending == old(pending)
      ensures old(selected).Some? && !old(locked) ==>
        && locked
        && score == old(score) + (if old(selected).value == Questions[current].answer then 1 else 0)
        && pending == [current + 1]
        && answers == old(answers) + [old(selected).value]
    {
      if selected == None || locked {
        return;
      }
      CorrectCountStep(answers, selected.value);
      locked := true;
      if selected.value == Questions[current].answer {
        score := score + 1;
      }
      pending := pending + [current + 1];
      answers := answers + [selected.value];
    }

    /**
     * The oldest advance timeout fires with its captured `next`: past the
     * last question the round finishes, otherwise it moves to `next`,
     * clears the selection and unlocks.
     */
    method AdvanceTimerFires()
      requires Shape() && pending != []
      modifies this`finished, this`current, this`selected, this`locked, this`pending
      ensures old(Valid()) ==> Valid()
      ensures Shape()
      ensures pending == old(pending[1..])
      ensures old(pending[0]) >= Total ==>
        finished && current == old(current) && selected == old(selected) && locked == old(locked)
      ensures old(pending[0]) < Total ==>
        current == old(pending[0]) && selected == None && !locked && finished == old(finished)
    {
      var next := pending[0];
      pending := pending[1..];
      if next >= Total {
        finished := true;
      } else {
        current, selected, locked := next, None, false;
      }
    }

    /** `restart` as written: the round is reset but a scheduled advance still fires. */
    method RestartAsWritten(resetAvatar: bool)
      requires Shape()
      modifies this
      ensures Shape()
      ensures current == 0 && score == 0 && selected == None && !locked && !finished && !awarded
      ensures avatar == (if resetAvatar then None else old(avatar))
      ensures showPicker == (resetAvatar || old(showPicker))
      ensures pending == old(pending)
    {
      current, score, selected, locked, finished, awarded := 0, 0, None, false, false, false;
      answers := [];
      if resetAvatar {
        avatar, showPicker := None, true;
      }
    }

    /** `restart` as evidently intended: it also cancels the scheduled advance. */
    method Restart(resetAvatar: bool)
      requires Shape()
      modifies this
      ensures Valid()
      ensures current == 0 && score == 0 && selected == None && !locked && !finished && !awarded
      ensures avatar == (if resetAvatar then None else old(avatar))
      ensures showPicker == (resetAvatar || old(showPicker))
      ensures pending == [] && answers == []
    {
      current, score, selected, locked, finished, awarded := 0, 0, None, false, false, false;
      answers, pending := [], [];
      if resetAvatar {
        avatar, showPicker := None, true;
      }
    }

    /**
     * The award effect, given the signed-in user: for a finished perfect
     * round not yet awarded it returns the user with the reward added to
     * their XP, for `login` to store, and marks the round awarded.
     */
    method AwardEffect(user: Option<User>) returns (updated: Option<User>)
      requires Shape()
      modifies this`awarded
      ensures Shape()
      ensures old(Valid()) ==> Valid()
      ensures updated.Some? <==> finished && Reward() > 0 && user.Some? && !old(awarded)
      ensures updated.Some? ==> updated.value == WithAddedXP(user.value, Reward())
      ensures awarded == (old(awarded) || updated.Some?)
    {
      updated := None;
      if finished && Reward() > 0 && user.Some? && !awarded {
        awarded := true;
        updated := Some(WithAddedXP(user.value, Reward()));
      }
    }

    /** A finished round earns XP exactly when every one of the ten answers was right. */
    lemma FinishedRewardIffPerfect()
      requires Valid() && finished
      ensures |answers| == Total
      ensures Reward() > 0 <==> forall i :: 0 <= i < Total ==> answers[i] == Questions[i].answer
    {
      CorrectCountFull(answers);
    }

    /** The score never exceeds the number of questions submitted. */
    lemma ScoreBounded()
      requires Valid()
      ensures score <= current + (if locked then 1 else 0) <= Total
    {
    }
  }

  /** A new round on easy, with the right option of the first question selected. */
  method ChooseFirstAnswer() returns (q: Quiz)
    ensures fresh(q) && q.Valid() && !q.showPicker && q.avatar == Some(Avatars[0])
    ensures q.current == 0 && q.score == 0 && q.selected == Some(Questions[0].answer)
    ensures !q.locked && !q.finished && !q.awarded && q.pending == [] && q.answers == []
  {
    q := new Quiz();
    q.PickAvatar(Avatars[0]);
    q.StartQuiz();
    q.Choose(Questions[0].answer);
  }

  /**
   * Two clicks on Submit before the timeout fires score the same right
   * answer twice: the score is 2 with only the first question answered.
   */
  method DoubleSubmitCounterexample() returns (q: Quiz)
    ensures q.current == 0 && q.score == 2 && q.locked && q.pending == [1, 1]
  {
    q := ChooseFirstAnswer();
    q.SubmitAsWritten();
    q.SubmitAsWritten();
  }

  /** The corrected Submit scores a repeated click once. */
  method DoubleSubmitCorrected() returns (q: Quiz)
    ensures q.Valid() && q.current == 0 && q.score == 1 && q.locked && q.pending == [1]
  {
    q := ChooseFirstAnswer();
    q.Submit();
    q.Submit();
  }

  /** The right answers, except option 2 for the second question. */
  const OneWrong: seq<nat> := [1, 2, 1, 2, 1, 0, 1, 1, 1, 0]

  lemma OneWrongCount()
    ensures |OneWrong| == Total && CorrectCount(OneWrong) == Total - 1
  {
    var chosen := OneWrong;
    assert CorrectCount(chosen[..1]) == 1;
    assert chosen[..2][..1] == chosen[..1];
    assert CorrectCount(chosen[..2]) == 1;
    assert chosen[..3][..2] == chosen[..2];
    assert CorrectCount(chosen[..3]) == 2;
    assert chosen[..4][..3] == chosen[..3];
    assert CorrectCount(chosen[..4]) == 3;
    assert chosen[..5][..4] == chosen[..4];
    assert CorrectCount(chosen[..5]) == 4;
    assert chosen[..6][..5] == chosen[..5];
    assert CorrectCount(chosen[..6]) == 5;
    assert chosen[..7][..6] == chosen[..6];
    assert CorrectCount(chosen[..7]) == 6;
    assert chosen[..8][..7] == chosen[..7];
    assert CorrectCount(chosen[..8]) == 7;
    assert chosen[..9][..8] == chosen[..8];
    assert CorrectCount(chosen[..9]) == 8;
    assert chosen[..10][..9] == chosen[..9];
    assert CorrectCount(chosen[..10]) == 9;
  }

  /** Option `x` is chosen and submitted on a question before the last, and its timeout fires. */
  method AnswerAndAdvance(q: Quiz, x: nat)
    requires q.Shape() && !q.locked && !q.finished && q.pending == []
    requires q.current < Total - 1 && x < Questions[q.current].optionCount
    modifies q
    ensures q.Shape() && q.current == old(q.current) + 1 && q.answers == old(q.answers) + [x]
    ensures q.score == old(q.score) + (if x == Questions[old(q.current)].answer then 1 else 0)
    ensures !q.locked && !q.finished && q.pending == [] && q.avatar == old(q.avatar) && q.awarded == old(q.awarded)
  {
    q.Choose(x);
    q.SubmitAsWritten();
    q.AdvanceTimerFires();
  }

  /** Option `x` is chosen and submitted on the last question, and its timeout finishes the round. */
  method AnswerLast(q: Quiz, x: nat)
    requires q.Shape() && !q.locked && !q.finished && q.pending == []
    requires q.current == Total - 1 && x < Questions[q.current].optionCount
    modifies q
    ensures q.Shape() && q.finished && q.answers == old(q.answers) + [x]
    ensures q.score == old(q.score) + (if x == Questions[Total - 1].answer then 1 else 0)
    ensures q.avatar == old(q.avatar) && q.awarded == old(q.awarded)
  {
    q.Choose(x);
    q.SubmitAsWritten();
    q.AdvanceTimerFires();
  }

  /** Double submit of the right first answer, then a wrong second answer. */
  method DoubleSubmitThenWrong() returns (q: Quiz)
    ensures fresh(q) && q.Shape() && q.current == 2 && q.score == 2 && q.answers == [1, 1, 2]
    ensures !q.locked && !q.finished && !q.awarded && q.pending == [] && q.avatar == Some(Avatars[0])
  {
    q := ChooseFirstAnswer();
    q.SubmitAsWritten();
    q.SubmitAsWritten();
    q.AdvanceTimerFires();
    q.AdvanceTimerFires();
    AnswerAndAdvance(q, 2);
  }

  /**
   * The double submit on the first question makes up for a wrong answer on
   * the second: `chosen` lists the option chosen for each question, nine
   * of them right; the round records the first one twice, finishes with a
   * score of 10 and awards the signed-in user the flawless reward.
   */
  method WrongAnswerRewardedCounterexample(u: User) returns (q: Quiz, chosen: seq<nat>, updated: Option<User>)
    ensures |chosen| == Total && CorrectCount(chosen) == Total - 1
    ensures q.answers == [chosen[0]] + chosen
    ensures q.finished && q.score == Total && q.Reward() == 2
    ensures updated == Some(WithAddedXP(u, 2))
  {
    chosen := OneWrong;
    OneWrongCount();
    q := DoubleSubmitThenWrong();
    QuestionsWellFormed();
    assert forall i :: 2 <= i < Total ==> OneWrong[i] == Questions[i].answer;
    while q.current < Total - 1
      invariant q.Shape() && 2 <= q.current <= Total - 1 && q.score == q.current
      invariant !q.locked && !q.finished && !q.awarded && q.pending == [] && q.avatar == Some(Avatars[0])
      invariant q.answers == [OneWrong[0]] + OneWrong[..q.current]
      decreases Total - q.current
    {
      assert OneWrong[..q.current + 1] == OneWrong[..q.current] + [OneWrong[q.current]];
      AnswerAndAdvance(q, OneWrong[q.current]);
    }
    assert OneWrong[..Total - 1] + [OneWrong[Total - 1]] == OneWrong;
    AnswerLast(q, OneWrong[Total - 1]);
    updated := q.AwardEffect(Some(u));
  }

  /** The first answer is submitted, then Change Difficulty is clicked before its timeout fires. */
  method SubmitThenChangeDifficulty() returns (q: Quiz)
    ensures fresh(q) && q.Shape() && q.showPicker && q.avatar == None && q.pending == [1]
    ensures q.current == 0 && q.score == 0 && q.selected == None && !q.locked && !q.finished
  {
    q := ChooseFirstAnswer();
    q.Submit();
    q.RestartAsWritten(true);
  }

  /**
   * Change Difficulty within 500 ms of a submit: the old timeout still
   * fires, so once a difficulty is picked again the new round opens on the
   * second question, with nothing scored.
   */
  method RestartCounterexample() returns (q: Quiz)
    ensures q.current == 1 && q.score == 0 && !q.locked && !q.finished && q.pending == []
    ensures !q.showPicker && q.avatar == Some(Avatars[2])
  {
    q := SubmitThenChangeDifficulty();
    q.AdvanceTimerFires();
    q.PickAvatar(Avatars[2]);
    q.StartQuiz();
  }
}
