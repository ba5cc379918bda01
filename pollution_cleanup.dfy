/**
 * The pollution-cleanup mini-game: a 30-second countdown during which a
 * spawner adds pollutants (at most 20 on screen) and each click removes
 * one, scoring 5 plus 2 per combo step. The combo is only reset by a new
 * start, so within a session the combo equals the number of cleans.
 *
 * The countdown timeout, the spawner interval, the time-up effect and the
 * combo-banner timeout are separate steps. The countdown and the spawner
 * are only armed while their effect's condition holds, which their
 * `requires` state.
 */
module PollutionCleanup {
  import opened Seqs

  const Emojis: seq<string> := ["🗑️", "🚮", "🍂", "🥤", "📄", "🔋", "🧃", "🍫", "📱", "💡"]

  /** Length of a session, in seconds. */
  const GameSeconds: int := 30

  /** The spawner adds nothing while this many pollutants are on screen. */
  const MaxPollutants: nat := 20

  /**
   * One pollutant on screen: its id and the index of its emoji. Its
   * position and size are random floats that only affect rendering.
   */
  datatype Pollutant = Pollutant(id: int, emoji: nat)

  /** Points for a clean made with combo `combo`. */
  function CleanPoints(combo: nat): nat {
    5 + 2 * combo
  }

  /** The score after `n` cleans in one session: the k-th clean pays CleanPoints(k). */
  function CleanupScore(n: nat): nat {
    if n == 0 then 0 else CleanupScore(n - 1) + CleanPoints(n - 1)
  }

  lemma {:induction false} CleanupScoreClosedForm(n: nat)
    ensures CleanupScore(n) == 5 * n + n * (n - 1)
  {
    if n > 0 {
      CleanupScoreClosedForm(n - 1);
      assert (n - 1) * (n - 2) + 2 * (n - 1) == n * (n - 1);
    }
  }

  /** `ps.filter(p => p.id !== id)`. */
  function RemoveId(ps: seq<Pollutant>, id: int): (r: seq<Pollutant>)
    ensures forall p :: p in r <==> p in ps && p.id != id
    ensures |r| <= |ps|
  {
    FilterMembers(ps, (p: Pollutant) => p.id != id);
    Filter(ps, (p: Pollutant) => p.id != id)
  }

  /** Removing an id keeps the other pollutants in order: it distributes over concatenation. */
  lemma RemoveIdConcat(a: seq<Pollutant>, b: seq<Pollutant>, id: int)
    ensures RemoveId(a + b, id) == RemoveId(a, id) + RemoveId(b, id)
  {
    FilterConcat(a, b, (p: Pollutant) => p.id != id);
  }

  /** Removing an id that no pollutant carries changes nothing. */
  lemma RemoveAbsentId(ps: seq<Pollutant>, id: int)
    requires forall p :: p in ps ==> p.id != id
    ensures RemoveId(ps, id) == ps
  {
    FilterKeepsAll(ps, (p: Pollutant) => p.id != id);
  }

  /** Every occurrence of a pollutant with another id survives, and none with that id. */
  lemma RemoveIdCounts(ps: seq<Pollutant>, id: int)
    ensures forall p :: multiset(RemoveId(ps, id))[p] == if p.id != id then multiset(ps)[p] else 0
  {
    FilterMultiset(ps, (p: Pollutant) => p.id != id);
  }

  class PollutionGame {
    var score: nat
    var timeLeft: int
    var active: bool
    var pollutants: seq<Pollutant>
    var combo: nat
    var showCombo: bool
    var cleanedCount: nat
    /** Combo-banner timeouts (1 s) scheduled and not yet fired. */
    var pendingBannerHides: nat

    ghost predicate Valid()
      reads this
    {
      && 0 <= timeLeft <= GameSeconds
      && |pollutants| <= MaxPollutants
      && (forall p :: p in pollutants ==> p.emoji < |Emojis|)
      && combo == cleanedCount
      && score == CleanupScore(cleanedCount)
    }

    /** The game-over screen is shown exactly when the game is inactive with no time left. */
    predicate GameOverView()
      reads this
    {
      !active && timeLeft == 0
    }

    /** The start screen: inactive, full clock, nothing scored. */
    constructor ()
      ensures Valid()
      ensures score == 0 && timeLeft == GameSeconds && !active && pollutants == []
      ensures combo == 0 && !showCombo && cleanedCount == 0 && pendingBannerHides == 0
    {
      score, timeLeft, active, pollutants := 0, GameSeconds, false, [];
      combo, showCombo, cleanedCount, pendingBannerHides := 0, false, 0, 0;
    }

    /** `startGame`. */
    method StartGame()
      modifies this
      ensures Valid()
      ensures score == 0 && timeLeft == GameSeconds && pollutants == [] && combo == 0
      ensures cleanedCount == 0 && !showCombo && active
      ensures pendingBannerHides == old(pendingBannerHides)
    {
      score, timeLeft, pollutants, combo := 0, GameSeconds, [], 0;
      cleanedCount, showCombo, active := 0, false, true;
    }

    /** The countdown timeout fires; it is only armed while active with time left. */
    method Tick()
      requires Valid() && active && timeLeft > 0
      modifies this`timeLeft
      ensures Valid()
      ensures timeLeft == old(timeLeft) - 1
    {
      timeLeft := timeLeft - 1;
    }

    /** The effect run when `timeLeft` changes: at zero the game stops. */
    method TimeUpEffect()
      requires Valid()
      modifies this`active
      ensures Valid()
      ensures active == (old(active) && timeLeft != 0)
      ensures timeLeft == 0 ==> GameOverView()
    {
      if timeLeft == 0 {
        active := false;
      }
    }

    /**
     * The spawner interval fires; it is only armed while active. A new
     * pollutant is appended unless 20 are already on screen.
     */
    method Spawn(id: int, emoji: nat)
      requires Valid() && active && emoji < |Emojis|
      modifies this`pollutants
      ensures Valid()
      ensures old(|pollutants|) >= MaxPollutants ==> pollutants == old(pollutants)
      ensures old(|pollutants|) < MaxPollutants ==> pollutants == old(pollutants) + [Pollutant(id, emoji)]
    {
      if |pollutants| >= MaxPollutants {
        return;
      }
      pollutants := pollutants + [Pollutant(id, emoji)];
    }

    /**
     * `cleanPollution(id)`: removes the pollutants with that id, scores
     * CleanPoints(combo) with the combo before the click, then counts one
     * more clean and shows the combo banner.
     */
    method CleanPollution(id: int)
      requires Valid()
      modifies this
      ensures Valid()
      ensures pollutants == RemoveId(old(pollutants), id)
      ensures score == old(score) + CleanPoints(old(combo))
      ensures combo == old(combo) + 1 && cleanedCount == old(cleanedCount) + 1
      ensures showCombo && pendingBannerHides == old(pendingBannerHides) + 1
      ensures timeLeft == old(timeLeft) && active == old(active)
    {
      pollutants := RemoveId(pollutants, id);
      score := score + CleanPoints(combo);
      combo := combo + 1;
      cleanedCount := cleanedCount + 1;
      showCombo := true;
      pendingBannerHides := pendingBannerHides + 1;
    }

    /** The combo-banner timeout fires. */
    method HideComboBanner()
      requires Valid() && pendingBannerHides > 0
      modifies this`showCombo, this`pendingBannerHides
      ensures Valid()
      ensures !showCombo && pendingBannerHides == old(pendingBannerHides) - 1
    {
      showCombo := false;
      pendingBannerHides := pendingBannerHides - 1;
    }

    /**
     * Letting the clock run out: tick by tick, with the time-up effect
     * after each tick, the game reaches the game-over screen whatever was
     * cleaned.
     */
    method RunOutClock()
      requires Valid() && active
      modifies this`timeLeft, this`active
      ensures Valid() && GameOverView()
      ensures score == old(score) && cleanedCount == old(cleanedCount) && pollutants == old(pollutants)
      ensures combo == old(combo) && showCombo == old(showCombo) && pendingBannerHides == old(pendingBannerHides)
    {
      while timeLeft > 0
        invariant Valid() && (timeLeft > 0 ==> active)
        invariant score == old(score) && cleanedCount == old(cleanedCount) && pollutants == old(pollutants)
        decreases timeLeft
      {
        Tick();
        TimeUpEffect();
      }
      TimeUpEffect();
    }
  }

  /** Clicking twice from a fresh start scores 5 and then 7. */
  method TwoCleans(first: int, second: int) returns (g: PollutionGame)
    ensures g.Valid() && g.score == 12 && g.combo == 2 && g.cleanedCount == 2
  {
    g := new PollutionGame();
    g.StartGame();
    g.CleanPollution(first);
    assert g.score == 5;
    g.CleanPollution(second);
  }
}
