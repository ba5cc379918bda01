/**
 * The memory-match mini-game: twelve face-down cards, two of each of six
 * faces. Clicking flips a card; the second flip of a pair costs one move,
 * and a matching pair is added to the solved list. A timer turns the pair
 * back over; another reports completion once every card is solved.
 *
 * The shuffle is a parameter: `Array.prototype.sort` with a random
 * comparator returns some permutation of the doubled face list, and that
 * is all the model relies on.
 */
module EcoMemory {
  import opened Seqs

  datatype CardItem = CardItem(id: nat, emoji: string, name: string)

  const CardItems: seq<CardItem> := [
    CardItem(1, "🌍", "Earth"),
    CardItem(2, "🌱", "Seed"),
    CardItem(3, "💧", "Water"),
    CardItem(4, "♻️", "Recycle"),
    CardItem(5, "🌞", "Sun"),
    CardItem(6, "🌳", "Tree")
  ]

  /** A card on the table: a face and its position in the deal. */
  datatype Card = Card(item: CardItem, uniqueId: nat)

  /** `shuffled.map((card, index) => ({ ...card, uniqueId: index }))`. */
  function Deal(shuffled: seq<CardItem>): (cards: seq<Card>)
    ensures |cards| == |shuffled|
    ensures forall i :: 0 <= i < |cards| ==> cards[i].uniqueId == i && cards[i].item == shuffled[i]
  {
    seq(|shuffled|, i requires 0 <= i < |shuffled| => Card(shuffled[i], i))
  }

  /** The faces of a row of cards. */
  function Faces(cards: seq<Card>): (faces: seq<CardItem>)
    ensures |faces| == |cards| && forall i :: 0 <= i < |cards| ==> faces[i] == cards[i].item
  {
    seq(|cards|, i requires 0 <= i < |cards| => cards[i].item)
  }

  /** A shuffle of the doubled face list: some permutation of it. */
  predicate IsShuffle(shuffled: seq<CardItem>) {
    multiset(shuffled) == multiset(CardItems + CardItems)
  }

  /**
   * Any deal of a shuffle has 12 cards, each of the six faces exactly twice
   * and no other face, and uniqueIds 0 to 11.
   */
  lemma DealHasSixPairs(shuffled: seq<CardItem>)
    requires IsShuffle(shuffled)
    ensures var cards := Deal(shuffled);
      && |cards| == 12
      && (forall c :: c in CardItems ==> multiset(Faces(cards))[c] == 2)
      && (forall i :: 0 <= i < |cards| ==> cards[i].item in CardItems && cards[i].uniqueId == i)
  {
    var cards := Deal(shuffled);
    assert Faces(cards) == shuffled;
    ShuffleSize(shuffled);
    ShuffleFaces(shuffled);
  }

  lemma ShuffleSize(shuffled: seq<CardItem>)
    requires IsShuffle(shuffled)
    ensures |shuffled| == 12
  {
    assert |multiset(shuffled)| == |CardItems + CardItems|;
  }

  lemma ShuffleFaces(shuffled: seq<CardItem>)
    requires IsShuffle(shuffled)
    ensures forall i :: 0 <= i < |shuffled| ==> shuffled[i] in CardItems
  {
    forall i | 0 <= i < |shuffled| ensures shuffled[i] in CardItems {
      assert shuffled[i] in multiset(CardItems + CardItems);
    }
  }

  /** The face ids of the six faces are 1 to 6, so equal ids mean equal faces. */
  lemma FaceIdsDistinct()
    ensures forall i, j :: 0 <= i < j < |CardItems| ==> CardItems[i].id != CardItems[j].id
    ensures forall i :: 0 <= i < |CardItems| ==> CardItems[i].id == i + 1
  {
  }

  /** No value occurs twice in `s`. */
  predicate Distinct(s: seq<nat>) {
    forall i, j :: 0 <= i < j < |s| ==> s[i] != s[j]
  }

  /**
   * Solved cards are listed pair by pair: positions 2k and 2k+1 hold two
   * different cards of the same face.
   */
  ghost predicate SolvedInPairs(solved: seq<nat>, cards: seq<Card>) {
    && |solved| % 2 == 0
    && (forall x :: x in solved ==> x < |cards|)
    && Distinct(solved)
    && forall k :: 0 <= k < |solved| / 2 ==>
         solved[2 * k] < |cards| && solved[2 * k + 1] < |cards| &&
         cards[solved[2 * k]].item.id == cards[solved[2 * k + 1]].item.id
  }

  /** Appending two new, different cards of the same face keeps the solved list in pairs. */
  lemma AppendPairKeepsPairs(before: seq<nat>, cards: seq<Card>, a: nat, b: nat)
    requires SolvedInPairs(before, cards)
    requires a < |cards| && b < |cards| && a != b && a !in before && b !in before
    requires cards[a].item.id == cards[b].item.id
    ensures SolvedInPairs(before + [a, b], cards)
  {
    var after := before + [a, b];
    assert Distinct(after) by {
      forall i, j | 0 <= i < j < |after| ensures after[i] != after[j] {
        if j < |before| {
          assert after[i] == before[i] && after[j] == before[j];
        } else if i < |before| {
          assert after[i] in before;
        }
      }
    }
    forall k | 0 <= k < |after| / 2
      ensures after[2 * k] < |cards| && after[2 * k + 1] < |cards|
      ensures cards[after[2 * k]].item.id == cards[after[2 * k + 1]].item.id
    {
      if k < |before| / 2 {
        assert after[2 * k] == before[2 * k] && after[2 * k + 1] == before[2 * k + 1];
      }
    }
  }

  /** The set {0, ..., n - 1}. */
  function Below(n: nat): (s: set<nat>)
    ensures |s| == n && forall x :: x in s <==> 0 <= x < n
  {
    if n == 0 then {} else
      assert n - 1 !in Below(n - 1);
      Below(n - 1) + {n - 1}
  }

  /** The values listed in `s`. */
  function Elems(s: seq<nat>): (r: set<nat>)
    ensures forall x :: x in r <==> x in s
  {
    if s == [] then {} else {s[0]} + Elems(s[1..])
  }

  /** A list of distinct values has as many elements as values. */
  lemma {:induction false} DistinctCard(s: seq<nat>)
    requires Distinct(s)
    ensures |Elems(s)| == |s|
  {
    if s != [] {
      var rest := s[1..];
      assert Distinct(rest) by {
        forall i, j | 0 <= i < j < |rest| ensures rest[i] != rest[j] {
          assert rest[i] == s[i + 1] && rest[j] == s[j + 1];
        }
      }
      DistinctCard(rest);
      assert s[0] !in Elems(rest);
    }
  }

  /** A list of distinct positions below `n` that misses one of them is shorter than `n`. */
  lemma MissingShortens(solved: seq<nat>, n: nat, i: nat)
    requires Distinct(solved) && (forall x :: x in solved ==> x < n) && i < n && i !in solved
    ensures |solved| < n
  {
    DistinctCard(solved);
    var smaller := Below(n) - {i};
    assert Below(n) == smaller + {i};
    assert Elems(solved) <= smaller;
    SubsetCard(Elems(solved), smaller);
  }

  /** A list of `n` distinct positions below `n` covers every position below `n`. */
  lemma FullListCovers(solved: seq<nat>, n: nat)
    requires Distinct(solved) && (forall x :: x in solved ==> x < n) && |solved| == n
    ensures forall i :: 0 <= i < n ==> i in solved
  {
    forall i | 0 <= i < n ensures i in solved {
      if i !in solved {
        MissingShortens(solved, n, i);
      }
    }
  }

  /** A list of distinct positions that covers every position below `n` has length `n`. */
  lemma CoveringListIsFull(solved: seq<nat>, n: nat)
    requires Distinct(solved) && (forall x :: x in solved ==> x < n) && forall i :: 0 <= i < n ==> i in solved
    ensures |solved| == n
  {
    DistinctCard(solved);
    assert Elems(solved) == Below(n);
  }

  /**
   * A list of distinct positions below `n` has length `n` exactly when it
   * covers every position below `n`.
   */
  lemma CoverIff(solved: seq<nat>, n: nat)
    requires Distinct(solved) && forall x :: x in solved ==> x < n
    ensures |solved| == n <==> forall i :: 0 <= i < n ==> i in solved
  {
    if |solved| == n {
      FullListCovers(solved, n);
    }
    if forall i :: 0 <= i < n ==> i in solved {
      CoveringListIsFull(solved, n);
    }
  }

  /** `earnedXP`: 60 minus 2 per move, but never below 10. */
  function EarnedXP(moves: nat): (xp: nat)
    ensures 10 <= xp <= 60
  {
    if 60 - 2 * moves > 10 then 60 - 2 * moves else 10
  }

  /** More moves never earn more XP. */
  lemma EarnedXPNonIncreasing(m1: nat, m2: nat)
    requires m1 <= m2
    ensures EarnedXP(m2) <= EarnedXP(m1)
  {
  }

  /**
   * The table invariant: card `i` has uniqueId `i`; at most two distinct
   * cards are face up, a lone one not yet solved, a pair awaiting its
   * flip-back; the solved cards are in pairs, two per move at most.
   */
  ghost predicate TableValid(cards: seq<Card>, flipped: seq<nat>, solved: seq<nat>, moves: nat, flipBacks: nat) {
    && (forall i :: 0 <= i < |cards| ==> cards[i].uniqueId == i)
    && |flipped| <= 2
    && (forall i :: 0 <= i < |flipped| ==> flipped[i] < |cards|)
    && Distinct(flipped)
    && (|flipped| <= 1 ==> forall x :: x in flipped ==> x !in solved)
    && (|flipped| == 2 ==> flipBacks > 0)
    && SolvedInPairs(solved, cards)
    && |solved| <= 2 * moves
  }

  /** Flipping a second card keeps the table invariant, whether or not the pair matches. */
  lemma SecondFlipKeepsTable(cards: seq<Card>, flipped: seq<nat>, solved: seq<nat>, moves: nat, flipBacks: nat, second: nat)
    requires TableValid(cards, flipped, solved, moves, flipBacks)
    requires |flipped| == 1 && second < |cards| && second !in flipped && second !in solved
    ensures var first := flipped[0];
      var matched := cards[first].item.id == cards[second].item.id;
      TableValid(cards, [first, second], if matched then solved + [first, second] else solved, moves + 1, flipBacks + 1)
  {
    var first := flipped[0];
    assert first != second && first !in solved by { assert first in flipped; }
    if cards[first].item.id == cards[second].item.id {
      AppendPairKeepsPairs(solved, cards, first, second);
    }
  }

  class MemoryGame {
    var cards: seq<Card>
    var flipped: seq<nat>
    var solved: seq<nat>
    var moves: nat
    var gameOver: bool
    /** Flip-back timeouts (600 ms) scheduled and not yet fired. */
    var pendingFlipBacks: nat
    /** Completion timeouts (600 ms) scheduled and not yet fired. */
    var pendingCompletions: nat
    /** How many times the `onGameComplete` callback has been called. */
    var completionsReported: nat

    ghost predicate Valid()
      reads this
    {
      TableValid(cards, flipped, solved, moves, pendingFlipBacks)
    }

    /** The game is complete once every card of a non-empty deal is solved. */
    predicate IsComplete()
      reads this
    {
      |solved| == |cards| && |cards| > 0
    }

    /** Before the mount effect deals: no cards. */
    constructor ()
      ensures Valid()
      ensures cards == [] && flipped == [] && solved == [] && moves == 0 && !gameOver
      ensures pendingFlipBacks == 0 && pendingCompletions == 0 && completionsReported == 0
    {
      cards, flipped, solved, moves, gameOver := [], [], [], 0, false;
      pendingFlipBacks, pendingCompletions, completionsReported := 0, 0, 0;
    }

    /** `initializeGame`: deals a shuffle and clears flipped, solved, moves and game over. */
    method InitializeGame(shuffled: seq<CardItem>)
      requires Valid() && IsShuffle(shuffled)
      modifies this
      ensures Valid()
      ensures cards == Deal(shuffled) && |cards| == 12
      ensures flipped == [] && solved == [] && moves == 0 && !gameOver
      ensures pendingFlipBacks == old(pendingFlipBacks) && pendingCompletions == old(pendingCompletions)
      ensures completionsReported == old(completionsReported)
    {
      DealHasSixPairs(shuffled);
      cards := Deal(shuffled);
      flipped, solved, moves, gameOver := [], [], 0, false;
    }

    /**
     * `handleCardClick(uniqueId)`: ignored while two cards are face up or
     * when the card is already face up or solved. Otherwise the card is
     * flipped; a second flip costs one move, a matching pair joins the
     * solved list, and the flip-back timer is scheduled.
     */
    method HandleCardClick(uniqueId: nat)
      requires Valid() && uniqueId < |cards|
      modifies this`flipped, this`solved, this`moves, this`pendingFlipBacks, this`pendingCompletions
      ensures Valid()
      ensures var ignored := |old(flipped)| == 2 || uniqueId in old(flipped) || uniqueId in old(solved);
        && (ignored ==>
              flipped == old(flipped) && solved == old(solved) && moves == old(moves)
              && pendingFlipBacks == old(pendingFlipBacks) && pendingCompletions == old(pendingCompletions))
        && (!ignored && |old(flipped)| == 0 ==>
              flipped == [uniqueId] && solved == old(solved) && moves == old(moves)
              && pendingFlipBacks == old(pendingFlipBacks) && pendingCompletions == old(pendingCompletions))
        && (!ignored && |old(flipped)| == 1 ==> PairEvaluated(old(flipped)[0], uniqueId, old(solved), old(moves),
                                                               old(pendingFlipBacks), old(pendingCompletions)))
    {
      if |flipped| == 2 || uniqueId in flipped || uniqueId in solved {
        return;
      }
      if |flipped| + 1 == 2 {
        FlipSecond(uniqueId);
      } else {
        flipped := flipped + [uniqueId];
      }
    }

    /**
     * The state after the second card `second` of a pair was flipped over
     * `first`, from the given solved list, moves and timer counts.
     */
    ghost predicate PairEvaluated(first: nat, second: nat, solved0: seq<nat>, moves0: nat, flipBacks0: nat, completions0: nat)
      reads this
      requires first < |cards| && second < |cards|
    {
      var matched := cards[first].item.id == cards[second].item.id;
      && flipped == [first, second]
      && moves == moves0 + 1
      && pendingFlipBacks == flipBacks0 + 1
      && solved == (if matched then solved0 + [first, second] else solved0)
      && pendingCompletions == completions0 + (if matched && IsComplete() then 1 else 0)
    }

    /**
     * The second flip of `handleCardClick`: one move, a matching pair joins
     * the solved list (scheduling the completion check when that solves
     * every card), and the flip-back timer is scheduled.
     */
    method FlipSecond(uniqueId: nat)
      requires Valid() && |flipped| == 1 && uniqueId < |cards| && uniqueId !in flipped && uniqueId !in solved
      modifies this`flipped, this`solved, this`moves, this`pendingFlipBacks, this`pendingCompletions
      ensures Valid()
      ensures old(flipped)[0] < |cards|
      ensures PairEvaluated(old(flipped)[0], uniqueId, old(solved), old(moves), old(pendingFlipBacks), old(pendingCompletions))
    {
      var first := flipped[0];
      SecondFlipKeepsTable(cards, flipped, solved, moves, pendingFlipBacks, uniqueId);
      var matched := cards[first].item.id == cards[uniqueId].item.id;
      var newSolved := if matched then solved + [first, uniqueId] else solved;
      var complete := |newSolved| == |cards| && |cards| > 0;
      flipped, moves, solved := [first, uniqueId], moves + 1, newSolved;
      pendingFlipBacks := pendingFlipBacks + 1;
      if matched && complete {
        pendingCompletions := pendingCompletions + 1;
      }
    }

    /** The flip-back timeout fires: both cards turn face down again. */
    method FlipBack()
      requires Valid() && pendingFlipBacks > 0
      modifies this`flipped, this`pendingFlipBacks
      ensures Valid()
      ensures flipped == [] && pendingFlipBacks == old(pendingFlipBacks) - 1
    {
      flipped := [];
      pendingFlipBacks := pendingFlipBacks - 1;
    }

    /** The completion timeout fires: the callback is reported and the game is over. */
    method CompletionTimerFires()
      requires Valid() && pendingCompletions > 0
      modifies this`gameOver, this`pendingCompletions, this`completionsReported
      ensures Valid()
      ensures gameOver && pendingCompletions == old(pendingCompletions) - 1
      ensures completionsReported == old(completionsReported) + 1
    {
      completionsReported := completionsReported + 1;
      gameOver := true;
      pendingCompletions := pendingCompletions - 1;
    }

    /** Complete exactly when every card of a non-empty deal is in the solved list. */
    lemma CompleteIffAllSolved()
      requires Valid()
      ensures IsComplete() <==> |cards| > 0 && forall i :: 0 <= i < |cards| ==> i in solved
    {
      CoverIff(solved, |cards|);
    }

    /** A completed twelve-card deal took at least six moves, so earns at most 48 XP. */
    lemma CompletedGameXP()
      requires Valid() && IsComplete() && |cards| == 12
      ensures moves >= 6 && EarnedXP(moves) <= 48
    {
    }
  }
}
