/**
 * The waste-sorting mini-game: the player is shown one catalog item at a
 * time and picks the bin it belongs in. A correct pick scores a base of 10
 * plus 2 per combo step; ten sorted items end the session. Items are drawn
 * from a pool of not-yet-used ids that refills once exhausted.
 *
 * The two delayed callbacks of a sort (the 1 s feedback timer and the 2 s
 * "next item" timer) are separate steps; the class counts how many of each
 * are scheduled.
 */
module WasteSorting {
  import opened Wrappers

  datatype Bin = Compost | Recycle | Trash

  datatype WasteItem = WasteItem(id: nat, bin: Bin)

  const Catalog: seq<WasteItem> := [
    WasteItem(1, Compost),
    WasteItem(2, Recycle),
    WasteItem(3, Trash),
    WasteItem(4, Recycle),
    WasteItem(5, Compost),
    WasteItem(6, Trash),
    WasteItem(7, Recycle),
    WasteItem(8, Compost),
    WasteItem(9, Trash),
    WasteItem(10, Recycle),
    WasteItem(11, Compost),
    WasteItem(12, Trash),
    WasteItem(13, Recycle),
    WasteItem(14, Compost),
    WasteItem(15, Trash)
  ]

  /** Number of sorts after which the session is over. */
  const TargetCount: nat := 10

  /** The catalog's ids. */
  const CatalogIds: set<nat> := {1, 2, 3, 4, 5, 6, 7, 8, 9, 10, 11, 12, 13, 14, 15}

  /** The ids are exactly those of the catalog's items: item `k` has id `k + 1`. */
  lemma CatalogIdsAreItemIds()
    ensures forall it :: it in Catalog ==> it.id in CatalogIds
    ensures forall id :: id in CatalogIds ==> 1 <= id <= |Catalog| && Catalog[id - 1].id == id
  {
  }

  /** Every catalog id has been used: the pool is empty. */
  predicate Exhausted(used: set<nat>) {
    CatalogIds <= used
  }

  /** The catalog items whose id is not in `used`, in catalog order. */
  function Available(used: set<nat>): (r: seq<WasteItem>)
    ensures forall it :: it in r <==> it in Catalog && it.id !in used
    ensures r == [] <==> Exhausted(used)
  {
    var r := AvailableFrom(Catalog, used);
    CatalogIdsAreItemIds();
    assert r == [] <==> forall it :: it in Catalog ==> it.id in used by {
      if r != [] { assert r[0] in r; }
    }
    assert r == [] <==> CatalogIds <= used by {
      if CatalogIds <= used {
        assert forall it :: it in Catalog ==> it.id in used;
      } else {
        var id :| id in CatalogIds && id !in used;
        assert Catalog[id - 1] in Catalog;
      }
    }
    r
  }

  function AvailableFrom(items: seq<WasteItem>, used: set<nat>): (r: seq<WasteItem>)
    ensures forall it :: it in r <==> it in items && it.id !in used
  {
    if items == [] then []
    else if items[0].id in used then AvailableFrom(items[1..], used)
    else [items[0]] + AvailableFrom(items[1..], used)
  }

  /** Points for a correct sort made with `combo` correct sorts in a row before it. */
  function SortPoints(combo: nat): nat {
    10 + 2 * combo
  }

  /** The combo after a history of outcomes: the number of trailing correct sorts. */
  function ComboOf(outcomes: seq<bool>): nat {
    if outcomes == [] then 0
    else if outcomes[|outcomes| - 1] then ComboOf(outcomes[..|outcomes| - 1]) + 1
    else 0
  }

  /** The score after a history of outcomes, each correct sort paying for the combo before it. */
  function ScoreOf(outcomes: seq<bool>): nat {
    if outcomes == [] then 0
    else
      var before := outcomes[..|outcomes| - 1];
      ScoreOf(before) + (if outcomes[|outcomes| - 1] then SortPoints(ComboOf(before)) else 0)
  }

  /** One more outcome: a correct sort pays for the combo before it and extends it; a wrong one resets it. */
  lemma ScoreStep(outcomes: seq<bool>, correct: bool)
    ensures ScoreOf(outcomes + [correct]) == ScoreOf(outcomes) + (if correct then SortPoints(ComboOf(outcomes)) else 0)
    ensures ComboOf(outcomes + [correct]) == if correct then ComboOf(outcomes) + 1 else 0
  {
    var h := outcomes + [correct];
    assert h[..|h| - 1] == outcomes;
  }

  /** The combo is exactly the length of the trailing run of correct sorts. */
  lemma {:induction false} ComboIsTrailingRun(outcomes: seq<bool>)
    ensures ComboOf(outcomes) <= |outcomes|
    ensures forall i :: |outcomes| - ComboOf(outcomes) <= i < |outcomes| ==> outcomes[i]
    ensures ComboOf(outcomes) < |outcomes| ==> !outcomes[|outcomes| - 1 - ComboOf(outcomes)]
  {
    if outcomes != [] {
      var before := outcomes[..|outcomes| - 1];
      ComboIsTrailingRun(before);
      if outcomes[|outcomes| - 1] {
        forall i | |outcomes| - ComboOf(outcomes) <= i < |outcomes| - 1 ensures outcomes[i] {
          assert outcomes[i] == before[i];
        }
        if ComboOf(outcomes) < |outcomes| {
          assert outcomes[|outcomes| - 1 - ComboOf(outcomes)] == before[|before| - 1 - ComboOf(before)];
        }
      }
    }
  }

  /** Further outcomes never lower the score. */
  lemma {:induction false} ScoreNeverDecreases(outcomes: seq<bool>, more: seq<bool>)
    ensures ScoreOf(outcomes) <= ScoreOf(outcomes + more)
  {
    if more == [] {
      assert outcomes + more == outcomes;
    } else {
      var all := outcomes + more;
      var fewer := more[..|more| - 1];
      assert all == (outcomes + fewer) + [more[|more| - 1]];
      ScoreNeverDecreases(outcomes, fewer);
      ScoreStep(outcomes + fewer, more[|more| - 1]);
    }
  }

  /** `n` correct sorts starting from combo `c` score n(10 + 2c) + n(n - 1). */
  function StreakScore(c: nat, n: nat): nat
    decreases n
  {
    if n == 0 then 0 else SortPoints(c) + StreakScore(c + 1, n - 1)
  }

  lemma {:induction false} StreakScoreClosedForm(c: nat, n: nat)
    ensures StreakScore(c, n) == n * (10 + 2 * c) + n * (n - 1)
    decreases n
  {
    if n > 0 {
      StreakScoreClosedForm(c + 1, n - 1);
      assert (n - 1) * (10 + 2 * (c + 1)) == (n - 1) * (10 + 2 * c) + 2 * (n - 1);
      assert (n - 1) * (n - 2) + 2 * (n - 1) == n * (n - 1);
    }
  }

  /** A session of `n` correct sorts in a row scores StreakScore(0, n) = 10n + n(n - 1). */
  lemma {:induction false} AllCorrectScore(n: nat)
    ensures ComboOf(seq(n, _ => true)) == n
    ensures ScoreOf(seq(n, _ => true)) == StreakScore(0, n) == 10 * n + n * (n - 1)
  {
    StreakScoreClosedForm(0, n);
    if n > 0 {
      AllCorrectScore(n - 1);
      var h := seq(n, _ => true);
      assert h[..n - 1] == seq(n - 1, _ => true);
      assert 10 * n + n * (n - 1) == 10 * (n - 1) + (n - 1) * (n - 2) + SortPoints(n - 1);
    }
  }

  class WasteSortingGame {
    var score: nat
    var currentItem: Option<WasteItem>
    var gameOver: bool
    var itemsSorted: nat
    var usedItems: set<nat>
    var combo: nat
    var showFact: bool
    /** Feedback timers (1 s) scheduled by sorts and not yet fired. */
    var pendingFeedback: nat
    /** "Next item" timers (2 s) scheduled and not yet fired. */
    var pendingNext: nat
    /** The outcomes of the sorts of the current session, oldest first. */
    ghost var outcomes: seq<bool>

    ghost predicate Valid()
      reads this
    {
      && usedItems <= CatalogIds
      && (currentItem.Some? ==> currentItem.value in Catalog)
      && (itemsSorted >= TargetCount ==> gameOver)
      && score == ScoreOf(outcomes)
      && combo == ComboOf(outcomes)
    }

    /** The state before the player presses "Start". */
    constructor ()
      ensures Valid()
      ensures score == 0 && currentItem == None && !gameOver && itemsSorted == 0
      ensures usedItems == {} && combo == 0 && !showFact
      ensures pendingFeedback == 0 && pendingNext == 0
    {
      score, currentItem, gameOver, itemsSorted := 0, None, false, 0;
      usedItems, combo, showFact := {}, 0, false;
      pendingFeedback, pendingNext := 0, 0;
      outcomes := [];
    }

    /**
     * `getRandomItem`: an item whose id is not yet used, which then becomes
     * used; when every id is used the pool is emptied and any catalog item
     * is returned.
     */
    method GetRandomItem() returns (item: WasteItem)
      requires Valid()
      modifies this`usedItems
      ensures Valid()
      ensures item in Catalog
      ensures !old(Exhausted(usedItems)) ==>
                item.id !in old(usedItems) && usedItems == old(usedItems) + {item.id}
      ensures old(Exhausted(usedItems)) ==> usedItems == {}
    {
      var available := Available(usedItems);
      if available == [] {
        usedItems := {};
        var k :| 0 <= k < |Catalog|;
        item := Catalog[k];
      } else {
        var k :| 0 <= k < |available|;
        item := available[k];
        assert item in available;
        CatalogIdsAreItemIds();
        usedItems := usedItems + {item.id};
      }
    }

    /** `nextItem`: ends the session after ten sorts, otherwise draws the next item. */
    method NextItem()
      requires Valid()
      modifies this
      ensures Valid()
      ensures old(itemsSorted) >= TargetCount ==>
                gameOver && currentItem == old(currentItem) && usedItems == old(usedItems)
                && showFact == old(showFact)
      ensures old(itemsSorted) < TargetCount ==>
                && currentItem.Some? && currentItem.value in Catalog && !showFact
                && gameOver == old(gameOver)
                && (!old(Exhausted(usedItems)) ==>
                      currentItem.value.id !in old(usedItems)
                      && usedItems == old(usedItems) + {currentItem.value.id})
                && (old(Exhausted(usedItems)) ==> usedItems == {})
      ensures score == old(score) && combo == old(combo) && itemsSorted == old(itemsSorted)
      ensures pendingFeedback == old(pendingFeedback) && pendingNext == old(pendingNext)
      ensures outcomes == old(outcomes)
    {
      if itemsSorted >= TargetCount {
        gameOver := true;
        return;
      }
      var item := GetRandomItem();
      currentItem := Some(item);
      showFact := false;
    }

    /** `startGame`: clears the counters, the pool and game over, then draws the first item. */
    method StartGame()
      requires Valid()
      modifies this
      ensures Valid()
      ensures score == 0 && itemsSorted == 0 && combo == 0 && !gameOver && !showFact
      ensures currentItem.Some? && currentItem.value in Catalog
      ensures usedItems == {currentItem.value.id}
      ensures pendingFeedback == old(pendingFeedback) && pendingNext == old(pendingNext)
      ensures outcomes == []
    {
      score, itemsSorted, gameOver := 0, 0, false;
      usedItems, combo, showFact := {}, 0, false;
      outcomes := [];
      assert 1 in CatalogIds;
      NextItem();
    }

    /**
     * `handleSort`: ignored without a current item. A correct bin adds
     * SortPoints(combo) and extends the combo; a wrong bin resets the combo
     * and leaves the score. Either way a feedback timer is scheduled.
     */
    method HandleSort(selected: Bin)
      requires Valid()
      modifies this`score, this`combo, this`pendingFeedback, this`outcomes
      ensures Valid()
      ensures old(currentItem) == None ==>
                score == old(score) && combo == old(combo) && pendingFeedback == old(pendingFeedback)
                && outcomes == old(outcomes)
      ensures old(currentItem).Some? ==>
                var correct := old(currentItem).value.bin == selected;
                && score == old(score) + (if correct then SortPoints(old(combo)) else 0)
                && combo == (if correct then old(combo) + 1 else 0)
                && pendingFeedback == old(pendingFeedback) + 1
                && outcomes == old(outcomes) + [correct]
      ensures score >= old(score)
      ensures currentItem == old(currentItem) && gameOver == old(gameOver)
      ensures itemsSorted == old(itemsSorted) && usedItems == old(usedItems)
      ensures showFact == old(showFact) && pendingNext == old(pendingNext)
    {
      if currentItem == None {
        return;
      }
      var correct := currentItem.value.bin == selected;
      var points := if correct then SortPoints(combo) else 0;
      ScoreStep(outcomes, correct);
      score := score + points;
      combo := if correct then combo + 1 else 0;
      outcomes := outcomes + [correct];
      pendingFeedback := pendingFeedback + 1;
    }

    /**
     * The feedback timer of a sort fires: one more item is sorted, right or
     * wrong; the tenth ends the session, any other shows the fact and
     * schedules the next item.
     */
    method FeedbackTimerFires()
      requires Valid() && pendingFeedback > 0
      modifies this
      ensures Valid()
      ensures itemsSorted == old(itemsSorted) + 1
      ensures pendingFeedback == old(pendingFeedback) - 1
      ensures itemsSorted >= TargetCount ==>
                gameOver && showFact == old(showFact) && pendingNext == old(pendingNext)
      ensures itemsSorted < TargetCount ==>
                gameOver == old(gameOver) && showFact && pendingNext == old(pendingNext) + 1
      ensures score == old(score) && combo == old(combo) && currentItem == old(currentItem)
      ensures usedItems == old(usedItems) && outcomes == old(outcomes)
    {
      pendingFeedback := pendingFeedback - 1;
      itemsSorted := itemsSorted + 1;
      if itemsSorted >= TargetCount {
        gameOver := true;
      } else {
        showFact := true;
        pendingNext := pendingNext + 1;
      }
    }

    /** The "next item" timer fires and runs `nextItem`. */
    method NextTimerFires()
      requires Valid() && pendingNext > 0
      modifies this
      ensures Valid()
      ensures pendingNext == old(pendingNext) - 1
      ensures score == old(score) && combo == old(combo) && itemsSorted == old(itemsSorted)
      ensures pendingFeedback == old(pendingFeedback) && outcomes == old(outcomes)
      ensures old(itemsSorted) >= TargetCount ==>
                gameOver && currentItem == old(currentItem) && usedItems == old(usedItems)
                && showFact == old(showFact)
      ensures old(itemsSorted) < TargetCount ==>
                && currentItem.Some? && currentItem.value in Catalog && !showFact
                && gameOver == old(gameOver)
                && (!old(Exhausted(usedItems)) ==>
                      currentItem.value.id !in old(usedItems)
                      && usedItems == old(usedItems) + {currentItem.value.id})
                && (old(Exhausted(usedItems)) ==> usedItems == {})
    {
      pendingNext := pendingNext - 1;
      NextItem();
    }
  }

  /**
   * Three correct sorts in a row from a fresh start score 10, 12 and 14:
   * 36 in all, with a combo of 3.
   */
  method ThreeCorrectSorts() returns (g: WasteSortingGame)
    ensures g.Valid() && g.score == 36 && g.combo == 3 && g.itemsSorted == 3
  {
    g := new WasteSortingGame();
    g.StartGame();
    g.HandleSort(g.currentItem.value.bin);
    assert g.score == 10;
    g.FeedbackTimerFires();
    g.NextTimerFires();
    g.HandleSort(g.currentItem.value.bin);
    assert g.score == 22;
    g.FeedbackTimerFires();
    g.NextTimerFires();
    g.HandleSort(g.currentItem.value.bin);
    g.FeedbackTimerFires();
  }
}
