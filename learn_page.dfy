/**
 * The Learn page: five lesson modules in an accordion whose open set the
 * page keeps, with an Expand All / Collapse All toggle, and a row of
 * stars showing each module's knowledge-check score.
 */
module LearnPage {
  import opened Seqs

  /** A lesson module; its title, text and visuals only affect rendering. */
  datatype LessonModule = LessonModule(id: string, knowledgeCheckScore: nat)

  const Modules: seq<LessonModule> := [
    LessonModule("m1", 3),
    LessonModule("m2", 5),
    LessonModule("m3", 2),
    LessonModule("m4", 4),
    LessonModule("m5", 1)
  ]

  /** `new Set(modules.map((m) => m.id))`. */
  const ModuleIds: set<string> := {"m1", "m2", "m3", "m4", "m5"}

  /** The id set has one id per module. */
  lemma ModuleIdsAreTheModules()
    ensures |ModuleIds| == |Modules| == 5
    ensures forall id :: id in ModuleIds <==> exists i :: 0 <= i < |Modules| && Modules[i].id == id
  {
    forall id | id in ModuleIds ensures exists i :: 0 <= i < |Modules| && Modules[i].id == id {
      var i := if id == "m1" then 0 else if id == "m2" then 1 else if id == "m3" then 2 else if id == "m4" then 3 else 4;
      assert Modules[i].id == id;
    }
  }

  /** Opens a closed id and closes an open one. */
  function Toggle(open: set<string>, id: string): (r: set<string>)
    ensures id in r <==> id !in open
    ensures r - {id} == open - {id}
  {
    if id in open then open - {id} else open + {id}
  }

  /** Toggling the same module twice restores the open set. */
  lemma ToggleTwice(open: set<string>, id: string)
    ensures Toggle(Toggle(open, id), id) == open
  {
  }

  /** Toggles of different modules commute. */
  lemma ToggleCommutes(open: set<string>, a: string, b: string)
    ensures Toggle(Toggle(open, a), b) == Toggle(Toggle(open, b), a)
  {
  }

  class Accordion {
    var openIds: set<string>

    /** Only module ids are ever opened. */
    ghost predicate Valid()
      reads this
    {
      openIds <= ModuleIds
    }

    /** `allOpen`: as many open ids as there are modules. */
    predicate AllOpen()
      reads this
    {
      |openIds| == |Modules|
    }

    /** Every module starts closed. */
    constructor ()
      ensures Valid() && openIds == {}
    {
      openIds := {};
    }

    /** A module's header is clicked. */
    method ToggleOne(id: string)
      requires Valid() && id in ModuleIds
      modifies this
      ensures Valid()
      ensures openIds == Toggle(old(openIds), id)
    {
      openIds := Toggle(openIds, id);
    }

    /** Expand All, or Collapse All when everything is open. */
    method ToggleAll()
      requires Valid()
      modifies this
      ensures Valid()
      ensures old(AllOpen()) ==> openIds == {}
      ensures !old(AllOpen()) ==> openIds == ModuleIds
    {
      if AllOpen() {
        openIds := {};
      } else {
        openIds := ModuleIds;
      }
    }

    /** The size test means what it says: every module is open. */
    lemma AllOpenIffEveryModule()
      requires Valid()
      ensures AllOpen() <==> openIds == ModuleIds
    {
      ModuleIdsAreTheModules();
      if AllOpen() {
        SubsetSameCard(openIds, ModuleIds);
      }
    }
  }

  /** After Expand All, a second click collapses everything. */
  method ExpandThenCollapse(a: Accordion)
    requires a.Valid() && a.openIds == {}
    modifies a
    ensures a.Valid() && a.openIds == {}
  {
    a.ToggleAll();
    ModuleIdsAreTheModules();
    a.ToggleAll();
  }

  /** `Stars`: star `i` of `outOf` is filled when `i < score`. */
  function Stars(score: int, outOf: nat): (filled: seq<bool>)
    ensures |filled| == outOf
    ensures forall i :: 0 <= i < outOf ==> (filled[i] <==> i < score)
  {
    seq(outOf, i requires 0 <= i < outOf => i < score)
  }

  /** How many stars are filled. */
  function FilledCount(stars: seq<bool>): nat {
    if stars == [] then 0 else FilledCount(stars[..|stars| - 1]) + (if stars[|stars| - 1] then 1 else 0)
  }

  /** The filled stars are the score, clamped to between 0 and `outOf`. */
  lemma {:induction false} StarsShowScore(score: int, outOf: nat)
    ensures FilledCount(Stars(score, outOf)) == if score < 0 then 0 else if score > outOf then outOf else score
  {
    if outOf > 0 {
      StarsShowScore(score, outOf - 1);
      assert Stars(score, outOf)[..outOf - 1] == Stars(score, outOf - 1);
    }
  }

  /** Filled stars come first: no empty star precedes a filled one. */
  lemma StarsFilledFirst(score: int, outOf: nat)
    ensures forall i, j :: 0 <= i < j < outOf && Stars(score, outOf)[j] ==> Stars(score, outOf)[i]
  {
  }

  /** Each module's stars show its knowledge-check score out of 5. */
  lemma ModuleStars()
    ensures forall m :: m in Modules ==> FilledCount(Stars(m.knowledgeCheckScore, 5)) == m.knowledgeCheckScore
  {
    forall m | m in Modules ensures FilledCount(Stars(m.knowledgeCheckScore, 5)) == m.knowledgeCheckScore {
      StarsShowScore(m.knowledgeCheckScore, 5);
    }
  }
}
