/**
 * What a click on an option does to the selection map: the toggle inside the clicked
 * step and the cascade that clears every step reachable from a deselected option.
 */
module Selection {
  import opened Wrappers
  import opened Catalog
  import opened FlowUtils

  /** `s.filter(id => id !== x)`. */
  function RemoveAll(s: seq<string>, x: string): (r: seq<string>)
    ensures forall y :: y in r <==> y in s && y != x
  {
    if s == [] then []
    else RemoveAll(s[..|s| - 1], x) + if s[|s| - 1] == x then [] else [s[|s| - 1]]
  }

  /** `s.filter(id => !t.includes(id))`. */
  function Without(s: seq<string>, t: seq<string>): (r: seq<string>)
    ensures forall y :: y in r <==> y in s && y !in t
  {
    if s == [] then []
    else Without(s[..|s| - 1], t) + if s[|s| - 1] in t then [] else [s[|s| - 1]]
  }

  /** The ids a click leaves selected in its step: a single choice toggles, a multiple one flips membership. */
  function NextSelected(selectionType: SelectionType, prevSelected: seq<string>, optionId: string): seq<string> {
    match selectionType
    case Single => if |prevSelected| > 0 && prevSelected[0] == optionId then [] else [optionId]
    case Multi => if optionId in prevSelected then RemoveAll(prevSelected, optionId) else prevSelected + [optionId]
  }

  /**
   * The step ids a deselected id clears: the descendants of its entry's next step. The
   * option's `hasChildren` is not consulted; an id without an entry clears nothing.
   */
  ghost function Invalidated(def: FlowDefinition, rank: map<string, nat>, index: OptionIndex, optionId: string): set<string>
    requires RankedBy(def, rank)
  {
    if optionId in index && Truthy(index[optionId].option.nextStepId) then
      Descendants(def, rank, index[optionId].option.nextStepId.value)
    else {}
  }

  /** The step ids the deselected ids `removed` clear, in turn. */
  ghost function Cascade(def: FlowDefinition, rank: map<string, nat>, index: OptionIndex, removed: seq<string>): set<string>
    requires RankedBy(def, rank)
  {
    if removed == [] then {}
    else Cascade(def, rank, index, removed[..|removed| - 1]) + Invalidated(def, rank, index, removed[|removed| - 1])
  }

  /** The selection before the cascade: the clicked step's new ids, or no entry when none is left. */
  function Toggled(prev: SelectedOptionsMap, stepId: string, next: seq<string>): SelectedOptionsMap {
    var draft := prev[stepId := next];
    if next == [] then draft - {stepId} else draft
  }

  /** The updater of `updateSelection` for the click on `optionId` in step `stepId`. */
  ghost function SelectionAfter(def: FlowDefinition, rank: map<string, nat>, index: OptionIndex,
                                prev: SelectedOptionsMap, stepId: string, optionId: string): SelectedOptionsMap
    requires RankedBy(def, rank) && stepId in def.steps
  {
    var prevSelected := SelectedIn(prev, stepId);
    var next := NextSelected(def.steps[stepId].selectionType, prevSelected, optionId);
    Toggled(prev, stepId, next) - Cascade(def, rank, index, Without(prevSelected, next))
  }

  /** No step is stored with an empty list of ids. */
  predicate NoEmptySelections(selected: SelectedOptionsMap) {
    forall k :: k in selected ==> |selected[k]| > 0
  }

  // ---------------------------------------------------------------------------

  /** The cascade clears exactly what some deselected id clears. */
  lemma {:induction false} CascadeMembers(def: FlowDefinition, rank: map<string, nat>, index: OptionIndex, removed: seq<string>)
    requires RankedBy(def, rank)
    ensures forall x :: x in Cascade(def, rank, index, removed) <==>
      exists o :: o in removed && x in Invalidated(def, rank, index, o)
  {
    if removed != [] {
      var init := removed[..|removed| - 1];
      CascadeMembers(def, rank, index, init);
      assert removed == init + [removed[|removed| - 1]];
    }
  }

  /**
   * After a click on a known step, a step keeps its entry exactly when the cascade spares
   * it and it still has ids: the clicked step its new ids, every other step its old ones.
   */
  lemma SelectionAfterEntries(def: FlowDefinition, rank: map<string, nat>, index: OptionIndex,
                              prev: SelectedOptionsMap, stepId: string, optionId: string)
    requires RankedBy(def, rank) && stepId in def.steps
    ensures var prevSelected := SelectedIn(prev, stepId);
      var next := NextSelected(def.steps[stepId].selectionType, prevSelected, optionId);
      var cleared := Cascade(def, rank, index, Without(prevSelected, next));
      var r := SelectionAfter(def, rank, index, prev, stepId, optionId);
      (forall k :: k in r <==> k !in cleared && if k == stepId then next != [] else k in prev) &&
      (forall k :: k in r ==> r[k] == if k == stepId then next else prev[k])
  {
  }

  /** A click never leaves a step stored with no ids. */
  lemma SelectionAfterNoEmpty(def: FlowDefinition, rank: map<string, nat>, index: OptionIndex,
                              prev: SelectedOptionsMap, stepId: string, optionId: string)
    requires RankedBy(def, rank) && stepId in def.steps
    requires NoEmptySelections(prev)
    ensures NoEmptySelections(SelectionAfter(def, rank, index, prev, stepId, optionId))
  {
  }

  /** None of the step's previous ids clears the step itself. */
  ghost predicate SparesOwnStep(def: FlowDefinition, rank: map<string, nat>, index: OptionIndex,
                                prev: SelectedOptionsMap, stepId: string)
    requires RankedBy(def, rank)
  {
    stepId !in Cascade(def, rank, index, SelectedIn(prev, stepId))
  }

  lemma RemovedAreSelected(def: FlowDefinition, rank: map<string, nat>, index: OptionIndex,
                           prev: SelectedOptionsMap, stepId: string, next: seq<string>)
    requires RankedBy(def, rank)
    ensures Cascade(def, rank, index, Without(SelectedIn(prev, stepId), next)) <=
      Cascade(def, rank, index, SelectedIn(prev, stepId))
  {
    CascadeMembers(def, rank, index, Without(SelectedIn(prev, stepId), next));
    CascadeMembers(def, rank, index, SelectedIn(prev, stepId));
  }

  /**
   * In a single-choice step, clicking the chosen option clears the step and clicking any
   * other makes it the only choice.
   */
  lemma SingleChoiceToggle(def: FlowDefinition, rank: map<string, nat>, index: OptionIndex,
                           prev: SelectedOptionsMap, stepId: string, optionId: string)
    requires RankedBy(def, rank) && stepId in def.steps && def.steps[stepId].selectionType == Single
    requires SparesOwnStep(def, rank, index, prev, stepId)
    ensures var p := SelectedIn(prev, stepId);
      var r := SelectionAfter(def, rank, index, prev, stepId, optionId);
      (|p| > 0 && p[0] == optionId ==> stepId !in r) &&
      (!(|p| > 0 && p[0] == optionId) ==> stepId in r && r[stepId] == [optionId])
  {
    var p := SelectedIn(prev, stepId);
    RemovedAreSelected(def, rank, index, prev, stepId, NextSelected(Single, p, optionId));
  }

  /** The only ids a multiple-choice click removes are the copies of the clicked one. */
  lemma MultiRemoved(p: seq<string>, optionId: string)
    requires optionId in p
    ensures var removed := Without(p, RemoveAll(p, optionId));
      optionId in removed && forall o :: o in removed ==> o == optionId
  {
  }

  /**
   * In a multiple-choice step, clicking an unselected option appends it and changes nothing
   * else; clicking a selected one removes it and clears exactly the steps it led to.
   */
  lemma MultiChoiceToggle(def: FlowDefinition, rank: map<string, nat>, index: OptionIndex,
                          prev: SelectedOptionsMap, stepId: string, optionId: string)
    requires RankedBy(def, rank) && stepId in def.steps && def.steps[stepId].selectionType == Multi
    ensures var p := SelectedIn(prev, stepId);
      var r := SelectionAfter(def, rank, index, prev, stepId, optionId);
      optionId !in p ==> r == prev[stepId := p + [optionId]]
    ensures var p := SelectedIn(prev, stepId);
      var r := SelectionAfter(def, rank, index, prev, stepId, optionId);
      var cleared := Invalidated(def, rank, index, optionId);
      optionId in p ==>
        (forall k :: k in r <==> k !in cleared && if k == stepId then RemoveAll(p, optionId) != [] else k in prev) &&
        (forall k :: k in r ==> r[k] == if k == stepId then RemoveAll(p, optionId) else prev[k])
  {
    var p := SelectedIn(prev, stepId);
    var next := NextSelected(Multi, p, optionId);
    var removed := Without(p, next);
    CascadeMembers(def, rank, index, removed);
    if optionId !in p {
      WithoutCovered(p, next);
      assert Toggled(prev, stepId, next) == prev[stepId := p + [optionId]];
    } else {
      MultiRemoved(p, optionId);
      assert Cascade(def, rank, index, removed) == Invalidated(def, rank, index, optionId);
    }
  }

  /**
   * Selecting and then deselecting an option of a multiple-choice step gives back the
   * selection without the steps that option leads to.
   */
  lemma MultiChoiceSelectThenDeselect(def: FlowDefinition, rank: map<string, nat>, index: OptionIndex,
                                      prev: SelectedOptionsMap, stepId: string, optionId: string)
    requires RankedBy(def, rank) && stepId in def.steps && def.steps[stepId].selectionType == Multi
    requires NoEmptySelections(prev)
    requires optionId !in SelectedIn(prev, stepId)
    ensures SelectionAfter(def, rank, index, SelectionAfter(def, rank, index, prev, stepId, optionId), stepId, optionId) ==
      prev - Invalidated(def, rank, index, optionId)
  {
    var p := SelectedIn(prev, stepId);
    assert SelectionAfter(def, rank, index, prev, stepId, optionId) == prev[stepId := p + [optionId]] by {
      MultiChoiceToggle(def, rank, index, prev, stepId, optionId);
    }
    DeselectAppended(def, rank, index, prev, stepId, optionId);
  }

  /** Clicking the id just appended to a multiple-choice step removes it and what it leads to. */
  lemma DeselectAppended(def: FlowDefinition, rank: map<string, nat>, index: OptionIndex,
                         prev: SelectedOptionsMap, stepId: string, optionId: string)
    requires RankedBy(def, rank) && stepId in def.steps && def.steps[stepId].selectionType == Multi
    requires NoEmptySelections(prev)
    requires optionId !in SelectedIn(prev, stepId)
    ensures var p := SelectedIn(prev, stepId);
      SelectionAfter(def, rank, index, prev[stepId := p + [optionId]], stepId, optionId) ==
      prev - Invalidated(def, rank, index, optionId)
  {
    var p := SelectedIn(prev, stepId);
    var once := prev[stepId := p + [optionId]];
    assert SelectionAfter(def, rank, index, once, stepId, optionId) ==
           Toggled(once, stepId, p) - Cascade(def, rank, index, [optionId]) by {
      assert SelectedIn(once, stepId) == p + [optionId];
      RemoveAllAppended(p, optionId);
      WithoutAppended(p, optionId);
      SelectionAfterIs(def, rank, index, once, stepId, optionId, p, [optionId]);
    }
    assert Toggled(once, stepId, p) == prev by {
      ToggledBack(prev, stepId, optionId);
    }
    CascadeSingle(def, rank, index, optionId);
  }

  /** `SelectionAfter` once the new ids and the removed ids are known. */
  lemma SelectionAfterIs(def: FlowDefinition, rank: map<string, nat>, index: OptionIndex,
                         prev: SelectedOptionsMap, stepId: string, optionId: string,
                         next: seq<string>, removed: seq<string>)
    requires RankedBy(def, rank) && stepId in def.steps
    requires next == NextSelected(def.steps[stepId].selectionType, SelectedIn(prev, stepId), optionId)
    requires removed == Without(SelectedIn(prev, stepId), next)
    ensures SelectionAfter(def, rank, index, prev, stepId, optionId) ==
            Toggled(prev, stepId, next) - Cascade(def, rank, index, removed)
  {
  }

  lemma RemoveAllAppended(p: seq<string>, x: string)
    requires x !in p
    ensures RemoveAll(p + [x], x) == p
  {
    assert (p + [x])[..|p|] == p;
    RemoveAllAbsent(p, x);
  }

  lemma WithoutAppended(p: seq<string>, x: string)
    requires x !in p
    ensures Without(p + [x], p) == [x]
  {
    assert (p + [x])[..|p|] == p;
    WithoutCovered(p, p);
  }

  lemma CascadeSingle(def: FlowDefinition, rank: map<string, nat>, index: OptionIndex, optionId: string)
    requires RankedBy(def, rank)
    ensures Cascade(def, rank, index, [optionId]) == Invalidated(def, rank, index, optionId)
  {
    assert [optionId][..0] == [];
  }

  /** Restoring a step's previous ids after appending one gives back the map. */
  lemma ToggledBack(prev: SelectedOptionsMap, stepId: string, optionId: string)
    requires NoEmptySelections(prev)
    ensures var p := SelectedIn(prev, stepId);
      Toggled(prev[stepId := p + [optionId]], stepId, p) == prev
  {
    var p := SelectedIn(prev, stepId);
    if p == [] {
      assert stepId !in prev;
      assert prev[stepId := p + [optionId]][stepId := p] - {stepId} == prev;
    } else {
      assert prev[stepId] == p;
      assert prev[stepId := p + [optionId]][stepId := p] == prev;
    }
  }

  lemma {:induction false} WithoutCovered(s: seq<string>, t: seq<string>)
    requires forall y :: y in s ==> y in t
    ensures Without(s, t) == []
  {
    if s != [] {
      WithoutCovered(s[..|s| - 1], t);
    }
  }

  lemma {:induction false} RemoveAllAbsent(s: seq<string>, x: string)
    requires x !in s
    ensures RemoveAll(s, x) == s
  {
    if s != [] {
      RemoveAllAbsent(s[..|s| - 1], x);
    }
  }

  // ---------------------------------------------------------------------------

  /** Every descendant of a step is a step of no greater rank. */
  lemma DescendantsRanked(def: FlowDefinition, rank: map<string, nat>, k: string)
    requires RankedBy(def, rank) && KeysMatchIds(def)
    ensures forall x :: x in Descendants(def, rank, k) ==> x in def.steps && rank[x] <= rank[k]
  {
    if k in def.steps {
      var below := set x | x in def.steps && x in rank && rank[x] <= rank[k];
      assert ClosedUnderFollows(def, below);
      DescendantsLeast(def, rank, k, below);
    }
  }

  /**
   * When only branch options name next steps, deselecting options of a step never clears
   * that step: everything they lead to lies strictly below it.
   */
  lemma OwnOptionsSpareStep(def: FlowDefinition, rank: map<string, nat>, index: OptionIndex,
                            stepId: string, removed: seq<string>)
    requires RankedBy(def, rank) && KeysMatchIds(def) && NextStepsOnBranches(def)
    requires stepId in def.steps
    requires forall o :: o in removed && o in index ==>
      exists i :: HasOption(def, stepId, i) && index[o].option == OptionAt(def, stepId, i)
    ensures stepId !in Cascade(def, rank, index, removed)
  {
    CascadeMembers(def, rank, index, removed);
    if stepId in Cascade(def, rank, index, removed) {
      var o :| o in removed && stepId in Invalidated(def, rank, index, o);
      var i :| HasOption(def, stepId, i) && index[o].option == OptionAt(def, stepId, i);
      var next := OptionAt(def, stepId, i).nextStepId.value;
      DescendantsRanked(def, rank, next);
      assert false;
    }
  }
}
