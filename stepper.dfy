/**
 * The booking stepper: the wizard's state, its click handlers and the effects that keep
 * the state consistent. Each React state variable is a field; each handler is a method
 * that runs to completion before the next (React's batching is not modelled), and each
 * effect is a method the caller runs after the handlers that change its inputs.
 */
module Stepper {
  import opened Wrappers
  import opened Ordered
  import opened Text
  import opened Dates
  import opened Catalog
  import opened FlowUtils
  import opened Selection
  import opened StepperValues

  /** The pseudo-steps that follow the catalog: they name React sections, not catalog steps. */
  const SpecialistStepId: string := "specialist-selection"
  const AppointmentStepId: string := "appointment-scheduling"
  const CustomerDetailsStepId: string := "customer-details"

  datatype RecurrenceOption = RecurrenceOption(value: string, labelText: string)

  const RecurrenceOptions: seq<RecurrenceOption> := [
    RecurrenceOption("weekly", "În fiecare săptămână"),
    RecurrenceOption("biweekly", "La 2 săptămâni"),
    RecurrenceOption("monthly", "În fiecare lună"),
    RecurrenceOption("bimonthly", "La 2 luni")
  ]

  /** `RECURRENCE_OPTIONS[0]?.value ?? "weekly"`. */
  const DefaultRecurrence: string := if |RecurrenceOptions| > 0 then RecurrenceOptions[0].value else "weekly"

  // ---------------------------------------------------------------------------
  // The shape of the group history.

  predicate IsPseudoStep(x: string) {
    x == SpecialistStepId || x == AppointmentStepId || x == CustomerDetailsStepId
  }

  /** 0 for a group of catalog steps, then 1, 2, 3 for the specialist, appointment and customer groups. */
  function Stage(g: seq<string>): nat {
    if g == [SpecialistStepId] then 1
    else if g == [AppointmentStepId] then 2
    else if g == [CustomerDetailsStepId] then 3
    else 0
  }

  /** A nonempty group of catalog steps, or one of the three pseudo-step groups. */
  predicate WellFormedGroup(g: seq<string>) {
    Stage(g) > 0 || (|g| > 0 && forall i :: 0 <= i < |g| ==> !IsPseudoStep(g[i]))
  }

  /** Catalog groups come first; each pseudo-step group follows the one before it in order. */
  predicate StageStep(prev: seq<string>, g: seq<string>) {
    if Stage(g) == 0 then Stage(prev) == 0 else Stage(g) == Stage(prev) + 1
  }

  /**
   * The histories `goForward` builds: the root group, catalog groups, then at most the
   * specialist, appointment and customer groups, in that order.
   */
  ghost predicate HistoryShape(groups: seq<seq<string>>, root: string) {
    |groups| > 0 && groups[0] == [root] &&
    (forall j :: 0 <= j < |groups| ==> WellFormedGroup(groups[j])) &&
    (forall j :: 0 < j < |groups| ==> StageStep(groups[j - 1], groups[j]))
  }

  /** `groups.some((group) => group.includes(x))`. */
  predicate HasGroupWith(groups: seq<seq<string>>, x: string) {
    exists j :: 0 <= j < |groups| && x in groups[j]
  }

  /** A pseudo-step occurs only as its own one-element group. */
  lemma PseudoStepGroup(g: seq<string>, x: string)
    requires WellFormedGroup(g) && IsPseudoStep(x) && x in g
    ensures g == [x]
  {
  }

  /** Stages never decrease along the history, and pseudo-step groups climb one at a time. */
  lemma {:induction false} StagesClimb(groups: seq<seq<string>>, root: string, a: nat, b: nat)
    requires HistoryShape(groups, root) && a <= b < |groups|
    ensures Stage(groups[a]) <= Stage(groups[b])
    ensures Stage(groups[a]) > 0 ==> Stage(groups[b]) == Stage(groups[a]) + (b - a)
    decreases b - a
  {
    if a < b {
      StagesClimb(groups, root, a, b - 1);
      assert StageStep(groups[b - 1], groups[b]);
    }
  }

  /** Up to a group of stage `s`, no group holds the pseudo-step of a later stage. */
  lemma {:induction false} NoLaterPseudoStep(groups: seq<seq<string>>, root: string, idx: nat, x: string)
    requires HistoryShape(groups, root) && idx < |groups| && IsPseudoStep(x)
    requires Stage([x]) > Stage(groups[idx])
    ensures !HasGroupWith(groups[..idx + 1], x)
  {
    forall j | 0 <= j <= idx
      ensures x !in groups[j]
    {
      StagesClimb(groups, root, j, idx);
      if x in groups[j] {
        PseudoStepGroup(groups[j], x);
        assert false;
      }
    }
    assert forall j :: 0 <= j < idx + 1 ==> groups[..idx + 1][j] == groups[j];
  }

  lemma HistoryPrefix(groups: seq<seq<string>>, root: string, n: nat)
    requires HistoryShape(groups, root) && 0 < n <= |groups|
    ensures HistoryShape(groups[..n], root)
  {
    var p := groups[..n];
    assert forall j :: 0 <= j < n ==> p[j] == groups[j];
    assert forall j :: 0 < j < n ==> StageStep(p[j - 1], p[j]) by {
      forall j | 0 < j < n ensures StageStep(p[j - 1], p[j]) {
        assert StageStep(groups[j - 1], groups[j]);
      }
    }
  }

  lemma HistoryAppend(groups: seq<seq<string>>, root: string, g: seq<string>)
    requires HistoryShape(groups, root)
    requires WellFormedGroup(g) && StageStep(groups[|groups| - 1], g)
    ensures HistoryShape(groups + [g], root)
  {
    var h := groups + [g];
    assert forall j :: 0 <= j < |groups| ==> h[j] == groups[j];
    forall j | 0 < j < |h| ensures StageStep(h[j - 1], h[j]) {
      if j < |groups| {
        assert StageStep(groups[j - 1], groups[j]);
      }
    }
  }

  /** The group `goForward` appends after `current` (when `current` is not the last one). */
  function NextGroup(current: seq<string>, selected: SelectedOptionsMap, index: OptionIndex): seq<string> {
    if SpecialistStepId in current then [AppointmentStepId]
    else if AppointmentStepId in current then [CustomerDetailsStepId]
    else
      var derived := Dedup(Candidates(current, selected, index));
      if derived != [] then derived else [SpecialistStepId]
  }

  /** The facts about the flow the stepper relies on. */
  ghost predicate FlowFacts(def: FlowDefinition, rank: map<string, nat>, index: OptionIndex) {
    RankedBy(def, rank) && KeysMatchIds(def) &&
    (forall k :: k in def.steps ==> !IsPseudoStep(k)) &&
    (forall id :: TargetOf(index, id).Some? ==> TargetOf(index, id).value in def.steps)
  }

  /** A flow that keeps the catalog invariants and names no step like a pseudo-step has them, for any index of its options. */
  lemma FlowFactsFrom(def: FlowDefinition, rank: map<string, nat>, index: OptionIndex)
    requires RankedBy(def, rank) && KeysMatchIds(def) && BranchesResolve(def)
    requires forall k :: k in def.steps ==> !IsPseudoStep(k)
    requires forall id :: id in index ==> IsEntryFor(def, id, index[id])
    ensures FlowFacts(def, rank, index)
  {
    forall id | TargetOf(index, id).Some?
      ensures TargetOf(index, id).value in def.steps
    {
      var k, i :| HasOption(def, k, i) && OptionAt(def, k, i).id == id && index[id] == EntryAt(def, k, i);
    }
  }

  /** No step of the salon's catalog is named like a pseudo-step. */
  lemma CatalogKeysNotPseudo()
    ensures forall k :: k in FrizerieKeys ==> !IsPseudoStep(k)
  {
  }

  /** The salon's flow and its index satisfy them. */
  lemma FrizerieFlowFacts(index: OptionIndex)
    requires forall id :: id in index ==> IsEntryFor(FrizerieFlow, id, index[id])
    ensures FlowFacts(FrizerieFlow, FrizerieRank, index)
  {
    FrizerieSound();
    FrizerieKeysExact();
    CatalogKeysNotPseudo();
    FlowFactsFrom(FrizerieFlow, FrizerieRank, index);
  }

  /** The next group of a catalog group is a catalog group, or the specialist group. */
  lemma NextGroupWellFormed(def: FlowDefinition, rank: map<string, nat>, index: OptionIndex,
                            current: seq<string>, selected: SelectedOptionsMap)
    requires FlowFacts(def, rank, index)
    requires SpecialistStepId !in current && AppointmentStepId !in current
    ensures WellFormedGroup(NextGroup(current, selected, index))
    ensures Stage(NextGroup(current, selected, index)) <= 1
  {
    var derived := Dedup(Candidates(current, selected, index));
    assert forall x :: x in derived ==> x in def.steps by {
      DeriveNextStepIdsSpec(current, selected, index);
      forall x | x in derived
        ensures x in def.steps
      {
        var s, o :| s in current && o in SelectedIn(selected, s) && TargetOf(index, o) == Some(x);
      }
    }
    forall i | 0 <= i < |derived|
      ensures !IsPseudoStep(derived[i])
    {
      assert derived[i] in derived;
    }
    if derived != [] {
      assert derived[0] in derived && !IsPseudoStep(derived[0]);
    }
  }

  // ---------------------------------------------------------------------------

  /** `buildFlowOptionIndex(frizerieFlow)`, with the facts the stepper relies on. */
  method FrizerieIndex() returns (index: OptionIndex)
    ensures FlowFacts(FrizerieFlow, FrizerieRank, index)
    ensures forall id :: id in index ==> IsEntryFor(FrizerieFlow, id, index[id])
    ensures forall k, i :: HasOption(FrizerieFlow, k, i) ==>
      OptionAt(FrizerieFlow, k, i).id in index && index[OptionAt(FrizerieFlow, k, i).id] == EntryAt(FrizerieFlow, k, i)
  {
    ghost var order;
    index, order := BuildFlowOptionIndex(FrizerieFlow);
    FrizerieSound();
    FrizerieFlowFacts(index);
  }

  class BookingStepper {
    const flow: FlowDefinition
    /** `useMemo(() => buildFlowOptionIndex(frizerieFlow), [])`. */
    const optionIndex: OptionIndex
    /** The acyclicity witness of `flow`. */
    ghost const rank: map<string, nat>

    var stepGroups: seq<seq<string>>
    var currentGroupIndex: nat
    var selectedOptions: SelectedOptionsMap
    var selectedSpecialists: map<string, string>
    var appointmentDate: Option<CalendarDate>
    var appointmentTime: Option<string>
    var isRecurring: bool
    var recurrenceFrequency: string
    var isWaitlistEnabled: bool
    var customerName: string
    var customerPhone: string
    var customerEmail: string

    ghost predicate Valid()
      reads this
    {
      FlowFacts(flow, rank, optionIndex) &&
      HistoryShape(stepGroups, flow.rootStepId) && currentGroupIndex < |stepGroups| &&
      NoEmptySelections(selectedOptions)
    }

    /** The initial state of the component. */
    constructor ()
      ensures Valid()
      ensures flow == FrizerieFlow
      ensures forall id :: id in optionIndex ==> IsEntryFor(flow, id, optionIndex[id])
      ensures forall k, i :: HasOption(flow, k, i) ==>
        OptionAt(flow, k, i).id in optionIndex && optionIndex[OptionAt(flow, k, i).id] == EntryAt(flow, k, i)
      ensures stepGroups == [[flow.rootStepId]] && currentGroupIndex == 0
      ensures selectedOptions == map[] && selectedSpecialists == map[]
      ensures appointmentDate == None && appointmentTime == None
      ensures !isRecurring && recurrenceFrequency == DefaultRecurrence && !isWaitlistEnabled
      ensures customerName == "" && customerPhone == "" && customerEmail == ""
    {
      var index := FrizerieIndex();
      flow := FrizerieFlow;
      optionIndex := index;
      rank := FrizerieRank;
      stepGroups := [[FrizerieFlow.rootStepId]];
      currentGroupIndex := 0;
      selectedOptions := map[];
      selectedSpecialists := map[];
      appointmentDate := None;
      appointmentTime := None;
      isRecurring := false;
      recurrenceFrequency := DefaultRecurrence;
      isWaitlistEnabled := false;
      customerName := "";
      customerPhone := "";
      customerEmail := "";
    }

    /** `stepGroups[currentGroupIndex] ?? []`. */
    function CurrentGroup(): seq<string>
      reads this
    {
      if currentGroupIndex < |stepGroups| then stepGroups[currentGroupIndex] else []
    }

    /** `ensureGroupsTrimmed`: forgets the groups after the current one. */
    method EnsureGroupsTrimmed()
      requires Valid()
      modifies this`stepGroups
      ensures Valid()
      ensures stepGroups == old(stepGroups[..currentGroupIndex + 1])
    {
      if currentGroupIndex == |stepGroups| - 1 {
        assert stepGroups[..currentGroupIndex + 1] == stepGroups;
        return;
      }
      HistoryPrefix(stepGroups, flow.rootStepId, currentGroupIndex + 1);
      stepGroups := stepGroups[..currentGroupIndex + 1];
    }

    /**
     * `updateSelection`: a click on option `optionId` of step `stepId`. An unknown step is
     * ignored; otherwise the later groups are forgotten, the specialists are cleared (the
     * source spares them for the specialist pseudo-step, which is never a catalog step) and
     * the selection becomes `SelectionAfter` (the toggle, then the cascade).
     */
    method UpdateSelection(stepId: string, optionId: string)
      requires Valid()
      modifies this`stepGroups, this`selectedSpecialists, this`selectedOptions
      ensures Valid()
      ensures if stepId in flow.steps then
          stepGroups == old(stepGroups[..currentGroupIndex + 1]) &&
          selectedSpecialists == map[] &&
          selectedOptions == SelectionAfter(flow, rank, optionIndex, old(selectedOptions), stepId, optionId)
        else
          stepGroups == old(stepGroups) && selectedSpecialists == old(selectedSpecialists) &&
          selectedOptions == old(selectedOptions)
    {
      if stepId !in flow.steps {
        return;
      }
      var step := flow.steps[stepId];
      EnsureGroupsTrimmed();
      if stepId != SpecialistStepId {
        selectedSpecialists := map[];
      }
      SelectionAfterNoEmpty(flow, rank, optionIndex, selectedOptions, stepId, optionId);
      selectedOptions := SelectionUpdater(selectedOptions, stepId, step.selectionType, optionId);
    }

    /** The updater passed to `setSelectedOptions`. */
    method SelectionUpdater(prev: SelectedOptionsMap, stepId: string, selectionType: SelectionType, optionId: string)
      returns (draft: SelectedOptionsMap)
      requires FlowFacts(flow, rank, optionIndex)
      requires stepId in flow.steps && selectionType == flow.steps[stepId].selectionType
      ensures draft == SelectionAfter(flow, rank, optionIndex, prev, stepId, optionId)
    {
      var prevSelected := if stepId in prev then prev[stepId] else [];
      var nextSelected: seq<string>;
      if selectionType == Single {
        var alreadySelected := |prevSelected| > 0 && prevSelected[0] == optionId;
        nextSelected := if alreadySelected then [] else [optionId];
      } else {
        var isSelected := optionId in prevSelected;
        nextSelected := if isSelected then RemoveAll(prevSelected, optionId) else prevSelected + [optionId];
      }
      assert nextSelected == NextSelected(selectionType, prevSelected, optionId);
      var removedOptionIds := Without(prevSelected, nextSelected);
      draft := prev[stepId := nextSelected];
      if |nextSelected| == 0 {
        draft := draft - {stepId};
      }
      if |removedOptionIds| > 0 {
        draft := ClearDescendants(draft, removedOptionIds);
      }
    }

    /** The `removedOptionIds.forEach` of the updater: clears the steps each removed id leads to. */
    method ClearDescendants(base: SelectedOptionsMap, removedOptionIds: seq<string>) returns (draft: SelectedOptionsMap)
      requires FlowFacts(flow, rank, optionIndex)
      ensures draft == base - Cascade(flow, rank, optionIndex, removedOptionIds)
    {
      draft := base;
      var i := 0;
      while i < |removedOptionIds|
        invariant i <= |removedOptionIds|
        invariant draft == base - Cascade(flow, rank, optionIndex, removedOptionIds[..i])
      {
        var removedId := removedOptionIds[i];
        assert removedOptionIds[..i + 1][..i] == removedOptionIds[..i];
        ghost var cleared := Invalidated(flow, rank, optionIndex, removedId);
        if removedId in optionIndex {
          var descendantIds := CollectDescendantStepIds(optionIndex[removedId].option.nextStepId, flow, rank);
          assert forall x :: x in descendantIds <==> x in cleared;
          draft := DeleteKeys(draft, descendantIds);
        }
        assert draft == base - Cascade(flow, rank, optionIndex, removedOptionIds[..i + 1]);
        i := i + 1;
      }
      assert removedOptionIds[..i] == removedOptionIds;
    }

    /** `goBack`: one group back, never before the first. The groups are kept for going forward again. */
    method GoBack()
      requires Valid()
      modifies this`currentGroupIndex
      ensures Valid()
      ensures currentGroupIndex == if old(currentGroupIndex) == 0 then 0 else old(currentGroupIndex) - 1
    {
      if currentGroupIndex == 0 {
        return;
      }
      var prev: int := currentGroupIndex;
      currentGroupIndex := if prev - 1 > 0 then prev - 1 else 0;
    }

    /**
     * `goForward`: in the customer group it only confirms (a log line, left out); otherwise
     * it keeps the groups up to the current one, appends `NextGroup` and moves onto it.
     */
    method GoForward()
      requires Valid()
      modifies this`stepGroups, this`currentGroupIndex
      ensures Valid()
      ensures CustomerDetailsStepId in old(CurrentGroup()) ==>
        stepGroups == old(stepGroups) && currentGroupIndex == old(currentGroupIndex)
      ensures CustomerDetailsStepId !in old(CurrentGroup()) ==>
        stepGroups == old(stepGroups[..currentGroupIndex + 1]) + [NextGroup(old(CurrentGroup()), selectedOptions, optionIndex)] &&
        currentGroupIndex == old(currentGroupIndex) + 1
    {
      var currentGroup := CurrentGroup();
      if CustomerDetailsStepId in currentGroup {
        return;
      }
      var root := flow.rootStepId;
      var trimmedGroups := stepGroups[..currentGroupIndex + 1];
      HistoryPrefix(stepGroups, root, currentGroupIndex + 1);
      assert trimmedGroups[currentGroupIndex] == currentGroup;
      if SpecialistStepId in currentGroup {
        PseudoStepGroup(currentGroup, SpecialistStepId);
        NoLaterPseudoStep(stepGroups, root, currentGroupIndex, AppointmentStepId);
        if !HasGroupWith(trimmedGroups, AppointmentStepId) {
          HistoryAppend(trimmedGroups, root, [AppointmentStepId]);
          stepGroups := trimmedGroups + [[AppointmentStepId]];
        } else {
          // The source keeps `trimmedGroups` here; the shape of the history rules it out.
          assert false;
        }
        currentGroupIndex := currentGroupIndex + 1;
        return;
      }
      if AppointmentStepId in currentGroup {
        PseudoStepGroup(currentGroup, AppointmentStepId);
        NoLaterPseudoStep(stepGroups, root, currentGroupIndex, CustomerDetailsStepId);
        if !HasGroupWith(trimmedGroups, CustomerDetailsStepId) {
          HistoryAppend(trimmedGroups, root, [CustomerDetailsStepId]);
          stepGroups := trimmedGroups + [[CustomerDetailsStepId]];
        } else {
          // As above: unreachable.
          assert false;
        }
        currentGroupIndex := currentGroupIndex + 1;
        return;
      }
      assert Stage(currentGroup) == 0;
      NextGroupWellFormed(flow, rank, optionIndex, currentGroup, selectedOptions);
      var nextStepIds := DeriveNextStepIds(currentGroup, selectedOptions, optionIndex);
      if |nextStepIds| > 0 {
        HistoryAppend(trimmedGroups, root, nextStepIds);
        stepGroups := trimmedGroups + [nextStepIds];
        currentGroupIndex := currentGroupIndex + 1;
        return;
      }
      NoLaterPseudoStep(stepGroups, root, currentGroupIndex, SpecialistStepId);
      if !HasGroupWith(trimmedGroups, SpecialistStepId) {
        HistoryAppend(trimmedGroups, root, [SpecialistStepId]);
        stepGroups := trimmedGroups + [[SpecialistStepId]];
      } else {
        // As above: unreachable.
        assert false;
      }
      currentGroupIndex := currentGroupIndex + 1;
    }

    // -------------------------------------------------------------------------
    // Specialists and the appointment.

    /**
     * The effect on `specialistCategoryIds`: keeps the truthy assignments of the categories
     * still selected, and the previous map itself when that drops nothing.
     */
    method PruneSpecialists()
      requires Valid()
      modifies this`selectedSpecialists
      ensures Valid()
      ensures forall c :: c in selectedSpecialists <==>
        IsSelectedCategory(selectedOptions, optionIndex, c) && c in old(selectedSpecialists) && old(selectedSpecialists)[c] != ""
      ensures forall c :: c in selectedSpecialists ==> selectedSpecialists[c] == old(selectedSpecialists)[c]
    {
      var ids;
      ghost var order;
      ids, order := SpecialistCategoryIds(selectedOptions, optionIndex);
      SpecialistCategoryIdsSpec(selectedOptions, optionIndex, order);
      selectedSpecialists := PrunedAssignments(selectedSpecialists, ids);
    }

    /** `toggleSpecialist` for one specialist of one category. */
    method ToggleSpecialist(categoryId: string, specialistId: string)
      requires Valid()
      modifies this`selectedSpecialists
      ensures Valid()
      ensures selectedSpecialists == ToggledSpecialists(old(selectedSpecialists), categoryId, specialistId)
    {
      selectedSpecialists := ToggledSpecialists(selectedSpecialists, categoryId, specialistId);
    }

    /** `toggleTimeSlot`. */
    method ToggleTimeSlot(slot: string)
      requires Valid()
      modifies this`appointmentTime
      ensures Valid()
      ensures appointmentTime == ToggledTimeSlot(old(appointmentTime), slot)
    {
      appointmentTime := ToggledTimeSlot(appointmentTime, slot);
    }

    /** The recurrence switch: turning it off restores the default frequency. */
    method SetRecurring(checked: bool)
      requires Valid()
      modifies this`isRecurring, this`recurrenceFrequency
      ensures Valid()
      ensures isRecurring == checked
      ensures recurrenceFrequency == if checked then old(recurrenceFrequency) else DefaultRecurrence
    {
      isRecurring := checked;
      if !checked {
        recurrenceFrequency := DefaultRecurrence;
      }
    }

    /** The waitlist switch. */
    method SetWaitlist(checked: bool)
      requires Valid()
      modifies this`isWaitlistEnabled
      ensures Valid()
      ensures isWaitlistEnabled == checked
    {
      isWaitlistEnabled := checked;
    }

    /** The calendar's `onSelect` (an undefined date clears the choice). */
    method SelectDate(date: Option<CalendarDate>)
      requires Valid()
      modifies this`appointmentDate
      ensures Valid()
      ensures appointmentDate == date
    {
      appointmentDate := date;
    }

    /** The frequency picker's `onValueChange`. */
    method SetRecurrenceFrequency(value: string)
      requires Valid()
      modifies this`recurrenceFrequency
      ensures Valid()
      ensures recurrenceFrequency == value
    {
      recurrenceFrequency := value;
    }

    /** Some part of the appointment is set. */
    predicate AppointmentTouched()
      reads this
    {
      appointmentDate.Some? || Truthy(appointmentTime) || isRecurring || isWaitlistEnabled
    }

    /**
     * The effect that forgets the appointment once no group is the appointment step (after
     * a change of selection trimmed the history).
     */
    method ResetAppointmentWhenUnreachable()
      requires Valid()
      modifies this`appointmentDate, this`appointmentTime, this`isRecurring, this`isWaitlistEnabled,
        this`recurrenceFrequency
      ensures Valid()
      ensures if !HasGroupWith(stepGroups, AppointmentStepId) && old(AppointmentTouched()) then
          appointmentDate == None && appointmentTime == None && !isRecurring && !isWaitlistEnabled &&
          recurrenceFrequency == DefaultRecurrence
        else
          appointmentDate == old(appointmentDate) && appointmentTime == old(appointmentTime) &&
          isRecurring == old(isRecurring) && isWaitlistEnabled == old(isWaitlistEnabled) &&
          recurrenceFrequency == old(recurrenceFrequency)
      ensures !HasGroupWith(stepGroups, AppointmentStepId) ==> !AppointmentTouched()
    {
      var hasAppointmentStep := HasGroupWith(stepGroups, AppointmentStepId);
      if !hasAppointmentStep && (appointmentDate.Some? || Truthy(appointmentTime) || isRecurring || isWaitlistEnabled) {
        appointmentDate := None;
        appointmentTime := None;
        isRecurring := false;
        isWaitlistEnabled := false;
        recurrenceFrequency := DefaultRecurrence;
      }
    }

    /** The effect that turns recurrence and the waitlist off while the date or the time is missing. */
    method ResetRecurrenceWhenIncomplete()
      requires Valid()
      modifies this`isRecurring, this`recurrenceFrequency, this`isWaitlistEnabled
      ensures Valid()
      ensures if appointmentDate.None? || !Truthy(appointmentTime) then
          !isRecurring && !isWaitlistEnabled &&
          recurrenceFrequency == (if old(isRecurring) then DefaultRecurrence else old(recurrenceFrequency))
        else
          isRecurring == old(isRecurring) && isWaitlistEnabled == old(isWaitlistEnabled) &&
          recurrenceFrequency == old(recurrenceFrequency)
      ensures isRecurring || isWaitlistEnabled ==> appointmentDate.Some? && Truthy(appointmentTime)
    {
      if appointmentDate.None? || !Truthy(appointmentTime) {
        if isRecurring {
          isRecurring := false;
          recurrenceFrequency := DefaultRecurrence;
        }
        if isWaitlistEnabled {
          isWaitlistEnabled := false;
        }
      }
    }

    // -------------------------------------------------------------------------
    // canContinue

    /**
     * When the primary button is enabled: the customer group needs a name and a phone with
     * a visible character and an e-mail that is blank or well formed once trimmed; the
     * appointment group a date, a time and, when recurring, a frequency; the specialist
     * group a selected service and a specialist for every selected category; a catalog
     * group a choice in each of its steps (exactly one where the step is single-choice).
     */
    ghost predicate Ready()
      reads this
    {
      var g := CurrentGroup();
      if CustomerDetailsStepId in g then
        !AllWhitespace(customerName) && !AllWhitespace(customerPhone) &&
        (AllWhitespace(customerEmail) || EmailValid(Trim(customerEmail)))
      else if AppointmentStepId in g then
        appointmentDate.Some? && Truthy(appointmentTime) && (isRecurring ==> recurrenceFrequency != "")
      else if SpecialistStepId in g then
        SpecialistsReady(selectedOptions, flow, optionIndex, selectedSpecialists)
      else
        |g| > 0 && forall i :: 0 <= i < |g| ==>
          g[i] in flow.steps &&
          (if flow.steps[g[i]].selectionType == Single then |SelectedIn(selectedOptions, g[i])| == 1
           else |SelectedIn(selectedOptions, g[i])| > 0)
    }

    /** The per-step test of `canContinue` for a catalog group. */
    predicate StepComplete(stepId: string)
      reads this
    {
      if stepId == SpecialistStepId || stepId == AppointmentStepId then true
      else
        stepId in flow.steps &&
        var selected := SelectedIn(selectedOptions, stepId);
        if flow.steps[stepId].selectionType == Single then |selected| == 1 else |selected| > 0
    }

    /** `canContinue`, with the summary and the category list it reads computed on the spot. */
    method CanContinue() returns (ok: bool)
      requires Valid()
      ensures ok == Ready()
    {
      var currentGroup := CurrentGroup();
      if CustomerDetailsStepId in currentGroup {
        var trimmedEmail := Trim(customerEmail);
        var hasEmailError := |trimmedEmail| > 0 && !EmailValid(trimmedEmail);
        TrimEmptyIff(customerName);
        TrimEmptyIff(customerPhone);
        TrimEmptyIff(customerEmail);
        return Trim(customerName) != "" && Trim(customerPhone) != "" && !hasEmailError;
      }
      if AppointmentStepId in currentGroup {
        if !(appointmentDate.Some? && Truthy(appointmentTime)) {
          return false;
        }
        if isRecurring && recurrenceFrequency == "" {
          return false;
        }
        return true;
      }
      if SpecialistStepId in currentGroup {
        ok := SpecialistsChosen(selectedOptions, flow, optionIndex, selectedSpecialists);
        return;
      }
      if |currentGroup| == 0 {
        return false;
      }
      assert forall i :: 0 <= i < |currentGroup| ==> !IsPseudoStep(currentGroup[i]);
      return forall i :: 0 <= i < |currentGroup| ==> StepComplete(currentGroup[i]);
    }
  }

  /**
   * The specialist stage may be left once some service is chosen and every category the
   * chosen options need has a specialist.
   */
  ghost predicate SpecialistsReady(selected: SelectedOptionsMap, def: FlowDefinition, index: OptionIndex,
                                   specialists: map<string, string>)
  {
    (exists s :: IsSelectedService(selected, def, index, s)) &&
    forall c :: IsSelectedCategory(selected, index, c) ==> c in specialists && specialists[c] != ""
  }

  /** The specialist branch of `canContinue`, computing the summary and the category list. */
  method SpecialistsChosen(selected: SelectedOptionsMap, def: FlowDefinition, index: OptionIndex,
                           specialists: map<string, string>)
    returns (ok: bool)
    ensures ok == SpecialistsReady(selected, def, index, specialists)
  {
    var any := HasServices(selected, def, index);
    if !any {
      return false;
    }
    ok := CategoriesAssigned(selected, index, specialists);
  }

  /** `summary.services.length > 0`. */
  method HasServices(selected: SelectedOptionsMap, def: FlowDefinition, index: OptionIndex)
    returns (any: bool)
    ensures any == exists s :: IsSelectedService(selected, def, index, s)
  {
    var summary;
    ghost var order;
    summary, order := CalculateBookingSummary(selected, def, index);
    SummaryServices(selected, def, index, order);
    any := |summary.services| > 0;
    if any {
      assert IsSelectedService(selected, def, index, summary.services[0]);
    }
  }

  /** Every category of `specialistCategoryIds` has a truthy assignment. */
  method CategoriesAssigned(selected: SelectedOptionsMap, index: OptionIndex, specialists: map<string, string>)
    returns (ok: bool)
    ensures ok == forall c :: IsSelectedCategory(selected, index, c) ==> c in specialists && specialists[c] != ""
  {
    var ids;
    ghost var categoryOrder;
    ids, categoryOrder := SpecialistCategoryIds(selected, index);
    SpecialistCategoryIdsSpec(selected, index, categoryOrder);
    ok := forall i :: 0 <= i < |ids| ==> ids[i] in specialists && specialists[ids[i]] != "";
    if !ok {
      var i :| 0 <= i < |ids| && !(ids[i] in specialists && specialists[ids[i]] != "");
      assert IsSelectedCategory(selected, index, ids[i]);
    }
  }

  /**
   * The updater of the pruning effect: the truthy assignments of the listed categories,
   * handing back `prev` itself when that drops nothing.
   */
  method PrunedAssignments(prev: map<string, string>, ids: seq<string>) returns (r: map<string, string>)
    ensures r == KeepCategories(prev, ids)
  {
    var next: map<string, string> := map[];
    var i := 0;
    while i < |ids|
      invariant i <= |ids|
      invariant forall c :: c in next <==> c in ids[..i] && c in prev && prev[c] != ""
      invariant forall c :: c in next ==> next[c] == prev[c]
    {
      var categoryId := ids[i];
      assert ids[..i + 1] == ids[..i] + [categoryId];
      if categoryId in prev && prev[categoryId] != "" {
        next := next[categoryId := prev[categoryId]];
      }
      i := i + 1;
    }
    assert ids[..i] == ids;
    assert next == KeepCategories(prev, ids);
    var sameLength := |prev.Keys| == |next.Keys|;
    var sameValues := if sameLength then forall key | key in next :: key in prev && prev[key] == next[key] else false;
    if sameLength && sameValues {
      SameAssignmentsEqual(prev, next);
      r := prev;
    } else {
      r := next;
    }
  }

  /** `ids.forEach((id) => { delete draft[id] })`. */
  method DeleteKeys(draft: SelectedOptionsMap, ids: seq<string>) returns (result: SelectedOptionsMap)
    ensures forall k :: k in result <==> k in draft && k !in ids
    ensures forall k :: k in result ==> result[k] == draft[k]
  {
    result := draft;
    var j := 0;
    while j < |ids|
      invariant j <= |ids|
      invariant forall k :: k in result <==> k in draft && k !in ids[..j]
      invariant forall k :: k in result ==> result[k] == draft[k]
    {
      assert ids[..j + 1] == ids[..j] + [ids[j]];
      result := result - {ids[j]};
      j := j + 1;
    }
    assert ids[..j] == ids;
  }
}
