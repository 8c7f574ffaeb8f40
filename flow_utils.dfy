/**
 * The flow engine's utilities: the option index over a catalog, the step ids reachable
 * below a step, the summary of the selected services and the step group that follows
 * the current one.
 */
module FlowUtils {
  import opened Wrappers
  import opened Ordered
  import opened Catalog

  datatype FlowOptionIndexEntry = FlowOptionIndexEntry(stepId: string, option: FlowOption)

  /** The selection state: step key to the selected option ids, in click order. */
  type SelectedOptionsMap = map<string, seq<string>>

  type OptionIndex = map<string, FlowOptionIndexEntry>

  // ---------------------------------------------------------------------------
  // buildFlowOptionIndex

  /** The entry the index records for option `i` of step `k`. */
  function EntryAt(def: FlowDefinition, k: string, i: int): FlowOptionIndexEntry
    requires HasOption(def, k, i)
  {
    FlowOptionIndexEntry(def.steps[k].id, OptionAt(def, k, i))
  }

  /** Some step among `keys` lists an option with id `id`. */
  ghost predicate ListedIn(def: FlowDefinition, keys: set<string>, id: string) {
    exists k, i :: k in keys && HasOption(def, k, i) && OptionAt(def, k, i).id == id
  }

  /** `e` is the entry of some option with id `id` of the catalog. */
  ghost predicate IsEntryFor(def: FlowDefinition, id: string, e: FlowOptionIndexEntry) {
    exists k, i :: HasOption(def, k, i) && OptionAt(def, k, i).id == id && e == EntryAt(def, k, i)
  }

  /** `index[option.id] = { stepId, option }` for each of `opts` in turn: later writes win. */
  function WriteOptions(index: OptionIndex, stepId: string, opts: seq<FlowOption>): OptionIndex {
    if opts == [] then index
    else
      var last := opts[|opts| - 1];
      WriteOptions(index, stepId, opts[..|opts| - 1])[last.id := FlowOptionIndexEntry(stepId, last)]
  }

  predicate AllSteps(def: FlowDefinition, order: seq<string>) {
    forall j :: 0 <= j < |order| ==> order[j] in def.steps
  }

  /** The index after visiting the steps stored under `order`, in that order. */
  function IndexOver(def: FlowDefinition, order: seq<string>): OptionIndex
    requires AllSteps(def, order)
  {
    if order == [] then map[]
    else
      var k := order[|order| - 1];
      WriteOptions(IndexOver(def, order[..|order| - 1]), def.steps[k].id, def.steps[k].options)
  }

  /**
   * `buildFlowOptionIndex`: visits every step once, in the unspecified order `order`
   * (JavaScript's key order is not modelled), writing each option under its id.
   */
  method BuildFlowOptionIndex(def: FlowDefinition) returns (index: OptionIndex, ghost order: seq<string>)
    ensures AllSteps(def, order) && Distinct(order) && forall k :: k in order <==> k in def.steps
    ensures index == IndexOver(def, order)
    ensures forall id :: id in index <==> ListedIn(def, def.steps.Keys, id)
    ensures forall id :: id in index ==> IsEntryFor(def, id, index[id])
    ensures OptionIdsDistinct(def) ==>
      forall k, i :: HasOption(def, k, i) ==> OptionAt(def, k, i).id in index && index[OptionAt(def, k, i).id] == EntryAt(def, k, i)
  {
    index := map[];
    order := [];
    var remaining := def.steps.Keys;
    while remaining != {}
      invariant remaining <= def.steps.Keys
      invariant AllSteps(def, order) && Distinct(order)
      invariant forall k :: k in order <==> k in def.steps && k !in remaining
      invariant index == IndexOver(def, order)
      decreases |remaining|
    {
      var k :| k in remaining;
      var step := def.steps[k];
      var j := 0;
      ghost var before := index;
      while j < |step.options|
        invariant j <= |step.options|
        invariant index == WriteOptions(before, step.id, step.options[..j])
      {
        assert step.options[..j + 1][..j] == step.options[..j];
        index := index[step.options[j].id := FlowOptionIndexEntry(step.id, step.options[j])];
        j := j + 1;
      }
      assert step.options[..j] == step.options;
      order := order + [k];
      remaining := remaining - {k};
    }
    IndexOverKeys(def, order);
    IndexOverEntries(def, order);
    if OptionIdsDistinct(def) {
      forall k, i | HasOption(def, k, i)
        ensures OptionAt(def, k, i).id in index && index[OptionAt(def, k, i).id] == EntryAt(def, k, i)
      {
        IndexOverExact(def, order, k, i);
      }
    }
  }

  lemma {:induction false} WriteOptionsKeys(index: OptionIndex, stepId: string, opts: seq<FlowOption>)
    ensures forall id :: id in WriteOptions(index, stepId, opts) <==>
      id in index || exists i :: 0 <= i < |opts| && opts[i].id == id
  {
    if opts != [] {
      var init := opts[..|opts| - 1];
      WriteOptionsKeys(index, stepId, init);
      forall id | exists i :: 0 <= i < |opts| && opts[i].id == id
        ensures id in WriteOptions(index, stepId, opts)
      {
        var i :| 0 <= i < |opts| && opts[i].id == id;
        if i < |opts| - 1 {
          assert init[i].id == id;
        }
      }
    }
  }

  /** Each value `WriteOptions` leaves is the old one or the entry of a written option. */
  lemma {:induction false} WriteOptionsValues(index: OptionIndex, stepId: string, opts: seq<FlowOption>, id: string)
    requires id in WriteOptions(index, stepId, opts)
    ensures (id in index && WriteOptions(index, stepId, opts)[id] == index[id]) ||
      exists i :: 0 <= i < |opts| && opts[i].id == id && WriteOptions(index, stepId, opts)[id] == FlowOptionIndexEntry(stepId, opts[i])
  {
    if opts != [] {
      var init := opts[..|opts| - 1];
      if id != opts[|opts| - 1].id {
        WriteOptionsValues(index, stepId, init, id);
        if !(id in index && WriteOptions(index, stepId, init)[id] == index[id]) {
          var i :| 0 <= i < |init| && init[i].id == id && WriteOptions(index, stepId, init)[id] == FlowOptionIndexEntry(stepId, init[i]);
          assert opts[i] == init[i];
        }
      }
    }
  }

  /** Ids `WriteOptions` does not write keep their values. */
  lemma {:induction false} WriteOptionsFrame(index: OptionIndex, stepId: string, opts: seq<FlowOption>, id: string)
    requires id in index && forall i :: 0 <= i < |opts| ==> opts[i].id != id
    ensures id in WriteOptions(index, stepId, opts) && WriteOptions(index, stepId, opts)[id] == index[id]
  {
    if opts != [] {
      WriteOptionsFrame(index, stepId, opts[..|opts| - 1], id);
    }
  }

  /** Without repeated ids every written option keeps its own entry. */
  lemma {:induction false} WriteOptionsExact(index: OptionIndex, stepId: string, opts: seq<FlowOption>, i: nat)
    requires i < |opts|
    requires forall a, b :: 0 <= a < b < |opts| ==> opts[a].id != opts[b].id
    ensures opts[i].id in WriteOptions(index, stepId, opts)
    ensures WriteOptions(index, stepId, opts)[opts[i].id] == FlowOptionIndexEntry(stepId, opts[i])
  {
    if i < |opts| - 1 {
      var init := opts[..|opts| - 1];
      WriteOptionsExact(index, stepId, init, i);
      assert init[i] == opts[i];
    }
  }

  /** The index's keys are exactly the option ids of the visited steps. */
  lemma {:induction false} IndexOverKeys(def: FlowDefinition, order: seq<string>)
    requires AllSteps(def, order)
    ensures forall id :: id in IndexOver(def, order) <==> ListedIn(def, (set k | k in order), id)
  {
    if order != [] {
      var init := order[..|order| - 1];
      IndexOverKeys(def, init);
      forall id
        ensures id in IndexOver(def, order) <==> ListedIn(def, (set x | x in order), id)
      {
        IndexOverKeysLast(def, order, init, (set y | y in init), id);
      }
    }
  }

  /** The induction step of `IndexOverKeys`: visiting one more step adds exactly its option ids. */
  lemma IndexOverKeysLast(def: FlowDefinition, order: seq<string>, init: seq<string>, visited: set<string>, id: string)
    requires AllSteps(def, order) && order != [] && init == order[..|order| - 1] && visited == (set y | y in init)
    requires forall x :: x in IndexOver(def, init) <==> ListedIn(def, visited, x)
    ensures id in IndexOver(def, order) <==> ListedIn(def, (set x | x in order), id)
  {
    var k := order[|order| - 1];
    WriteOptionsKeys(IndexOver(def, init), def.steps[k].id, def.steps[k].options);
    assert (set x | x in order) == visited + {k} by {
      assert order == init + [k];
    }
    if id in IndexOver(def, order) {
      NewKeyListed(def, init, k, id);
    }
    if ListedIn(def, (set x | x in order), id) {
      ListedKeyIndexed(def, init, k, id);
    }
  }

  /** A key the last step writes is listed by that step. */
  lemma NewKeyListed(def: FlowDefinition, init: seq<string>, k: string, id: string)
    requires k in def.steps && AllSteps(def, init)
    requires id in IndexOver(def, init) || exists i :: 0 <= i < |def.steps[k].options| && def.steps[k].options[i].id == id
    requires id in IndexOver(def, init) ==> ListedIn(def, (set y | y in init), id)
    ensures ListedIn(def, (set x | x in init) + {k}, id)
  {
    if !(id in IndexOver(def, init)) {
      var i :| 0 <= i < |def.steps[k].options| && def.steps[k].options[i].id == id;
      assert HasOption(def, k, i) && OptionAt(def, k, i).id == id;
    } else {
      var k', i :| k' in (set y | y in init) && HasOption(def, k', i) && OptionAt(def, k', i).id == id;
      assert k' in (set x | x in init) + {k};
    }
  }

  /** An option id listed by the visited steps is written by one of them. */
  lemma ListedKeyIndexed(def: FlowDefinition, init: seq<string>, k: string, id: string)
    requires k in def.steps && AllSteps(def, init)
    requires ListedIn(def, (set x | x in init) + {k}, id)
    requires ListedIn(def, (set y | y in init), id) ==> id in IndexOver(def, init)
    ensures id in IndexOver(def, init) || exists i :: 0 <= i < |def.steps[k].options| && def.steps[k].options[i].id == id
  {
    var k', i :| k' in (set x | x in init) + {k} && HasOption(def, k', i) && OptionAt(def, k', i).id == id;
    if k' == k {
      assert def.steps[k].options[i].id == id;
    } else {
      assert ListedIn(def, (set x | x in init), id);
    }
  }

  /** Every value of the index is the entry of an option with that id. */
  lemma {:induction false} IndexOverEntries(def: FlowDefinition, order: seq<string>)
    requires AllSteps(def, order)
    ensures forall id :: id in IndexOver(def, order) ==> IsEntryFor(def, id, IndexOver(def, order)[id])
  {
    if order != [] {
      var init, k := order[..|order| - 1], order[|order| - 1];
      IndexOverEntries(def, init);
      var opts := def.steps[k].options;
      forall id | id in IndexOver(def, order)
        ensures IsEntryFor(def, id, IndexOver(def, order)[id])
      {
        WriteOptionsValues(IndexOver(def, init), def.steps[k].id, opts, id);
        if !(id in IndexOver(def, init) && IndexOver(def, order)[id] == IndexOver(def, init)[id]) {
          var i :| 0 <= i < |opts| && opts[i].id == id && IndexOver(def, order)[id] == FlowOptionIndexEntry(def.steps[k].id, opts[i]);
          assert HasOption(def, k, i) && EntryAt(def, k, i) == IndexOver(def, order)[id];
        }
      }
    }
  }

  /** With distinct option ids, every option's entry names its own step and itself. */
  lemma {:induction false} IndexOverExact(def: FlowDefinition, order: seq<string>, k: string, i: nat)
    requires AllSteps(def, order) && Distinct(order) && OptionIdsDistinct(def)
    requires k in order && HasOption(def, k, i)
    ensures OptionAt(def, k, i).id in IndexOver(def, order)
    ensures IndexOver(def, order)[OptionAt(def, k, i).id] == EntryAt(def, k, i)
  {
    var init, last := order[..|order| - 1], order[|order| - 1];
    var opts := def.steps[last].options;
    var id := OptionAt(def, k, i).id;
    if last == k {
      forall a, b | 0 <= a < b < |opts|
        ensures opts[a].id != opts[b].id
      {
        assert HasOption(def, k, a) && HasOption(def, k, b);
      }
      WriteOptionsExact(IndexOver(def, init), def.steps[k].id, opts, i);
    } else {
      assert order == init + [last];
      assert k in init;
      IndexOverExact(def, init, k, i);
      forall j | 0 <= j < |opts|
        ensures opts[j].id != id
      {
        assert HasOption(def, last, j);
      }
      WriteOptionsFrame(IndexOver(def, init), def.steps[last].id, opts, id);
    }
  }

  // ---------------------------------------------------------------------------
  // collectDescendantStepIds

  /** The termination measure of the descendant walk: one above the step's rank. */
  function Height(def: FlowDefinition, rank: map<string, nat>, k: string): nat {
    if k in def.steps && k in rank then rank[k] + 1 else 0
  }

  /**
   * The ids `collectDescendantsFromStep` adds for the step stored under `k`: its own id
   * and, through every followed option, the descendants of the step it leads to. A key
   * that names no step contributes nothing.
   */
  ghost function Descendants(def: FlowDefinition, rank: map<string, nat>, k: string): set<string>
    requires RankedBy(def, rank)
    decreases Height(def, rank, k), 2, 0
  {
    if k !in def.steps then {}
    else {def.steps[k].id} + OptionsReach(def, rank, k, |def.steps[k].options|)
  }

  /** What the first `n` options of step `k` add. */
  ghost function OptionsReach(def: FlowDefinition, rank: map<string, nat>, k: string, n: nat): set<string>
    requires RankedBy(def, rank) && k in def.steps && n <= |def.steps[k].options|
    decreases Height(def, rank, k), 1, n
  {
    if n == 0 then {} else OptionsReach(def, rank, k, n - 1) + OptionReach(def, rank, k, n - 1)
  }

  /** What option `i` of step `k` adds. */
  ghost function OptionReach(def: FlowDefinition, rank: map<string, nat>, k: string, i: nat): set<string>
    requires RankedBy(def, rank) && HasOption(def, k, i)
    decreases Height(def, rank, k), 0, 0
  {
    var o := OptionAt(def, k, i);
    if Follows(def, o) then Descendants(def, rank, o.nextStepId.value) else {}
  }

  /**
   * `collectDescendantsFromStep`, with the step lookup moved into the callee: adds the
   * descendants of the step stored under `k` to the insertion-ordered set `acc`.
   */
  method CollectDescendantsFromStep(def: FlowDefinition, ghost rank: map<string, nat>, k: string, acc: seq<string>)
    returns (result: seq<string>)
    requires RankedBy(def, rank)
    ensures forall x :: x in result <==> x in acc || x in Descendants(def, rank, k)
    ensures Distinct(acc) ==> Distinct(result)
    ensures |acc| <= |result| && result[..|acc|] == acc
    decreases Height(def, rank, k), 1
  {
    if k !in def.steps {
      return acc;
    }
    var step := def.steps[k];
    result := Add(acc, step.id);
    var i := 0;
    while i < |step.options|
      invariant i <= |step.options|
      invariant forall x :: x in result <==> x in acc || x == step.id || x in OptionsReach(def, rank, k, i)
      invariant Distinct(acc) ==> Distinct(result)
      invariant |acc| <= |result| && result[..|acc|] == acc
    {
      result := CollectFromOption(def, rank, k, i, acc, result);
      i := i + 1;
    }
  }

  /** One turn of the loop over the options of step `k`: follows option `i` when it has children. */
  method CollectFromOption(def: FlowDefinition, ghost rank: map<string, nat>, k: string, i: nat, ghost acc: seq<string>, result: seq<string>)
    returns (next: seq<string>)
    requires RankedBy(def, rank) && k in def.steps && i < |def.steps[k].options|
    requires forall x :: x in result <==> x in acc || x == def.steps[k].id || x in OptionsReach(def, rank, k, i)
    requires Distinct(acc) ==> Distinct(result)
    requires |acc| <= |result| && result[..|acc|] == acc
    ensures forall x :: x in next <==> x in acc || x == def.steps[k].id || x in OptionsReach(def, rank, k, i + 1)
    ensures Distinct(acc) ==> Distinct(next)
    ensures |acc| <= |next| && next[..|acc|] == acc
    decreases Height(def, rank, k), 0
  {
    var option := def.steps[k].options[i];
    assert option == OptionAt(def, k, i);
    next := result;
    if option.hasChildren && Truthy(option.nextStepId) {
      next := CollectDescendantsFromStep(def, rank, option.nextStepId.value, result);
      assert next[..|acc|] == next[..|result|][..|acc|];
    }
  }

  /**
   * `collectDescendantStepIds`: the ids of the steps reachable from `startStepId`, without
   * repetitions; nothing for an absent or empty start id or one that names no step.
   */
  method CollectDescendantStepIds(startStepId: Option<string>, def: FlowDefinition, ghost rank: map<string, nat>)
    returns (ids: seq<string>)
    requires RankedBy(def, rank)
    ensures !Truthy(startStepId) ==> ids == []
    ensures Truthy(startStepId) ==> forall x :: x in ids <==> x in Descendants(def, rank, startStepId.value)
    ensures Truthy(startStepId) && startStepId.value !in def.steps ==> ids == []
    ensures Distinct(ids)
  {
    if !Truthy(startStepId) {
      return [];
    }
    ids := CollectDescendantsFromStep(def, rank, startStepId.value, []);
    if startStepId.value !in def.steps && ids != [] {
      assert ids[0] in ids;
    }
  }

  /** The ids of the catalog's steps. */
  ghost function StepIds(def: FlowDefinition): set<string> {
    set k | k in def.steps :: def.steps[k].id
  }

  /** `s` contains the target of every followed option of every step in it. */
  ghost predicate ClosedUnderFollows(def: FlowDefinition, s: set<string>) {
    forall x, i :: x in s && HasOption(def, x, i) && Follows(def, OptionAt(def, x, i)) ==>
      OptionAt(def, x, i).nextStepId.value in s
  }

  /** The walk adds only ids of steps of the catalog. */
  lemma {:induction false} DescendantsAreStepIds(def: FlowDefinition, rank: map<string, nat>, k: string)
    requires RankedBy(def, rank)
    ensures Descendants(def, rank, k) <= StepIds(def)
    decreases Height(def, rank, k), 2, 0
  {
    if k in def.steps {
      OptionsReachAreStepIds(def, rank, k, |def.steps[k].options|);
    }
  }

  lemma {:induction false} OptionsReachAreStepIds(def: FlowDefinition, rank: map<string, nat>, k: string, n: nat)
    requires RankedBy(def, rank) && k in def.steps && n <= |def.steps[k].options|
    ensures OptionsReach(def, rank, k, n) <= StepIds(def)
    decreases Height(def, rank, k), 1, n
  {
    if n > 0 {
      OptionsReachAreStepIds(def, rank, k, n - 1);
      var o := OptionAt(def, k, n - 1);
      if Follows(def, o) {
        DescendantsAreStepIds(def, rank, o.nextStepId.value);
      }
    }
  }

  /** An id added by the first `n` options was added by one of them. */
  lemma {:induction false} OptionsReachWitness(def: FlowDefinition, rank: map<string, nat>, k: string, n: nat, x: string)
    returns (i: nat)
    requires RankedBy(def, rank) && k in def.steps && n <= |def.steps[k].options|
    requires x in OptionsReach(def, rank, k, n)
    ensures i < n && x in OptionReach(def, rank, k, i)
  {
    if x in OptionReach(def, rank, k, n - 1) {
      i := n - 1;
    } else {
      i := OptionsReachWitness(def, rank, k, n - 1, x);
    }
  }

  lemma {:induction false} OptionsReachIncludes(def: FlowDefinition, rank: map<string, nat>, k: string, n: nat, i: nat)
    requires RankedBy(def, rank) && k in def.steps && i < n <= |def.steps[k].options|
    ensures OptionReach(def, rank, k, i) <= OptionsReach(def, rank, k, n)
  {
    if i < n - 1 {
      OptionsReachIncludes(def, rank, k, n - 1, i);
    }
  }

  /** The descendants of a descendant are descendants. */
  lemma {:induction false} DescendantsTransitive(def: FlowDefinition, rank: map<string, nat>, k: string, x: string)
    requires RankedBy(def, rank) && KeysMatchIds(def)
    requires x in Descendants(def, rank, k)
    ensures Descendants(def, rank, x) <= Descendants(def, rank, k)
    decreases Height(def, rank, k)
  {
    if x != k {
      var n := |def.steps[k].options|;
      var i := OptionsReachWitness(def, rank, k, n, x);
      var o := OptionAt(def, k, i);
      DescendantsTransitive(def, rank, o.nextStepId.value, x);
      OptionsReachIncludes(def, rank, k, n, i);
    }
  }

  /**
   * The descendant set is closed: the target of every followed option of a descendant
   * is a descendant.
   */
  lemma DescendantsClosed(def: FlowDefinition, rank: map<string, nat>, k: string)
    requires RankedBy(def, rank) && KeysMatchIds(def)
    ensures ClosedUnderFollows(def, Descendants(def, rank, k))
  {
    forall x, i | x in Descendants(def, rank, k) && HasOption(def, x, i) && Follows(def, OptionAt(def, x, i))
      ensures OptionAt(def, x, i).nextStepId.value in Descendants(def, rank, k)
    {
      DescendantsTransitive(def, rank, k, x);
      OptionsReachIncludes(def, rank, x, |def.steps[x].options|, i);
    }
  }

  /** Any closed set that contains the start contains all its descendants. */
  lemma {:induction false} DescendantsLeast(def: FlowDefinition, rank: map<string, nat>, k: string, s: set<string>)
    requires RankedBy(def, rank) && KeysMatchIds(def)
    requires k in s && ClosedUnderFollows(def, s)
    ensures Descendants(def, rank, k) <= s
    decreases Height(def, rank, k), 2, 0
  {
    if k in def.steps {
      OptionsReachLeast(def, rank, k, |def.steps[k].options|, s);
    }
  }

  lemma {:induction false} OptionsReachLeast(def: FlowDefinition, rank: map<string, nat>, k: string, n: nat, s: set<string>)
    requires RankedBy(def, rank) && KeysMatchIds(def)
    requires k in def.steps && n <= |def.steps[k].options|
    requires k in s && ClosedUnderFollows(def, s)
    ensures OptionsReach(def, rank, k, n) <= s
    decreases Height(def, rank, k), 1, n
  {
    if n > 0 {
      OptionsReachLeast(def, rank, k, n - 1, s);
      var o := OptionAt(def, k, n - 1);
      if Follows(def, o) {
        DescendantsLeast(def, rank, o.nextStepId.value, s);
      }
    }
  }

  // ---------------------------------------------------------------------------
  // calculateBookingSummary

  datatype SelectedServiceSummary = SelectedServiceSummary(
    optionId: string,
    optionLabel: string,
    stepId: string,
    stepTitle: string,
    price: int,
    durationMinutes: int)

  datatype BookingSummary = BookingSummary(
    services: seq<SelectedServiceSummary>,
    totalPrice: int,
    totalDurationMinutes: int)

  /** The summary line of a selected leaf; a missing price or duration counts as 0. */
  function ServiceFor(def: FlowDefinition, stepId: string, optionId: string, option: FlowOption): SelectedServiceSummary
    requires stepId in def.steps
  {
    SelectedServiceSummary(optionId, option.labelText, stepId, def.steps[stepId].title,
      option.price.GetOr(0), option.durationMinutes.GetOr(0))
  }

  /** The summary lines of the selected ids `optionIds` of step `stepId`, in selection order. */
  function StepServices(def: FlowDefinition, index: OptionIndex, stepId: string, optionIds: seq<string>): seq<SelectedServiceSummary>
    requires stepId in def.steps
  {
    if optionIds == [] then []
    else
      var optionId := optionIds[|optionIds| - 1];
      StepServices(def, index, stepId, optionIds[..|optionIds| - 1]) +
      if optionId in index && !index[optionId].option.hasChildren then
        [ServiceFor(def, stepId, optionId, index[optionId].option)]
      else []
  }

  /** The summary lines of the selection's steps visited in `order`; unknown steps add none. */
  function ServicesOver(selected: SelectedOptionsMap, def: FlowDefinition, index: OptionIndex, order: seq<string>): seq<SelectedServiceSummary>
    requires forall j :: 0 <= j < |order| ==> order[j] in selected
  {
    if order == [] then []
    else
      var stepId := order[|order| - 1];
      ServicesOver(selected, def, index, order[..|order| - 1]) +
      if stepId in def.steps then StepServices(def, index, stepId, selected[stepId]) else []
  }

  function SumPrice(services: seq<SelectedServiceSummary>): int {
    if services == [] then 0 else SumPrice(services[..|services| - 1]) + services[|services| - 1].price
  }

  function SumDuration(services: seq<SelectedServiceSummary>): int {
    if services == [] then 0 else SumDuration(services[..|services| - 1]) + services[|services| - 1].durationMinutes
  }

  /**
   * `calculateBookingSummary`: one line per selected leaf option of a known step, visiting
   * the selection's steps in the unspecified order `order`, and the two totals.
   */
  method CalculateBookingSummary(selected: SelectedOptionsMap, def: FlowDefinition, index: OptionIndex)
    returns (summary: BookingSummary, ghost order: seq<string>)
    ensures Distinct(order) && forall k :: k in order <==> k in selected
    ensures forall j :: 0 <= j < |order| ==> order[j] in selected
    ensures summary.services == ServicesOver(selected, def, index, order)
    ensures summary.totalPrice == SumPrice(summary.services)
    ensures summary.totalDurationMinutes == SumDuration(summary.services)
    ensures selected == map[] ==> summary == BookingSummary([], 0, 0)
  {
    var services: seq<SelectedServiceSummary> := [];
    order := [];
    var remaining := selected.Keys;
    while remaining != {}
      invariant remaining <= selected.Keys
      invariant Distinct(order) && forall k :: k in order <==> k in selected && k !in remaining
      invariant forall j :: 0 <= j < |order| ==> order[j] in selected
      invariant services == ServicesOver(selected, def, index, order)
      decreases |remaining|
    {
      var stepId :| stepId in remaining;
      var optionIds := selected[stepId];
      assert ServicesOver(selected, def, index, order + [stepId]) ==
        services + if stepId in def.steps then StepServices(def, index, stepId, optionIds) else [] by {
        assert (order + [stepId])[..|order|] == order;
      }
      if stepId in def.steps {
        services := AddStepServices(services, def, index, stepId, optionIds);
      }
      order := order + [stepId];
      remaining := remaining - {stepId};
    }
    summary := BookingSummary(services, SumPrice(services), SumDuration(services));
  }

  /** The inner loop over one step's selected ids: appends the lines of its leaf options. */
  method AddStepServices(services: seq<SelectedServiceSummary>, def: FlowDefinition, index: OptionIndex,
                         stepId: string, optionIds: seq<string>)
    returns (r: seq<SelectedServiceSummary>)
    requires stepId in def.steps
    ensures r == services + StepServices(def, index, stepId, optionIds)
  {
    var step := def.steps[stepId];
    r := services;
    var j := 0;
    while j < |optionIds|
      invariant j <= |optionIds|
      invariant r == services + StepServices(def, index, stepId, optionIds[..j])
    {
      var optionId := optionIds[j];
      assert optionIds[..j + 1][..j] == optionIds[..j];
      if optionId in index && !index[optionId].option.hasChildren {
        var option := index[optionId].option;
        assert StepServices(def, index, stepId, optionIds[..j + 1]) ==
          StepServices(def, index, stepId, optionIds[..j]) + [ServiceFor(def, stepId, optionId, option)];
        r := r + [SelectedServiceSummary(optionId, option.labelText, stepId, step.title,
          option.price.GetOr(0), option.durationMinutes.GetOr(0))];
      } else {
        assert StepServices(def, index, stepId, optionIds[..j + 1]) == StepServices(def, index, stepId, optionIds[..j]);
      }
      j := j + 1;
    }
    assert optionIds[..j] == optionIds;
  }

  /** `s` is the summary line of a selected leaf option of a known step. */
  ghost predicate IsSelectedService(selected: SelectedOptionsMap, def: FlowDefinition, index: OptionIndex, s: SelectedServiceSummary) {
    s.stepId in selected && s.stepId in def.steps &&
    s.optionId in selected[s.stepId] && s.optionId in index && !index[s.optionId].option.hasChildren &&
    s == ServiceFor(def, s.stepId, s.optionId, index[s.optionId].option)
  }

  lemma {:induction false} StepServicesMembers(def: FlowDefinition, index: OptionIndex, stepId: string, optionIds: seq<string>)
    requires stepId in def.steps
    ensures forall s :: s in StepServices(def, index, stepId, optionIds) <==>
      s.stepId == stepId && s.optionId in optionIds && s.optionId in index && !index[s.optionId].option.hasChildren &&
      s == ServiceFor(def, stepId, s.optionId, index[s.optionId].option)
  {
    if optionIds != [] {
      var init := optionIds[..|optionIds| - 1];
      StepServicesMembers(def, index, stepId, init);
      assert optionIds == init + [optionIds[|optionIds| - 1]];
    }
  }

  /**
   * The summary lists exactly the selected leaf options of known steps, whatever order the
   * steps are visited in.
   */
  lemma {:induction false} ServicesOverMembers(selected: SelectedOptionsMap, def: FlowDefinition, index: OptionIndex, order: seq<string>)
    requires forall j :: 0 <= j < |order| ==> order[j] in selected
    ensures forall s :: s in ServicesOver(selected, def, index, order) <==>
      s.stepId in order && IsSelectedService(selected, def, index, s)
  {
    if order != [] {
      var init, stepId := order[..|order| - 1], order[|order| - 1];
      ServicesOverMembers(selected, def, index, init);
      if stepId in def.steps {
        StepServicesMembers(def, index, stepId, selected[stepId]);
      }
      assert order == init + [stepId];
    }
  }

  /** The summary of a calculation lists exactly the selected leaves of known steps. */
  lemma SummaryServices(selected: SelectedOptionsMap, def: FlowDefinition, index: OptionIndex, order: seq<string>)
    requires forall j :: 0 <= j < |order| ==> order[j] in selected
    requires forall k :: k in order <==> k in selected
    ensures forall s :: s in ServicesOver(selected, def, index, order) <==> IsSelectedService(selected, def, index, s)
  {
    ServicesOverMembers(selected, def, index, order);
  }

  lemma {:induction false} SumsAppend(a: seq<SelectedServiceSummary>, b: seq<SelectedServiceSummary>)
    ensures SumPrice(a + b) == SumPrice(a) + SumPrice(b)
    ensures SumDuration(a + b) == SumDuration(a) + SumDuration(b)
    decreases |b|
  {
    if b == [] {
      assert a + b == a;
    } else {
      var init := b[..|b| - 1];
      assert (a + b)[..|a + b| - 1] == a + init;
      SumsAppend(a, init);
    }
  }

  // ---------------------------------------------------------------------------
  // deriveNextStepIds

  /** `selectedOptions[stepId] ?? []`. */
  function SelectedIn(selected: SelectedOptionsMap, stepId: string): seq<string> {
    if stepId in selected then selected[stepId] else []
  }

  /** The step a selected id leads to: its entry exists, has children and names a next step. */
  function TargetOf(index: OptionIndex, optionId: string): Option<string> {
    if optionId in index && index[optionId].option.hasChildren && Truthy(index[optionId].option.nextStepId) then
      index[optionId].option.nextStepId
    else None
  }

  /** The targets of `optionIds`, in order, with repetitions. */
  function TargetsOf(index: OptionIndex, optionIds: seq<string>): seq<string> {
    if optionIds == [] then []
    else
      var t := TargetOf(index, optionIds[|optionIds| - 1]);
      TargetsOf(index, optionIds[..|optionIds| - 1]) + if t.Some? then [t.value] else []
  }

  /** The targets of the selections of the group `stepIds`, in visiting order, with repetitions. */
  function Candidates(stepIds: seq<string>, selected: SelectedOptionsMap, index: OptionIndex): seq<string> {
    if stepIds == [] then []
    else
      Candidates(stepIds[..|stepIds| - 1], selected, index) +
      TargetsOf(index, SelectedIn(selected, stepIds[|stepIds| - 1]))
  }

  /** `deriveNextStepIds`: the group's targets, each once, in the order first seen. */
  method DeriveNextStepIds(currentStepIds: seq<string>, selected: SelectedOptionsMap, index: OptionIndex)
    returns (nextStepIds: seq<string>)
    ensures nextStepIds == Dedup(Candidates(currentStepIds, selected, index))
  {
    nextStepIds := [];
    var i := 0;
    while i < |currentStepIds|
      invariant i <= |currentStepIds|
      invariant nextStepIds == Dedup(Candidates(currentStepIds[..i], selected, index))
    {
      var stepId := currentStepIds[i];
      var sel := if stepId in selected then selected[stepId] else [];
      CandidatesStep(currentStepIds, selected, index, i);
      nextStepIds := AddTargets(nextStepIds, Candidates(currentStepIds[..i], selected, index), sel, index);
      i := i + 1;
    }
    assert currentStepIds[..i] == currentStepIds;
  }

  /** The callback of `selected.forEach`: adds the target of each selected id to the set. */
  method AddTargets(acc: seq<string>, ghost seen: seq<string>, sel: seq<string>, index: OptionIndex)
    returns (result: seq<string>)
    requires acc == Dedup(seen)
    ensures result == Dedup(seen + TargetsOf(index, sel))
  {
    result := acc;
    var j := 0;
    assert seen + TargetsOf(index, sel[..0]) == seen;
    while j < |sel|
      invariant j <= |sel|
      invariant result == Dedup(seen + TargetsOf(index, sel[..j]))
    {
      var optionId := sel[j];
      TargetsStep(seen, index, sel, j, result);
      if optionId in index {
        var next := index[optionId].option.nextStepId;
        if index[optionId].option.hasChildren && Truthy(next) {
          result := Add(result, next.value);
        }
      }
      j := j + 1;
    }
    assert sel[..j] == sel;
  }

  /** One step more appends the targets of its selections. */
  lemma CandidatesStep(stepIds: seq<string>, selected: SelectedOptionsMap, index: OptionIndex, i: nat)
    requires i < |stepIds|
    ensures Candidates(stepIds[..i + 1], selected, index) ==
      Candidates(stepIds[..i], selected, index) + TargetsOf(index, SelectedIn(selected, stepIds[i]))
  {
    assert stepIds[..i + 1][..i] == stepIds[..i];
  }

  /** One selected id more adds its target, if any, to the deduplicated targets. */
  lemma TargetsStep(base: seq<string>, index: OptionIndex, sel: seq<string>, j: nat, acc: seq<string>)
    requires j < |sel| && acc == Dedup(base + TargetsOf(index, sel[..j]))
    ensures Dedup(base + TargetsOf(index, sel[..j + 1])) ==
      if TargetOf(index, sel[j]).Some? then Add(acc, TargetOf(index, sel[j]).value) else acc
  {
    assert sel[..j + 1][..j] == sel[..j];
    var seen := base + TargetsOf(index, sel[..j]);
    var t := TargetOf(index, sel[j]);
    if t.Some? {
      assert base + TargetsOf(index, sel[..j + 1]) == seen + [t.value];
      DedupSnoc(seen, t.value);
    } else {
      assert base + TargetsOf(index, sel[..j + 1]) == seen;
    }
  }

  lemma {:induction false} TargetsOfMembers(index: OptionIndex, optionIds: seq<string>)
    ensures forall x :: x in TargetsOf(index, optionIds) <==>
      exists o :: o in optionIds && TargetOf(index, o) == Some(x)
  {
    if optionIds != [] {
      var init := optionIds[..|optionIds| - 1];
      TargetsOfMembers(index, init);
      assert optionIds == init + [optionIds[|optionIds| - 1]];
    }
  }

  lemma {:induction false} CandidatesMembers(stepIds: seq<string>, selected: SelectedOptionsMap, index: OptionIndex)
    ensures forall x :: x in Candidates(stepIds, selected, index) <==>
      exists s, o :: s in stepIds && o in SelectedIn(selected, s) && TargetOf(index, o) == Some(x)
  {
    if stepIds != [] {
      var init, last := stepIds[..|stepIds| - 1], stepIds[|stepIds| - 1];
      CandidatesMembers(init, selected, index);
      TargetsOfMembers(index, SelectedIn(selected, last));
      assert stepIds == init + [last];
    }
  }

  /**
   * The next group holds each target of a selected branch option of the current group
   * exactly once, in the order first seen; nothing else.
   */
  lemma DeriveNextStepIdsSpec(stepIds: seq<string>, selected: SelectedOptionsMap, index: OptionIndex)
    ensures Distinct(Dedup(Candidates(stepIds, selected, index)))
    ensures forall x :: x in Dedup(Candidates(stepIds, selected, index)) <==> x in Candidates(stepIds, selected, index)
    ensures forall x :: x in Dedup(Candidates(stepIds, selected, index)) <==>
      exists s, o :: s in stepIds && o in SelectedIn(selected, s) && TargetOf(index, o) == Some(x)
    ensures FirstSeenOrder(Candidates(stepIds, selected, index), Dedup(Candidates(stepIds, selected, index)))
  {
    var c := Candidates(stepIds, selected, index);
    DedupDistinct(c);
    DedupElements(c);
    DedupFirstSeen(c);
    CandidatesMembers(stepIds, selected, index);
  }

  /** Selections outside the group do not matter. */
  lemma {:induction false} CandidatesFrame(stepIds: seq<string>, a: SelectedOptionsMap, b: SelectedOptionsMap, index: OptionIndex)
    requires forall j :: 0 <= j < |stepIds| ==> SelectedIn(a, stepIds[j]) == SelectedIn(b, stepIds[j])
    ensures Candidates(stepIds, a, index) == Candidates(stepIds, b, index)
  {
    if stepIds != [] {
      CandidatesFrame(stepIds[..|stepIds| - 1], a, b, index);
    }
  }
}
