/**
 * The value-level helpers of the booking stepper: duration labels, the time slots, the
 * e-mail pattern, the specialist categories of a selection and the specialist map updates.
 */
module StepperValues {
  import opened Wrappers
  import opened Ordered
  import opened Text
  import opened FlowUtils

  // ---------------------------------------------------------------------------
  // formatDuration

  /** JavaScript's `%`: the remainder takes the sign of the dividend. */
  function JsRemainder(a: int, b: int): (r: int)
    requires b > 0
    ensures a >= 0 ==> 0 <= r < b
    ensures a < 0 ==> -b < r <= 0
  {
    if a >= 0 then a % b else -((-a) % b)
  }

  /**
   * `formatDuration`: whole hours and the remaining minutes, dropping a part that is zero
   * (`Math.floor` is `/` for a positive divisor; JavaScript treats 0 as false).
   */
  function FormatDuration(minutes: int): string {
    var hours := minutes / 60;
    var mins := JsRemainder(minutes, 60);
    if hours != 0 && mins != 0 then IntToString(hours) + "h " + IntToString(mins) + "m"
    else if hours != 0 then IntToString(hours) + "h"
    else IntToString(mins) + "m"
  }

  /** A nonempty run of decimal digits. */
  predicate IsNumeral(s: string) {
    |s| > 0 && forall i :: 0 <= i < |s| ==> IsDigit(s[i])
  }

  /** The position of the first `c` in `s`, or `|s|` when there is none. */
  function FindChar(s: string, c: char): (r: nat)
    ensures r <= |s|
    ensures r < |s| ==> s[r] == c
    ensures forall i :: 0 <= i < r ==> s[i] != c
  {
    if s == [] then 0 else if s[0] == c then 0 else 1 + FindChar(s[1..], c)
  }

  /** The value of a numeral, if `s` is one. */
  function ParseNumeral(s: string): Option<int> {
    if IsNumeral(s) then Some(ParseDigits(s)) else None
  }

  /** Reads a duration label `<h>h <m>m`, `<h>h` or `<m>m` back into minutes. */
  function ParseDuration(s: string): Option<int> {
    if s == [] then None
    else if s[|s| - 1] == 'h' then
      var hours := ParseNumeral(s[..|s| - 1]);
      if hours.Some? then Some(hours.value * 60) else None
    else if s[|s| - 1] == 'm' then ParseMinutesLabel(s[..|s| - 1])
    else None
  }

  /** The part of a label before its final 'm': `<h>h <m>` or `<m>`. */
  function ParseMinutesLabel(body: string): Option<int> {
    var k := FindChar(body, 'h');
    if k == |body| then ParseNumeral(body)
    else if k + 1 < |body| && body[k + 1] == ' ' then
      var hours, mins := ParseNumeral(body[..k]), ParseNumeral(body[k + 2..]);
      if hours.Some? && mins.Some? then Some(hours.value * 60 + mins.value) else None
    else None
  }

  /** A duration that is not negative is labelled without loss: the label reads back as it. */
  lemma FormatDurationRoundTrip(minutes: nat)
    ensures ParseDuration(FormatDuration(minutes)) == Some(minutes)
  {
    var hours, mins := minutes / 60, minutes % 60;
    var hs, ms := NatToString(hours), NatToString(mins);
    LabelOfNat(minutes);
    ParseNatToString(hours);
    ParseNatToString(mins);
    if hours != 0 && mins != 0 {
      ParseHoursAndMinutes(hs, ms);
    } else if hours != 0 {
      ParseHours(hs);
    } else {
      ParseMinutes(ms);
    }
  }

  /** For a duration that is not negative both parts print without a sign. */
  lemma LabelOfNat(minutes: nat)
    ensures var hs, ms := NatToString(minutes / 60), NatToString(minutes % 60);
      FormatDuration(minutes) ==
        if minutes / 60 != 0 && minutes % 60 != 0 then hs + "h " + ms + "m"
        else if minutes / 60 != 0 then hs + "h"
        else ms + "m"
  {
    assert JsRemainder(minutes, 60) == minutes % 60;
  }

  lemma ParseHoursAndMinutes(hs: string, ms: string)
    requires IsNumeral(hs) && IsNumeral(ms)
    ensures ParseDuration(hs + "h " + ms + "m") == Some(ParseDigits(hs) * 60 + ParseDigits(ms))
  {
    var s := hs + "h " + ms + "m";
    var body := hs + "h " + ms;
    assert s[|s| - 1] == 'm' && s[..|s| - 1] == body;
    MinutesLabelOf(hs, ms);
  }

  lemma MinutesLabelSplit(body: string, k: nat)
    requires k == FindChar(body, 'h') && k + 1 < |body| && body[k + 1] == ' '
    requires IsNumeral(body[..k]) && IsNumeral(body[k + 2..])
    ensures ParseMinutesLabel(body) == Some(ParseDigits(body[..k]) * 60 + ParseDigits(body[k + 2..]))
  {
  }

  lemma MinutesLabelOf(hs: string, ms: string)
    requires IsNumeral(hs) && IsNumeral(ms)
    ensures ParseMinutesLabel(hs + "h " + ms) == Some(ParseDigits(hs) * 60 + ParseDigits(ms))
  {
    var body := hs + "h " + ms;
    assert forall i :: 0 <= i < |hs| ==> body[i] == hs[i];
    assert body[|hs|] == 'h' && body[|hs| + 1] == ' ';
    var k := FindChar(body, 'h');
    assert k == |hs|;
    assert body[..k] == hs;
    assert body[k + 2..] == ms;
    MinutesLabelSplit(body, k);
  }

  lemma ParseHours(hs: string)
    requires IsNumeral(hs)
    ensures ParseDuration(hs + "h") == Some(ParseDigits(hs) * 60)
  {
    var s := hs + "h";
    assert s[..|s| - 1] == hs;
  }

  lemma ParseMinutes(ms: string)
    requires IsNumeral(ms)
    ensures ParseDuration(ms + "m") == Some(ParseDigits(ms))
  {
    var s := ms + "m";
    assert s[|s| - 1] == 'm' && s[..|s| - 1] == ms;
    assert forall i :: 0 <= i < |ms| ==> ms[i] != 'h';
  }

  /** Different durations get different labels. */
  lemma FormatDurationInjective(a: nat, b: nat)
    requires FormatDuration(a) == FormatDuration(b)
    ensures a == b
  {
    FormatDurationRoundTrip(a);
    FormatDurationRoundTrip(b);
  }

  // ---------------------------------------------------------------------------
  // timeSlots

  /** The full hours from 10:00 to 20:00 that the time picker offers. */
  function TimeSlots(): (slots: seq<string>)
    ensures |slots| == 11
  {
    seq(11, i requires 0 <= i < 11 => PadStart2(NatToString(i + 10)) + ":00")
  }

  lemma TwoDigits(n: nat)
    requires 10 <= n < 100
    ensures |NatToString(n)| == 2
  {
    assert NatToString(n) == NatToString(n / 10) + [DigitChar(n % 10)];
  }

  /** Slot `i` is the hour `10 + i` written with two digits, then ":00". */
  lemma SlotHour(i: nat)
    requires i < 11
    ensures |TimeSlots()[i]| == 5 && TimeSlots()[i][2..] == ":00"
    ensures IsNumeral(TimeSlots()[i][..2]) && ParseDigits(TimeSlots()[i][..2]) == i + 10
  {
    var digits := NatToString(i + 10);
    TwoDigits(i + 10);
    ParseNatToString(i + 10);
    assert PadStart2(digits) == digits;
    var slot := digits + ":00";
    assert TimeSlots()[i] == slot;
    assert slot[..2] == digits;
  }

  /** The slots run one per hour from "10:00"; no slot repeats. */
  lemma TimeSlotsHours()
    ensures forall i :: 0 <= i < 11 ==>
      |TimeSlots()[i]| == 5 && TimeSlots()[i][2..] == ":00" &&
      IsNumeral(TimeSlots()[i][..2]) && ParseDigits(TimeSlots()[i][..2]) == i + 10
    ensures Distinct(TimeSlots())
  {
    forall i | 0 <= i < 11
      ensures |TimeSlots()[i]| == 5 && TimeSlots()[i][2..] == ":00"
      ensures IsNumeral(TimeSlots()[i][..2]) && ParseDigits(TimeSlots()[i][..2]) == i + 10
    {
      SlotHour(i);
    }
    forall i, j | 0 <= i < j < 11
      ensures TimeSlots()[i] != TimeSlots()[j]
    {
      SlotHour(i);
      SlotHour(j);
    }
  }

  // ---------------------------------------------------------------------------
  // EMAIL_REGEX, `^[^\s@]+@[^\s@]+\.[^\s@]+$`

  /** `[^\s@]+`: nonempty, with no whitespace and no '@'. */
  predicate EmailPart(s: string) {
    |s| > 0 && forall i :: 0 <= i < |s| ==> !IsWhitespace(s[i]) && s[i] != '@'
  }

  /** The whole string is a part, '@', a part, '.', a part. */
  predicate EmailValid(s: string) {
    exists i, j :: 0 < i && i + 1 < j && j + 1 < |s| && s[i] == '@' && s[j] == '.' &&
      EmailPart(s[..i]) && EmailPart(s[i + 1..j]) && EmailPart(s[j + 1..])
  }

  /** Every string of the pattern's language is accepted. */
  lemma EmailValidIntro(user: string, host: string, tld: string)
    requires EmailPart(user) && EmailPart(host) && EmailPart(tld)
    ensures EmailValid(user + "@" + host + "." + tld)
  {
    var s := user + "@" + host + "." + tld;
    var i, j := |user|, |user| + 1 + |host|;
    assert s[..i] == user && s[i + 1..j] == host && s[j + 1..] == tld;
    assert s[i] == '@' && s[j] == '.';
  }

  /** An accepted address has exactly one '@', and no whitespace. */
  lemma EmailValidShape(s: string)
    requires EmailValid(s)
    ensures exists i :: 0 <= i < |s| && s[i] == '@' && forall k :: 0 <= k < |s| && k != i ==> s[k] != '@'
    ensures forall k :: 0 <= k < |s| ==> !IsWhitespace(s[k])
  {
    var i, j :| 0 < i && i + 1 < j && j + 1 < |s| && s[i] == '@' && s[j] == '.' &&
      EmailPart(s[..i]) && EmailPart(s[i + 1..j]) && EmailPart(s[j + 1..]);
    forall k | 0 <= k < |s|
      ensures k != i ==> s[k] != '@'
      ensures !IsWhitespace(s[k])
    {
      if k < i {
        assert s[k] == s[..i][k];
      } else if i < k < j {
        assert s[k] == s[i + 1..j][k - i - 1];
      } else if j < k {
        assert s[k] == s[j + 1..][k - j - 1];
      }
    }
  }

  // ---------------------------------------------------------------------------
  // specialistCategoryIds

  /** The specialist category of a selected id: its entry exists and names a category. */
  function CategoryOf(index: OptionIndex, optionId: string): Option<string> {
    if optionId in index && Truthy(index[optionId].option.specialistCategoryId) then
      index[optionId].option.specialistCategoryId
    else None
  }

  /** The categories of `optionIds`, in order, with repetitions. */
  function CategoriesOf(index: OptionIndex, optionIds: seq<string>): seq<string> {
    if optionIds == [] then []
    else
      var c := CategoryOf(index, optionIds[|optionIds| - 1]);
      CategoriesOf(index, optionIds[..|optionIds| - 1]) + if c.Some? then [c.value] else []
  }

  /** The categories of the selections of the steps visited in `order`, with repetitions. */
  function CategoryCandidates(selected: SelectedOptionsMap, index: OptionIndex, order: seq<string>): seq<string>
    requires forall j :: 0 <= j < |order| ==> order[j] in selected
  {
    if order == [] then []
    else
      CategoryCandidates(selected, index, order[..|order| - 1]) + CategoriesOf(index, selected[order[|order| - 1]])
  }

  /** `c` is the category of some selected id, in whichever step. */
  ghost predicate IsSelectedCategory(selected: SelectedOptionsMap, index: OptionIndex, c: string) {
    exists k, o :: k in selected && o in selected[k] && CategoryOf(index, o) == Some(c)
  }

  /**
   * `specialistCategoryIds`: the categories of all selected ids, each once, in the order
   * first seen while visiting the selection's steps in the unspecified order `order`.
   */
  method SpecialistCategoryIds(selected: SelectedOptionsMap, index: OptionIndex)
    returns (ids: seq<string>, ghost order: seq<string>)
    ensures Distinct(order) && forall k :: k in order <==> k in selected
    ensures forall j :: 0 <= j < |order| ==> order[j] in selected
    ensures ids == Dedup(CategoryCandidates(selected, index, order))
    ensures Distinct(ids) && forall c :: c in ids <==> IsSelectedCategory(selected, index, c)
  {
    ids := [];
    order := [];
    var remaining := selected.Keys;
    while remaining != {}
      invariant remaining <= selected.Keys
      invariant Distinct(order) && forall k :: k in order <==> k in selected && k !in remaining
      invariant forall j :: 0 <= j < |order| ==> order[j] in selected
      invariant ids == Dedup(CategoryCandidates(selected, index, order))
      decreases |remaining|
    {
      var stepId :| stepId in remaining;
      assert (order + [stepId])[..|order|] == order;
      ids := AddCategories(ids, CategoryCandidates(selected, index, order), selected[stepId], index);
      order := order + [stepId];
      remaining := remaining - {stepId};
    }
    SpecialistCategoryIdsSpec(selected, index, order);
  }

  /** The inner `optionIds.forEach`: adds each new category of `optionIds`. */
  method AddCategories(acc: seq<string>, ghost seen: seq<string>, optionIds: seq<string>, index: OptionIndex)
    returns (result: seq<string>)
    requires acc == Dedup(seen)
    ensures result == Dedup(seen + CategoriesOf(index, optionIds))
  {
    result := acc;
    var j := 0;
    assert result == Dedup(seen + CategoriesOf(index, optionIds[..0])) by {
      assert seen + CategoriesOf(index, optionIds[..0]) == seen;
    }
    while j < |optionIds|
      invariant j <= |optionIds|
      invariant result == Dedup(seen + CategoriesOf(index, optionIds[..j]))
    {
      result := AddCategory(result, seen, optionIds, j, index);
      j := j + 1;
    }
    assert optionIds[..j] == optionIds;
  }

  /** The body of the inner loop: `if (categoryId) ids.add(categoryId)` for the `j`-th id. */
  method AddCategory(ids: seq<string>, ghost seen: seq<string>, optionIds: seq<string>, j: nat, index: OptionIndex)
    returns (next: seq<string>)
    requires j < |optionIds| && ids == Dedup(seen + CategoriesOf(index, optionIds[..j]))
    ensures next == Dedup(seen + CategoriesOf(index, optionIds[..j + 1]))
  {
    CategoriesStep(seen, index, optionIds, j, ids);
    var optionId := optionIds[j];
    next := ids;
    if optionId in index {
      var categoryId := index[optionId].option.specialistCategoryId;
      if Truthy(categoryId) && categoryId.value !in ids {
        next := ids + [categoryId.value];
      }
    }
  }

  /** One selected id more adds its category, if any, to the deduplicated categories. */
  lemma CategoriesStep(base: seq<string>, index: OptionIndex, optionIds: seq<string>, j: nat, acc: seq<string>)
    requires j < |optionIds| && acc == Dedup(base + CategoriesOf(index, optionIds[..j]))
    ensures Dedup(base + CategoriesOf(index, optionIds[..j + 1])) ==
      if CategoryOf(index, optionIds[j]).Some? then Add(acc, CategoryOf(index, optionIds[j]).value) else acc
  {
    assert optionIds[..j + 1][..j] == optionIds[..j];
    var seen := base + CategoriesOf(index, optionIds[..j]);
    var c := CategoryOf(index, optionIds[j]);
    if c.Some? {
      assert base + CategoriesOf(index, optionIds[..j + 1]) == seen + [c.value];
      DedupSnoc(seen, c.value);
    } else {
      assert base + CategoriesOf(index, optionIds[..j + 1]) == seen;
    }
  }

  lemma {:induction false} CategoriesOfMembers(index: OptionIndex, optionIds: seq<string>)
    ensures forall c :: c in CategoriesOf(index, optionIds) <==>
      exists o :: o in optionIds && CategoryOf(index, o) == Some(c)
  {
    if optionIds != [] {
      var init := optionIds[..|optionIds| - 1];
      CategoriesOfMembers(index, init);
      assert optionIds == init + [optionIds[|optionIds| - 1]];
    }
  }

  lemma {:induction false} CategoryCandidatesMembers(selected: SelectedOptionsMap, index: OptionIndex, order: seq<string>)
    requires forall j :: 0 <= j < |order| ==> order[j] in selected
    ensures forall c :: c in CategoryCandidates(selected, index, order) <==>
      exists k, o :: k in order && o in selected[k] && CategoryOf(index, o) == Some(c)
  {
    if order != [] {
      var init, last := order[..|order| - 1], order[|order| - 1];
      CategoryCandidatesMembers(selected, index, init);
      CategoriesOfMembers(index, selected[last]);
      assert order == init + [last];
    }
  }

  /**
   * The category list holds every category of a selected id exactly once, nothing else,
   * and in the order the visit first meets them.
   */
  lemma SpecialistCategoryIdsSpec(selected: SelectedOptionsMap, index: OptionIndex, order: seq<string>)
    requires forall j :: 0 <= j < |order| ==> order[j] in selected
    requires forall k :: k in order <==> k in selected
    ensures Distinct(Dedup(CategoryCandidates(selected, index, order)))
    ensures forall c :: c in Dedup(CategoryCandidates(selected, index, order)) <==> c in CategoryCandidates(selected, index, order)
    ensures forall c :: c in Dedup(CategoryCandidates(selected, index, order)) <==> IsSelectedCategory(selected, index, c)
    ensures FirstSeenOrder(CategoryCandidates(selected, index, order), Dedup(CategoryCandidates(selected, index, order)))
  {
    var c := CategoryCandidates(selected, index, order);
    DedupDistinct(c);
    DedupElements(c);
    DedupFirstSeen(c);
    CategoryCandidatesMembers(selected, index, order);
  }

  // ---------------------------------------------------------------------------
  // The specialist map: pruning and toggling.

  /** The sought part of the pruning effect: the truthy assignments of the listed categories. */
  function KeepCategories(prev: map<string, string>, categoryIds: seq<string>): (next: map<string, string>)
    ensures forall c :: c in next <==> c in categoryIds && c in prev && prev[c] != ""
    ensures forall c :: c in next ==> next[c] == prev[c]
  {
    map c | c in prev && c in categoryIds && prev[c] != "" :: prev[c]
  }

  /** The pruning updater's test: both maps have as many keys and `prev` agrees on `next`'s. */
  predicate SameAssignments(prev: map<string, string>, next: map<string, string>) {
    |prev.Keys| == |next.Keys| && forall key :: key in next ==> key in prev && prev[key] == next[key]
  }

  /** Two maps that pass the updater's test are equal, so returning `prev` loses nothing. */
  lemma SameAssignmentsEqual(prev: map<string, string>, next: map<string, string>)
    requires SameAssignments(prev, next)
    ensures prev == next
  {
    assert next.Keys <= prev.Keys;
    SubsetSameSize(next.Keys, prev.Keys);
  }

  lemma {:induction false} SubsetSameSize(a: set<string>, b: set<string>)
    requires a <= b && |a| == |b|
    ensures a == b
    decreases |a|
  {
    if a != {} {
      var x :| x in a;
      assert |a - {x}| == |a| - 1 && |b - {x}| == |b| - 1;
      SubsetSameSize(a - {x}, b - {x});
      assert a == (a - {x}) + {x} && b == (b - {x}) + {x};
    }
  }

  /** Pruning again changes nothing. */
  lemma KeepCategoriesIdempotent(prev: map<string, string>, categoryIds: seq<string>)
    ensures KeepCategories(KeepCategories(prev, categoryIds), categoryIds) == KeepCategories(prev, categoryIds)
  {
  }

  /** The updater of `toggleSpecialist`: clicking the assigned specialist clears the category, any other assigns it. */
  function ToggledSpecialists(prev: map<string, string>, categoryId: string, specialistId: string): (next: map<string, string>)
    ensures categoryId in prev && prev[categoryId] == specialistId ==> categoryId !in next
    ensures !(categoryId in prev && prev[categoryId] == specialistId) ==> categoryId in next && next[categoryId] == specialistId
    ensures forall c :: c != categoryId ==> (c in next <==> c in prev) && (c in next ==> next[c] == prev[c])
  {
    if categoryId in prev && prev[categoryId] == specialistId then prev - {categoryId}
    else prev[categoryId := specialistId]
  }

  /** A second click on the same specialist undoes the first unless it replaced another one. */
  lemma ToggledSpecialistsTwice(prev: map<string, string>, categoryId: string, specialistId: string)
    ensures ToggledSpecialists(ToggledSpecialists(prev, categoryId, specialistId), categoryId, specialistId) == prev
      <==> categoryId !in prev || prev[categoryId] == specialistId
  {
    var once := ToggledSpecialists(prev, categoryId, specialistId);
    var twice := ToggledSpecialists(once, categoryId, specialistId);
    if categoryId in prev && prev[categoryId] != specialistId {
      assert categoryId !in twice;
    }
  }

  /** The updater of `toggleTimeSlot`: clicking the chosen slot clears it, any other chooses it. */
  function ToggledTimeSlot(prev: Option<string>, slot: string): (next: Option<string>)
    ensures next == None <==> prev == Some(slot)
    ensures next != None ==> next == Some(slot)
  {
    if prev == Some(slot) then None else Some(slot)
  }
}
