/**
 * The WhatsApp texts sent around an appointment: the confirmation sent when the
 * booking is made, the reminder the day before and the thank-you after the visit.
 * Each message is a list of lines, some of them conditional, joined with "\n".
 */
module Messages {
  import opened Wrappers
  import opened Text
  import opened Dates

  datatype MessageKind = Confirmation | Reminder | ThankYou

  /**
   * What a message may mention. An absent `isWaitlistEnabled` reads as `false`;
   * every other optional field keeps its absence.
   */
  datatype MessageContext = MessageContext(
    customerName: Option<string>,
    appointmentDate: Option<CalendarDate>,
    appointmentTime: Option<string>,
    appointmentConfirmationLabel: Option<string>,
    serviceSummary: Option<string>,
    specialistSummary: Option<string>,
    totalDurationLabel: string,
    totalPriceLabel: string,
    recurrenceLabel: Option<string>,
    isWaitlistEnabled: bool)

  // The fixed texts of the three messages.
  const ConfirmationOpening := " 🌟 Confirmăm cu drag programarea ta."
  const DateLinePrefix := "\n📅 Te așteptăm "
  const ConfirmationServicePrefix := "\n✂️ Serviciu: "
  const SpecialistPrefix := "👤 Specialist: "
  const ConfirmationDurationPrefix := "🕒 Durata totală: "
  const CostPrefix := "📃 Cost: "
  const RecurrencePrefix := "🔁 Program recurent: "
  const WaitlistLine := "\nȚinem lista de așteptare pornită pentru o posibilă reprogramare mai rapidă. ⚡"
  const AdjustmentLine := "\nTe rugăm să ne scrii dacă ai nevoie de orice ajustare. 🤝"
  const ManageLine := "\n✅ Poți modifica sau anula rezervarea prin: [Modifica] / [Anulează]."
  const ReminderOpening := " 🌟 Îți reamintim programarea de mâine"
  const ReminderServicePrefix := "✂️ Serviciu: "
  const ReminderDurationPrefix := "🕒 Durată totală: "
  const ReminderConfirmLine := "✅ Te rugăm să confirmi rezervarea: [Confirmă] / [Anulează]."
  const ThankYouOpening := " A fost o plăcere să te avem la salon. ❤️"
  const RebookLine := "✅ Poți face următoarea rezervare direct de aici, prin:"
  const RebookLinks := "[Rezervă din nou] / [Rezervările mele]."

  // ---------------------------------------------------------------------------
  // Greeting

  /** "Salut!" or "Salut, <name>!" with the name trimmed; a blank name counts as none. */
  function FormatGreeting(name: Option<string>): (g: string)
    ensures "Salut" <= g && |g| >= 6 && g[|g| - 1] == '!'
  {
    var trimmed := if name.Some? then Trim(name.value) else "";
    "Salut" + (if trimmed != "" then ", " + trimmed else "") + "!"
  }

  /** The name a greeting addresses: the text between "Salut, " and "!". */
  function GreetedName(g: string): string {
    if |g| >= 8 && "Salut, " <= g then g[7..|g| - 1] else ""
  }

  /** The bare "Salut!" is used exactly when there is no name or only whitespace. */
  lemma GreetingWithoutName(name: Option<string>)
    ensures FormatGreeting(name) == "Salut!" <==> name.None? || AllWhitespace(name.value)
  {
    if name.Some? {
      TrimEmptyIff(name.value);
      var t := Trim(name.value);
      if t != "" {
        assert |FormatGreeting(name)| == 8 + |t|;
      }
    }
  }

  /** The greeting addresses the customer by the trimmed name, so the name can be read back. */
  lemma GreetedNameOfGreeting(name: Option<string>)
    ensures GreetedName(FormatGreeting(name)) == if name.Some? then Trim(name.value) else ""
  {
    var g := FormatGreeting(name);
    if name.Some? && Trim(name.value) != "" {
      var t := Trim(name.value);
      assert g == "Salut, " + t + "!";
      assert "Salut, " <= g;
      assert g[7..|g| - 1] == t;
    } else {
      assert g == "Salut!";
    }
  }

  /** Whitespace around the name does not change the greeting. */
  lemma GreetingIgnoresPadding(front: string, name: string, back: string)
    requires AllWhitespace(front) && AllWhitespace(back)
    ensures FormatGreeting(Some(front + name + back)) == FormatGreeting(Some(name))
  {
    TrimPaddedAny(front, name, back);
  }

  // ---------------------------------------------------------------------------
  // Filtering the conditional lines

  /** The line of an entry that survives `filter(Boolean)`: present and non-empty. */
  function Kept(x: Option<string>): seq<string> {
    if Truthy(x) then [x.value] else []
  }

  /** `lines.filter(Boolean)`: drops the absent entries and the empty strings. */
  function FilterTruthy(lines: seq<Option<string>>): (r: seq<string>)
    ensures forall i :: 0 <= i < |r| ==> r[i] != ""
  {
    if lines == [] then [] else FilterTruthy(lines[..|lines| - 1]) + Kept(lines[|lines| - 1])
  }

  /** The line of an entry that survives `filter(line => line !== null)`. */
  function Present(x: Option<string>): seq<string> {
    if x.Some? then [x.value] else []
  }

  /** `lines.filter(line => line !== null)`: drops only the absent entries, keeps "". */
  function FilterPresent(lines: seq<Option<string>>): (r: seq<string>)
    ensures |r| <= |lines|
  {
    if lines == [] then [] else FilterPresent(lines[..|lines| - 1]) + Present(lines[|lines| - 1])
  }

  /** The confirmation's filter keeps exactly the non-empty lines, the reminder's every present one. */
  lemma {:induction false} FilterMembers(lines: seq<Option<string>>)
    ensures forall s :: s in FilterTruthy(lines) <==> Some(s) in lines && s != ""
    ensures forall s :: s in FilterPresent(lines) <==> Some(s) in lines
  {
    if lines != [] {
      var init, last := lines[..|lines| - 1], lines[|lines| - 1];
      FilterMembers(init);
      assert lines == init + [last];
    }
  }

  /** `filter(Boolean)` works entry by entry: filtering a concatenation concatenates the filtered parts. */
  lemma {:induction false} FilterTruthyAppend(a: seq<Option<string>>, b: seq<Option<string>>)
    ensures FilterTruthy(a + b) == FilterTruthy(a) + FilterTruthy(b)
    decreases |b|
  {
    if b == [] {
      assert a + b == a;
    } else {
      var init, x := b[..|b| - 1], b[|b| - 1];
      FilterTruthyAppend(a, init);
      assert b == init + [x];
      assert a + b == (a + init) + [x];
      TruthySnoc(a + init, x);
      TruthySnoc(init, x);
      Associative(FilterTruthy(a), FilterTruthy(init), Kept(x));
    }
  }

  /** So does `filter(line => line !== null)`. */
  lemma {:induction false} FilterPresentAppend(a: seq<Option<string>>, b: seq<Option<string>>)
    ensures FilterPresent(a + b) == FilterPresent(a) + FilterPresent(b)
    decreases |b|
  {
    if b == [] {
      assert a + b == a;
    } else {
      var init, x := b[..|b| - 1], b[|b| - 1];
      FilterPresentAppend(a, init);
      assert b == init + [x];
      assert a + b == (a + init) + [x];
      PresentSnoc(a + init, x);
      PresentSnoc(init, x);
      Associative(FilterPresent(a), FilterPresent(init), Present(x));
    }
  }

  lemma TruthySnoc(lines: seq<Option<string>>, x: Option<string>)
    ensures FilterTruthy(lines + [x]) == FilterTruthy(lines) + Kept(x)
  {
    assert (lines + [x])[..|lines|] == lines;
  }

  lemma PresentSnoc(lines: seq<Option<string>>, x: Option<string>)
    ensures FilterPresent(lines + [x]) == FilterPresent(lines) + Present(x)
  {
    assert (lines + [x])[..|lines|] == lines;
  }

  lemma Associative(p: seq<string>, q: seq<string>, r: seq<string>)
    ensures p + q + r == p + (q + r)
  {
  }

  /** The pieces the first `n` entries contribute to `filter(Boolean)`. */
  ghost function KeptUpTo(lines: seq<Option<string>>, n: nat): seq<string>
    requires n <= |lines|
  {
    if n == 0 then [] else KeptUpTo(lines, n - 1) + Kept(lines[n - 1])
  }

  /** The pieces the first `n` entries contribute to `filter(line => line !== null)`. */
  ghost function PresentUpTo(lines: seq<Option<string>>, n: nat): seq<string>
    requires n <= |lines|
  {
    if n == 0 then [] else PresentUpTo(lines, n - 1) + Present(lines[n - 1])
  }

  /** Filtering proceeds entry by entry, keeping the order of the entries. */
  lemma {:induction false} FilterPrefix(lines: seq<Option<string>>, n: nat)
    requires n <= |lines|
    ensures FilterTruthy(lines[..n]) == KeptUpTo(lines, n)
    ensures FilterPresent(lines[..n]) == PresentUpTo(lines, n)
  {
    if n > 0 {
      FilterPrefix(lines, n - 1);
      assert lines[..n][..n - 1] == lines[..n - 1];
    }
  }

  /** `filter(Boolean)` on ten entries: each entry's piece, in order. */
  lemma FilterTruthyTen(lines: seq<Option<string>>)
    requires |lines| == 10
    ensures FilterTruthy(lines) ==
      Kept(lines[0]) + Kept(lines[1]) + Kept(lines[2]) + Kept(lines[3]) + Kept(lines[4])
      + Kept(lines[5]) + Kept(lines[6]) + Kept(lines[7]) + Kept(lines[8]) + Kept(lines[9])
  {
    FilterPrefix(lines, 10);
    assert lines[..10] == lines;
    assert KeptUpTo(lines, 10) == KeptUpTo(lines, 9) + Kept(lines[9]);
    assert KeptUpTo(lines, 9) == KeptUpTo(lines, 8) + Kept(lines[8]);
    assert KeptUpTo(lines, 8) == KeptUpTo(lines, 7) + Kept(lines[7]);
    assert KeptUpTo(lines, 7) == KeptUpTo(lines, 6) + Kept(lines[6]);
    assert KeptUpTo(lines, 6) == KeptUpTo(lines, 5) + Kept(lines[5]);
    assert KeptUpTo(lines, 5) == KeptUpTo(lines, 4) + Kept(lines[4]);
    assert KeptUpTo(lines, 4) == KeptUpTo(lines, 3) + Kept(lines[3]);
    assert KeptUpTo(lines, 3) == KeptUpTo(lines, 2) + Kept(lines[2]);
    assert KeptUpTo(lines, 2) == KeptUpTo(lines, 1) + Kept(lines[1]);
    assert KeptUpTo(lines, 1) == Kept(lines[0]);
  }

  /** `filter(line => line !== null)` on seven entries: each entry's piece, in order. */
  lemma FilterPresentSeven(lines: seq<Option<string>>)
    requires |lines| == 7
    ensures FilterPresent(lines) ==
      Present(lines[0]) + Present(lines[1]) + Present(lines[2]) + Present(lines[3])
      + Present(lines[4]) + Present(lines[5]) + Present(lines[6])
  {
    FilterPrefix(lines, 7);
    assert lines[..7] == lines;
    assert PresentUpTo(lines, 7) == PresentUpTo(lines, 6) + Present(lines[6]);
    assert PresentUpTo(lines, 6) == PresentUpTo(lines, 5) + Present(lines[5]);
    assert PresentUpTo(lines, 5) == PresentUpTo(lines, 4) + Present(lines[4]);
    assert PresentUpTo(lines, 4) == PresentUpTo(lines, 3) + Present(lines[3]);
    assert PresentUpTo(lines, 3) == PresentUpTo(lines, 2) + Present(lines[2]);
    assert PresentUpTo(lines, 2) == PresentUpTo(lines, 1) + Present(lines[1]);
    assert PresentUpTo(lines, 1) == Present(lines[0]);
  }

  // ---------------------------------------------------------------------------
  // Confirmation

  function OptionalLine(x: Option<string>, prefix: string, suffix: string): Option<string> {
    if Truthy(x) then Some(prefix + x.value + suffix) else None
  }

  /** The candidate lines of the confirmation, before the falsy ones are dropped. */
  function ConfirmationLines(ctx: MessageContext): seq<Option<string>> {
    [ Some(FormatGreeting(ctx.customerName) + ConfirmationOpening),
      OptionalLine(ctx.appointmentConfirmationLabel, DateLinePrefix, ""),
      OptionalLine(ctx.serviceSummary, ConfirmationServicePrefix, "."),
      OptionalLine(ctx.specialistSummary, SpecialistPrefix, "."),
      Some(ConfirmationDurationPrefix + ctx.totalDurationLabel),
      Some(CostPrefix + ctx.totalPriceLabel),
      if Truthy(ctx.recurrenceLabel) then Some(RecurrencePrefix + ToLower(ctx.recurrenceLabel.value)) else None,
      if ctx.isWaitlistEnabled then Some(WaitlistLine) else None,
      Some(AdjustmentLine),
      Some(ManageLine) ]
  }

  function BuildConfirmationMessage(ctx: MessageContext): string {
    Join(FilterTruthy(ConfirmationLines(ctx)), "\n")
  }

  /** A line of `prefix` + `s` + `suffix` when `x` holds a non-empty `s`, none otherwise. */
  function LineIf(x: Option<string>, prefix: string, suffix: string): seq<string> {
    if Truthy(x) then [prefix + x.value + suffix] else []
  }

  /** Which of the first four entries of the confirmation survive the filter, and as what. */
  lemma ConfirmationHead(ctx: MessageContext)
    ensures Kept(ConfirmationLines(ctx)[0]) == [FormatGreeting(ctx.customerName) + ConfirmationOpening]
    ensures Kept(ConfirmationLines(ctx)[1]) == LineIf(ctx.appointmentConfirmationLabel, DateLinePrefix, "")
    ensures Kept(ConfirmationLines(ctx)[2]) == LineIf(ctx.serviceSummary, ConfirmationServicePrefix, ".")
    ensures Kept(ConfirmationLines(ctx)[3]) == LineIf(ctx.specialistSummary, SpecialistPrefix, ".")
  {
  }

  /** Which of the last six entries of the confirmation survive the filter, and as what. */
  lemma ConfirmationTail(ctx: MessageContext)
    ensures Kept(ConfirmationLines(ctx)[4]) + Kept(ConfirmationLines(ctx)[5])
      == [ConfirmationDurationPrefix + ctx.totalDurationLabel, CostPrefix + ctx.totalPriceLabel]
    ensures Kept(ConfirmationLines(ctx)[6]) == if Truthy(ctx.recurrenceLabel) then [RecurrencePrefix + ToLower(ctx.recurrenceLabel.value)] else []
    ensures Kept(ConfirmationLines(ctx)[7]) == if ctx.isWaitlistEnabled then [WaitlistLine] else []
    ensures Kept(ConfirmationLines(ctx)[8]) + Kept(ConfirmationLines(ctx)[9]) == [AdjustmentLine, ManageLine]
  {
  }

  /**
   * The lines the confirmation is made of: the greeting first; the date, service and
   * specialist lines only for truthy inputs; the duration and the cost always; the
   * recurrence line (lower-cased) and the waitlist line only when asked for; and the two
   * closing lines last.
   */
  lemma ConfirmationShape(ctx: MessageContext)
    ensures FilterTruthy(ConfirmationLines(ctx)) ==
      [FormatGreeting(ctx.customerName) + ConfirmationOpening]
      + LineIf(ctx.appointmentConfirmationLabel, DateLinePrefix, "")
      + LineIf(ctx.serviceSummary, ConfirmationServicePrefix, ".")
      + LineIf(ctx.specialistSummary, SpecialistPrefix, ".")
      + [ConfirmationDurationPrefix + ctx.totalDurationLabel, CostPrefix + ctx.totalPriceLabel]
      + (if Truthy(ctx.recurrenceLabel) then [RecurrencePrefix + ToLower(ctx.recurrenceLabel.value)] else [])
      + (if ctx.isWaitlistEnabled then [WaitlistLine] else [])
      + [AdjustmentLine, ManageLine]
  {
    var lines := ConfirmationLines(ctx);
    FilterTruthyTen(lines);
    Regroup10(Kept(lines[0]), Kept(lines[1]), Kept(lines[2]), Kept(lines[3]), Kept(lines[4]),
              Kept(lines[5]), Kept(lines[6]), Kept(lines[7]), Kept(lines[8]), Kept(lines[9]));
    ConfirmationHead(ctx);
    ConfirmationTail(ctx);
  }

  lemma Regroup10(k0: seq<string>, k1: seq<string>, k2: seq<string>, k3: seq<string>, k4: seq<string>,
                  k5: seq<string>, k6: seq<string>, k7: seq<string>, k8: seq<string>, k9: seq<string>)
    ensures k0 + k1 + k2 + k3 + k4 + k5 + k6 + k7 + k8 + k9 == k0 + k1 + k2 + k3 + (k4 + k5) + k6 + k7 + (k8 + k9)
  {
  }

  // ---------------------------------------------------------------------------
  // Reminder

  /**
   * The date label of the reminder, through the calendar formatter the app uses
   * (day and month name); no label without a date.
   */
  function FormatReminderDate(date: Option<CalendarDate>, formatDate: CalendarDate -> string): (r: Option<string>)
    ensures r.None? <==> date.None?
  {
    match date
    case None => None
    case Some(d) => Some(formatDate(d))
  }

  /** The first line of the reminder, ending in a full stop. */
  function ReminderGreeting(ctx: MessageContext, formatDate: CalendarDate -> string): string {
    var dateLabel := FormatReminderDate(ctx.appointmentDate, formatDate);
    var timeSuffix := if Truthy(ctx.appointmentTime) then ", la " + ctx.appointmentTime.value else "";
    FormatGreeting(ctx.customerName) + ReminderOpening
      + (if Truthy(dateLabel) then ", " + dateLabel.value else "")
      + timeSuffix + "."
  }

  /** The candidate lines of the reminder; the two "" entries are blank separator lines. */
  function ReminderLines(ctx: MessageContext, formatDate: CalendarDate -> string): seq<Option<string>> {
    [ Some(ReminderGreeting(ctx, formatDate)),
      Some(""),
      OptionalLine(ctx.serviceSummary, ReminderServicePrefix, "."),
      OptionalLine(ctx.specialistSummary, SpecialistPrefix, "."),
      Some(ReminderDurationPrefix + ctx.totalDurationLabel + "."),
      Some(""),
      Some(ReminderConfirmLine) ]
  }

  function BuildReminderMessage(ctx: MessageContext, formatDate: CalendarDate -> string): string {
    Join(FilterPresent(ReminderLines(ctx, formatDate)), "\n")
  }

  /**
   * The lines the reminder is made of: the greeting, a blank line, the service and
   * specialist lines only for truthy inputs, the duration, a blank line and the request
   * to confirm. Unlike the confirmation, the blank lines are kept.
   */
  lemma ReminderShape(ctx: MessageContext, formatDate: CalendarDate -> string)
    ensures FilterPresent(ReminderLines(ctx, formatDate)) ==
      [ReminderGreeting(ctx, formatDate), ""]
      + LineIf(ctx.serviceSummary, ReminderServicePrefix, ".")
      + LineIf(ctx.specialistSummary, SpecialistPrefix, ".")
      + [ReminderDurationPrefix + ctx.totalDurationLabel + ".", "", ReminderConfirmLine]
  {
    var lines := ReminderLines(ctx, formatDate);
    FilterPresentSeven(lines);
    assert Present(lines[0]) + Present(lines[1]) == [ReminderGreeting(ctx, formatDate), ""];
    assert Present(lines[2]) == LineIf(ctx.serviceSummary, ReminderServicePrefix, ".");
    assert Present(lines[3]) == LineIf(ctx.specialistSummary, SpecialistPrefix, ".");
    assert Present(lines[4]) + Present(lines[5]) + Present(lines[6])
      == [ReminderDurationPrefix + ctx.totalDurationLabel + ".", "", ReminderConfirmLine];
  }

  /**
   * The reminder's greeting mentions the date label exactly when a date is given (and
   * its label is not empty) and the time exactly when a time is given.
   */
  lemma ReminderGreetingParts(ctx: MessageContext, formatDate: CalendarDate -> string)
    ensures var dateText := if ctx.appointmentDate.Some? && formatDate(ctx.appointmentDate.value) != ""
                         then ", " + formatDate(ctx.appointmentDate.value) else "";
            var time := if Truthy(ctx.appointmentTime) then ", la " + ctx.appointmentTime.value else "";
            ReminderGreeting(ctx, formatDate) == FormatGreeting(ctx.customerName) + ReminderOpening + dateText + time + "."
  {
  }

  // ---------------------------------------------------------------------------
  // Thank-you

  function ThankYouLines(ctx: MessageContext): seq<string> {
    [FormatGreeting(ctx.customerName) + ThankYouOpening, "", RebookLine, RebookLinks]
  }

  /** Four lines, the second blank; only the customer's name varies. */
  function BuildThankYouMessage(ctx: MessageContext): (m: string)
    ensures m == FormatGreeting(ctx.customerName) + ThankYouOpening + "\n\n" + RebookLine + "\n" + RebookLinks
  {
    var lines := ThankYouLines(ctx);
    JoinTwo(RebookLine, RebookLinks, "\n");
    assert lines[1..][1..] == [RebookLine, RebookLinks];
    assert Join(lines[1..], "\n") == "" + "\n" + Join([RebookLine, RebookLinks], "\n");
    Join(lines, "\n")
  }

  // ---------------------------------------------------------------------------
  // Dispatch

  /** The last line of each kind of message, which no input changes. */
  function ClosingLine(kind: MessageKind): string {
    match kind
    case Confirmation => ManageLine
    case Reminder => ReminderConfirmLine
    case ThankYou => RebookLinks
  }

  /**
   * The message of the given kind: every kind opens with the greeting and closes with
   * its fixed last line.
   */
  function BuildWhatsAppMessage(kind: MessageKind, ctx: MessageContext, formatDate: CalendarDate -> string): (m: string)
    ensures FormatGreeting(ctx.customerName) <= m
    ensures EndsWith(m, ClosingLine(kind))
    ensures kind == Confirmation ==> m == BuildConfirmationMessage(ctx)
    ensures kind == Reminder ==> m == BuildReminderMessage(ctx, formatDate)
    ensures kind == ThankYou ==> m == BuildThankYouMessage(ctx)
  {
    match kind
    case Confirmation =>
      ConfirmationEnds(ctx);
      BuildConfirmationMessage(ctx)
    case Reminder =>
      ReminderEnds(ctx, formatDate);
      BuildReminderMessage(ctx, formatDate)
    case ThankYou =>
      ThankYouEnds(ctx);
      BuildThankYouMessage(ctx)
  }

  lemma ConfirmationEnds(ctx: MessageContext)
    ensures FormatGreeting(ctx.customerName) <= BuildConfirmationMessage(ctx)
    ensures EndsWith(BuildConfirmationMessage(ctx), ManageLine)
  {
    var lines := FilterTruthy(ConfirmationLines(ctx));
    assert lines[0] == FormatGreeting(ctx.customerName) + ConfirmationOpening && lines[|lines| - 1] == ManageLine by {
      ConfirmationShape(ctx);
    }
    JoinEnds(lines, "\n");
  }

  lemma ReminderEnds(ctx: MessageContext, formatDate: CalendarDate -> string)
    ensures FormatGreeting(ctx.customerName) <= BuildReminderMessage(ctx, formatDate)
    ensures EndsWith(BuildReminderMessage(ctx, formatDate), ReminderConfirmLine)
  {
    var lines := FilterPresent(ReminderLines(ctx, formatDate));
    assert lines[0] == ReminderGreeting(ctx, formatDate) && lines[|lines| - 1] == ReminderConfirmLine by {
      ReminderShape(ctx, formatDate);
    }
    assert FormatGreeting(ctx.customerName) <= lines[0];
    JoinEnds(lines, "\n");
  }

  lemma ThankYouEnds(ctx: MessageContext)
    ensures FormatGreeting(ctx.customerName) <= BuildThankYouMessage(ctx)
    ensures EndsWith(BuildThankYouMessage(ctx), RebookLinks)
  {
    JoinEnds(ThankYouLines(ctx), "\n");
  }
}
