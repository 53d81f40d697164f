/** The postpone-date file that rate-limits the licence reset
    (MainProgram.cs, region FILE). */
module Postpone {
  import opened Wrappers
  import opened Store
  import opened Dates

  /** The culture-dependent parts of `DateTime`: `TryParse`, left abstract,
      and the date separator that `/` stands for in a custom format string. */
  datatype Culture = Culture(parse: string -> Option<Date>, dateSeparator: string)

  /** The file after the step, and `isManaged`: whether the reset may run. */
  datatype Gate = Gate(file: Option<string>, isManaged: bool)

  /** What `File.ReadAllText` returns once the file is known to exist: its
      contents, or "" for the empty file `File.Create` has just made. */
  function ContentsAfterCreate(file: Option<string>): (contents: string)
  {
    file.GetOr("")
  }

  /** The reset is due: the contents do not parse, or the day-of-month of today
      minus the day-of-month of the stored date is at least 25. Months and years
      play no part. */
  predicate IsDue(contents: string, now: Date, culture: Culture): (due: bool)
    ensures culture.parse(contents).None? ==> due
    ensures due && culture.parse(contents).Some? ==> culture.parse(contents).value.day <= 6 && now.day >= 26
    ensures culture.parse(contents).Some? && culture.parse(contents).value.day > 6 ==> !due
  {
    match culture.parse(contents)
    case None => true
    case Some(stored) => now.day - stored.day >= MinimumPostponeDays
  }

  /** Disabled: delete the file and refuse. Enabled: create the file if absent,
      then, when due, stamp it with today's date and allow the reset. */
  function ManagePostponeDateFile(file: Option<string>, isEnabled: bool, now: Date, culture: Culture): (g: Gate)
    ensures !isEnabled ==> g == Gate(None, false)
    ensures isEnabled ==> g.file.Some?
    ensures isEnabled ==> (g.isManaged <==> IsDue(ContentsAfterCreate(file), now, culture))
    ensures g.isManaged ==> g.file == Some(Stamp(now, culture.dateSeparator))
    ensures isEnabled && !g.isManaged ==> g.file == Some(ContentsAfterCreate(file))
    ensures isEnabled && !g.isManaged && file.Some? ==> g.file == file
    // A date that parses can only let the reset through late in the month.
    ensures g.isManaged && culture.parse(ContentsAfterCreate(file)).Some? ==> now.day >= 26
  {
    if isEnabled then
      var contents := ContentsAfterCreate(file);
      var isManaged := match culture.parse(contents)
        case None => true
        case Some(dateTime) => now.day - dateTime.day >= MinimumPostponeDays;
      if isManaged then Gate(Some(Stamp(now, culture.dateSeparator)), true)
      else Gate(Some(contents), false)
    else
      Gate(None, false)
  }

  /** Disabling is idempotent: the file stays absent and the reset stays off. */
  lemma DisabledIsIdempotent(file: Option<string>, now: Date, later: Date, culture: Culture)
    ensures var g := ManagePostponeDateFile(file, false, now, culture);
            ManagePostponeDateFile(g.file, false, later, culture) == g
  {
  }

  /** On a first enabled run (no file), the reset runs exactly when the empty
      contents do not parse — which is always the case for `DateTime.TryParse`. */
  lemma FirstRunProceeds(now: Date, culture: Culture)
    requires culture.parse("").None?
    ensures ManagePostponeDateFile(None, true, now, culture) == Gate(Some(Stamp(now, culture.dateSeparator)), true)
  {
  }

  /** The culture reads back the day of the month from any stamp it wrote. */
  ghost predicate ReadsBackDay(culture: Culture)
  {
    forall d: Date ::
      culture.parse(Stamp(d, culture.dateSeparator)).Some? &&
      culture.parse(Stamp(d, culture.dateSeparator)).value.day == d.day
  }

  /** How many of a sequence of enabled runs, one on each given day, let the
      reset through. */
  function ResetCount(file: Option<string>, days: seq<Date>, culture: Culture): (count: nat)
    decreases |days|
  {
    if days == [] then 0
    else
      var g := ManagePostponeDateFile(file, true, days[0], culture);
      (if g.isManaged then 1 else 0) + ResetCount(g.file, days[1..], culture)
  }

  /** A stamp written on the 7th or later is never due again: 31 - 7 < 25. */
  lemma {:induction false} LateStampNeverDue(stamped: Date, days: seq<Date>, culture: Culture)
    requires ReadsBackDay(culture)
    requires stamped.day > 31 - MinimumPostponeDays
    ensures ResetCount(Some(Stamp(stamped, culture.dateSeparator)), days, culture) == 0
    decreases |days|
  {
    if days != [] {
      var file := Some(Stamp(stamped, culture.dateSeparator));
      assert culture.parse(file.value).value.day == stamped.day;
      var g := ManagePostponeDateFile(file, true, days[0], culture);
      assert !g.isManaged && g.file == file;
      LateStampNeverDue(stamped, days[1..], culture);
    }
  }

  /** After any stamp, at most one more run lets the reset through: that run is
      on the 26th or later, and its own stamp is never due again. */
  lemma {:induction false} AtMostOneResetAfterStamp(stamped: Date, days: seq<Date>, culture: Culture)
    requires ReadsBackDay(culture)
    ensures ResetCount(Some(Stamp(stamped, culture.dateSeparator)), days, culture) <= 1
    decreases |days|
  {
    if days != [] {
      var file := Some(Stamp(stamped, culture.dateSeparator));
      assert culture.parse(file.value).Some?;
      var g := ManagePostponeDateFile(file, true, days[0], culture);
      if g.isManaged {
        LateStampNeverDue(days[0], days[1..], culture);
      } else {
        AtMostOneResetAfterStamp(stamped, days[1..], culture);
      }
    }
  }

  /** With literal day-of-month arithmetic, a culture that reads back its own
      stamps lets the reset run at most twice over any sequence of enabled runs,
      however many days apart they are. */
  lemma {:induction false} AtMostTwoResets(file: Option<string>, days: seq<Date>, culture: Culture)
    requires ReadsBackDay(culture)
    ensures ResetCount(file, days, culture) <= 2
    decreases |days|
  {
    if days != [] {
      var g := ManagePostponeDateFile(file, true, days[0], culture);
      if g.isManaged {
        AtMostOneResetAfterStamp(days[0], days[1..], culture);
      } else {
        AtMostTwoResets(g.file, days[1..], culture);
      }
    }
  }

  /** The bound of two is reached: with a culture that parses exactly the
      stamps it writes, a first run on the 1st (nothing to parse) and a second
      on the 26th both let the reset through. */
  lemma TwoResetsReachable()
    ensures var culture := Culture(s => ReadStamp(s, "/"), "/");
            var first: Date := DateTime(2026, 10, 1);
            var second: Date := DateTime(2026, 10, 26);
            ReadsBackDay(culture) && ResetCount(None, [first, second], culture) == 2
  {
    var culture := Culture(s => ReadStamp(s, "/"), "/");
    assert forall d: Date :: culture.parse(Stamp(d, culture.dateSeparator)) == Some(d);
    var first: Date := DateTime(2026, 10, 1);
    var second: Date := DateTime(2026, 10, 26);
    var g := ManagePostponeDateFile(None, true, first, culture);
    assert g.isManaged && g.file == Some(Stamp(first, "/"));
    var rest := [first, second][1..];
    assert rest == [second];
    assert ResetCount(g.file, [second], culture) == 1;
  }
}
