/**
 * The new-task form (`app/screens/AddTaskScreen.tsx`): its initial selections and
 * what `handleSave` hands to `addTask`.  The alert and the navigation back stay
 * outside the model; a blank name is the `None` result.
 */
module AddTaskScreen {
  import opened Wrappers
  import opened DateText
  import opened Strings
  import opened Records

  /** `ICON_OPTIONS`. */
  const IconOptions: seq<string> := [
    "run", "dumbbell", "book-open-variant", "meditation", "water", "food-apple", "sleep",
    "brush", "music", "pencil"]

  /** `COLOR_OPTIONS` of the form, not the colour picker's list. */
  const ColorOptions: seq<string> := [
    "#FF6B6B", "#4ECDC4", "#45B7D1", "#96CEB4", "#FFEEAD", "#D4A5A5", "#9B59B6", "#3498DB",
    "#E67E22", "#2ECC71"]

  /** What the form holds: the name and the two numbers as typed, the chosen icon and colour. */
  datatype Form = Form(name: string, icon: string, color: string, timesPerDay: string, duration: string)

  /** The form as it opens. */
  const InitialForm: Form := Form("", "run", ColorOptions[0], "1", "30")

  /** `parseInt(s, 10) || fallback`: NaN and 0 give the fallback, any other number is kept, negatives too. */
  function ParseOr(s: string, fallback: int): (n: int)
    ensures fallback != 0 ==> n != 0
    ensures n == fallback || ParseInt(s) == Some(n)
  {
    match ParseInt(s)
    case None => fallback
    case Some(v) => if v == 0 then fallback else v
  }

  /** `[0, 1, 2, 3, 4, 5, 6]`. */
  const EveryDay: seq<int> := [0, 1, 2, 3, 4, 5, 6]

  /** The saved schedule holds each weekday, Sunday 0 to Saturday 6, once. */
  lemma EveryDayIsWholeWeek()
    ensures forall d :: d in EveryDay <==> 0 <= d < 7
    ensures forall i, j :: 0 <= i < j < |EveryDay| ==> EveryDay[i] < EveryDay[j]
  {
  }

  /**
   * `handleSave`: nothing for a blank name; otherwise the trimmed name, the chosen
   * icon and colour, the two numbers read with their fallbacks 1 and 30, and every
   * day of the week.
   */
  function SaveTask(f: Form): (r: Option<TaskDraft>)
    ensures r.None? <==> AllSpace(f.name)
    ensures r.Some? ==>
      && r.value.name == Trim(f.name) && r.value.name != []
      && !IsSpace(r.value.name[0]) && !IsSpace(r.value.name[|r.value.name| - 1])
      && r.value.icon == f.icon && r.value.color == f.color
      && r.value.timesPerDay != 0 && r.value.duration != 0
      && r.value.daysOfWeek == EveryDay
      && r.value.stats.None? && r.value.completions.None?
  {
    var name := Trim(f.name);
    if name == [] then None
    else Some(TaskDraft(name, f.icon, f.color, EveryDay, ParseOr(f.timesPerDay, 1), ParseOr(f.duration, 30), None, None))
  }

  /** A number typed in either box is saved as that number unless it is 0, negative numbers included. */
  lemma TypedNumbersKept(f: Form, times: int, minutes: int)
    requires !AllSpace(f.name) && times != 0 && minutes != 0
    ensures var r := SaveTask(f.(timesPerDay := IntToString(times), duration := IntToString(minutes)));
      r.Some? && r.value.timesPerDay == times && r.value.duration == minutes
  {
    ParseIntRoundTrip(times);
    ParseIntRoundTrip(minutes);
  }

  /** A 0 typed in either box falls back to the default: once a day, thirty minutes. */
  lemma ZeroFallsBack(f: Form)
    requires !AllSpace(f.name) && f.timesPerDay == "0" && f.duration == "0"
    ensures SaveTask(f).Some? && SaveTask(f).value.timesPerDay == 1 && SaveTask(f).value.duration == 30
  {
    ParseIntRoundTrip(0);
    assert IntToString(0) == "0";
  }

  /** Saving the form as it opens, with a name typed in: once a day, thirty minutes, a running icon in coral red. */
  lemma InitialFormSaves(name: string)
    requires !AllSpace(name)
    ensures SaveTask(InitialForm.(name := name))
      == Some(TaskDraft(Trim(name), "run", "#FF6B6B", EveryDay, 1, 30, None, None))
  {
    ParseIntRoundTrip(1);
    ParseIntRoundTrip(30);
    assert IntToString(1) == "1";
    assert IntToString(30) == "30";
  }

  /** A saved name saves again unchanged: trimming the trimmed name is a no-op. */
  lemma SavedNameStable(f: Form)
    requires SaveTask(f).Some?
    ensures SaveTask(f.(name := SaveTask(f).value.name)) == SaveTask(f)
  {
    TrimIdempotent(f.name);
  }
}
