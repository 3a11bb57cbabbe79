/** SCComponent: the execution windows, indexed by day when they are loaded and
    searched whenever work is about to start. */
module ExecutionWindows {
  import opened Wrappers
  import opened StringOrder

  datatype DayOfWeek = SUNDAY | MONDAY | TUESDAY | WEDNESDAY | THURSDAY | FRIDAY | SATURDAY

  function Code(day: DayOfWeek): string
  {
    match day
    case SUNDAY => "0"
    case MONDAY => "1"
    case TUESDAY => "2"
    case WEDNESDAY => "3"
    case THURSDAY => "4"
    case FRIDAY => "5"
    case SATURDAY => "6"
  }

  function GetDayOfWeek(code: string): Option<DayOfWeek>
  {
    if code == "0" then Some(SUNDAY)
    else if code == "1" then Some(MONDAY)
    else if code == "2" then Some(TUESDAY)
    else if code == "3" then Some(WEDNESDAY)
    else if code == "4" then Some(THURSDAY)
    else if code == "5" then Some(FRIDAY)
    else if code == "6" then Some(SATURDAY)
    else None
  }

  /** Dates are times in milliseconds; a missing date or time sets no bound. */
  datatype ExecutionTimeSlot = ExecutionTimeSlot(startTime: Option<string>, endTime: Option<string>)

  datatype ExecutionWindow = ExecutionWindow(day: string, slots: seq<ExecutionTimeSlot>)

  datatype ExecutionWindowSet =
    ExecutionWindowSet(effectiveFrom: Option<int>, effectiveUntil: Option<int>, windows: seq<ExecutionWindow>)

  datatype TimeSlot =
    TimeSlot(effectiveFrom: Option<int>, effectiveUntil: Option<int>, startTime: Option<string>, endTime: Option<string>)
  {
    predicate IsSatisfy(date: int, time: string)
    {
      && (effectiveFrom.Some? ==> effectiveFrom.value <= date)
      && (effectiveUntil.Some? ==> date <= effectiveUntil.value)
      && (startTime.Some? ==> AtMost(startTime.value, time))
      && (endTime.Some? ==> AtMost(time, endTime.value))
    }
  }

  function SlotOf(windowSet: ExecutionWindowSet, slot: ExecutionTimeSlot): TimeSlot
  {
    TimeSlot(windowSet.effectiveFrom, windowSet.effectiveUntil, slot.startTime, slot.endTime)
  }

  predicate Expired(now: int, windowSet: ExecutionWindowSet)
  {
    windowSet.effectiveUntil.Some? && windowSet.effectiveUntil.value < now
  }

  /** String.split on a single character, before trailing empty parts are
      dropped: an empty part is no day code. */
  function Split(s: string, c: char): (parts: seq<string>)
    ensures parts != []
  {
    if s == [] then [[]]
    else
      var rest := Split(s[1..], c);
      if s[0] == c then [[]] + rest else [[s[0]] + rest[0]] + rest[1..]
  }

  function Join(parts: seq<string>, c: char): string
    requires parts != []
  {
    if |parts| == 1 then parts[0] else parts[0] + [c] + Join(parts[1..], c)
  }

  /** The parts are the text between the separators. */
  lemma {:induction false} SplitMeaning(s: string, c: char)
    ensures Join(Split(s, c), c) == s
    ensures forall i :: 0 <= i < |Split(s, c)| ==> c !in Split(s, c)[i]
  {
    if s != [] {
      SplitMeaning(s[1..], c);
      var rest := Split(s[1..], c);
      var parts := Split(s, c);
      assert parts[1..] == if s[0] == c then rest else rest[1..];
    }
  }

  function DaysAmong(codes: seq<string>): seq<DayOfWeek>
  {
    if codes == [] then []
    else
      (match GetDayOfWeek(codes[0]) case Some(day) => [day] case None => []) + DaysAmong(codes[1..])
  }

  method GetDays(day: string) returns (days: seq<DayOfWeek>)
    ensures days == DaysAmong(Split(day, '|'))
  {
    days := [];
    var codes := Split(day, '|');
    for i := 0 to |codes|
      invariant days + DaysAmong(codes[i..]) == DaysAmong(codes)
    {
      assert codes[i..][0] == codes[i] && codes[i..][1..] == codes[i + 1..];
      var dayOfWeek := GetDayOfWeek(codes[i]);
      if dayOfWeek.Some? {
        days := days + [dayOfWeek.value];
      }
    }
  }

  /*** The definition ***/

  predicate Lists(window: ExecutionWindow, day: DayOfWeek)
  {
    Code(day) in Split(window.day, '|')
  }

  /** Slot `i` of window `w` of set `s` admits the given moment. */
  predicate Admits(sets: seq<ExecutionWindowSet>, s: nat, w: nat, i: nat, day: DayOfWeek, date: int, time: string)
  {
    && s < |sets| && w < |sets[s].windows| && i < |sets[s].windows[w].slots|
    && Lists(sets[s].windows[w], day)
    && SlotOf(sets[s], sets[s].windows[w].slots[i]).IsSatisfy(date, time)
  }

  ghost predicate Executable(sets: seq<ExecutionWindowSet>, day: DayOfWeek, date: int, time: string)
  {
    exists s: nat, w: nat, i: nat :: Admits(sets, s, w, i, day, date, time)
  }

  predicate Unrestricted(sets: seq<ExecutionWindowSet>, now: int)
  {
    forall s :: 0 <= s < |sets| ==> Expired(now, sets[s])
  }

  /*** The index ***/

  function SlotsOf(windowSet: ExecutionWindowSet, slots: seq<ExecutionTimeSlot>): (r: seq<TimeSlot>)
    ensures |r| == |slots|
  {
    seq(|slots|, i requires 0 <= i < |slots| => SlotOf(windowSet, slots[i]))
  }

  type Index = map<DayOfWeek, seq<TimeSlot>>

  function SlotsAt(index: Index, day: DayOfWeek): seq<TimeSlot>
  {
    if day in index then index[day] else []
  }

  function AddDays(index: Index, days: seq<DayOfWeek>, slots: seq<TimeSlot>): Index
    decreases |days|
  {
    if days == [] then index
    else AddDays(index[days[0] := SlotsAt(index, days[0]) + slots], days[1..], slots)
  }

  function AddWindows(index: Index, windowSet: ExecutionWindowSet, windows: seq<ExecutionWindow>): Index
    decreases |windows|
  {
    if windows == [] then index
    else
      var w := windows[0];
      AddWindows(AddDays(index, DaysAmong(Split(w.day, '|')), SlotsOf(windowSet, w.slots)), windowSet, windows[1..])
  }

  function AddSets(index: Index, sets: seq<ExecutionWindowSet>, now: int): Index
    decreases |sets|
  {
    if sets == [] then index
    else
      var s := sets[0];
      AddSets(if Expired(now, s) then index else AddWindows(index, s, s.windows), sets[1..], now)
  }

  lemma AddSetsStep(index: Index, sets: seq<ExecutionWindowSet>, s: nat, now: int)
    requires s < |sets|
    ensures AddSets(index, sets[s..], now)
         == AddSets(if Expired(now, sets[s]) then index else AddWindows(index, sets[s], sets[s].windows),
                    sets[s + 1..], now)
    ensures Unrestricted(sets[..s + 1], now) <==> Unrestricted(sets[..s], now) && Expired(now, sets[s])
  {
    assert sets[s..][0] == sets[s] && sets[s..][1..] == sets[s + 1..];
    assert sets[..s + 1] == sets[..s] + [sets[s]];
    assert sets[..s + 1][s] == sets[s];
  }

  class SCComponent {
    var executionWindowControl: bool
    var executableWindows: Option<Index>

    constructor ()
      ensures !executionWindowControl && executableWindows == None
    {
      executionWindowControl, executableWindows := false, None;
    }

    /** `sets` is None for a null list. The old index stays when there is no set. */
    method BuildExecutionWindow(sets: Option<seq<ExecutionWindowSet>>, now: int)
      modifies this
      ensures sets.None? || sets.value == [] ==>
                !executionWindowControl && executableWindows == old(executableWindows)
      ensures sets.Some? && sets.value != [] ==>
                && executableWindows == Some(AddSets(map[], sets.value, now))
                && executionWindowControl == !Unrestricted(sets.value, now)
    {
      executionWindowControl := false;
      if sets.Some? && |sets.value| > 0 {
        var all := sets.value;
        var index: Index := map[];
        executableWindows := Some(index);
        for s := 0 to |all|
          invariant executableWindows == Some(index)
          invariant AddSets(index, all[s..], now) == AddSets(map[], all, now)
          invariant executionWindowControl == !Unrestricted(all[..s], now)
        {
          AddSetsStep(index, all, s, now);
          if !Expired(now, all[s]) {
            executionWindowControl := true;
            index := IndexWindows(index, all[s]);
            executableWindows := Some(index);
          }
        }
        assert all[..|all|] == all;
      }
    }

    method IndexWindows(start: Index, windowSet: ExecutionWindowSet) returns (index: Index)
      ensures index == AddWindows(start, windowSet, windowSet.windows)
    {
      index := start;
      var windows := windowSet.windows;
      for w := 0 to |windows|
        invariant AddWindows(index, windowSet, windows[w..]) == AddWindows(start, windowSet, windows)
      {
        assert windows[w..][0] == windows[w] && windows[w..][1..] == windows[w + 1..];
        var days := GetDays(windows[w].day);
        index := IndexDays(index, days, windowSet, windows[w].slots);
      }
    }

    /** A day not seen before gets a new, possibly empty, list of slots. */
    method IndexDays(start: Index, days: seq<DayOfWeek>, windowSet: ExecutionWindowSet, slots: seq<ExecutionTimeSlot>)
        returns (index: Index)
      ensures index == AddDays(start, days, SlotsOf(windowSet, slots))
    {
      index := start;
      for d := 0 to |days|
        invariant AddDays(index, days[d..], SlotsOf(windowSet, slots)) == AddDays(start, days, SlotsOf(windowSet, slots))
      {
        assert days[d..][0] == days[d] && days[d..][1..] == days[d + 1..];
        var timeSlots := MakeSlots(if days[d] in index then index[days[d]] else [], windowSet, slots);
        index := index[days[d] := timeSlots];
      }
    }

    method MakeSlots(start: seq<TimeSlot>, windowSet: ExecutionWindowSet, slots: seq<ExecutionTimeSlot>)
        returns (timeSlots: seq<TimeSlot>)
      ensures timeSlots == start + SlotsOf(windowSet, slots)
    {
      timeSlots := start;
      for i := 0 to |slots|
        invariant timeSlots == start + SlotsOf(windowSet, slots)[..i]
      {
        timeSlots := timeSlots + [SlotOf(windowSet, slots[i])];
      }
      assert SlotsOf(windowSet, slots)[..|slots|] == SlotsOf(windowSet, slots);
    }

    method IsWithinExecutionWindow(day: DayOfWeek, now: int, currentTime: string) returns (r: bool)
      ensures r <==> !executionWindowControl ||
                     (executableWindows.Some? && Finds(SlotsAt(executableWindows.value, day), now, currentTime))
    {
      if executionWindowControl {
        if executableWindows.Some? && day in executableWindows.value {
          var slots := executableWindows.value[day];
          for i := 0 to |slots|
            invariant forall k :: 0 <= k < i ==> !slots[k].IsSatisfy(now, currentTime)
          {
            if slots[i].IsSatisfy(now, currentTime) {
              return true;
            }
          }
        }
        return false;
      }
      return true;
    }
  }

  /*** The index agrees with the definition ***/

  lemma {:induction false} DaysAmongMeaning(codes: seq<string>, day: DayOfWeek)
    ensures day in DaysAmong(codes) <==> Code(day) in codes
  {
    if codes != [] {
      DaysAmongMeaning(codes[1..], day);
      assert codes == [codes[0]] + codes[1..];
      assert GetDayOfWeek(codes[0]) == Some(day) <==> codes[0] == Code(day);
    }
  }

  ghost predicate Finds(slots: seq<TimeSlot>, date: int, time: string)
  {
    exists i :: 0 <= i < |slots| && slots[i].IsSatisfy(date, time)
  }

  lemma FindsConcat(a: seq<TimeSlot>, b: seq<TimeSlot>, date: int, time: string)
    ensures Finds(a + b, date, time) <==> Finds(a, date, time) || Finds(b, date, time)
  {
    if Finds(a, date, time) {
      var i :| 0 <= i < |a| && a[i].IsSatisfy(date, time);
      assert (a + b)[i].IsSatisfy(date, time);
    }
    if Finds(b, date, time) {
      var i :| 0 <= i < |b| && b[i].IsSatisfy(date, time);
      assert (a + b)[|a| + i].IsSatisfy(date, time);
    }
  }

  lemma {:induction false} AddDaysFinds(index: Index, days: seq<DayOfWeek>, slots: seq<TimeSlot>,
                                        day: DayOfWeek, date: int, time: string)
    ensures Finds(SlotsAt(AddDays(index, days, slots), day), date, time)
       <==> Finds(SlotsAt(index, day), date, time) || (day in days && Finds(slots, date, time))
    decreases |days|
  {
    if days != [] {
      var d := days[0];
      AddDaysFinds(index[d := SlotsAt(index, d) + slots], days[1..], slots, day, date, time);
      FindsConcat(SlotsAt(index, d), slots, date, time);
      assert days == [d] + days[1..];
    }
  }

  /** Some window in the list, on that day, has a slot of `windowSet` that admits the moment. */
  ghost predicate WindowsAdmit(windowSet: ExecutionWindowSet, windows: seq<ExecutionWindow>,
                               day: DayOfWeek, date: int, time: string)
  {
    exists w :: 0 <= w < |windows| && Lists(windows[w], day) &&
                Finds(SlotsOf(windowSet, windows[w].slots), date, time)
  }

  lemma {:induction false} AddWindowsFinds(index: Index, windowSet: ExecutionWindowSet, windows: seq<ExecutionWindow>,
                                           day: DayOfWeek, date: int, time: string)
    ensures Finds(SlotsAt(AddWindows(index, windowSet, windows), day), date, time)
       <==> Finds(SlotsAt(index, day), date, time) || WindowsAdmit(windowSet, windows, day, date, time)
    decreases |windows|
  {
    if windows != [] {
      var w := windows[0];
      var days, slots := DaysAmong(Split(w.day, '|')), SlotsOf(windowSet, w.slots);
      AddDaysFinds(index, days, slots, day, date, time);
      DaysAmongMeaning(Split(w.day, '|'), day);
      AddWindowsFinds(AddDays(index, days, slots), windowSet, windows[1..], day, date, time);
      WindowsAdmitCons(windowSet, windows, day, date, time);
    }
  }

  lemma WindowsAdmitCons(windowSet: ExecutionWindowSet, windows: seq<ExecutionWindow>,
                         day: DayOfWeek, date: int, time: string)
    requires windows != []
    ensures WindowsAdmit(windowSet, windows, day, date, time)
       <==> || (Lists(windows[0], day) && Finds(SlotsOf(windowSet, windows[0].slots), date, time))
            || WindowsAdmit(windowSet, windows[1..], day, date, time)
  {
    if WindowsAdmit(windowSet, windows[1..], day, date, time) {
      var w :| 0 <= w < |windows[1..]| && Lists(windows[1..][w], day) &&
               Finds(SlotsOf(windowSet, windows[1..][w].slots), date, time);
      assert windows[w + 1] == windows[1..][w];
    }
    if WindowsAdmit(windowSet, windows, day, date, time) {
      var w :| 0 <= w < |windows| && Lists(windows[w], day) &&
               Finds(SlotsOf(windowSet, windows[w].slots), date, time);
      assert w > 0 ==> windows[1..][w - 1] == windows[w];
    }
  }

  ghost predicate SetsAdmit(sets: seq<ExecutionWindowSet>, now: int, day: DayOfWeek, date: int, time: string)
  {
    exists s :: 0 <= s < |sets| && !Expired(now, sets[s]) && WindowsAdmit(sets[s], sets[s].windows, day, date, time)
  }

  lemma {:induction false} AddSetsFinds(index: Index, sets: seq<ExecutionWindowSet>, now: int,
                                        day: DayOfWeek, date: int, time: string)
    ensures Finds(SlotsAt(AddSets(index, sets, now), day), date, time)
       <==> Finds(SlotsAt(index, day), date, time) || SetsAdmit(sets, now, day, date, time)
    decreases |sets|
  {
    if sets != [] {
      var s := sets[0];
      var next := if Expired(now, s) then index else AddWindows(index, s, s.windows);
      AddWindowsFinds(index, s, s.windows, day, date, time);
      AddSetsFinds(next, sets[1..], now, day, date, time);
      SetsAdmitCons(sets, now, day, date, time);
    }
  }

  lemma SetsAdmitCons(sets: seq<ExecutionWindowSet>, now: int, day: DayOfWeek, date: int, time: string)
    requires sets != []
    ensures SetsAdmit(sets, now, day, date, time)
       <==> || (!Expired(now, sets[0]) && WindowsAdmit(sets[0], sets[0].windows, day, date, time))
            || SetsAdmit(sets[1..], now, day, date, time)
  {
    if SetsAdmit(sets[1..], now, day, date, time) {
      var s :| 0 <= s < |sets[1..]| && !Expired(now, sets[1..][s]) &&
               WindowsAdmit(sets[1..][s], sets[1..][s].windows, day, date, time);
      assert sets[s + 1] == sets[1..][s];
    }
    if SetsAdmit(sets, now, day, date, time) {
      var s :| 0 <= s < |sets| && !Expired(now, sets[s]) && WindowsAdmit(sets[s], sets[s].windows, day, date, time);
      assert s > 0 ==> sets[1..][s - 1] == sets[s];
    }
  }

  /** From the moment the index is built, a search in it and the definition give
      the same answer: the sets that were dropped could no longer admit anything. */
  lemma IndexRefinesDefinition(sets: seq<ExecutionWindowSet>, built: int, day: DayOfWeek, date: int, time: string)
    requires built <= date
    ensures Finds(SlotsAt(AddSets(map[], sets, built), day), date, time) <==> Executable(sets, day, date, time)
  {
    AddSetsFinds(map[], sets, built, day, date, time);
    if Executable(sets, day, date, time) {
      var s: nat, w: nat, i: nat :| Admits(sets, s, w, i, day, date, time);
      var slots := SlotsOf(sets[s], sets[s].windows[w].slots);
      assert slots[i].IsSatisfy(date, time);
      assert Finds(slots, date, time);
      assert !Expired(built, sets[s]);
      assert WindowsAdmit(sets[s], sets[s].windows, day, date, time);
    }
    if SetsAdmit(sets, built, day, date, time) {
      var s :| 0 <= s < |sets| && !Expired(built, sets[s]) && WindowsAdmit(sets[s], sets[s].windows, day, date, time);
      var w :| 0 <= w < |sets[s].windows| && Lists(sets[s].windows[w], day) &&
               Finds(SlotsOf(sets[s], sets[s].windows[w].slots), date, time);
      var i :| 0 <= i < |sets[s].windows[w].slots| &&
               SlotsOf(sets[s], sets[s].windows[w].slots)[i].IsSatisfy(date, time);
      assert Admits(sets, s, w, i, day, date, time);
    }
  }

  /** Building and then asking: unrestricted if every set had already expired,
      otherwise exactly when some set, window, day and slot admits the moment. */
  method BuildThenAsk(sets: seq<ExecutionWindowSet>, built: int, day: DayOfWeek, now: int, currentTime: string)
      returns (r: bool)
    requires built <= now
    ensures r <==> Unrestricted(sets, built) || Executable(sets, day, now, currentTime)
  {
    var component := new SCComponent();
    component.BuildExecutionWindow(Some(sets), built);
    r := component.IsWithinExecutionWindow(day, now, currentTime);
    IndexRefinesDefinition(sets, built, day, now, currentTime);
  }

  /*** Times of day ***/

  predicate FourDigits(t: string)
  {
    |t| == 4 && forall i :: 0 <= i < 4 ==> '0' <= t[i] <= '9'
  }

  function Minutes(t: string): int
    requires FourDigits(t)
  {
    (t[0] - '0') as int * 1000 + (t[1] - '0') as int * 100 + (t[2] - '0') as int * 10 + (t[3] - '0') as int
  }

  /** Comparing two HHmm texts compares the numbers they spell. */
  lemma TimeOrderIsNumeric(a: string, b: string)
    requires FourDigits(a) && FourDigits(b)
    ensures AtMost(a, b) <==> Minutes(a) <= Minutes(b)
  {
    assert a == [a[0], a[1], a[2], a[3]] && b == [b[0], b[1], b[2], b[3]];
    assert a[1..][1..] == a[2..] && a[2..][1..] == a[3..];
    assert b[1..][1..] == b[2..] && b[2..][1..] == b[3..];
    assert Before(a[3..], b[3..]) <==> a[3] < b[3];
    assert Before(a[2..], b[2..]) <==> a[2] < b[2] || (a[2] == b[2] && a[3] < b[3]);
    assert Before(a[1..], b[1..]) <==> a[1] < b[1] || (a[1] == b[1] && Before(a[2..], b[2..]));
  }

  /*** What the configuration says, read as text and numbers ***/

  predicate DigitOf(day: DayOfWeek, c: char)
  {
    match day
    case SUNDAY => c == '0'
    case MONDAY => c == '1'
    case TUESDAY => c == '2'
    case WEDNESDAY => c == '3'
    case THURSDAY => c == '4'
    case FRIDAY => c == '5'
    case SATURDAY => c == '6'
  }

  /** Character `i` of `s` is `c` and stands alone between bars or the ends of the text. */
  predicate Alone(s: string, i: nat, c: char)
  {
    i < |s| && s[i] == c && (i == 0 || s[i - 1] == '|') && (i + 1 == |s| || s[i + 1] == '|')
  }

  /** The day's digit is one of those between the bars. */
  ghost predicate Names(s: string, day: DayOfWeek)
  {
    exists i: nat, c: char :: DigitOf(day, c) && Alone(s, i, c)
  }

  predicate WithinTimes(slot: ExecutionTimeSlot, time: string)
    requires FourDigits(time) && FourDigitSlot(slot)
  {
    && (slot.startTime.Some? ==> Minutes(slot.startTime.value) <= Minutes(time))
    && (slot.endTime.Some? ==> Minutes(time) <= Minutes(slot.endTime.value))
  }

  predicate WithinDates(windowSet: ExecutionWindowSet, date: int)
  {
    && (windowSet.effectiveFrom.Some? ==> windowSet.effectiveFrom.value <= date)
    && (windowSet.effectiveUntil.Some? ==> date <= windowSet.effectiveUntil.value)
  }

  predicate FourDigitSlot(slot: ExecutionTimeSlot)
  {
    && (slot.startTime.Some? ==> FourDigits(slot.startTime.value))
    && (slot.endTime.Some? ==> FourDigits(slot.endTime.value))
  }

  predicate FourDigitTimes(sets: seq<ExecutionWindowSet>)
  {
    forall s, w, i :: 0 <= s < |sets| && 0 <= w < |sets[s].windows| && 0 <= i < |sets[s].windows[w].slots| ==>
      FourDigitSlot(sets[s].windows[w].slots[i])
  }

  /** Some set that is in force has, in a window that names the day, a slot around the time. */
  ghost predicate Open(sets: seq<ExecutionWindowSet>, day: DayOfWeek, date: int, time: string)
    requires FourDigits(time) && FourDigitTimes(sets)
  {
    exists s, w, i :: 0 <= s < |sets| && 0 <= w < |sets[s].windows| && 0 <= i < |sets[s].windows[w].slots|
                      && WithinDates(sets[s], date) && Names(sets[s].windows[w].day, day)
                      && WithinTimes(sets[s].windows[w].slots[i], time)
  }

  /** The first part reaches to the first bar; it is `c` alone exactly where `c` stands
      alone at the beginning. */
  lemma {:induction false} FirstPart(s: string, c: char)
    requires c != '|'
    ensures Split(s, '|')[0] == [c] <==> Alone(s, 0, c)
  {
    if s != [] && s[0] != '|' {
      var rest := Split(s[1..], '|');
      assert Split(s, '|')[0] == [s[0]] + rest[0];
      assert |s| > 1 ==> (s[1..][0] == '|' <==> rest[0] == []);
      assert |s| == 1 ==> rest[0] == [];
      var first := [s[0]] + rest[0];
      assert first == [c] ==> first[0] == c && |first| == 1;
    }
  }

  lemma {:induction false} LaterParts(s: string, c: char)
    requires c != '|'
    ensures [c] in Split(s, '|')[1..] <==> exists i: nat :: i > 0 && Alone(s, i, c)
  {
    if s != [] {
      var tail := s[1..];
      var parts, rest := Split(s, '|'), Split(tail, '|');
      LaterParts(tail, c);
      FirstPart(tail, c);
      assert parts[1..] == if s[0] == '|' then rest else rest[1..];
      assert rest == [rest[0]] + rest[1..];
      forall i: nat | i > 0
        ensures Alone(tail, i, c) <==> Alone(s, i + 1, c)
      {}
      assert s[0] == '|' ==> (Alone(tail, 0, c) <==> Alone(s, 1, c));
      forall i: nat | i > 0 && Alone(s, i, c)
        ensures [c] in parts[1..]
      {
        if i > 1 {
          assert Alone(tail, i - 1, c);
        }
      }
    }
  }

  /** A window lists a day exactly when the day's digit stands between bars. */
  lemma ListsNames(window: ExecutionWindow, day: DayOfWeek)
    ensures Lists(window, day) <==> Names(window.day, day)
  {
    var c := Code(day)[0];
    var parts := Split(window.day, '|');
    assert Code(day) == [c] && forall d :: DigitOf(day, d) <==> d == c;
    FirstPart(window.day, c);
    LaterParts(window.day, c);
    assert parts == [parts[0]] + parts[1..];
    assert Names(window.day, day) <==> exists i: nat :: Alone(window.day, i, c);
  }

  /** A slot of a set admits a moment exactly when the date lies between the set's dates
      and the time, as a number, between the slot's. */
  lemma SlotMeaning(windowSet: ExecutionWindowSet, slot: ExecutionTimeSlot, date: int, time: string)
    requires FourDigits(time) && FourDigitSlot(slot)
    ensures SlotOf(windowSet, slot).IsSatisfy(date, time) <==> WithinDates(windowSet, date) && WithinTimes(slot, time)
  {
    if slot.startTime.Some? {
      TimeOrderIsNumeric(slot.startTime.value, time);
    }
    if slot.endTime.Some? {
      TimeOrderIsNumeric(time, slot.endTime.value);
    }
  }

  lemma ExecutableIsOpen(sets: seq<ExecutionWindowSet>, day: DayOfWeek, date: int, time: string)
    requires FourDigits(time) && FourDigitTimes(sets)
    ensures Executable(sets, day, date, time) <==> Open(sets, day, date, time)
  {
    forall s: nat, w: nat, i: nat | s < |sets| && w < |sets[s].windows| && i < |sets[s].windows[w].slots|
      ensures Admits(sets, s, w, i, day, date, time) <==>
                && WithinDates(sets[s], date) && Names(sets[s].windows[w].day, day)
                && WithinTimes(sets[s].windows[w].slots[i], time)
    {
      ListsNames(sets[s].windows[w], day);
      SlotMeaning(sets[s], sets[s].windows[w].slots[i], date, time);
    }
  }

  /** Building and then asking, in terms of the configuration: allowed if every set had
      ended before the build, otherwise exactly when some set in force on the date names
      the day and has a slot around the time. */
  method BuildThenAskMeans(sets: seq<ExecutionWindowSet>, built: int, day: DayOfWeek, now: int, currentTime: string)
      returns (r: bool)
    requires built <= now && FourDigits(currentTime) && FourDigitTimes(sets)
    ensures r <==> || (forall s :: 0 <= s < |sets| ==> sets[s].effectiveUntil.Some? && sets[s].effectiveUntil.value < built)
                   || Open(sets, day, now, currentTime)
  {
    r := BuildThenAsk(sets, built, day, now, currentTime);
    ExecutableIsOpen(sets, day, now, currentTime);
  }
}
