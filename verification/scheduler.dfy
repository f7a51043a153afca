/**
 * The interview-slot generator (ai-service/agents/scheduler.py). Time is
 * counted in whole minutes from a Monday midnight in the scheduler's time
 * zone, so day `d` starts at minute `d * MinutesPerDay` and its weekday is
 * `d % 7` with Monday as 0, as Python's `weekday()` counts. The current time is a
 * parameter; time-zone conversion, daylight saving and the parsing of date
 * strings are not modelled (a busy slot arrives with its start already in
 * minutes).
 */
module Scheduler {
  import opened Common

  const MinutesPerDay: int := 1440
  const SlotStep: int := 30
  const DaysLimit: nat := 10
  const DefaultDuration: int := 60
  const DefaultNumSlots: int := 10
  const DefaultBusinessHours: BusinessHours := BusinessHours(9, 17, [0, 1, 2, 3, 4])

  /** A JSON preference value as Python sees it: an int, a bool (which Python
      also counts as an int) or anything else. */
  datatype Json = JInt(i: int) | JBool(b: bool) | JOther

  /** The `businessHours` preference; each key may be absent. */
  datatype HoursPref = HoursPref(startHour: Option<int>, endHour: Option<int>, days: Option<seq<int>>)

  /** The preferences object; an absent or empty object has every key absent. */
  datatype Preferences = Preferences(businessHours: Option<HoursPref>, duration: Option<Json>, numSlots: Option<Json>)

  datatype BusinessHours = BusinessHours(startHour: int, endHour: int, days: seq<int>)

  /** One existing interview as sent by the backend. */
  datatype ExistingSlot = ExistingSlot(scheduledDate: Option<int>, duration: Option<Json>)

  /** A busy interval `[start, end)`. */
  datatype Busy = Busy(start: int, end: int)

  /** One offered slot. */
  datatype Slot = Slot(startTime: int, endTime: int, duration: int)

  /** What `get_slots` does: answers with slots, raises (a 500 from the service), or
      never returns. */
  datatype Outcome = Available(slots: seq<Slot>) | Raises | Diverges

  /** The value Python's `isinstance(v, int) and v > 0` accepts, if any. */
  function PositiveInt(v: Option<Json>): (r: Option<int>)
    ensures r.Some? ==> r.value > 0
    ensures r.Some? <==> v.Some? && ((v.value.JInt? && v.value.i > 0) || v.value == JBool(true))
    ensures v.Some? && v.value.JInt? && v.value.i > 0 ==> r == Some(v.value.i)
  {
    match v
    case Some(JInt(i)) => if i > 0 then Some(i) else None
    case Some(JBool(b)) => if b then Some(1) else None
    case _ => None
  }

  /** `_parse_duration`: the preference when it is a positive int, else 60 minutes. */
  function ParseDuration(p: Preferences): (r: int)
    ensures r > 0
    ensures PositiveInt(p.duration).Some? ==> r == PositiveInt(p.duration).value
    ensures PositiveInt(p.duration).None? ==> r == DefaultDuration
  {
    PositiveInt(p.duration).GetOr(DefaultDuration)
  }

  /** `_parse_num_slots`: the preference when it is a positive int, else 10. */
  function ParseNumSlots(p: Preferences): (r: int)
    ensures r > 0
    ensures PositiveInt(p.numSlots).Some? ==> r == PositiveInt(p.numSlots).value
    ensures PositiveInt(p.numSlots).None? ==> r == DefaultNumSlots
  {
    PositiveInt(p.numSlots).GetOr(DefaultNumSlots)
  }

  /** `_parse_business_hours`: each key falls back to the default on its own. */
  function ParseBusinessHours(p: Preferences): (r: BusinessHours)
    ensures p.businessHours.None? ==> r == DefaultBusinessHours
    ensures p.businessHours.Some? ==>
      && r.startHour == p.businessHours.value.startHour.GetOr(9)
      && r.endHour == p.businessHours.value.endHour.GetOr(17)
      && r.days == p.businessHours.value.days.GetOr([0, 1, 2, 3, 4])
  {
    match p.businessHours
    case None => DefaultBusinessHours
    case Some(h) => BusinessHours(h.startHour.GetOr(9), h.endHour.GetOr(17), h.days.GetOr([0, 1, 2, 3, 4]))
  }

  /** The length of an existing interview in minutes: 60 when the key is absent, the
      value when it is an integer or a bool, and none for every other value. `timedelta`
      refuses strings, lists and null, so those entries are skipped as in the source; it
      accepts a fractional number, which this model has no case for and also skips. */
  function BusyMinutes(e: ExistingSlot): Option<int>
  {
    match e.duration
    case None => Some(DefaultDuration)
    case Some(JInt(i)) => Some(i)
    case Some(JBool(b)) => Some(if b then 1 else 0)
    case Some(JOther) => None
  }

  predicate Usable(e: ExistingSlot) {
    e.scheduledDate.Some? && BusyMinutes(e).Some?
  }

  function BusyOf(e: ExistingSlot): Busy
    requires Usable(e)
  {
    Busy(e.scheduledDate.value, e.scheduledDate.value + BusyMinutes(e).value)
  }

  /** `_parse_existing_slots`: one busy interval per usable entry, in order; entries
      without a date, or whose duration raises, are skipped. */
  method ParseExistingSlots(existing: seq<ExistingSlot>) returns (r: seq<Busy>)
    ensures r == BusyTimes(existing)
  {
    r := [];
    var k := 0;
    while k < |existing|
      invariant 0 <= k <= |existing|
      invariant r == BusyTimes(existing[..k])
    {
      var e := existing[k];
      assert existing[..k + 1][..k] == existing[..k];
      if e.scheduledDate.Some? {
        var minutes := BusyMinutes(e);
        if minutes.Some? {
          r := r + [Busy(e.scheduledDate.value, e.scheduledDate.value + minutes.value)];
        }
      }
      k := k + 1;
    }
    assert existing[..k] == existing;
  }

  function BusyTimes(existing: seq<ExistingSlot>): seq<Busy> {
    if |existing| == 0 then []
    else BusyTimes(existing[..|existing| - 1])
         + (if Usable(existing[|existing| - 1]) then [BusyOf(existing[|existing| - 1])] else [])
  }

  /** The busy intervals are those of the usable entries, and an entry without a
      duration blocks 60 minutes. */
  lemma {:induction false} BusyTimesMeaning(existing: seq<ExistingSlot>)
    ensures |BusyTimes(existing)| <= |existing|
    ensures forall b :: b in BusyTimes(existing) <==> exists e :: e in existing && Usable(e) && b == BusyOf(e)
    ensures forall e :: e in existing && e.scheduledDate.Some? && e.duration.None? ==>
      Busy(e.scheduledDate.value, e.scheduledDate.value + 60) in BusyTimes(existing)
  {
    if |existing| > 0 {
      var init := existing[..|existing| - 1];
      var last := existing[|existing| - 1];
      BusyTimesMeaning(init);
      assert existing == init + [last];
      forall b | b in BusyTimes(existing)
        ensures exists e :: e in existing && Usable(e) && b == BusyOf(e)
      {
        if b in BusyTimes(init) {
          var e :| e in init && Usable(e) && b == BusyOf(e);
          assert e in existing;
        } else {
          assert last in existing;
        }
      }
      forall e | e in existing && Usable(e)
        ensures BusyOf(e) in BusyTimes(existing)
      {
        if e != last {
          assert e in init;
        }
      }
    }
  }

  /** A slot `[s, s + d)` and a busy interval overlap (half-open intervals). */
  predicate Overlaps(s: int, d: int, b: Busy) {
    s < b.end && s + d > b.start
  }

  predicate Free(s: int, d: int, busy: seq<Busy>) {
    forall k :: 0 <= k < |busy| ==> !Overlaps(s, d, busy[k])
  }

  /** The inner availability loop of `_generate_day_slots`, stopping at the first conflict. */
  method IsFree(s: int, d: int, busy: seq<Busy>) returns (free: bool)
    ensures free <==> Free(s, d, busy)
  {
    free := true;
    var k := 0;
    while k < |busy|
      invariant 0 <= k <= |busy|
      invariant forall m :: 0 <= m < k ==> !Overlaps(s, d, busy[m])
    {
      if Overlaps(s, d, busy[k]) {
        free := false;
        break;
      }
      k := k + 1;
    }
  }

  /** The free grid points from `cur` on, every `SlotStep` minutes, whose slot ends by `end`. */
  function DaySlots(cur: int, end: int, d: int, busy: seq<Busy>): seq<int>
    decreases end - d - cur
  {
    if cur + d > end then []
    else (if Free(cur, d, busy) then [cur] else []) + DaySlots(cur + SlotStep, end, d, busy)
  }

  predicate OnGrid(s: int, first: int) {
    s >= first && (s - first) % SlotStep == 0
  }

  predicate StrictlyIncreasing(s: seq<int>) {
    forall i, j :: 0 <= i < j < |s| ==> s[i] < s[j]
  }

  /** The day's slots are exactly the free grid points that fit, in increasing order. */
  lemma {:induction false} DaySlotsMeaning(first: int, end: int, d: int, busy: seq<Busy>)
    ensures forall s :: s in DaySlots(first, end, d, busy) <==> OnGrid(s, first) && s + d <= end && Free(s, d, busy)
    ensures StrictlyIncreasing(DaySlots(first, end, d, busy))
    decreases end - d - first
  {
    if first + d <= end {
      var rest := DaySlots(first + SlotStep, end, d, busy);
      DaySlotsMeaning(first + SlotStep, end, d, busy);
      forall s | OnGrid(s, first) && s != first
        ensures OnGrid(s, first + SlotStep)
      {
      }
      forall s | OnGrid(s, first + SlotStep)
        ensures OnGrid(s, first)
      {
      }
      var all := DaySlots(first, end, d, busy);
      var head := if Free(first, d, busy) then [first] else [];
      assert all == head + rest;
      forall i, j | 0 <= i < j < |all|
        ensures all[i] < all[j]
      {
        if i < |head| {
          assert all[i] == first;
          assert all[j] in rest;
        }
      }
    }
  }

  /** `_generate_day_slots` for the day that starts at `dayStart`. */
  method GenerateDaySlots(dayStart: int, startHour: int, endHour: int, d: int, busy: seq<Busy>) returns (r: seq<int>)
    ensures r == DaySlots(dayStart + startHour * 60, dayStart + endHour * 60, d, busy)
  {
    var first := dayStart + startHour * 60;
    var end := dayStart + endHour * 60;
    var cur := first;
    r := [];
    while cur + d <= end
      invariant r + DaySlots(cur, end, d, busy) == DaySlots(first, end, d, busy)
      decreases end - d - cur
    {
      var free := IsFree(cur, d, busy);
      if free {
        r := r + [cur];
      }
      cur := cur + SlotStep;
    }
  }

  function Weekday(day: int): int {
    day % 7
  }

  predicate IsBusinessDay(day: int, days: seq<int>) {
    Weekday(day) in days
  }

  /** Weekdays repeat every seven days. */
  lemma WeekdayPeriodic(from: int, x: int)
    requires x >= from
    ensures Weekday(x) == Weekday(from + (x - from) % 7)
  {
  }

  /** The first business day at or after `from`, searched over one week: when none of
      those seven days is a business day, none ever is. */
  function FirstBusinessDay(from: int, days: seq<int>, k: nat): Option<int>
    decreases 7 - k
  {
    if k >= 7 then None
    else if IsBusinessDay(from + k, days) then Some(from + k)
    else FirstBusinessDay(from, days, k + 1)
  }

  lemma {:induction false} FirstBusinessDayMeaning(from: int, days: seq<int>, k: nat)
    requires k <= 7
    requires forall x :: from <= x < from + k ==> !IsBusinessDay(x, days)
    ensures FirstBusinessDay(from, days, k).Some? ==>
      var day := FirstBusinessDay(from, days, k).value;
      day >= from && IsBusinessDay(day, days) && forall x :: from <= x < day ==> !IsBusinessDay(x, days)
    ensures FirstBusinessDay(from, days, k).None? ==> forall x :: x >= from ==> !IsBusinessDay(x, days)
    decreases 7 - k
  {
    if k == 7 {
      forall x | x >= from
        ensures !IsBusinessDay(x, days)
      {
        WeekdayPeriodic(from, x);
        var y := from + (x - from) % 7;
        assert from <= y < from + 7;
        assert !IsBusinessDay(y, days);
      }
    } else if !IsBusinessDay(from + k, days) {
      FirstBusinessDayMeaning(from, days, k + 1);
    }
  }

  /** Lines 42-47: step forward from `from` until a business day. The source's loop
      has no bound; `None` stands for the case where it never stops. */
  method NextBusinessDay(from: int, days: seq<int>) returns (r: Option<int>)
    ensures r == FirstBusinessDay(from, days, 0)
  {
    if IsBusinessDay(from, days) {
      return Some(from);
    }
    var add := 1;
    while add < 7 && !IsBusinessDay(from + add, days)
      invariant 1 <= add <= 7
      invariant FirstBusinessDay(from, days, 0) == FirstBusinessDay(from, days, add)
    {
      add := add + 1;
    }
    if add < 7 {
      r := Some(from + add);
    } else {
      r := None;
    }
  }

  function DayStart(day: int): int {
    day * MinutesPerDay
  }

  function SlotsOfDay(day: int, bh: BusinessHours, d: int, busy: seq<Busy>): seq<int> {
    if IsBusinessDay(day, bh.days)
    then DaySlots(DayStart(day) + bh.startHour * 60, DayStart(day) + bh.endHour * 60, d, busy)
    else []
  }

  /** The slots of the first `k` days from `start`, day after day. */
  function Collected(start: int, k: nat, bh: BusinessHours, d: int, busy: seq<Busy>): seq<int>
  {
    if k == 0 then [] else Collected(start, k - 1, bh, d, busy) + SlotsOfDay(start + k - 1, bh, d, busy)
  }

  lemma {:induction false} CollectedGrows(start: int, k: nat, k': nat, bh: BusinessHours, d: int, busy: seq<Busy>)
    requires k <= k'
    ensures Collected(start, k, bh, d, busy) <= Collected(start, k', bh, d, busy)
    decreases k'
  {
    if k < k' {
      CollectedGrows(start, k, k' - 1, bh, d, busy);
    }
  }

  function Take(s: seq<int>, n: int): (r: seq<int>)
    ensures |r| <= n || n < 0 || r == s
    ensures r <= s
  {
    if 0 <= n < |s| then s[..n] else if n < 0 then [] else s
  }

  function Format(starts: seq<int>, d: int): (r: seq<Slot>)
    ensures |r| == |starts|
    ensures forall i :: 0 <= i < |r| ==> r[i] == Slot(starts[i], starts[i] + d, d)
  {
    seq(|starts|, i requires 0 <= i < |starts| => Slot(starts[i], starts[i] + d, d))
  }

  /** What `get_slots` answers for the given preferences and busy intervals at time `now`. */
  function SlotsOutcome(busy: seq<Busy>, p: Preferences, now: int): Outcome {
    var bh := ParseBusinessHours(p);
    var first := FirstBusinessDay(now / MinutesPerDay + 1, bh.days, 0);
    if first.None? then Diverges
    else if !(0 <= bh.startHour <= 23 && 0 <= bh.endHour <= 23) then Raises
    else Available(Format(Take(Collected(first.value, DaysLimit, bh, ParseDuration(p), busy), ParseNumSlots(p)), ParseDuration(p)))
  }

  /** `get_slots`: from the next business day, examine ten calendar days and collect
      each business day's free slots until `num_slots` are found. */
  method GetSlots(existing: seq<ExistingSlot>, p: Preferences, now: int) returns (out: Outcome)
    ensures out == SlotsOutcome(BusyTimes(existing), p, now)
  {
    var bh := ParseBusinessHours(p);
    var d := ParseDuration(p);
    var n := ParseNumSlots(p);
    var busy := ParseExistingSlots(existing);
    var start := NextBusinessDay(now / MinutesPerDay + 1, bh.days);
    if start.None? {
      return Diverges;
    }
    if !(0 <= bh.startHour <= 23) {
      return Raises;
    }
    // The first day examined is a business day, so `_generate_day_slots` is reached
    // and raises there for an invalid end hour.
    if !(0 <= bh.endHour <= 23) {
      return Raises;
    }
    var available := CollectSlots(start.value, bh, d, n, busy);
    out := Available(Format(available, d));
  }

  /** Once the first `k` days give `n` slots, later days do not change the first `n`. */
  lemma TakeOfLonger(start: int, k: nat, bh: BusinessHours, d: int, busy: seq<Busy>, n: int)
    requires k <= DaysLimit && 0 <= n <= |Collected(start, k, bh, d, busy)|
    ensures Collected(start, k, bh, d, busy)[..n] == Take(Collected(start, DaysLimit, bh, d, busy), n)
  {
    CollectedGrows(start, k, DaysLimit, bh, d, busy);
  }

  /** The day loop of `get_slots` (lines 50-69): at most `DaysLimit` calendar days, stopping
      once `n` slots are collected, the last day's slots cut to `n`. */
  method CollectSlots(start: int, bh: BusinessHours, d: int, n: int, busy: seq<Busy>) returns (available: seq<int>)
    requires n > 0
    ensures available == Take(Collected(start, DaysLimit, bh, d, busy), n)
  {
    available := [];
    var day := start;
    var checked: nat := 0;
    while checked < DaysLimit && |available| < n
      invariant checked <= DaysLimit
      invariant day == start + checked
      invariant available == Collected(start, checked, bh, d, busy)
    {
      available := AddDay(available, day, bh, d, busy);
      CollectedNext(start, checked, bh, d, busy);
      day := day + 1;
      checked := checked + 1;
    }
    if |available| >= n {
      TakeOfLonger(start, checked, bh, d, busy, n);
      available := available[..n];
    } else {
      TakeOfShorter(Collected(start, DaysLimit, bh, d, busy), n);
    }
  }

  lemma CollectedNext(start: int, k: nat, bh: BusinessHours, d: int, busy: seq<Busy>)
    ensures Collected(start, k + 1, bh, d, busy) == Collected(start, k, bh, d, busy) + SlotsOfDay(start + k, bh, d, busy)
  {
  }

  lemma TakeOfShorter(s: seq<int>, n: int)
    requires |s| < n
    ensures Take(s, n) == s
  {
  }

  /** One pass of the day loop: a business day contributes its slots, any other day nothing. */
  method AddDay(available: seq<int>, day: int, bh: BusinessHours, d: int, busy: seq<Busy>) returns (r: seq<int>)
    ensures r == available + SlotsOfDay(day, bh, d, busy)
  {
    r := available;
    if IsBusinessDay(day, bh.days) {
      var daySlots := GenerateDaySlots(DayStart(day), bh.startHour, bh.endHour, d, busy);
      r := available + daySlots;
    }
  }

  /** `s` is a free grid point of `day`: a business day, on the half-hour grid from the
      opening hour, ending by the closing hour, and clear of every busy interval. */
  predicate FreeGridPoint(day: int, bh: BusinessHours, d: int, busy: seq<Busy>, s: int) {
    && IsBusinessDay(day, bh.days)
    && OnGrid(s, DayStart(day) + bh.startHour * 60)
    && s + d <= DayStart(day) + bh.endHour * 60
    && Free(s, d, busy)
  }

  /** `s` is a free grid point of one of the `DaysLimit` days examined from `first`. */
  predicate OfferedWithin(first: int, bh: BusinessHours, d: int, busy: seq<Busy>, s: int) {
    exists day :: first <= day < first + DaysLimit && FreeGridPoint(day, bh, d, busy, s)
  }

  /** The slots of one business day lie inside that day and are its free grid points. */
  lemma SlotsOfDayMeaning(day: int, bh: BusinessHours, d: int, busy: seq<Busy>)
    requires d > 0 && 0 <= bh.startHour <= 23 && 0 <= bh.endHour <= 23
    ensures forall s :: s in SlotsOfDay(day, bh, d, busy) <==> FreeGridPoint(day, bh, d, busy, s)
    ensures forall s :: s in SlotsOfDay(day, bh, d, busy) ==> DayStart(day) <= s < DayStart(day + 1)
    ensures StrictlyIncreasing(SlotsOfDay(day, bh, d, busy))
  {
    DaySlotsMeaning(DayStart(day) + bh.startHour * 60, DayStart(day) + bh.endHour * 60, d, busy);
  }

  /** Every free grid point of a business day that fits is one of its slots. */
  lemma SlotsOfDayHas(day: int, bh: BusinessHours, d: int, busy: seq<Busy>, s: int)
    requires d > 0 && 0 <= bh.startHour <= 23 && 0 <= bh.endHour <= 23
    requires FreeGridPoint(day, bh, d, busy, s)
    ensures s in SlotsOfDay(day, bh, d, busy)
  {
    SlotsOfDayMeaning(day, bh, d, busy);
  }

  /** The slots of one day lie inside that day, in increasing order. */
  lemma SlotsOfDayBounds(day: int, bh: BusinessHours, d: int, busy: seq<Busy>)
    requires d > 0 && 0 <= bh.startHour <= 23 && 0 <= bh.endHour <= 23
    ensures forall s :: s in SlotsOfDay(day, bh, d, busy) ==> DayStart(day) <= s < DayStart(day + 1)
    ensures StrictlyIncreasing(SlotsOfDay(day, bh, d, busy))
  {
    SlotsOfDayMeaning(day, bh, d, busy);
  }

  /** The collected slots are those of the business days among the first `k`, in increasing order. */
  lemma CollectedMeaning(start: int, k: nat, bh: BusinessHours, d: int, busy: seq<Busy>)
    requires d > 0 && 0 <= bh.startHour <= 23 && 0 <= bh.endHour <= 23
    ensures forall s :: s in Collected(start, k, bh, d, busy) <==>
      exists day :: start <= day < start + k && s in SlotsOfDay(day, bh, d, busy)
    ensures forall s :: s in Collected(start, k, bh, d, busy) ==> DayStart(start) <= s < DayStart(start + k)
    ensures StrictlyIncreasing(Collected(start, k, bh, d, busy))
  {
    forall s ensures s in Collected(start, k, bh, d, busy) <==>
      exists day :: start <= day < start + k && s in SlotsOfDay(day, bh, d, busy)
    {
      CollectedMembers(start, k, bh, d, busy, s);
    }
    CollectedIncreasing(start, k, bh, d, busy);
  }

  /** A slot is collected exactly when it is a slot of one of the first `k` days. */
  lemma {:induction false} CollectedMembers(start: int, k: nat, bh: BusinessHours, d: int, busy: seq<Busy>, s: int)
    ensures s in Collected(start, k, bh, d, busy) <==>
      exists day :: start <= day < start + k && s in SlotsOfDay(day, bh, d, busy)
  {
    if k > 0 {
      var init := Collected(start, k - 1, bh, d, busy);
      var last := SlotsOfDay(start + k - 1, bh, d, busy);
      CollectedMembers(start, k - 1, bh, d, busy, s);
      assert Collected(start, k, bh, d, busy) == init + last;
      if s in init {
        var day :| start <= day < start + (k - 1) && s in SlotsOfDay(day, bh, d, busy);
        assert start <= day < start + k;
      } else if s in last {
        assert start <= start + k - 1 < start + k;
      } else {
        forall day | start <= day < start + k ensures s !in SlotsOfDay(day, bh, d, busy) {
          if day == start + k - 1 {
            assert SlotsOfDay(day, bh, d, busy) == last;
          }
        }
      }
    }
  }

  /** The collected slots lie within the first `k` days and increase strictly. */
  lemma {:induction false} CollectedIncreasing(start: int, k: nat, bh: BusinessHours, d: int, busy: seq<Busy>)
    requires d > 0 && 0 <= bh.startHour <= 23 && 0 <= bh.endHour <= 23
    ensures forall s :: s in Collected(start, k, bh, d, busy) ==> DayStart(start) <= s < DayStart(start + k)
    ensures StrictlyIncreasing(Collected(start, k, bh, d, busy))
  {
    if k > 0 {
      var init := Collected(start, k - 1, bh, d, busy);
      var last := SlotsOfDay(start + k - 1, bh, d, busy);
      CollectedIncreasing(start, k - 1, bh, d, busy);
      SlotsOfDayBounds(start + k - 1, bh, d, busy);
      assert Collected(start, k, bh, d, busy) == init + last;
      IncreasingConcat(init, last, DayStart(start), DayStart(start + k - 1), DayStart(start + k));
    }
  }

  /** Two increasing runs, one within `[lo, mid)` and the next within `[mid, hi)`, make
      one increasing run within `[lo, hi)`. */
  lemma IncreasingConcat(a: seq<int>, b: seq<int>, lo: int, mid: int, hi: int)
    requires lo <= mid <= hi
    requires StrictlyIncreasing(a) && StrictlyIncreasing(b)
    requires forall x :: x in a ==> lo <= x < mid
    requires forall y :: y in b ==> mid <= y < hi
    ensures StrictlyIncreasing(a + b)
    ensures forall x :: x in a + b ==> lo <= x < hi
  {
    var all := a + b;
    forall i, j | 0 <= i < j < |all|
      ensures all[i] < all[j]
    {
      if j < |a| {
        assert all[i] == a[i] && all[j] == a[j];
      } else if i >= |a| {
        assert all[i] == b[i - |a|] && all[j] == b[j - |a|];
      } else {
        assert all[i] == a[i] && all[j] == b[j - |a|];
        assert a[i] in a && b[j - |a|] in b;
      }
    }
    forall x | x in all ensures lo <= x < hi {
      var k :| 0 <= k < |all| && all[k] == x;
      if k < |a| {
        assert a[k] in a;
      } else {
        assert b[k - |a|] in b;
      }
    }
  }

  /** Every offered slot is a free 30-minute grid point of a business day among the ten
      days examined, ends by the end of business hours and lasts the chosen duration;
      there are at most `num_slots` of them, in increasing order. */
  lemma GetSlotsSound(busy: seq<Busy>, p: Preferences, now: int)
    requires SlotsOutcome(busy, p, now).Available?
    ensures var slots := SlotsOutcome(busy, p, now).slots;
      var bh := ParseBusinessHours(p);
      var d := ParseDuration(p);
      var first := FirstBusinessDay(now / MinutesPerDay + 1, bh.days, 0).value;
      && |slots| <= ParseNumSlots(p)
      && (forall i :: 0 <= i < |slots| ==> slots[i].duration == d && slots[i].endTime == slots[i].startTime + d)
      && (forall i :: 0 <= i < |slots| ==>
            OfferedWithin(first, bh, d, busy, slots[i].startTime))
      && (forall i, j :: 0 <= i < j < |slots| ==> slots[i].startTime < slots[j].startTime)
  {
    var first := AvailableSlots(busy, p, now);
    TakenSound(first, ParseBusinessHours(p), ParseDuration(p), busy, ParseNumSlots(p));
  }

  /** The first `n` collected starts, formatted: at most `n` slots of the duration, each a
      free grid point of an examined business day, in increasing order. */
  lemma TakenSound(first: int, bh: BusinessHours, d: int, busy: seq<Busy>, n: int)
    requires d > 0 && 0 <= bh.startHour <= 23 && 0 <= bh.endHour <= 23 && n > 0
    ensures var slots := Format(Take(Collected(first, DaysLimit, bh, d, busy), n), d);
      && |slots| <= n
      && (forall i :: 0 <= i < |slots| ==> slots[i].duration == d && slots[i].endTime == slots[i].startTime + d)
      && (forall i :: 0 <= i < |slots| ==>
            OfferedWithin(first, bh, d, busy, slots[i].startTime))
      && (forall i, j :: 0 <= i < j < |slots| ==> slots[i].startTime < slots[j].startTime)
  {
    var all := Collected(first, DaysLimit, bh, d, busy);
    var starts := Take(all, n);
    var slots := Format(starts, d);
    CollectedMeaning(first, DaysLimit, bh, d, busy);
    forall i | 0 <= i < |slots|
      ensures OfferedWithin(first, bh, d, busy, slots[i].startTime)
    {
      assert starts[i] in all;
      var day :| first <= day < first + DaysLimit && starts[i] in SlotsOfDay(day, bh, d, busy);
      SlotsOfDayMeaning(day, bh, d, busy);
      assert slots[i].startTime == starts[i];
      assert FreeGridPoint(day, bh, d, busy, slots[i].startTime);
    }
    forall i, j | 0 <= i < j < |slots|
      ensures slots[i].startTime < slots[j].startTime
    {
      assert starts[i] == all[i] && starts[j] == all[j];
    }
  }

  /** When fewer than `num_slots` are offered, every free grid point of every business
      day examined is offered. */
  lemma GetSlotsComplete(busy: seq<Busy>, p: Preferences, now: int, day: int, s: int)
    requires SlotsOutcome(busy, p, now).Available?
    requires |SlotsOutcome(busy, p, now).slots| < ParseNumSlots(p)
    requires var bh := ParseBusinessHours(p);
      var first := FirstBusinessDay(now / MinutesPerDay + 1, bh.days, 0).value;
      first <= day < first + DaysLimit && FreeGridPoint(day, bh, ParseDuration(p), busy, s)
    ensures Slot(s, s + ParseDuration(p), ParseDuration(p)) in SlotsOutcome(busy, p, now).slots
  {
    var first := AvailableSlots(busy, p, now);
    TakenComplete(first, ParseBusinessHours(p), ParseDuration(p), busy, ParseNumSlots(p), day, s);
  }

  /** When the first `n` collected starts are fewer than `n`, every free grid point of an
      examined business day is among them, formatted as a slot of the duration. */
  lemma TakenComplete(first: int, bh: BusinessHours, d: int, busy: seq<Busy>, n: int, day: int, s: int)
    requires d > 0 && 0 <= bh.startHour <= 23 && 0 <= bh.endHour <= 23
    requires |Format(Take(Collected(first, DaysLimit, bh, d, busy), n), d)| < n
    requires first <= day < first + DaysLimit && FreeGridPoint(day, bh, d, busy, s)
    ensures Slot(s, s + d, d) in Format(Take(Collected(first, DaysLimit, bh, d, busy), n), d)
  {
    StartsComplete(first, bh, d, busy, n, day, s);
    FormatHas(Take(Collected(first, DaysLimit, bh, d, busy), n), d, s);
  }

  /** A collected start appears in the formatted list as a slot of the duration. */
  lemma FormatHas(starts: seq<int>, d: int, s: int)
    requires s in starts
    ensures Slot(s, s + d, d) in Format(starts, d)
  {
    var i :| 0 <= i < |starts| && starts[i] == s;
    assert Format(starts, d)[i] == Slot(s, s + d, d);
  }

  /** What an `Available` outcome holds: the first `num_slots` collected starts, formatted,
      for valid hours and a positive duration. */
  lemma AvailableSlots(busy: seq<Busy>, p: Preferences, now: int) returns (first: int)
    requires SlotsOutcome(busy, p, now).Available?
    ensures FirstBusinessDay(now / MinutesPerDay + 1, ParseBusinessHours(p).days, 0) == Some(first)
    ensures 0 <= ParseBusinessHours(p).startHour <= 23 && 0 <= ParseBusinessHours(p).endHour <= 23
    ensures SlotsOutcome(busy, p, now).slots
              == Format(Take(Collected(first, DaysLimit, ParseBusinessHours(p), ParseDuration(p), busy), ParseNumSlots(p)),
                        ParseDuration(p))
  {
    first := FirstBusinessDay(now / MinutesPerDay + 1, ParseBusinessHours(p).days, 0).value;
  }

  /** When fewer than `n` starts were taken, every free grid point of an examined business
      day is among them. */
  lemma StartsComplete(first: int, bh: BusinessHours, d: int, busy: seq<Busy>, n: int, day: int, s: int)
    requires d > 0 && 0 <= bh.startHour <= 23 && 0 <= bh.endHour <= 23
    requires |Take(Collected(first, DaysLimit, bh, d, busy), n)| < n
    requires first <= day < first + DaysLimit && FreeGridPoint(day, bh, d, busy, s)
    ensures s in Take(Collected(first, DaysLimit, bh, d, busy), n)
  {
    var all := Collected(first, DaysLimit, bh, d, busy);
    assert 0 <= n < |all| ==> |Take(all, n)| == n;
    TakeOfShorter(all, n);
    SlotsOfDayHas(day, bh, d, busy, s);
    CollectedMembers(first, DaysLimit, bh, d, busy, s);
  }

  /** `get_slots` never returns exactly when no later day is a business day, that is when
      `days` names none of the weekdays 0-6. */
  lemma DivergesExactly(busy: seq<Busy>, p: Preferences, now: int)
    ensures SlotsOutcome(busy, p, now) == Diverges <==>
      forall x :: x > now / MinutesPerDay ==> !IsBusinessDay(x, ParseBusinessHours(p).days)
  {
    var days := ParseBusinessHours(p).days;
    var from := now / MinutesPerDay + 1;
    FirstBusinessDayMeaning(from, days, 0);
  }
}
