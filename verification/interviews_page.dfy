/**
 * The interview scheduler page (frontend/src/pages/Interviews.jsx): the list
 * of available time slots the recruiter edits before submitting it, and the
 * status filter over the scheduled interviews.
 *
 * Each handler builds a new slot array from the current one; `Date.now()`,
 * which supplies the id of a new slot, is a parameter.
 */
module InterviewsPage {
  import opened Common
  import opened Lists

  datatype Slot = Slot(id: int, date: string, time: string)

  /** The two inputs of a slot row, the `field` argument of `handleTimeSlotChange`. */
  datatype Field = Date | Time

  /** No two slots share an id, which holds while ids come from a clock that has moved on. */
  predicate DistinctIds(slots: seq<Slot>) {
    forall i, j :: 0 <= i < j < |slots| ==> slots[i].id != slots[j].id
  }

  /** `handleAddTimeSlot`: one blank slot with the current time as id, after the others. */
  function AddSlot(slots: seq<Slot>, now: int): (r: seq<Slot>)
    ensures |r| == |slots| + 1 && r[..|slots|] == slots
    ensures r[|slots|].id == now && r[|slots|].date == "" && r[|slots|].time == ""
  {
    slots + [Slot(now, "", "")]
  }

  /** A new id that no slot carries keeps the ids distinct. */
  lemma AddKeepsIdsDistinct(slots: seq<Slot>, now: int)
    requires DistinctIds(slots)
    requires forall i :: 0 <= i < |slots| ==> slots[i].id != now
    ensures DistinctIds(AddSlot(slots, now))
  {
  }

  /** The filter test of `handleRemoveTimeSlot`: `slot.id !== id`. */
  function Without(id: int): Slot -> bool {
    (s: Slot) => s.id != id
  }

  /** `handleRemoveTimeSlot`: with more than one slot, every slot with the id goes and the
      rest keep their order; a single slot is never removed. */
  function RemoveSlot(slots: seq<Slot>, id: int): (r: seq<Slot>)
    ensures |slots| <= 1 ==> r == slots
    ensures IsSubseq(r, slots)
    ensures |slots| > 1 ==> forall s :: s in r <==> s in slots && s.id != id
    ensures |slots| > 1 ==> forall s :: multiset(r)[s] == if s.id != id then multiset(slots)[s] else 0
  {
    if |slots| > 1 then
      FilterIsSubseq(slots, Without(id));
      FilterCounts(slots, Without(id));
      Filter(slots, Without(id))
    else
      IsSubseqRefl(slots);
      slots
  }

  /** With distinct ids, removing the slot at index `k` by its id deletes exactly that slot. */
  lemma RemoveDeletesOne(slots: seq<Slot>, k: nat)
    requires DistinctIds(slots)
    requires 1 < |slots| && k < |slots|
    ensures RemoveSlot(slots, slots[k].id) == slots[..k] + slots[k + 1..]
  {
    FilterAllBut(slots, Without(slots[k].id), k);
  }

  /** With distinct ids the slot list never becomes empty through removal. */
  lemma RemoveKeepsOne(slots: seq<Slot>, id: int)
    requires DistinctIds(slots)
    requires |slots| >= 1
    ensures |RemoveSlot(slots, id)| >= 1
  {
    if |slots| > 1 {
      var keep := if slots[0].id != id then slots[0] else slots[1];
      assert keep in slots && keep.id != id;
      assert keep in RemoveSlot(slots, id);
    }
  }

  /** Two slots created within the same millisecond share an id, and removing one of them
      then removes both, emptying the list. */
  lemma SharedIdEmptiesList()
    ensures RemoveSlot([Slot(7, "", ""), Slot(7, "", "")], 7) == []
  {
    var slots := [Slot(7, "", ""), Slot(7, "", "")];
    FilterAllOrNone(slots, Without(7));
  }

  /** Removing a slot just added, under a fresh id, restores the list. */
  lemma RemoveUndoesAdd(slots: seq<Slot>, now: int)
    requires |slots| >= 1
    requires forall i :: 0 <= i < |slots| ==> slots[i].id != now
    ensures RemoveSlot(AddSlot(slots, now), now) == slots
  {
    FilterAppend(slots, Slot(now, "", ""), Without(now));
    FilterAllOrNone(slots, Without(now));
  }

  /** `{ ...slot, [field]: value }`. */
  function SetField(slot: Slot, field: Field, value: string): Slot {
    match field
    case Date => slot.(date := value)
    case Time => slot.(time := value)
  }

  /** `handleTimeSlotChange`: the named field of every slot with the id takes the value;
      the other field, the ids, the order and every other slot stay as they were. */
  function ChangeSlot(slots: seq<Slot>, id: int, field: Field, value: string): (r: seq<Slot>)
    ensures |r| == |slots|
    ensures forall i :: 0 <= i < |slots| && slots[i].id != id ==> r[i] == slots[i]
    ensures forall i :: 0 <= i < |slots| && slots[i].id == id ==>
              && r[i].id == id
              && r[i].date == (if field == Date then value else slots[i].date)
              && r[i].time == (if field == Time then value else slots[i].time)
    decreases |slots|
  {
    if |slots| == 0 then []
    else
      var init := ChangeSlot(slots[..|slots| - 1], id, field, value);
      var last := slots[|slots| - 1];
      init + [if last.id == id then SetField(last, field, value) else last]
  }

  /** Editing a slot keeps every id where it was, so distinct ids stay distinct. */
  lemma ChangeKeepsIds(slots: seq<Slot>, id: int, field: Field, value: string)
    ensures forall i :: 0 <= i < |slots| ==> ChangeSlot(slots, id, field, value)[i].id == slots[i].id
    ensures DistinctIds(slots) ==> DistinctIds(ChangeSlot(slots, id, field, value))
  {
  }

  /** `slot.date && slot.time`: both inputs are filled in. */
  predicate Filled(slot: Slot) {
    slot.date != "" && slot.time != ""
  }

  /** The validation of `handleSubmitTimeSlots`: refused (nothing) when no slot has both a
      date and a time, otherwise the filled slots, in order, are what is submitted. */
  function SubmitSlots(slots: seq<Slot>): (r: Option<seq<Slot>>)
    ensures r.None? <==> forall i :: 0 <= i < |slots| ==> !Filled(slots[i])
    ensures r.Some? ==> |r.value| > 0 && IsSubseq(r.value, slots)
    ensures r.Some? ==> forall s :: s in r.value <==> s in slots && Filled(s)
    ensures r.Some? ==> forall s :: multiset(r.value)[s] == if Filled(s) then multiset(slots)[s] else 0
  {
    var valid := Filter(slots, Filled);
    FilterIsSubseq(slots, Filled);
    FilterCounts(slots, Filled);
    if |valid| == 0 then
      None
    else
      assert valid[0] in valid;
      Some(valid)
  }

  /** A freshly added blank slot does not change what would be submitted. */
  lemma AddedSlotIsNotSubmitted(slots: seq<Slot>, now: int)
    ensures SubmitSlots(AddSlot(slots, now)) == SubmitSlots(slots)
  {
    FilterAppend(slots, Slot(now, "", ""), Filled);
    assert Filter(AddSlot(slots, now), Filled) == Filter(slots, Filled);
  }

  /** Filling in both the date and the time of an existing slot makes the submission go through. */
  lemma FillingASlotAllowsSubmit(slots: seq<Slot>, k: nat, date: string, time: string)
    requires k < |slots| && date != "" && time != ""
    ensures var id := slots[k].id;
      SubmitSlots(ChangeSlot(ChangeSlot(slots, id, Date, date), id, Time, time)).Some?
  {
    var id := slots[k].id;
    var once := ChangeSlot(slots, id, Date, date);
    var twice := ChangeSlot(once, id, Time, time);
    assert Filled(twice[k]);
  }

  /** A scheduled interview as listed on the page. */
  datatype ScheduledInterview = ScheduledInterview(id: string, candidateName: string, status: string)

  /** `filteredInterviews`: every interview for `'all'`, otherwise exactly those whose
      status equals the filter, in their order. */
  function ByStatus(interviews: seq<ScheduledInterview>, statusFilter: string): (r: seq<ScheduledInterview>)
    ensures statusFilter == "all" ==> r == interviews
    ensures IsSubseq(r, interviews)
    ensures statusFilter != "all" ==> forall iv :: iv in r <==> iv in interviews && iv.status == statusFilter
    ensures statusFilter != "all" ==>
      forall iv :: multiset(r)[iv] == if iv.status == statusFilter then multiset(interviews)[iv] else 0
  {
    var keep := (iv: ScheduledInterview) => statusFilter == "all" || iv.status == statusFilter;
    FilterAllOrNone(interviews, keep);
    FilterIsSubseq(interviews, keep);
    FilterCounts(interviews, keep);
    Filter(interviews, keep)
  }
}
