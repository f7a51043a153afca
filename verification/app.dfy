/**
 * The toast list of the application shell (frontend/src/App.jsx). A toast
 * gets the current time (`Date.now()`, a parameter here) as its id; closing
 * a toast filters the list by that id.
 */
module App {
  import opened Lists

  datatype Toast = Toast(id: int, kind: string, message: string)

  /** `addToast`: one toast with the given type and message, after the others. */
  function AddToast(toasts: seq<Toast>, now: int, kind: string, message: string): (r: seq<Toast>)
    ensures |r| == |toasts| + 1
    ensures r[..|toasts|] == toasts
    ensures r[|toasts|].kind == kind && r[|toasts|].message == message && r[|toasts|].id == now
  {
    toasts + [Toast(now, kind, message)]
  }

  /** The filter test of `removeToast`: `toast.id !== id`. */
  function Without(id: int): Toast -> bool {
    (t: Toast) => t.id != id
  }

  /** `removeToast`: every toast with the id goes, the others stay in order; an id no
      toast carries leaves the list as it was. */
  function RemoveToast(toasts: seq<Toast>, id: int): (r: seq<Toast>)
    ensures IsSubseq(r, toasts)
    ensures forall t :: t in r <==> t in toasts && t.id != id
    ensures forall t :: multiset(r)[t] == if t.id != id then multiset(toasts)[t] else 0
    ensures (forall i :: 0 <= i < |toasts| ==> toasts[i].id != id) ==> r == toasts
  {
    FilterIsSubseq(toasts, Without(id));
    RemoveToastCounts(toasts, id);
    FilterAllOrNone(toasts, Without(id));
    Filter(toasts, Without(id))
  }

  /** Every copy of a toast without the id stays, and no copy of one with it. */
  lemma RemoveToastCounts(toasts: seq<Toast>, id: int)
    ensures forall t :: multiset(Filter(toasts, Without(id)))[t] == if t.id != id then multiset(toasts)[t] else 0
  {
    FilterCounts(toasts, Without(id));
  }

  /** Closing a toast just added under a fresh id gives back the list before it. */
  lemma CloseUndoesAdd(toasts: seq<Toast>, now: int, kind: string, message: string)
    requires forall i :: 0 <= i < |toasts| ==> toasts[i].id != now
    ensures RemoveToast(AddToast(toasts, now, kind, message), now) == toasts
  {
    FilterAppend(toasts, Toast(now, kind, message), Without(now));
    assert Filter(AddToast(toasts, now, kind, message), Without(now)) == Filter(toasts, Without(now));
    assert RemoveToast(toasts, now) == toasts;
  }

  /** Closing one toast leaves every toast with another id in place, so closing two
      toasts gives the same list in either order. */
  lemma RemoveCommutes(toasts: seq<Toast>, a: int, b: int)
    ensures RemoveToast(RemoveToast(toasts, a), b) == RemoveToast(RemoveToast(toasts, b), a)
  {
    FilterCommutes(toasts, Without(a), Without(b));
  }
}
