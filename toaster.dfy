/** The toast list of the notification provider.  A new toast's id is
    random in the source; here it is a parameter. */
module Toaster {
  import opened Seqs

  datatype ToastType = Success | Error | Warning | Info

  datatype Toast = Toast(id: string, message: string, kind: ToastType, duration: int)

  /** The lifetime of a toast, in milliseconds, when the caller names none. */
  const DefaultDuration := 5000

  /** `addToast(message, type, duration = 5000)`: one toast more, at the end. */
  function AddToast(toasts: seq<Toast>, id: string, message: string, kind: ToastType, duration: Option<int>)
    : (r: seq<Toast>)
    ensures |r| == |toasts| + 1 && r[..|toasts|] == toasts
    ensures Last(r).id == id && Last(r).message == message && Last(r).kind == kind
    ensures Last(r).duration == if duration.Some? then duration.value else DefaultDuration
  {
    assert (toasts + [Toast(id, message, kind, duration.GetOr(DefaultDuration))])[..|toasts|] == toasts;
    toasts + [Toast(id, message, kind, duration.GetOr(DefaultDuration))]
  }

  function HasOtherId(id: string): Toast -> bool {
    (t: Toast) => t.id != id
  }

  /** `removeToast(id)`: every toast with the id goes, the rest stay in order. */
  function RemoveToast(toasts: seq<Toast>, id: string): (r: seq<Toast>)
    ensures forall t :: t in r <==> t in toasts && t.id != id
    ensures forall t :: multiset(r)[t] == if t.id != id then multiset(toasts)[t] else 0
    ensures IsSubsequence(r, toasts)
    ensures (forall t :: t in toasts ==> t.id != id) ==> r == toasts
  {
    FilterIsSubsequence(toasts, HasOtherId(id));
    FilterMultiset(toasts, HasOtherId(id));
    FilterKeepsAll(toasts, HasOtherId(id));
    Filter(toasts, HasOtherId(id))
  }

  /** Removing twice is removing once. */
  lemma RemoveIdempotent(toasts: seq<Toast>, id: string)
    ensures RemoveToast(RemoveToast(toasts, id), id) == RemoveToast(toasts, id)
  {
  }

  /** Adding a toast with a fresh id and removing that id restores the list. */
  lemma AddThenRemove(toasts: seq<Toast>, id: string, message: string, kind: ToastType, duration: Option<int>)
    requires forall t :: t in toasts ==> t.id != id
    ensures RemoveToast(AddToast(toasts, id, message, kind, duration), id) == toasts
  {
    FilterAppend(toasts, Toast(id, message, kind, duration.GetOr(DefaultDuration)), HasOtherId(id));
    FilterKeepsAll(toasts, HasOtherId(id));
  }
}
