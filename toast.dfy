/**
 * The toast list of components/ui/Toast.tsx (`useToast`): a list of
 * messages, appended to by `addToast` and filtered by `removeToast`.
 */
module Toasts {

  import opened Wrappers

  datatype ToastType = Success | Error | Info

  datatype Toast = Toast(id: string, message: string, kind: ToastType)

  /** The type parameter's default: `type: ToastType = 'info'`. */
  function TypeOrDefault(kind: Option<ToastType>): (t: ToastType)
    ensures kind.None? ==> t == Info
    ensures kind.Some? ==> t == kind.value
  {
    match kind
    case Some(k) => k
    case None => Info
  }

  /** `prev.filter((t) => t.id !== id)`. */
  function WithoutId(ts: seq<Toast>, id: string): (r: seq<Toast>)
    ensures |r| <= |ts|
    ensures forall i :: 0 <= i < |r| ==> r[i].id != id
  {
    if ts == [] then []
    else if ts[0].id != id then [ts[0]] + WithoutId(ts[1..], id)
    else WithoutId(ts[1..], id)
  }

  /** The toasts left are exactly those whose id differs from `id`. */
  lemma {:induction false} WithoutIdMembers(ts: seq<Toast>, id: string, t: Toast)
    ensures t in WithoutId(ts, id) <==> t in ts && t.id != id
  {
    if ts != [] {
      WithoutIdMembers(ts[1..], id, t);
      assert ts == [ts[0]] + ts[1..];
    }
  }

  /** Filtering a concatenation filters each part: the survivors keep their relative order. */
  lemma {:induction false} WithoutIdAppend(a: seq<Toast>, b: seq<Toast>, id: string)
    ensures WithoutId(a + b, id) == WithoutId(a, id) + WithoutId(b, id)
  {
    if a == [] {
      assert a + b == b;
    } else {
      assert (a + b)[1..] == a[1..] + b;
      WithoutIdAppend(a[1..], b, id);
    }
  }

  /** Removing an id no toast carries leaves the list as it was. */
  lemma {:induction false} WithoutAbsentId(ts: seq<Toast>, id: string)
    requires forall i :: 0 <= i < |ts| ==> ts[i].id != id
    ensures WithoutId(ts, id) == ts
  {
    if ts != [] {
      WithoutAbsentId(ts[1..], id);
      assert ts == [ts[0]] + ts[1..];
    }
  }

  /** After the filter no toast carries `id`. */
  lemma WithoutIdGone(ts: seq<Toast>, id: string)
    ensures forall i :: 0 <= i < |WithoutId(ts, id)| ==> WithoutId(ts, id)[i].id != id
  {
    var r := WithoutId(ts, id);
    forall i | 0 <= i < |r| ensures r[i].id != id {
      WithoutIdMembers(ts, id, r[i]);
    }
  }

  /** Removing the same id twice is removing it once. */
  lemma RemoveTwice(ts: seq<Toast>, id: string)
    ensures WithoutId(WithoutId(ts, id), id) == WithoutId(ts, id)
  {
    WithoutIdGone(ts, id);
    WithoutAbsentId(WithoutId(ts, id), id);
  }

  /** Adding a toast with a fresh id and then removing that id restores the previous list. */
  lemma AddThenRemove(ts: seq<Toast>, t: Toast)
    requires forall i :: 0 <= i < |ts| ==> ts[i].id != t.id
    ensures WithoutId(ts + [t], t.id) == ts
  {
    WithoutIdAppend(ts, [t], t.id);
    WithoutAbsentId(ts, t.id);
    assert WithoutId([t], t.id) == [];
  }

  /** The `toasts` state cell of one `useToast` hook. */
  class ToastList {
    var toasts: seq<Toast>

    /** `useState<ToastMessage[]>([])` */
    constructor ()
      ensures toasts == []
    {
      toasts := [];
    }

    /** `addToast(message, type?)` with the generated id passed in. */
    method AddToast(id: string, message: string, kind: Option<ToastType>)
      modifies this
      ensures toasts == old(toasts) + [Toast(id, message, TypeOrDefault(kind))]
    {
      toasts := toasts + [Toast(id, message, TypeOrDefault(kind))];
    }

    /** `removeToast(id)` */
    method RemoveToast(id: string)
      modifies this
      ensures toasts == WithoutId(old(toasts), id)
    {
      toasts := WithoutId(toasts, id);
    }
  }
}
