/** The list of toast notifications.

    The random id of a new toast is a parameter of `Add`, and the timer that removes an
    expiring toast is recorded as a pending expiry; `Expire` is that timer firing. */
module ToastStore {
  import opened Text

  datatype ToastType = Info | Success | Warning | Error

  /** The label of a toast's action button; its click handler is not modelled. */
  datatype ToastAction = ToastAction(labelText: string)

  datatype Toast = Toast(id: string, message: string, toastType: ToastType, duration: int,
                         action: Option<ToastAction>)

  /** A scheduled removal: the id to remove, after `delay` milliseconds. */
  datatype Expiry = Expiry(id: string, delay: int)

  const DefaultDuration: int := 3000

  /** The toasts whose id is not `id`, in their original order. */
  function Without(ts: seq<Toast>, id: string): (r: seq<Toast>)
    ensures |r| <= |ts|
    ensures forall t :: t in r ==> t in ts && t.id != id
  {
    if ts == [] then []
    else Without(ts[..|ts| - 1], id) + (if ts[|ts| - 1].id == id then [] else [ts[|ts| - 1]])
  }

  /** Filtering distributes over concatenation: the survivors keep their relative order. */
  lemma {:induction false} WithoutAppend(a: seq<Toast>, b: seq<Toast>, id: string)
    ensures Without(a + b, id) == Without(a, id) + Without(b, id)
  {
    if b == [] {
      assert a + b == a;
    } else {
      assert (a + b)[..|a + b| - 1] == a + b[..|b| - 1];
      WithoutAppend(a, b[..|b| - 1], id);
    }
  }

  /** Removal keeps every toast with another id, and drops every toast with this one. */
  lemma {:induction false} WithoutExact(ts: seq<Toast>, id: string)
    ensures forall t :: t in Without(ts, id) <==> t in ts && t.id != id
  {
    if ts != [] {
      var init := ts[..|ts| - 1];
      assert ts == init + [ts[|ts| - 1]];
      WithoutExact(init, id);
    }
  }

  /** Removing an id no toast carries changes nothing. */
  lemma {:induction false} WithoutUnknown(ts: seq<Toast>, id: string)
    requires forall t :: t in ts ==> t.id != id
    ensures Without(ts, id) == ts
  {
    if ts != [] {
      var init := ts[..|ts| - 1];
      assert ts == init + [ts[|ts| - 1]];
      WithoutUnknown(init, id);
    }
  }

  /** Removing twice is removing once. */
  lemma WithoutIdempotent(ts: seq<Toast>, id: string)
    ensures Without(Without(ts, id), id) == Without(ts, id)
  {
    WithoutUnknown(Without(ts, id), id);
  }

  /** Removing a freshly added toast by its (unused) id restores the list it was added to. */
  lemma AddThenRemove(ts: seq<Toast>, t: Toast)
    requires forall u :: u in ts ==> u.id != t.id
    ensures Without(ts + [t], t.id) == ts
  {
    WithoutAppend(ts, [t], t.id);
    WithoutUnknown(ts, t.id);
    assert Without([t], t.id) == [];
  }

  class ToastList {
    var toasts: seq<Toast>
    var pending: seq<Expiry>

    constructor()
      ensures toasts == [] && pending == []
    {
      toasts, pending := [], [];
    }

    /** `add`: one toast at the end, with type and duration defaulting to info and 3000;
        its removal is scheduled only for a positive duration. */
    method Add(id: string, message: string, toastType: Option<ToastType>, duration: Option<int>,
               action: Option<ToastAction>)
      modifies this
      ensures var ty := if toastType.Some? then toastType.value else Info;
              var d := if duration.Some? then duration.value else DefaultDuration;
              toasts == old(toasts) + [Toast(id, message, ty, d, action)] &&
              pending == old(pending) + (if d > 0 then [Expiry(id, d)] else [])
    {
      var ty := if toastType.Some? then toastType.value else Info;
      var d := if duration.Some? then duration.value else DefaultDuration;
      toasts := toasts + [Toast(id, message, ty, d, action)];
      if d > 0 {
        pending := pending + [Expiry(id, d)];
      }
    }

    /** `remove`: drops every toast with that id. */
    method Remove(id: string)
      modifies this
      ensures toasts == Without(old(toasts), id) && pending == old(pending)
    {
      toasts := Without(toasts, id);
    }

    /** The scheduled timer at position `i` fires: its toast is removed as by `remove`. */
    method Expire(i: nat)
      requires i < |pending|
      modifies this
      ensures toasts == Without(old(toasts), old(pending)[i].id)
      ensures pending == old(pending)[..i] + old(pending)[i + 1..]
    {
      toasts := Without(toasts, pending[i].id);
      pending := pending[..i] + pending[i + 1..];
    }
  }
}
