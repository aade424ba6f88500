/** The toast provider: a list of messages shown in the corner, each
    removed by its close button or by its own five-second timer. The random
    id and the clock are parameters: `show` is given the id, and a timer
    firing is the `Expire` event. */
module ToastContext {
  import opened Wrappers

  datatype ToastType = Success | Error | Info

  datatype Toast = Toast(id: string, message: string, kind: ToastType)

  /** How long a toast stays, in milliseconds. */
  const AUTO_REMOVE_MS: nat := 5000

  const OUTSIDE_PROVIDER := "useToast must be used within a ToastProvider"

  /** `prev.filter(toast => toast.id !== id)`. */
  function Without(ts: seq<Toast>, id: string): (r: seq<Toast>)
    ensures |r| <= |ts|
  {
    if ts == [] then []
    else (if ts[0].id != id then [ts[0]] else []) + Without(ts[1..], id)
  }

  /** Exactly the toasts with another id stay. */
  lemma {:induction false} WithoutMembers(ts: seq<Toast>, id: string)
    ensures forall t :: t in Without(ts, id) <==> t in ts && t.id != id
  {
    if ts != [] {
      WithoutMembers(ts[1..], id);
      assert ts == [ts[0]] + ts[1..];
    }
  }

  /** Removing distributes over concatenation, so the toasts that stay keep
      their order. */
  lemma {:induction false} WithoutAppend(a: seq<Toast>, b: seq<Toast>, id: string)
    ensures Without(a + b, id) == Without(a, id) + Without(b, id)
  {
    if a == [] {
      assert a + b == b;
    } else {
      assert (a + b)[0] == a[0] && (a + b)[1..] == a[1..] + b;
      WithoutAppend(a[1..], b, id);
    }
  }

  /** A toast without that id is untouched; removing twice is removing
      once. */
  lemma {:induction false} WithoutAbsent(ts: seq<Toast>, id: string)
    requires forall i :: 0 <= i < |ts| ==> ts[i].id != id
    ensures Without(ts, id) == ts
  {
    if ts != [] {
      WithoutAbsent(ts[1..], id);
    }
  }

  lemma WithoutIdempotent(ts: seq<Toast>, id: string)
    ensures Without(Without(ts, id), id) == Without(ts, id)
  {
    var r := Without(ts, id);
    WithoutMembers(ts, id);
    forall i | 0 <= i < |r| ensures r[i].id != id {
      assert r[i] in r;
    }
    WithoutAbsent(r, id);
  }

  /** The value of the context as `useToast` sees it: outside a provider it
      throws. */
  function UseToast<C>(context: Option<C>): (r: Result<C, string>)
    ensures context.None? <==> r == Err(OUTSIDE_PROVIDER)
    ensures context.Some? ==> r == Ok(context.value)
  {
    if context.None? then Err(OUTSIDE_PROVIDER) else Ok(context.value)
  }

  class ToastProvider {
    var toasts: seq<Toast>
    /** The ids whose timers have not fired yet. */
    var pending: multiset<string>

    constructor ()
      ensures toasts == [] && pending == multiset{}
    {
      toasts := [];
      pending := multiset{};
    }

    /** `showToast`: the toast goes last, and its timer starts. */
    method Show(message: string, kind: ToastType, id: string)
      modifies this
      ensures toasts == old(toasts) + [Toast(id, message, kind)]
      ensures pending == old(pending) + multiset{id}
    {
      toasts := toasts + [Toast(id, message, kind)];
      pending := pending + multiset{id};
    }

    /** The close button of toast `id`. */
    method Remove(id: string)
      modifies this
      ensures toasts == Without(old(toasts), id)
      ensures pending == old(pending)
    {
      toasts := Without(toasts, id);
    }

    /** The timer of `id` fired: only toasts with that id go. */
    method Expire(id: string)
      requires id in pending
      modifies this
      ensures toasts == Without(old(toasts), id)
      ensures pending == old(pending) - multiset{id}
    {
      toasts := Without(toasts, id);
      pending := pending - multiset{id};
    }
  }

  /** A toast shown after the others is the last to stay when another one
      expires: expiry of `id` keeps every other toast, in order, and the new
      one at the end. */
  lemma ExpireKeepsLater(ts: seq<Toast>, t: Toast, id: string)
    requires t.id != id
    ensures Without(ts + [t], id) == Without(ts, id) + [t]
  {
    WithoutAppend(ts, [t], id);
    assert Without([t], id) == [t] by {
      assert [t][1..] == [];
    }
  }
}
