/** The toast queue of the web client (`web/src/stores/toast.ts`): toasts get
    ids from a counter that only grows, are appended in order, and are removed
    by id. */
module ToastStore {

  datatype ToastType = Success | Error | Warning | Info

  datatype Toast = Toast(id: int, message: string, kind: ToastType)

  /** `toasts.filter(t => t.id !== id)`. */
  function WithoutId(ts: seq<Toast>, id: int): (r: seq<Toast>)
    ensures forall t :: t in r <==> t in ts && t.id != id
    ensures |r| <= |ts|
    decreases |ts|
  {
    if ts == [] then []
    else WithoutId(ts[..|ts| - 1], id) + (if ts[|ts| - 1].id == id then [] else [ts[|ts| - 1]])
  }

  /** Dismissal works toast by toast: it distributes over concatenation, so
      the remaining toasts keep their relative order. */
  lemma {:induction false} WithoutIdAppend(a: seq<Toast>, b: seq<Toast>, id: int)
    ensures WithoutId(a + b, id) == WithoutId(a, id) + WithoutId(b, id)
    decreases |b|
  {
    if b == [] {
      assert a + b == a;
    } else {
      assert (a + b)[..|a + b| - 1] == a + b[..|b| - 1];
      WithoutIdAppend(a, b[..|b| - 1], id);
    }
  }

  lemma WithoutIdOne(t: Toast, id: int)
    ensures WithoutId([t], id) == if t.id == id then [] else [t]
  {
    assert [t][..0] == [];
  }

  /** Dismissing an id that no toast has changes nothing. */
  lemma {:induction false} WithoutAbsentId(ts: seq<Toast>, id: int)
    requires forall i :: 0 <= i < |ts| ==> ts[i].id != id
    ensures WithoutId(ts, id) == ts
    decreases |ts|
  {
    if ts != [] {
      WithoutAbsentId(ts[..|ts| - 1], id);
      assert ts[..|ts| - 1] + [ts[|ts| - 1]] == ts;
    }
  }

  /** Dismissing twice is dismissing once. */
  lemma WithoutIdIdempotent(ts: seq<Toast>, id: int)
    ensures WithoutId(WithoutId(ts, id), id) == WithoutId(ts, id)
  {
    var r := WithoutId(ts, id);
    forall i | 0 <= i < |r| ensures r[i].id != id {
      assert r[i] in r;
    }
    WithoutAbsentId(r, id);
  }

  /** Ids strictly increase along the list. */
  ghost predicate IncreasingIds(ts: seq<Toast>) {
    forall i, j :: 0 <= i < j < |ts| ==> ts[i].id < ts[j].id
  }

  /** The toast store with the module counter `nextId`. Each `show` also
      starts a 3500 ms timer that dismisses its toast; every timer has the
      same delay, so they fire in the order the toasts were shown, and
      `pending` holds the ids whose timers have not fired yet, oldest first. */
  class Toasts {
    var toasts: seq<Toast>
    var nextId: int
    var pending: seq<int>

    /** The counter never goes below its start, every toast id came from it,
        the ids strictly increase, and every toast on screen still has its
        timer pending. */
    ghost predicate Valid()
      reads this
    {
      && 0 <= nextId
      && IncreasingIds(toasts)
      && (forall i :: 0 <= i < |toasts| ==> 0 < toasts[i].id <= nextId)
      && (forall i :: 0 <= i < |toasts| ==> toasts[i].id in pending)
      && (forall i :: 0 <= i < |pending| ==> pending[i] <= nextId)
    }

    constructor ()
      ensures Valid() && toasts == [] && nextId == 0 && pending == []
    {
      toasts := [];
      nextId := 0;
      pending := [];
    }

    /** `show(message, type = 'success')`: `++nextId` is the new toast's id,
        the toast goes to the end, and its timer is started. */
    method Show(message: string, kind: ToastType := Success) returns (id: int)
      requires Valid()
      modifies this
      ensures Valid()
      ensures id == old(nextId) + 1 && nextId == id
      ensures toasts == old(toasts) + [Toast(id, message, kind)]
      ensures pending == old(pending) + [id]
      ensures forall i :: 0 <= i < |old(toasts)| ==> old(toasts)[i].id < id
    {
      nextId := nextId + 1;
      id := nextId;
      var t := Toast(id, message, kind);
      var r := toasts + [t];
      assert forall i :: 0 <= i < |r| - 1 ==> r[i] == toasts[i] && r[i].id < id;
      toasts := r;
      pending := pending + [id];
    }

    /** `dismiss(id)`. The toast's timer, if still pending, keeps running. */
    method Dismiss(id: int)
      requires Valid()
      modifies this
      ensures Valid()
      ensures toasts == WithoutId(old(toasts), id)
      ensures nextId == old(nextId) && pending == old(pending)
    {
      WithoutIdKeepsIncreasing(toasts, id);
      toasts := WithoutId(toasts, id);
    }

    /** The oldest pending timer fires and dismisses its toast (a no-op when
        the toast was dismissed by hand already). */
    method TimerFires()
      requires Valid() && pending != []
      modifies this
      ensures Valid()
      ensures toasts == WithoutId(old(toasts), old(pending)[0])
      ensures pending == old(pending)[1..] && nextId == old(nextId)
    {
      var id := pending[0];
      WithoutIdKeepsIncreasing(toasts, id);
      TimerKeepsPending(toasts, pending);
      var r := WithoutId(toasts, id);
      toasts := r;
      pending := pending[1..];
    }
  }

  /** Dismissing the toast just shown restores the list as it was: the new
      id is larger than every id already on screen. */
  lemma ShowThenDismiss(ts: seq<Toast>, t: Toast)
    requires forall i :: 0 <= i < |ts| ==> ts[i].id < t.id
    ensures WithoutId(ts + [t], t.id) == ts
  {
    WithoutIdAppend(ts, [t], t.id);
    WithoutIdOne(t, t.id);
    WithoutAbsentId(ts, t.id);
  }

  /** The timer that fires only concerns its own toast: every other toast on
      screen still has its timer among the rest. */
  lemma TimerKeepsPending(ts: seq<Toast>, pending: seq<int>)
    requires pending != []
    requires forall i :: 0 <= i < |ts| ==> ts[i].id in pending
    ensures forall i :: 0 <= i < |WithoutId(ts, pending[0])| ==> WithoutId(ts, pending[0])[i].id in pending[1..]
  {
    var r := WithoutId(ts, pending[0]);
    forall i | 0 <= i < |r| ensures r[i].id in pending[1..] {
      assert r[i] in ts;
      assert pending == [pending[0]] + pending[1..];
    }
  }

  /** Taking out toasts keeps the ids increasing and within the counter. */
  lemma {:induction false} WithoutIdKeepsIncreasing(ts: seq<Toast>, id: int)
    ensures IncreasingIds(ts) ==> IncreasingIds(WithoutId(ts, id))
    decreases |ts|
  {
    if ts != [] && IncreasingIds(ts) {
      var pre, last := ts[..|ts| - 1], ts[|ts| - 1];
      assert IncreasingIds(pre);
      WithoutIdKeepsIncreasing(pre, id);
      var r := WithoutId(pre, id);
      forall k | 0 <= k < |r| ensures r[k].id < last.id {
        assert r[k] in pre;
      }
    }
  }
}
