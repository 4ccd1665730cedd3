/**
  The toast queue of the web client (web/app/components/ui/Toast.tsx): a
  list of at most three notices, each with an auto-dismiss timer kept in a
  map from toast id to timer handle. The id (clock plus random digits) and
  the handle `setTimeout` returns are parameters; a handle is a number and,
  as in JavaScript, the handle 0 is falsy. The `clearTimeout` calls are
  recorded, in order, in a log of cleared handles.
*/
module Toasts {
  import opened Wrappers

  const AUTO_DISMISS_MS: nat := 4000
  const MAX_TOASTS: nat := 3

  datatype Kind = Success | Error | Info

  datatype Toast = Toast(id: string, message: string, kind: Kind)

  /** The toast list, the timer map and the log of `clearTimeout` calls. */
  datatype Queue = Queue(toasts: seq<Toast>, timers: map<string, nat>, cleared: seq<nat>)

  const EmptyQueue := Queue([], map[], [])

  /** The `type` parameter defaults to "info". */
  function KindOrDefault(kind: Option<Kind>): (r: Kind)
    ensures kind.Some? ==> r == kind.value
    ensures kind.None? ==> r == Info
  {
    match kind
    case Some(k) => k
    case None => Info
  }

  /** A truthy timer under `id` is cleared and deleted; otherwise nothing happens. */
  function ClearTimer(q: Queue, id: string): Queue {
    if id in q.timers && q.timers[id] != 0 then
      q.(timers := q.timers - {id}, cleared := q.cleared + [q.timers[id]])
    else q
  }

  /**
    `toast(message, type)`: the list updater (append, then drop the oldest
    when over the maximum, clearing its timer), then the new timer.
  */
  function Push(q: Queue, message: string, kind: Option<Kind>, id: string, handle: nat): Queue {
    var next := q.toasts + [Toast(id, message, KindOrDefault(kind))];
    var q1 := if |next| > MAX_TOASTS then ClearTimer(q.(toasts := next[1..]), next[0].id)
              else q.(toasts := next);
    q1.(timers := q1.timers[id := handle])
  }

  /** `prev.filter(t => t.id !== id)`. */
  function Filter(ts: seq<Toast>, id: string): (r: seq<Toast>)
    ensures |r| <= |ts|
  {
    if ts == [] then []
    else if ts[0].id != id then [ts[0]] + Filter(ts[1..], id)
    else Filter(ts[1..], id)
  }

  /** `removeToast(id)`. */
  function Remove(q: Queue, id: string): Queue {
    ClearTimer(q.(toasts := Filter(q.toasts, id)), id)
  }

  predicate HasId(ts: seq<Toast>, id: string) {
    exists i :: 0 <= i < |ts| && ts[i].id == id
  }

  predicate DistinctIds(ts: seq<Toast>) {
    forall i, j :: 0 <= i < j < |ts| ==> ts[i].id != ts[j].id
  }

  /**
    The queue's invariant: at most three toasts with distinct ids, and the
    timer map holds exactly one truthy handle per toast shown.
  */
  ghost predicate Valid(q: Queue) {
    |q.toasts| <= MAX_TOASTS && DistinctIds(q.toasts) &&
    (forall id :: id in q.timers <==> HasId(q.toasts, id)) &&
    (forall id :: id in q.timers ==> q.timers[id] != 0)
  }

  lemma EmptyQueueValid()
    ensures Valid(EmptyQueue) && EmptyQueue.toasts == []
  {
  }

  /**
    After `toast` the list holds at most three toasts; the new one is last;
    the others are the previous list, less its oldest toast exactly when
    the previous list was full.
  */
  lemma PushList(q: Queue, message: string, kind: Option<Kind>, id: string, handle: nat)
    requires |q.toasts| <= MAX_TOASTS
    ensures var r := Push(q, message, kind, id, handle).toasts;
      |r| <= MAX_TOASTS && |r| > 0 &&
      r[|r| - 1] == Toast(id, message, KindOrDefault(kind)) &&
      (|q.toasts| < MAX_TOASTS ==> r[..|r| - 1] == q.toasts) &&
      (|q.toasts| == MAX_TOASTS ==> r[..|r| - 1] == q.toasts[1..])
  {
    var t := Toast(id, message, KindOrDefault(kind));
    var r := Push(q, message, kind, id, handle).toasts;
    if |q.toasts| == MAX_TOASTS {
      assert r == (q.toasts + [t])[1..];
      assert r[..|r| - 1] == q.toasts[1..];
    } else {
      assert r == q.toasts + [t];
    }
  }

  /**
    The new toast's timer is filed under its id. On overflow, the evicted
    toast's truthy timer is cleared and deleted; every other timer entry is
    kept.
  */
  lemma PushTimers(q: Queue, message: string, kind: Option<Kind>, id: string, handle: nat)
    requires |q.toasts| <= MAX_TOASTS
    ensures var r := Push(q, message, kind, id, handle);
      r.timers.Keys <= q.timers.Keys + {id} &&
      id in r.timers && r.timers[id] == handle &&
      (|q.toasts| < MAX_TOASTS ==> r.cleared == q.cleared && r.timers == q.timers[id := handle]) &&
      (|q.toasts| == MAX_TOASTS ==>
        var old_ := q.toasts[0].id;
        (old_ != id && old_ in q.timers && q.timers[old_] != 0 ==>
          old_ !in r.timers && r.cleared == q.cleared + [q.timers[old_]]) &&
        (old_ !in q.timers || q.timers[old_] == 0 ==> r.cleared == q.cleared)) &&
      (forall k :: k in q.timers && k != id && (|q.toasts| < MAX_TOASTS || k != q.toasts[0].id) ==>
        k in r.timers && r.timers[k] == q.timers[k])
  {
    if |q.toasts| == MAX_TOASTS {
      assert (q.toasts + [Toast(id, message, KindOrDefault(kind))])[0] == q.toasts[0];
    }
  }

  /**
    Whether the list updater runs before or after the new timer is filed
    makes no difference while the new id differs from the evicted one.
  */
  lemma PushOrderIrrelevant(q: Queue, message: string, kind: Option<Kind>, id: string, handle: nat)
    requires |q.toasts| >= MAX_TOASTS ==> q.toasts[0].id != id
    ensures Push(q.(timers := q.timers[id := handle]), message, kind, id, handle) ==
            Push(q, message, kind, id, handle)
  {
    var t := Toast(id, message, KindOrDefault(kind));
    var next := q.toasts + [t];
    var m := q.timers[id := handle];
    if |next| > MAX_TOASTS {
      assert next[0] == q.toasts[0];
      var e := q.toasts[0].id;
      assert (e in m) == (e in q.timers);
      if e in q.timers && q.timers[e] != 0 {
        assert m[e] == q.timers[e];
        assert (m - {e})[id := handle] == (q.timers - {e})[id := handle];
      } else {
        assert m[id := handle] == q.timers[id := handle];
      }
    } else {
      assert m[id := handle] == q.timers[id := handle];
    }
  }

  lemma {:induction false} FilterMember(ts: seq<Toast>, id: string, t: Toast)
    ensures t in Filter(ts, id) <==> t in ts && t.id != id
    decreases |ts|
  {
    if ts != [] {
      FilterMember(ts[1..], id, t);
      assert ts == [ts[0]] + ts[1..];
    }
  }

  /** Filtering distributes over concatenation, so the survivors keep their order. */
  lemma {:induction false} FilterAppend(a: seq<Toast>, b: seq<Toast>, id: string)
    ensures Filter(a + b, id) == Filter(a, id) + Filter(b, id)
    decreases |a|
  {
    if a != [] {
      assert (a + b)[0] == a[0];
      assert (a + b)[1..] == a[1..] + b;
      FilterAppend(a[1..], b, id);
      if a[0].id != id {
        assert Filter(a + b, id) == [a[0]] + (Filter(a[1..], id) + Filter(b, id));
        assert Filter(a, id) == [a[0]] + Filter(a[1..], id);
      }
    } else {
      assert a + b == b;
    }
  }

  lemma {:induction false} FilterNone(ts: seq<Toast>, id: string)
    requires !HasId(ts, id)
    ensures Filter(ts, id) == ts
    decreases |ts|
  {
    if ts != [] {
      assert ts[0].id != id;
      assert !HasId(ts[1..], id) by {
        forall i | 0 <= i < |ts[1..]| ensures ts[1..][i].id != id {
          assert ts[1..][i] == ts[i + 1];
        }
      }
      FilterNone(ts[1..], id);
      assert ts == [ts[0]] + ts[1..];
    }
  }

  /** With distinct ids, removing a shown toast drops exactly that one position. */
  lemma RemoveAt(ts: seq<Toast>, k: nat)
    requires k < |ts| && DistinctIds(ts)
    ensures Filter(ts, ts[k].id) == ts[..k] + ts[k + 1..]
  {
    var id := ts[k].id;
    var pre, mid, tail := ts[..k], [ts[k]], ts[k + 1..];
    assert ts == (pre + mid) + tail;
    OthersHaveOtherIds(ts, k);
    FilterAppend(pre + mid, tail, id);
    FilterAppend(pre, mid, id);
    FilterNone(pre, id);
    FilterNone(tail, id);
    assert mid[1..] == [];
  }

  /** With distinct ids, no toast before or after position k has the id of the one at k. */
  lemma OthersHaveOtherIds(ts: seq<Toast>, k: nat)
    requires k < |ts| && DistinctIds(ts)
    ensures !HasId(ts[..k], ts[k].id) && !HasId(ts[k + 1..], ts[k].id)
  {
    var pre, tail := ts[..k], ts[k + 1..];
    forall i | 0 <= i < |pre| ensures pre[i].id != ts[k].id {
      assert pre[i] == ts[i];
    }
    forall i | 0 <= i < |tail| ensures tail[i].id != ts[k].id {
      assert tail[i] == ts[k + 1 + i];
    }
  }

  /**
    `removeToast(id)` keeps exactly the toasts with another id, clears and
    deletes a truthy timer under `id`, and touches no other timer.
  */
  lemma RemoveSpec(q: Queue, id: string)
    ensures var r := Remove(q, id);
      (forall t :: t in r.toasts <==> t in q.toasts && t.id != id) &&
      (forall k :: k != id && k in q.timers ==> k in r.timers && r.timers[k] == q.timers[k]) &&
      r.timers.Keys <= q.timers.Keys
    ensures var r := Remove(q, id);
      (id in q.timers && q.timers[id] != 0 ==> id !in r.timers && r.cleared == q.cleared + [q.timers[id]]) &&
      (id !in q.timers || q.timers[id] == 0 ==> r.cleared == q.cleared && r.timers == q.timers)
  {
    forall t ensures t in Remove(q, id).toasts <==> t in q.toasts && t.id != id {
      FilterMember(q.toasts, id, t);
    }
  }

  /** `removeToast` on an id with neither a toast nor a timer changes nothing. */
  lemma RemoveUnknown(q: Queue, id: string)
    requires !HasId(q.toasts, id) && id !in q.timers
    ensures Remove(q, id) == q
  {
    FilterNone(q.toasts, id);
  }

  lemma {:induction false} FilterDistinct(ts: seq<Toast>, id: string)
    requires DistinctIds(ts)
    ensures DistinctIds(Filter(ts, id))
    decreases |ts|
  {
    if ts != [] {
      assert DistinctIds(ts[1..]) by {
        forall i, j | 0 <= i < j < |ts[1..]| ensures ts[1..][i].id != ts[1..][j].id {
          assert ts[1..][i] == ts[i + 1] && ts[1..][j] == ts[j + 1];
        }
      }
      FilterDistinct(ts[1..], id);
      if ts[0].id != id {
        var r := Filter(ts[1..], id);
        forall i | 0 <= i < |r| ensures r[i].id != ts[0].id {
          assert r[i] in r;
          FilterMember(ts[1..], id, r[i]);
          var j :| 0 <= j < |ts[1..]| && ts[1..][j] == r[i];
          assert ts[1..][j] == ts[j + 1];
        }
        assert ([ts[0]] + r)[0] == ts[0];
        forall i, j | 0 <= i < j < |[ts[0]] + r| ensures ([ts[0]] + r)[i].id != ([ts[0]] + r)[j].id {
          if i > 0 {
            assert ([ts[0]] + r)[i] == r[i - 1];
          }
          assert ([ts[0]] + r)[j] == r[j - 1];
        }
      }
    }
  }

  lemma HasIdFilter(ts: seq<Toast>, id: string, k: string)
    ensures HasId(Filter(ts, id), k) <==> HasId(ts, k) && k != id
  {
    var r := Filter(ts, id);
    if HasId(r, k) {
      var i :| 0 <= i < |r| && r[i].id == k;
      FilterMember(ts, id, r[i]);
      var j :| 0 <= j < |ts| && ts[j] == r[i];
    }
    if HasId(ts, k) && k != id {
      var j :| 0 <= j < |ts| && ts[j].id == k;
      FilterMember(ts, id, ts[j]);
      var i :| 0 <= i < |r| && r[i] == ts[j];
    }
  }

  /** `removeToast` keeps the invariant. */
  lemma RemoveValid(q: Queue, id: string)
    requires Valid(q)
    ensures Valid(Remove(q, id))
  {
    FilterDistinct(q.toasts, id);
    forall k ensures k in Remove(q, id).timers <==> HasId(Remove(q, id).toasts, k) {
      HasIdFilter(q.toasts, id, k);
    }
  }

  lemma HasIdAppend(ts: seq<Toast>, t: Toast, k: string)
    ensures HasId(ts + [t], k) <==> HasId(ts, k) || k == t.id
  {
    var n := ts + [t];
    if HasId(ts, k) {
      var i :| 0 <= i < |ts| && ts[i].id == k;
      assert n[i] == ts[i];
    }
    if HasId(n, k) && k != t.id {
      var i :| 0 <= i < |n| && n[i].id == k;
      assert i < |ts| && n[i] == ts[i];
    }
    assert n[|ts|] == t;
  }

  lemma AppendDistinct(ts: seq<Toast>, t: Toast)
    requires DistinctIds(ts) && !HasId(ts, t.id)
    ensures DistinctIds(ts + [t])
  {
    var n := ts + [t];
    forall i, j | 0 <= i < j < |n| ensures n[i].id != n[j].id {
      assert n[i] == ts[i];
      if j < |ts| {
        assert n[j] == ts[j];
      }
    }
  }

  /** Dropping the first of distinct ids removes exactly that id. */
  lemma DropFirst(ts: seq<Toast>, k: string)
    requires ts != [] && DistinctIds(ts)
    ensures DistinctIds(ts[1..])
    ensures HasId(ts[1..], k) <==> HasId(ts, k) && k != ts[0].id
  {
    var tail := ts[1..];
    forall i, j | 0 <= i < j < |tail| ensures tail[i].id != tail[j].id {
      assert tail[i] == ts[i + 1] && tail[j] == ts[j + 1];
    }
    if HasId(tail, k) {
      var i :| 0 <= i < |tail| && tail[i].id == k;
      assert tail[i] == ts[i + 1];
    }
    if HasId(ts, k) && k != ts[0].id {
      var i :| 0 <= i < |ts| && ts[i].id == k;
      assert tail[i - 1] == ts[i];
    }
  }

  /** `toast` keeps the invariant when the new id is fresh and the handle truthy. */
  lemma PushValid(q: Queue, message: string, kind: Option<Kind>, id: string, handle: nat)
    requires Valid(q) && id !in q.timers && handle != 0
    ensures Valid(Push(q, message, kind, id, handle))
  {
    var t := Toast(id, message, KindOrDefault(kind));
    var next := q.toasts + [t];
    var r := Push(q, message, kind, id, handle);
    AppendDistinct(q.toasts, t);
    if |next| > MAX_TOASTS {
      assert next[0] == q.toasts[0];
      var e := q.toasts[0].id;
      assert HasId(q.toasts, e);
      assert r.toasts == next[1..];
      assert r.timers == (q.timers - {e})[id := handle];
      forall k ensures k in r.timers <==> HasId(r.toasts, k) {
        DropFirst(next, k);
        HasIdAppend(q.toasts, t, k);
      }
      DropFirst(next, id);
    } else {
      assert r.toasts == next;
      forall k ensures k in r.timers <==> HasId(r.toasts, k) {
        HasIdAppend(q.toasts, t, k);
      }
    }
  }

  /** The provider's two state cells and the `clearTimeout` log. */
  class ToastProvider {
    var toasts: seq<Toast>
    var timers: map<string, nat>
    var cleared: seq<nat>

    function State(): Queue
      reads this
    {
      Queue(toasts, timers, cleared)
    }

    constructor()
      ensures State() == EmptyQueue
    {
      toasts := [];
      timers := map[];
      cleared := [];
    }

    /** Clears and deletes the timer filed under `id`, when it is truthy. */
    method ClearTimerOf(id: string)
      modifies this
      ensures State() == ClearTimer(old(State()), id)
    {
      if id in timers && timers[id] != 0 {
        var timer := timers[id];
        cleared := cleared + [timer];
        timers := timers - {id};
      }
    }

    /** `toast(message, type)`, given the new id and the handle `setTimeout` returns. */
    method ShowToast(message: string, kind: Option<Kind>, id: string, handle: nat)
      modifies this
      ensures State() == Push(old(State()), message, kind, id, handle)
    {
      var next := toasts + [Toast(id, message, KindOrDefault(kind))];
      if |next| > MAX_TOASTS {
        var removed := next[0];
        next := next[1..];
        toasts := next;
        ClearTimerOf(removed.id);
      } else {
        toasts := next;
      }
      timers := timers[id := handle];
    }

    /** `removeToast(id)`, also what each timer runs when it fires. */
    method RemoveToast(id: string)
      modifies this
      ensures State() == Remove(old(State()), id)
    {
      toasts := Filter(toasts, id);
      ClearTimerOf(id);
    }
  }
}
