/**
 * The listener registry both classes keep: per event name an ordered list of
 * callbacks, `on` appending, `off` filtering, and `emit` calling every
 * registered callback in registration order. A call is recorded as the pair
 * of the callback's identity and the payload it receives.
 */
module Listeners {

  datatype Call<L, E> = Call(listener: L, payload: E)

  /** What one `emit` does with a listener list: one call per entry, in order. */
  function Deliver<L, E>(ls: seq<L>, e: E): (r: seq<Call<L, E>>)
    ensures |r| == |ls|
  {
    if ls == [] then [] else [Call(ls[0], e)] + Deliver(ls[1..], e)
  }

  /** The `i`-th call goes to the `i`-th listener, with the emitted payload. */
  lemma {:induction false} DeliverIndex<L, E>(ls: seq<L>, e: E)
    ensures forall i :: 0 <= i < |ls| ==> Deliver(ls, e)[i] == Call(ls[i], e)
  {
    if ls != [] {
      var r := Deliver(ls[1..], e);
      DeliverIndex(ls[1..], e);
      assert Deliver(ls, e) == [Call(ls[0], e)] + r;
      forall i | 1 <= i < |ls| ensures Deliver(ls, e)[i] == Call(ls[i], e) {
        assert r[i - 1] == Call(ls[1..][i - 1], e);
      }
    }
  }

  /** Registering one more listener adds one call at the end. */
  lemma {:induction false} DeliverSnoc<L, E>(ls: seq<L>, fn: L, e: E)
    ensures Deliver(ls + [fn], e) == Deliver(ls, e) + [Call(fn, e)]
  {
    if ls == [] {
      assert [] + [fn] == [fn];
    } else {
      assert (ls + [fn])[1..] == ls[1..] + [fn];
      DeliverSnoc(ls[1..], fn, e);
    }
  }

  /** `ls.filter((l) => l !== fn)`. */
  function Off<L(==)>(ls: seq<L>, fn: L): (r: seq<L>)
    ensures fn !in r
    ensures forall x :: x in r ==> x in ls
    ensures forall x :: x in ls && x != fn ==> multiset(r)[x] == multiset(ls)[x]
  {
    if ls == [] then []
    else
      assert ls == [ls[0]] + ls[1..];
      (if ls[0] == fn then [] else [ls[0]]) + Off(ls[1..], fn)
  }

  /** `off` keeps the order of the listeners it does not remove. */
  lemma {:induction false} OffConcat<L>(a: seq<L>, b: seq<L>, fn: L)
    ensures Off(a + b, fn) == Off(a, fn) + Off(b, fn)
  {
    if a != [] {
      assert (a + b)[1..] == a[1..] + b;
      OffConcat(a[1..], b, fn);
    } else {
      assert a + b == b;
    }
  }

  /** Removing a callback that was never registered changes nothing. */
  lemma {:induction false} OffAbsent<L>(ls: seq<L>, fn: L)
    requires fn !in ls
    ensures Off(ls, fn) == ls
  {
    if ls != [] {
      OffAbsent(ls[1..], fn);
    }
  }

  /** `on` followed by `off` of a callback not yet registered restores the list. */
  lemma OnThenOff<L>(ls: seq<L>, fn: L)
    requires fn !in ls
    ensures Off(ls + [fn], fn) == ls
  {
    OffConcat(ls, [fn], fn);
    OffAbsent(ls, fn);
    assert [fn][1..] == [];
  }

  /** The listener list registered under `k`; a name never registered has none. */
  function ListenersOf<K, L>(ls: map<K, seq<L>>, k: K): seq<L>
  {
    if k in ls then ls[k] else []
  }
}
