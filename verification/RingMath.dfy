/**
 Facts shared by every ring and every queue of counts in the project: how stream positions
 relate to ring offsets, and how a list of counts adds up.
 */
module RingMath {

  /** The bytes that travel through pipes and channels. */
  newtype byte = x: int | 0 <= x < 256

  /** Position `i` of a stream lives at this offset of a ring of `n` bytes. */
  function Slot(i: nat, n: nat): (r: nat)
    requires 0 < n
    ensures r < n
  {
    i % n
  }

  lemma DivModUnique(a: nat, n: nat, q: int, r: int)
    requires 0 < n && 0 <= r < n && a == q * n + r
    ensures a / n == q && a % n == r
  {
    var d := a / n - q;
    assert a == (a / n) * n + a % n;
    assert d * n == r - a % n by {
      assert d * n == (a / n) * n - q * n;
    }
    assert d == 0;
  }

  /** Advancing a stream position by at most one lap moves its slot forward, wrapping at most once. */
  lemma SlotAdvance(i: nat, k: nat, n: nat)
    requires 0 < n && k <= n
    ensures Slot(i + k, n) == if Slot(i, n) + k < n then Slot(i, n) + k else Slot(i, n) + k - n
  {
    var q, r := i / n, i % n;
    assert i == q * n + r;
    if r + k < n {
      DivModUnique(i + k, n, q, r + k);
    } else {
      assert (q + 1) * n == q * n + n;
      DivModUnique(i + k, n, q + 1, r + k - n);
    }
  }

  /** Two positions less than a lap apart have the same slot only if they are equal. */
  lemma SlotsDistinct(i: nat, j: nat, n: nat)
    requires 0 < n && i < j < i + n
    ensures Slot(i, n) != Slot(j, n)
  {
    SlotAdvance(i, j - i, n);
  }

  /** The code's offset update, `(offset + k) % n`, follows the stream position. */
  lemma SlotStep(i: nat, k: nat, n: nat)
    requires 0 < n && k <= n
    ensures (Slot(i, n) + k) % n == Slot(i + k, n)
  {
    SlotAdvance(i, k, n);
    var r := Slot(i, n);
    if r + k < n {
      DivModUnique(r + k, n, 0, r + k);
    } else {
      DivModUnique(r + k, n, 1, r + k - n);
    }
  }

  /** Every stream position from `start` on is still in its slot. */
  predicate RingHolds(ring: seq<byte>, stream: seq<byte>, start: nat)
    requires |ring| > 0
  {
    forall i: nat {:trigger stream[i]} :: start <= i < |stream| ==> ring[Slot(i, |ring|)] == stream[i]
  }

  /** Total of a list of counts. */
  function Sum(s: seq<nat>): nat {
    if s == [] then 0 else s[0] + Sum(s[1..])
  }

  lemma {:induction false} SumAppend(a: seq<nat>, b: seq<nat>)
    ensures Sum(a + b) == Sum(a) + Sum(b)
  {
    if a == [] {
      assert a + b == b;
    } else {
      assert (a + b)[1..] == a[1..] + b;
      SumAppend(a[1..], b);
    }
  }

  /** Taking one count out of the list takes exactly that count off the total. */
  lemma SumRemove(s: seq<nat>, i: nat)
    requires i < |s|
    ensures Sum(s[..i] + s[i + 1..]) + s[i] == Sum(s)
  {
    hide Sum;
    SumSplit(s, i);
    SumFirst(s[i..]);
    assert s[i..][1..] == s[i + 1..];
    SumAppend(s[..i], s[i + 1..]);
  }

  lemma SumFirst(s: seq<nat>)
    requires s != []
    ensures Sum(s) == s[0] + Sum(s[1..])
  {
  }

  lemma SumSplit(s: seq<nat>, k: nat)
    requires k <= |s|
    ensures Sum(s) == Sum(s[..k]) + Sum(s[k..])
  {
    assert s == s[..k] + s[k..];
    SumAppend(s[..k], s[k..]);
  }
}
