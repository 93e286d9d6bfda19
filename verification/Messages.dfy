/** Lists of messages and the byte streams they make. */
module Messages {
  import opened RingMath

  type Bytes = seq<byte>

  function Flatten(ms: seq<Bytes>): Bytes {
    if ms == [] then [] else ms[0] + Flatten(ms[1..])
  }

  lemma {:induction false} FlattenAppend(a: seq<Bytes>, b: seq<Bytes>)
    ensures Flatten(a + b) == Flatten(a) + Flatten(b)
  {
    if a == [] {
      assert a + b == b;
    } else {
      assert (a + b)[1..] == a[1..] + b;
      FlattenAppend(a[1..], b);
    }
  }

  lemma FlattenOne(m: Bytes)
    ensures Flatten([m]) == m
  {
    assert Flatten([m]) == m + Flatten([]);
  }

  lemma FlattenSplit(ms: seq<Bytes>, i: nat, j: nat)
    requires i <= j <= |ms|
    ensures Flatten(ms[..j]) == Flatten(ms[..i]) + Flatten(ms[i..j])
  {
    assert ms[..j] == ms[..i] + ms[i..j];
    FlattenAppend(ms[..i], ms[i..j]);
  }

  lemma FlattenPush(ms: seq<Bytes>, m: Bytes)
    ensures Flatten(ms + [m]) == Flatten(ms) + m
  {
    FlattenAppend(ms, [m]);
    FlattenOne(m);
  }
}
