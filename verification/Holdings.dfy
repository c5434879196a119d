/** Sums of multisets, one per holder. */
module Holdings {
  ghost function Total<T>(ms: seq<multiset<T>>): multiset<T> {
    if ms == [] then multiset{} else ms[0] + Total(ms[1..])
  }

  lemma {:induction false} TotalUpdate<T>(ms: seq<multiset<T>>, i: nat, v: multiset<T>)
    requires i < |ms|
    ensures Total(ms[i := v]) + ms[i] == Total(ms) + v
  {
    if i == 0 {
      assert ms[0 := v][1..] == ms[1..];
    } else {
      TotalUpdate(ms[1..], i - 1, v);
      assert ms[i := v][1..] == ms[1..][i - 1 := v];
      Swap(ms[0], Total(ms[1..][i - 1 := v]), Total(ms[1..]), ms[i], v);
    }
  }

  lemma Swap<T>(head: multiset<T>, x: multiset<T>, y: multiset<T>, a: multiset<T>, b: multiset<T>)
    requires x + a == y + b
    ensures head + x + a == head + y + b
  {
    assert head + x + a == head + (x + a);
    assert head + (y + b) == head + y + b;
  }

  /** Exchanging one holder's share, beside a fixed rest. */
  lemma TotalExchange<T>(ms: seq<multiset<T>>, i: nat, v: multiset<T>, rest: multiset<T>)
    requires i < |ms|
    ensures (rest + Total(ms[i := v])) + ms[i] == (rest + Total(ms)) + v
  {
    TotalUpdate(ms, i, v);
    Swap(rest, Total(ms[i := v]), Total(ms), ms[i], v);
  }

  lemma {:induction false} TotalOfNothing<T>(ms: seq<multiset<T>>)
    requires forall i | 0 <= i < |ms| :: ms[i] == multiset{}
    ensures Total(ms) == multiset{}
  {
    if ms != [] {
      TotalOfNothing(ms[1..]);
    }
  }

  /** A sum that exchanges a larger part for a smaller one does not grow. */
  lemma Shrinks<T>(r: multiset<T>, s: multiset<T>, a: multiset<T>, b: multiset<T>)
    requires r + a == s + b && b <= a
    ensures r <= s
  {
    forall x
      ensures r[x] <= s[x]
    {
      assert (r + a)[x] == r[x] + a[x] && (s + b)[x] == s[x] + b[x];
    }
  }

  lemma SameRest<T>(a: multiset<T>, b: multiset<T>, c: multiset<T>)
    requires a + c == b + c
    ensures a == b
  {
    assert (a + c) - c == a && (b + c) - c == b;
  }

  lemma Cancel<T>(a: multiset<T>, b: multiset<T>, c: multiset<T>, d: multiset<T>)
    requires a + c == b + (c + d)
    ensures a == b + d
  {
    assert (a + c) - c == a;
    assert b + (c + d) == (b + d) + c;
    assert ((b + d) + c) - c == b + d;
  }

  /** One holder gaining `d` adds `d` to the total. */
  lemma TotalGain<T>(ms: seq<multiset<T>>, i: nat, d: multiset<T>)
    requires i < |ms|
    ensures Total(ms[i := ms[i] + d]) == Total(ms) + d
  {
    TotalUpdate(ms, i, ms[i] + d);
    Cancel(Total(ms[i := ms[i] + d]), Total(ms), ms[i], d);
  }

  lemma TotalGainAt<T>(ms: seq<multiset<T>>, ns: seq<multiset<T>>, k: nat, d: multiset<T>)
    requires |ns| == |ms| && k < |ms|
    requires forall i | 0 <= i < |ms| :: ns[i] == if i == k then ms[i] + d else ms[i]
    ensures Total(ns) == Total(ms) + d
  {
    assert ns == ms[k := ms[k] + d];
    TotalGain(ms, k, d);
  }

  lemma {:induction false} TotalPush<T>(ms: seq<multiset<T>>, v: multiset<T>)
    ensures Total(ms + [v]) == Total(ms) + v
  {
    if ms == [] {
      assert ([] + [v])[1..] == [];
      assert Total([v]) == v + Total<T>([]);
    } else {
      TotalPush(ms[1..], v);
      assert (ms + [v])[1..] == ms[1..] + [v];
    }
  }

  lemma {:induction false} TotalConcat<T>(a: seq<multiset<T>>, b: seq<multiset<T>>)
    ensures Total(a + b) == Total(a) + Total(b)
  {
    if a == [] {
      assert [] + b == b;
    } else {
      TotalConcat(a[1..], b);
      assert (a + b)[1..] == a[1..] + b;
    }
  }

  lemma {:induction false} TotalHas<T>(ms: seq<multiset<T>>, i: nat)
    requires i < |ms|
    ensures ms[i] <= Total(ms)
  {
    if i > 0 {
      TotalHas(ms[1..], i - 1);
    }
  }

  /** Two holders' shares add up within the total. */
  lemma {:induction false} TotalHasTwo<T>(ms: seq<multiset<T>>, i: nat, j: nat)
    requires i < j < |ms|
    ensures ms[i] + ms[j] <= Total(ms)
  {
    if i == 0 {
      TotalHas(ms[1..], j - 1);
    } else {
      TotalHasTwo(ms[1..], i - 1, j - 1);
    }
  }
}
