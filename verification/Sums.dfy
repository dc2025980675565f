/** Sums over all threads, and what changing one thread does to them. */
module Sums {

  ghost function Total<V>(ms: seq<multiset<V>>): multiset<V> {
    if ms == [] then multiset{} else ms[0] + Total(ms[1..])
  }

  lemma {:induction false} TotalUpdate<V>(ms: seq<multiset<V>>, x: nat, m: multiset<V>)
    requires x < |ms|
    ensures Total(ms[x := m]) + ms[x] == Total(ms) + m
  {
    var ms' := ms[x := m];
    if x == 0 {
      assert ms'[1..] == ms[1..];
    } else {
      var rest, rest' := ms[1..], ms'[1..];
      assert rest' == rest[x - 1 := m];
      calc {
        Total(ms') + ms[x];
        (ms[0] + Total(rest')) + rest[x - 1];
        ms[0] + (Total(rest') + rest[x - 1]);
        { TotalUpdate(rest, x - 1, m); }
        ms[0] + (Total(rest) + m);
        Total(ms) + m;
      }
    }
  }

  lemma {:induction false} TotalOfNothing<V>(ms: seq<multiset<V>>)
    requires forall i :: 0 <= i < |ms| ==> ms[i] == multiset{}
    ensures Total(ms) == multiset{}
  {
    if ms != [] { TotalOfNothing(ms[1..]); }
  }

  ghost function Sum(ws: seq<nat>): nat {
    if ws == [] then 0 else ws[0] + Sum(ws[1..])
  }

  lemma {:induction false} SumOfNothing(ws: seq<nat>)
    requires forall i :: 0 <= i < |ws| ==> ws[i] == 0
    ensures Sum(ws) == 0
  {
    if ws != [] { SumOfNothing(ws[1..]); }
  }

  lemma {:induction false} SumUpdate(ws: seq<nat>, x: nat, w: nat)
    requires x < |ws|
    ensures Sum(ws[x := w]) + ws[x] == Sum(ws) + w
  {
    var ws' := ws[x := w];
    if x == 0 {
      assert ws'[1..] == ws[1..];
    } else {
      assert ws'[1..] == ws[1..][x - 1 := w];
      SumUpdate(ws[1..], x - 1, w);
    }
  }
}
