/**
 `_accumulate_turn_operations` of core/app/experiences/service.py: running totals per turn in a table of
 bounded size that forgets the key that was not touched for longest.
 */
module TurnLedger {

  /** A conversation and a turn. */
  type Key = (int, int)

  datatype Entry = Entry(key: Key, total: int)

  datatype Touch = Touch(key: Key, operations: int)

  const CAP: nat := 512

  // ---- an ordered table --------------------------------------------------------------------

  function Without(es: seq<Entry>, k: Key): seq<Entry> {
    if es == [] then []
    else Without(es[..|es| - 1], k) + if es[|es| - 1].key == k then [] else [es[|es| - 1]]
  }

  function Total(es: seq<Entry>, k: Key): int {
    if es == [] then 0 else if es[|es| - 1].key == k then es[|es| - 1].total else Total(es[..|es| - 1], k)
  }

  function Last<T>(s: seq<T>): seq<T> {
    if |s| > CAP then s[|s| - CAP..] else s
  }

  /** The table after one call: the key moves to the end, the oldest go. */
  function Touched(es: seq<Entry>, t: Touch): seq<Entry> {
    Last(Without(es, t.key) + [Entry(t.key, Total(es, t.key) + t.operations)])
  }

  function Ledger(ts: seq<Touch>): seq<Entry> {
    if ts == [] then [] else Touched(Ledger(ts[..|ts| - 1]), ts[|ts| - 1])
  }

  class TurnTotals {
    var entries: seq<Entry>

    constructor ()
      ensures entries == []
    {
      entries := [];
    }

    /** Finds the entry of a key. */
    method Lookup(k: Key) returns (total: int)
      ensures total == Total(entries, k)
    {
      var i := |entries|;
      assert entries[..i] == entries;
      while i > 0
        invariant 0 <= i <= |entries| && Total(entries, k) == Total(entries[..i], k)
      {
        i := i - 1;
        assert entries[..i + 1][..i] == entries[..i];
        if entries[i].key == k {
          return entries[i].total;
        }
      }
      total := 0;
    }

    method Accumulate(k: Key, operations: int) returns (total: int)
      modifies this
      ensures total == Total(old(entries), k) + operations
      ensures entries == Touched(old(entries), Touch(k, operations))
    {
      total := Lookup(k);
      total := total + operations;
      entries := Without(entries, k) + [Entry(k, total)];
      ghost var all, dropped := entries, 0;
      while |entries| > CAP
        invariant 0 <= dropped <= |all| && entries == all[dropped..]
        invariant dropped == 0 || |all| - dropped >= CAP
      {
        entries := entries[1..];
        dropped := dropped + 1;
      }
      assert entries == Last(all);
    }
  }

  // ---- the unbounded ledger ----------------------------------------------------------------

  function Sum(ts: seq<Touch>, k: Key): int {
    if ts == [] then 0
    else Sum(ts[..|ts| - 1], k) + if ts[|ts| - 1].key == k then ts[|ts| - 1].operations else 0
  }

  predicate Mentions(ts: seq<Touch>, k: Key) {
    exists i | 0 <= i < |ts| :: ts[i].key == k
  }

  /** The other keys touched since `k` was. */
  function Since(ts: seq<Touch>, k: Key): set<Key> {
    if ts == [] || ts[|ts| - 1].key == k then {} else Since(ts[..|ts| - 1], k) + {ts[|ts| - 1].key}
  }

  /** Between any two touches of `k` fewer than 512 distinct other keys were touched. */
  predicate Lively(ts: seq<Touch>, k: Key) {
    ts == [] ||
    (Lively(ts[..|ts| - 1], k) &&
     (ts[|ts| - 1].key == k && Mentions(ts[..|ts| - 1], k) ==> |Since(ts[..|ts| - 1], k)| < 512))
  }

  // ---- keys in order of their last touch ---------------------------------------------------

  function Minus(ks: seq<Key>, k: Key): seq<Key> {
    if ks == [] then [] else Minus(ks[..|ks| - 1], k) + if ks[|ks| - 1] == k then [] else [ks[|ks| - 1]]
  }

  function Order(ts: seq<Touch>): seq<Key> {
    if ts == [] then [] else Minus(Order(ts[..|ts| - 1]), ts[|ts| - 1].key) + [ts[|ts| - 1].key]
  }

  function Keys(es: seq<Entry>): seq<Key> {
    seq(|es|, i requires 0 <= i < |es| => es[i].key)
  }

  predicate Distinct(ks: seq<Key>) {
    forall i, j | 0 <= i < j < |ks| :: ks[i] != ks[j]
  }

  lemma {:induction false} MinusMember(ks: seq<Key>, k: Key, q: Key)
    ensures q in Minus(ks, k) <==> q in ks && q != k
  {
    if ks != [] {
      var n := |ks| - 1;
      MinusMember(ks[..n], k, q);
      assert ks == ks[..n] + [ks[n]];
    }
  }

  lemma {:induction false} MinusDistinct(ks: seq<Key>, k: Key)
    requires Distinct(ks)
    ensures Distinct(Minus(ks, k)) && |Minus(ks, k)| >= |ks| - 1 && (k !in ks ==> Minus(ks, k) == ks)
  {
    if ks != [] {
      var n := |ks| - 1;
      var front := ks[..n];
      MinusDistinct(front, k);
      MinusMember(front, k, ks[n]);
      assert ks[n] !in front;
      assert ks == front + [ks[n]];
    }
  }

  lemma {:induction false} MinusAppend(a: seq<Key>, b: seq<Key>, k: Key)
    ensures Minus(a + b, k) == Minus(a, k) + Minus(b, k)
  {
    if b == [] {
      assert a + b == a;
    } else {
      var n := |b| - 1;
      MinusAppend(a, b[..n], k);
      assert (a + b)[..|a + b| - 1] == a + b[..n];
    }
  }

  lemma {:induction false} KeysWithout(es: seq<Entry>, k: Key)
    ensures Keys(Without(es, k)) == Minus(Keys(es), k)
  {
    if es != [] {
      var n := |es| - 1;
      KeysWithout(es[..n], k);
      assert Keys(es)[..n] == Keys(es[..n]);
    }
  }

  lemma {:induction false} OrderDistinct(ts: seq<Touch>)
    ensures Distinct(Order(ts))
    ensures forall k :: k in Order(ts) <==> Mentions(ts, k)
  {
    if ts != [] {
      var n := |ts| - 1;
      var front, x := ts[..n], ts[n].key;
      OrderDistinct(front);
      MinusDistinct(Order(front), x);
      MinusMember(Order(front), x, x);
      forall k ensures k in Order(ts) <==> Mentions(ts, k) {
        MinusMember(Order(front), x, k);
        MentionsGrow(front, ts[n], k);
        assert ts == front + [ts[n]];
      }
    }
  }

  lemma MentionsGrow(ts: seq<Touch>, t: Touch, k: Key)
    ensures Mentions(ts + [t], k) <==> Mentions(ts, k) || t.key == k
  {
    var all := ts + [t];
    if Mentions(ts, k) {
      var i :| 0 <= i < |ts| && ts[i].key == k;
      assert all[i].key == k;
    }
    if t.key == k { assert all[|ts|].key == k; }
  }

  lemma LastOfLong<T>(a: seq<T>, b: seq<T>)
    requires |b| >= CAP
    ensures Last(a + b) == Last(b)
  {
  }

  /** Moving a key to the end and forgetting the oldest can be done in either order. */
  lemma LastMoves(s: seq<Key>, k: Key)
    requires Distinct(s)
    ensures Last(Minus(s, k) + [k]) == Last(Minus(Last(s), k) + [k])
  {
    if |s| > CAP {
      var a, b := s[..|s| - CAP], Last(s);
      assert s == a + b;
      MinusAppend(a, b, k);
      MinusDistinct(b, k);
      assert Minus(a, k) + Minus(b, k) + [k] == Minus(a, k) + (Minus(b, k) + [k]);
      LastOfLong(Minus(a, k), Minus(b, k) + [k]);
    }
  }

  lemma KeysLast(es: seq<Entry>)
    ensures Keys(Last(es)) == Last(Keys(es))
  {
  }

  lemma TouchedKeys(es: seq<Entry>, t: Touch)
    ensures Keys(Touched(es, t)) == Last(Minus(Keys(es), t.key) + [t.key])
  {
    var e := Entry(t.key, Total(es, t.key) + t.operations);
    KeysWithout(es, t.key);
    KeysLast(Without(es, t.key) + [e]);
    assert Keys(Without(es, t.key) + [e]) == Keys(Without(es, t.key)) + [t.key];
  }

  /** The table holds the 512 keys touched last, in the order of their last touch. */
  lemma {:induction false} LedgerKeys(ts: seq<Touch>)
    ensures Keys(Ledger(ts)) == Last(Order(ts))
  {
    if ts != [] {
      var front, t := ts[..|ts| - 1], ts[|ts| - 1];
      LedgerKeys(front);
      TouchedKeys(Ledger(front), t);
      OrderDistinct(front);
      LastMoves(Order(front), t.key);
    }
  }

  // ---- the bounded ledger against the unbounded one ----------------------------------------

  /** The keys after `k` in the order of last touches are those touched since `k` was. */
  lemma {:induction false} SinceIsAfter(ts: seq<Touch>, k: Key, i: nat)
    requires i < |Order(ts)| && Order(ts)[i] == k
    ensures forall q :: q in Order(ts)[i + 1..] <==> q in Since(ts, k)
  {
    var n := |ts| - 1;
    var front, x := ts[..n], ts[n].key;
    var before := Order(front);
    OrderDistinct(ts);
    OrderDistinct(front);
    if x == k {
      assert Order(ts)[|Order(ts)| - 1] == k;
      assert i == |Order(ts)| - 1;
    } else {
      var j := MinusIndex(before, x, i);
      SinceIsAfter(front, k, j);
      assert Order(ts)[i + 1..] == Minus(before, x)[i + 1..] + [x];
      var later, earlier := Minus(before, x)[i + 1..], before[j + 1..];
      forall q ensures q in later <==> q in earlier && q != x { MinusMember(earlier, x, q); }
    }
  }

  /** Where an element of `Minus(ks, x)` was before, and what follows it. */
  lemma MinusTail(ks: seq<Key>, x: Key, j: nat)
    requires j < |ks| - 1
    ensures var n := |ks| - 1;
            && Minus(ks, x) == Minus(ks[..n], x) + Minus([ks[n]], x)
            && Minus(ks[j + 1..], x) == Minus(ks[..n][j + 1..], x) + Minus([ks[n]], x)
  {
    var n := |ks| - 1;
    assert ks == ks[..n] + [ks[n]];
    assert ks[j + 1..] == ks[..n][j + 1..] + [ks[n]];
    MinusAppend(ks[..n], [ks[n]], x);
    MinusAppend(ks[..n][j + 1..], [ks[n]], x);
  }

  lemma {:induction false} MinusIndex(ks: seq<Key>, x: Key, i: nat) returns (j: nat)
    requires i < |Minus(ks, x)|
    ensures j < |ks| && ks[j] == Minus(ks, x)[i] && Minus(ks, x)[i + 1..] == Minus(ks[j + 1..], x)
  {
    var n := |ks| - 1;
    var front := ks[..n];
    if i < |Minus(front, x)| {
      j := MinusIndex(front, x, i);
      MinusTail(ks, x, j);
      assert Minus(ks, x)[i + 1..] == Minus(front, x)[i + 1..] + Minus([ks[n]], x);
    } else {
      j := n;
      assert ks[n + 1..] == [];
    }
  }

  lemma DistinctCount(ks: seq<Key>, s: set<Key>)
    requires Distinct(ks) && forall q :: q in ks <==> q in s
    ensures |ks| == |s|
    decreases |ks|
  {
    if ks == [] {
      assert s == {};
    } else {
      var n := |ks| - 1;
      var front := ks[..n];
      assert ks == front + [ks[n]];
      assert ks[n] !in front;
      DistinctCount(front, s - {ks[n]});
    }
  }

  /** A key is in the table exactly while fewer than 512 other keys were touched since it was. */
  lemma KeptIff(ts: seq<Touch>, k: Key)
    requires Mentions(ts, k)
    ensures k in Keys(Ledger(ts)) <==> |Since(ts, k)| < 512
  {
    LedgerKeys(ts);
    OrderDistinct(ts);
    var o := Order(ts);
    var i :| 0 <= i < |o| && o[i] == k;
    SinceIsAfter(ts, k, i);
    DistinctCount(o[i + 1..], Since(ts, k));
    InLastIff(o, i);
  }

  lemma InLastIff(o: seq<Key>, i: nat)
    requires Distinct(o) && i < |o|
    ensures o[i] in Last(o) <==> |o| - i <= 512
  {
    if |o| > CAP && i >= |o| - CAP { assert Last(o)[i - (|o| - CAP)] == o[i]; }
  }

  lemma {:induction false} TotalAbsent(es: seq<Entry>, k: Key)
    requires k !in Keys(es)
    ensures Total(es, k) == 0
  {
    if es != [] {
      var n := |es| - 1;
      assert Keys(es)[n] == es[n].key;
      assert Keys(es) == Keys(es[..n]) + [es[n].key];
      TotalAbsent(es[..n], k);
    }
  }

  lemma {:induction false} TotalWithout(es: seq<Entry>, x: Key, k: Key)
    requires x != k
    ensures Total(Without(es, x), k) == Total(es, k)
  {
    if es != [] {
      var n := |es| - 1;
      TotalWithout(es[..n], x, k);
      if es[n].key != x { TotalGrow(Without(es[..n], x), es[n], k); }
      else { assert Without(es[..n], x) + [] == Without(es[..n], x); }
    }
  }

  lemma TotalGrow(es: seq<Entry>, e: Entry, k: Key)
    ensures Total(es + [e], k) == if e.key == k then e.total else Total(es, k)
  {
    assert (es + [e])[..|es|] == es;
  }

  lemma {:induction false} TotalSuffix(a: seq<Entry>, b: seq<Entry>, k: Key)
    requires k in Keys(b)
    ensures Total(a + b, k) == Total(b, k)
  {
    var n := |b| - 1;
    assert a + b == (a + b[..n]) + [b[n]] && b == b[..n] + [b[n]];
    TotalGrow(a + b[..n], b[n], k);
    TotalGrow(b[..n], b[n], k);
    if b[n].key != k {
      assert Keys(b) == Keys(b[..n]) + [b[n].key];
      TotalSuffix(a, b[..n], k);
    }
  }

  /** Forgetting the oldest keys does not change the total of one that is kept. */
  lemma TotalLast(es: seq<Entry>, k: Key)
    requires k in Keys(Last(es))
    ensures Total(Last(es), k) == Total(es, k)
  {
    if |es| > CAP {
      assert es == es[..|es| - CAP] + Last(es);
      TotalSuffix(es[..|es| - CAP], Last(es), k);
    }
  }

  /** The sum over the touches of `k` since it last fell out of a table of 512 keys. */
  function Remembered(ts: seq<Touch>, k: Key): int
    decreases |ts|, 0
  {
    if ts == [] then 0
    else
      var front, t := ts[..|ts| - 1], ts[|ts| - 1];
      if t.key != k then Remembered(front, k) else Found(front, k) + t.operations
  }

  function Found(ts: seq<Touch>, k: Key): int
    decreases |ts|, 1
  {
    if Mentions(ts, k) && |Since(ts, k)| < 512 then Remembered(ts, k) else 0
  }

  /** While a key is in the table, its total is the sum since it last fell out. */
  lemma {:induction false} KeptTotal(ts: seq<Touch>, k: Key)
    requires k in Keys(Ledger(ts))
    ensures Total(Ledger(ts), k) == Remembered(ts, k)
    decreases |ts|, 0
  {
    var n := |ts| - 1;
    var front, t := ts[..n], ts[n];
    TouchedTotal(Ledger(front), t, k);
    if t.key == k {
      ReturnedTotal(front, k);
    } else {
      StillThere(front, t, k);
      KeptTotal(front, k);
    }
  }

  lemma TouchedTotal(es: seq<Entry>, t: Touch, k: Key)
    requires k in Keys(Touched(es, t))
    ensures Total(Touched(es, t), k) == Total(es, k) + if t.key == k then t.operations else 0
  {
    var e := Entry(t.key, Total(es, t.key) + t.operations);
    var all := Without(es, t.key) + [e];
    TotalLast(all, k);
    TotalGrow(Without(es, t.key), e, k);
    if t.key != k { TotalWithout(es, t.key, k); }
  }

  lemma StillThere(front: seq<Touch>, t: Touch, k: Key)
    requires t.key != k && k in Keys(Touched(Ledger(front), t))
    ensures k in Keys(Ledger(front))
  {
    var es := Ledger(front);
    var e := Entry(t.key, Total(es, t.key) + t.operations);
    var all := Without(es, t.key) + [e];
    KeysLast(all);
    assert k in Keys(all);
    assert Keys(all) == Keys(Without(es, t.key)) + [t.key];
    KeysWithout(es, t.key);
    MinusMember(Keys(es), t.key, k);
  }

  /** What a lookup finds, for every history. */
  lemma {:induction false} ReturnedTotal(ts: seq<Touch>, k: Key)
    ensures Total(Ledger(ts), k) == Found(ts, k)
    decreases |ts|, 1
  {
    LedgerKeys(ts);
    OrderDistinct(ts);
    if Mentions(ts, k) { KeptIff(ts, k); }
    if k in Keys(Ledger(ts)) {
      InOrder(ts, k);
      KeptTotal(ts, k);
    } else {
      TotalAbsent(Ledger(ts), k);
    }
  }

  lemma InOrder(ts: seq<Touch>, k: Key)
    requires k in Keys(Ledger(ts))
    ensures Mentions(ts, k)
  {
    LedgerKeys(ts);
    OrderDistinct(ts);
    assert k in Order(ts);
  }

  lemma {:induction false} LivelyRemembered(ts: seq<Touch>, k: Key)
    requires Lively(ts, k)
    ensures Remembered(ts, k) == Sum(ts, k)
  {
    if ts != [] {
      var front := ts[..|ts| - 1];
      LivelyRemembered(front, k);
      if !Mentions(front, k) { NeverTouched(front, k); }
    }
  }

  lemma {:induction false} NeverTouched(ts: seq<Touch>, k: Key)
    requires !Mentions(ts, k)
    ensures Sum(ts, k) == 0
  {
    if ts != [] {
      assert ts == ts[..|ts| - 1] + [ts[|ts| - 1]];
      MentionsGrow(ts[..|ts| - 1], ts[|ts| - 1], k);
      NeverTouched(ts[..|ts| - 1], k);
    }
  }

  lemma JustTouched(ts: seq<Touch>, t: Touch)
    ensures |Ledger(ts + [t])| <= 512 && t.key in Keys(Ledger(ts + [t]))
  {
    assert (ts + [t])[..|ts|] == ts;
    var es := Ledger(ts);
    var all := Without(es, t.key) + [Entry(t.key, Total(es, t.key) + t.operations)];
    assert Keys(Last(all))[|Last(all)| - 1] == t.key;
  }

  /**
   Over any sequence of calls: the table never exceeds 512 keys and always has the key just touched; a
   call returns the sum since its key last fell out; and that is the exact running sum whenever fewer than
   512 distinct other keys were touched between any two touches of its key.
   */
  lemma LedgerRefinesUnbounded(ts: seq<Touch>, t: Touch)
    ensures |Ledger(ts + [t])| <= 512 && t.key in Keys(Ledger(ts + [t]))
    ensures var total := Total(Ledger(ts), t.key) + t.operations;
            && total == Remembered(ts + [t], t.key)
            && (Lively(ts + [t], t.key) ==> total == Sum(ts + [t], t.key))
  {
    JustTouched(ts, t);
    ReturnedTotal(ts, t.key);
    if Lively(ts + [t], t.key) { LivelyRemembered(ts + [t], t.key); }
  }
}
