/**
 * The enumeration order of `itertools.combinations`: index tuples in
 * lexicographic order. Every search over 5-card sub-hands iterates over
 * `Combos(5, 0, |pool|)` and looks at `Select(pool, c)`.
 */
module Combinations {

  /** Strictly increasing `k`-tuples of indices drawn from `[lo, n)`, in lexicographic order. */
  function Combos(k: nat, lo: nat, n: nat): seq<seq<nat>>
    decreases k, n - lo
  {
    if k == 0 then [[]]
    else if lo >= n then []
    else Prepend(lo, Combos(k - 1, lo + 1, n)) + Combos(k, lo + 1, n)
  }

  function Prepend(x: nat, cs: seq<seq<nat>>): (r: seq<seq<nat>>)
    ensures |r| == |cs|
    ensures forall i :: 0 <= i < |cs| ==> r[i] == [x] + cs[i]
  {
    if cs == [] then [] else [[x] + cs[0]] + Prepend(x, cs[1..])
  }

  /** `c` picks `k` distinct positions of `[lo, n)`, in increasing order. */
  ghost predicate IsCombo(c: seq<nat>, k: nat, lo: nat, n: nat)
  {
    && |c| == k
    && (forall i :: 0 <= i < |c| ==> lo <= c[i] < n)
    && (forall i, j :: 0 <= i < j < |c| ==> c[i] < c[j])
  }

  /** Exactly the strictly increasing tuples are enumerated: nothing else, and nothing is missed. */
  lemma CombosAreExactlyTheSubsets(k: nat, lo: nat, n: nat, c: seq<nat>)
    ensures c in Combos(k, lo, n) <==> IsCombo(c, k, lo, n)
  {
    if c in Combos(k, lo, n) {
      EnumeratedIsCombo(k, lo, n, c);
    }
    if IsCombo(c, k, lo, n) {
      ComboIsEnumerated(k, lo, n, c);
    }
  }

  lemma {:induction false} EnumeratedIsCombo(k: nat, lo: nat, n: nat, c: seq<nat>)
    requires c in Combos(k, lo, n)
    ensures IsCombo(c, k, lo, n)
    decreases k, n - lo, 1
  {
    if k == 0 {
      NoIndices(lo, n, c);
    } else if lo >= n {
      NoCombosPastEnd(k, lo, n);
    } else {
      if c in Combos(k, lo + 1, n) {
        EnumeratedIsCombo(k, lo + 1, n, c);
        WidenCombo(c, k, lo, n);
      } else {
        var j, t := HeadOf(k, lo, n, c);
        EnumeratedWithHead(j, lo, n, t);
      }
    }
  }

  /** The enumerated tuples that start at `lo`. */
  lemma {:induction false} EnumeratedWithHead(j: nat, lo: nat, n: nat, t: seq<nat>)
    requires lo < n && t in Combos(j, lo + 1, n)
    ensures IsCombo([lo] + t, j + 1, lo, n)
    decreases j + 1, n - lo, 0
  {
    EnumeratedIsCombo(j, lo + 1, n, t);
    ConsCombo(lo, t, j + 1, n);
  }

  lemma NoIndices(lo: nat, n: nat, c: seq<nat>)
    requires c in Combos(0, lo, n)
    ensures IsCombo(c, 0, lo, n)
  {
    assert Combos(0, lo, n) == [[]];
  }

  /** An enumerated tuple not enumerated from `lo + 1` is `lo` followed by a shorter tuple from there. */
  lemma HeadOf(k: nat, lo: nat, n: nat, c: seq<nat>) returns (j: nat, t: seq<nat>)
    requires k > 0 && lo < n && c in Combos(k, lo, n) && c !in Combos(k, lo + 1, n)
    ensures k == j + 1 && t in Combos(j, lo + 1, n) && c == [lo] + t
  {
    var tails := Combos(k - 1, lo + 1, n);
    var first := Prepend(lo, tails);
    assert Combos(k, lo, n) == first + Combos(k, lo + 1, n);
    var i :| 0 <= i < |first| && first[i] == c;
    j, t := k - 1, tails[i];
  }

  lemma NoCombosPastEnd(k: nat, lo: nat, n: nat)
    requires k > 0 && lo >= n
    ensures Combos(k, lo, n) == []
  {
  }

  /** Putting `x` in front of a tuple drawn from `[x + 1, n)` gives one drawn from `[x, n)`. */
  lemma ConsCombo(x: nat, tail: seq<nat>, k: nat, n: nat)
    requires k > 0 && x < n && IsCombo(tail, k - 1, x + 1, n)
    ensures IsCombo([x] + tail, k, x, n)
  {
    var c := [x] + tail;
    forall a, b | 0 <= a < b < |c| ensures c[a] < c[b] {
      assert c[b] == tail[b - 1];
      if a > 0 { assert c[a] == tail[a - 1]; }
    }
  }

  lemma WidenCombo(c: seq<nat>, k: nat, lo: nat, n: nat)
    requires IsCombo(c, k, lo + 1, n)
    ensures IsCombo(c, k, lo, n)
  {
  }

  lemma {:induction false} ComboIsEnumerated(k: nat, lo: nat, n: nat, c: seq<nat>)
    requires IsCombo(c, k, lo, n)
    ensures c in Combos(k, lo, n)
    decreases k, n - lo
  {
    if k == 0 {
      assert c == [];
    } else {
      var tails := Combos(k - 1, lo + 1, n);
      ComboSplit(c, k, lo, n);
      assert Combos(k, lo, n) == Prepend(lo, tails) + Combos(k, lo + 1, n);
      if c[0] != lo {
        ComboIsEnumerated(k, lo + 1, n, c);
        InRightPart(Prepend(lo, tails), Combos(k, lo + 1, n), c);
      } else {
        ComboIsEnumerated(k - 1, lo + 1, n, c[1..]);
        var i :| 0 <= i < |tails| && tails[i] == c[1..];
        assert Prepend(lo, tails)[i] == c;
        InLeftPart(Prepend(lo, tails), Combos(k, lo + 1, n), c);
      }
    }
  }

  /** A tuple that does not start at `lo` is drawn from `[lo + 1, n)`; one that does has such a tail. */
  lemma ComboSplit(c: seq<nat>, k: nat, lo: nat, n: nat)
    requires k > 0 && IsCombo(c, k, lo, n)
    ensures lo < n
    ensures c[0] != lo ==> IsCombo(c, k, lo + 1, n)
    ensures c[0] == lo ==> IsCombo(c[1..], k - 1, lo + 1, n) && c == [lo] + c[1..]
  {
    assert lo <= c[0] < n;
    if c[0] != lo {
      forall i | 0 <= i < |c| ensures lo + 1 <= c[i] {
        if i > 0 { assert c[0] < c[i]; }
      }
    } else {
      var tail := c[1..];
      forall i | 0 <= i < |tail| ensures lo + 1 <= tail[i] < n {
        assert tail[i] == c[i + 1] && c[0] < c[i + 1];
      }
      forall a, b | 0 <= a < b < |tail| ensures tail[a] < tail[b] {
        assert tail[a] == c[a + 1] && tail[b] == c[b + 1];
      }
    }
  }

  lemma InLeftPart(a: seq<seq<nat>>, b: seq<seq<nat>>, c: seq<nat>)
    requires c in a
    ensures c in a + b
  {
  }

  lemma InRightPart(a: seq<seq<nat>>, b: seq<seq<nat>>, c: seq<nat>)
    requires c in b
    ensures c in a + b
  {
  }

  /** Every enumerated tuple is a valid index tuple of length k. */
  lemma CombosAreValid(k: nat, n: nat)
    ensures forall c :: c in Combos(k, 0, n) ==> IsCombo(c, k, 0, n)
  {
    forall c | c in Combos(k, 0, n) ensures IsCombo(c, k, 0, n) {
      CombosAreExactlyTheSubsets(k, 0, n, c);
    }
  }

  /** The cards at the positions `c` names, in that order. */
  function Select<T>(pool: seq<T>, c: seq<nat>): (r: seq<T>)
    requires forall i :: 0 <= i < |c| ==> c[i] < |pool|
    ensures |r| == |c|
    ensures forall i :: 0 <= i < |c| ==> r[i] == pool[c[i]]
  {
    seq(|c|, i requires 0 <= i < |c| => pool[c[i]])
  }

  /** A pool of `n` cards has at least one 5-card sub-hand exactly when n >= 5. */
  lemma {:induction false} CombosNonEmpty(k: nat, lo: nat, n: nat)
    requires lo + k <= n
    ensures |Combos(k, lo, n)| > 0
    decreases k
  {
    if k > 0 {
      CombosNonEmpty(k - 1, lo + 1, n);
    }
  }

  /** The first two tuples: the `k` smallest positions, then the same with the last one moved up by one. */
  lemma {:induction false} CombosStart(k: nat, lo: nat, n: nat)
    requires 1 <= k && lo + k < n
    ensures |Combos(k, lo, n)| >= 2
    ensures StartsAt(Combos(k, lo, n)[0], Combos(k, lo, n)[1], k, lo)
    decreases k
  {
    if k == 1 {
      SingletonsStart(lo, n);
    } else {
      var tails := Combos(k - 1, lo + 1, n);
      var first := Prepend(lo, tails);
      assert Combos(k, lo, n) == first + Combos(k, lo + 1, n);
      CombosStart(k - 1, lo + 1, n);
      ConsStart(lo, tails[0], tails[1], k);
    }
  }

  /** `c0` is `lo, ..., lo + k - 1` and `c1` is the same with the last entry `lo + k`. */
  ghost predicate StartsAt(c0: seq<nat>, c1: seq<nat>, k: nat, lo: nat)
  {
    && |c0| == k && (forall i :: 0 <= i < k ==> c0[i] == lo + i)
    && |c1| == k && k >= 1 && c1[k - 1] == lo + k
    && (forall i :: 0 <= i < k - 1 ==> c1[i] == lo + i)
  }

  lemma ConsStart(lo: nat, t0: seq<nat>, t1: seq<nat>, k: nat)
    requires k >= 2 && StartsAt(t0, t1, k - 1, lo + 1)
    ensures StartsAt([lo] + t0, [lo] + t1, k, lo)
  {
    var c0, c1 := [lo] + t0, [lo] + t1;
    forall i | 1 <= i < k ensures c0[i] == lo + i && c1[i] == (if i < k - 1 then lo + i else lo + k) {
      assert c0[i] == t0[i - 1] && c1[i] == t1[i - 1];
    }
  }

  lemma SingletonsStart(lo: nat, n: nat)
    requires lo + 1 < n
    ensures |Combos(1, lo, n)| >= 2 && Combos(1, lo, n)[0] == [lo] && Combos(1, lo, n)[1] == [lo + 1]
  {
    assert [lo] + [] == [lo] && [lo + 1] + [] == [lo + 1];
    assert Prepend(lo, [[]]) == [[lo]] && Prepend(lo + 1, [[]]) == [[lo + 1]];
    assert Combos(1, lo, n) == Prepend(lo, Combos(0, lo + 1, n)) + Combos(1, lo + 1, n);
    assert Combos(1, lo + 1, n) == Prepend(lo + 1, Combos(0, lo + 2, n)) + Combos(1, lo + 2, n);
  }
}
