/** Sequence helpers shared by the catalog and the batch driver: order-preserving
    filters (list comprehensions with a condition), counting, and slicing into batches. */
module Seqs {
  import opened Wrappers

  /** No element occurs twice. */
  predicate Distinct<T(==)>(s: seq<T>) {
    forall i, j :: 0 <= i < j < |s| ==> s[i] != s[j]
  }

  predicate StrictlyIncreasing(s: seq<nat>) {
    forall i, j :: 0 <= i < j < |s| ==> s[i] < s[j]
  }

  /** Number of `true` flags. */
  function CountTrue(flags: seq<bool>): nat {
    if |flags| == 0 then 0
    else CountTrue(flags[..|flags| - 1]) + (if flags[|flags| - 1] then 1 else 0)
  }

  /** Number of `Some` slots. */
  function CountSome<T>(slots: seq<Option<T>>): nat {
    if |slots| == 0 then 0
    else CountSome(slots[..|slots| - 1]) + (if slots[|slots| - 1].Some? then 1 else 0)
  }

  /** `[x for x, keep in zip(s, flags) if keep]`. */
  function Select<T>(s: seq<T>, flags: seq<bool>): seq<T>
    requires |flags| == |s|
  {
    if |s| == 0 then []
    else Select(s[..|s| - 1], flags[..|s| - 1]) + (if flags[|s| - 1] then [s[|s| - 1]] else [])
  }

  /** The indices whose flag is set, in increasing order. */
  function Positions(flags: seq<bool>): (r: seq<nat>)
    ensures forall k :: 0 <= k < |r| ==> r[k] < |flags|
  {
    if |flags| == 0 then []
    else Positions(flags[..|flags| - 1]) + (if flags[|flags| - 1] then [|flags| - 1] else [])
  }

  /** `[None] * n`. */
  function NoneSlots<T>(n: nat): (r: seq<Option<T>>)
    ensures |r| == n && CountSome(r) == 0
  {
    if n == 0 then [] else NoneSlots(n - 1) + [None]
  }

  /** Concatenation of a list of lists. */
  function Flatten<T>(ss: seq<seq<T>>): seq<T> {
    if |ss| == 0 then [] else ss[0] + Flatten(ss[1..])
  }

  /** The slices `s[i:i + size]` for `i in range(0, len(s), size)`. */
  function Batches<T>(s: seq<T>, size: nat): seq<seq<T>>
    requires size > 0
    decreases |s|
  {
    if |s| == 0 then []
    else if |s| <= size then [s]
    else [s[..size]] + Batches(s[size..], size)
  }

  lemma {:induction false} CountSomeBound<T>(slots: seq<Option<T>>)
    ensures CountSome(slots) <= |slots|
  {
    if |slots| > 0 {
      CountSomeBound(slots[..|slots| - 1]);
    }
  }

  lemma {:induction false} CountTrueBound(flags: seq<bool>)
    ensures CountTrue(flags) <= |flags|
  {
    if |flags| > 0 {
      CountTrueBound(flags[..|flags| - 1]);
    }
  }

  lemma {:induction false} CountTruePrefix(flags: seq<bool>, k: nat)
    requires k < |flags|
    ensures CountTrue(flags[..k + 1]) == CountTrue(flags[..k]) + (if flags[k] then 1 else 0)
  {
    assert flags[..k + 1][..k] == flags[..k];
  }

  /** A flag list with no `true` flag counts zero and selects nothing. */
  lemma {:induction false} NoneSet(flags: seq<bool>)
    requires forall i :: 0 <= i < |flags| ==> !flags[i]
    ensures CountTrue(flags) == 0 && Positions(flags) == []
  {
    if |flags| > 0 {
      NoneSet(flags[..|flags| - 1]);
    }
  }

  /** Counting the flags of a list and of its negation covers the whole list. */
  lemma {:induction false} CountTrueComplement(flags: seq<bool>, negated: seq<bool>)
    requires |negated| == |flags|
    requires forall i :: 0 <= i < |flags| ==> negated[i] == !flags[i]
    ensures CountTrue(flags) + CountTrue(negated) == |flags|
  {
    if |flags| > 0 {
      CountTrueComplement(flags[..|flags| - 1], negated[..|flags| - 1]);
    }
  }

  lemma {:induction false} PositionsCount(flags: seq<bool>)
    ensures |Positions(flags)| == CountTrue(flags)
  {
    if |flags| > 0 {
      PositionsCount(flags[..|flags| - 1]);
    }
  }

  lemma {:induction false} PositionsFlagged(flags: seq<bool>)
    ensures forall k :: 0 <= k < |Positions(flags)| ==> flags[Positions(flags)[k]]
  {
    if |flags| > 0 {
      var init := flags[..|flags| - 1];
      PositionsFlagged(init);
      var ps := Positions(flags);
      forall k | 0 <= k < |ps|
        ensures flags[ps[k]]
      {
        if k < |Positions(init)| {
          assert ps[k] == Positions(init)[k];
          assert init[ps[k]] == flags[ps[k]];
        }
      }
    }
  }

  lemma {:induction false} PositionsSorted(flags: seq<bool>)
    ensures StrictlyIncreasing(Positions(flags))
  {
    if |flags| > 0 {
      PositionsSorted(flags[..|flags| - 1]);
    }
  }

  lemma {:induction false} PositionsComplete(flags: seq<bool>)
    ensures forall i :: 0 <= i < |flags| && flags[i] ==> i in Positions(flags)
  {
    if |flags| > 0 {
      var init := flags[..|flags| - 1];
      PositionsComplete(init);
      forall i | 0 <= i < |flags| && flags[i]
        ensures i in Positions(flags)
      {
        if i < |flags| - 1 {
          assert init[i];
        }
      }
    }
  }

  /** The positions are exactly the set indices, increasing, and there are CountTrue of them. */
  lemma PositionsExact(flags: seq<bool>)
    ensures |Positions(flags)| == CountTrue(flags)
    ensures StrictlyIncreasing(Positions(flags))
    ensures forall k :: 0 <= k < |Positions(flags)| ==>
              Positions(flags)[k] < |flags| && flags[Positions(flags)[k]]
    ensures forall i :: 0 <= i < |flags| && flags[i] ==> i in Positions(flags)
  {
    PositionsCount(flags);
    PositionsSorted(flags);
    PositionsFlagged(flags);
    PositionsComplete(flags);
  }

  /** The rank of a set index (how many set flags precede it) is its place among the positions. */
  lemma {:induction false} PositionsRank(flags: seq<bool>, i: nat)
    requires i < |flags| && flags[i]
    ensures CountTrue(flags[..i]) < |Positions(flags)|
    ensures Positions(flags)[CountTrue(flags[..i])] == i
  {
    PositionsExact(flags);
    var init := flags[..|flags| - 1];
    if i == |flags| - 1 {
      assert flags[..i] == init;
      PositionsExact(init);
    } else {
      assert init[..i] == flags[..i];
      assert init[i] == flags[i];
      PositionsRank(init, i);
    }
  }

  /** The converse: the k-th position has rank k. */
  lemma {:induction false} RankOfPosition(flags: seq<bool>, k: nat)
    requires k < |Positions(flags)|
    ensures CountTrue(flags[..Positions(flags)[k]]) == k
  {
    PositionsExact(flags);
    var i := Positions(flags)[k];
    PositionsRank(flags, i);
    assert Positions(flags)[CountTrue(flags[..i])] == Positions(flags)[k];
  }

  /** Select picks, in order, the elements at the set positions. */
  lemma {:induction false} SelectAtPositions<T>(s: seq<T>, flags: seq<bool>)
    requires |flags| == |s|
    ensures |Select(s, flags)| == |Positions(flags)| == CountTrue(flags)
    ensures forall k :: 0 <= k < |Positions(flags)| ==>
              Positions(flags)[k] < |s| && Select(s, flags)[k] == s[Positions(flags)[k]]
  {
    PositionsExact(flags);
    if |s| > 0 {
      SelectAtPositions(s[..|s| - 1], flags[..|s| - 1]);
    }
  }

  /** An element is selected iff it sits at some index whose flag is set. */
  lemma SelectMembers<T>(s: seq<T>, flags: seq<bool>, x: T)
    requires |flags| == |s|
    ensures x in Select(s, flags) <==> exists i :: 0 <= i < |s| && flags[i] && s[i] == x
  {
    SelectAtPositions(s, flags);
    PositionsExact(flags);
    var sel := Select(s, flags);
    var ps := Positions(flags);
    if x in sel {
      var k :| 0 <= k < |sel| && sel[k] == x;
      assert flags[ps[k]] && s[ps[k]] == x;
    }
    if exists i :: 0 <= i < |s| && flags[i] && s[i] == x {
      var i :| 0 <= i < |s| && flags[i] && s[i] == x;
      var k :| 0 <= k < |ps| && ps[k] == i;
      assert sel[k] == x;
    }
  }

  /** Filtering a list of distinct elements yields distinct elements. */
  lemma SelectDistinct<T>(s: seq<T>, flags: seq<bool>)
    requires |flags| == |s| && Distinct(s)
    ensures Distinct(Select(s, flags))
  {
    SelectAtPositions(s, flags);
    PositionsExact(flags);
  }

  /** Element `b` of a list of lists sits between the flattened lists before it and the
      flattened lists after it. */
  lemma {:induction false} FlattenSplit<T>(ss: seq<seq<T>>, b: nat)
    requires b < |ss|
    ensures Flatten(ss) == Flatten(ss[..b]) + ss[b] + Flatten(ss[b + 1..])
    decreases b
  {
    if b == 0 {
      assert ss[..0] == [];
    } else {
      var tail := ss[1..];
      FlattenSplit(tail, b - 1);
      assert tail[..b - 1] == ss[..b][1..];
      assert tail[b - 1] == ss[b];
      assert tail[b..] == ss[b + 1..];
    }
  }

  /** Flattening the batches gives the list back, every batch is non-empty and at most
      `size` long, and every batch but the last is exactly `size` long. */
  lemma {:induction false} BatchesCover<T>(s: seq<T>, size: nat)
    requires size > 0
    ensures Flatten(Batches(s, size)) == s
    ensures forall k :: 0 <= k < |Batches(s, size)| ==> 0 < |Batches(s, size)[k]| <= size
    ensures forall k :: 0 <= k < |Batches(s, size)| - 1 ==> |Batches(s, size)[k]| == size
    decreases |s|
  {
    if |s| > size {
      BatchesCover(s[size..], size);
      assert Batches(s, size)[1..] == Batches(s[size..], size);
      assert s[..size] + s[size..] == s;
    }
  }

  lemma MulStep(k: nat, size: nat)
    requires k > 0
    ensures k * size == (k - 1) * size + size
  {
  }

  /** Batch k of a list is the slice starting at k * size. */
  lemma {:induction false} BatchAt<T>(s: seq<T>, size: nat, k: nat)
    requires size > 0 && k < |Batches(s, size)|
    ensures k * size < |s|
    ensures Batches(s, size)[k] == s[k * size .. if (k + 1) * size < |s| then (k + 1) * size else |s|]
    decreases |s|
  {
    if |s| > size && k > 0 {
      var t := s[size..];
      assert Batches(s, size)[k] == Batches(t, size)[k - 1];
      BatchAt(t, size, k - 1);
      var lo := (k - 1) * size;
      var hi := k * size;
      MulStep(k, size);
      MulStep(k + 1, size);
      var e := if hi < |t| then hi else |t|;
      assert t[lo..e] == s[lo + size..e + size];
    }
  }
}
