/** Specification of the sub-tour candidate enumeration: every inclusion mask
    1 .. 2^m - 1 over the m collected customer ids, written as a zero-padded
    binary string whose first character stands for the first id; subsets with
    more than one member are kept, in increasing mask order. */
module SubTours {
  import opened Vrptw

  function Pow2(m: nat): (r: nat)
    ensures r >= 1
  {
    if m == 0 then 1 else 2 * Pow2(m - 1)
  }

  function Digit(b: nat): char
  {
    if b == 1 then '1' else '0'
  }

  /** Base-2 numeral of i without leading zeros ("0" for zero), as
      Convert.ToString(i, 2) writes it. */
  function Binary(i: nat): (s: string)
    decreases i
  {
    if i < 2 then [Digit(i)] else Binary(i / 2) + [Digit(i % 2)]
  }

  /** s right-aligned in a field of the given width, as String.PadLeft writes it. */
  function PadLeft(s: string, width: nat, c: char): (r: string)
    ensures |r| == if |s| >= width then |s| else width
    ensures r[|r| - |s|..] == s
    ensures forall k :: 0 <= k < |r| - |s| ==> r[k] == c
  {
    if |s| >= width then s else seq(width - |s|, _ => c) + s
  }

  /** The string GetCombination builds for mask i over m ids. */
  function MaskString(i: nat, m: nat): string
  {
    PadLeft(Binary(i), m, '0')
  }

  /** The m low bits of i, most significant first. */
  function Bits(i: nat, m: nat): (s: string)
    ensures |s| == m
  {
    if m == 0 then [] else Bits(i / 2, m - 1) + [Digit(i % 2)]
  }

  /** Read a bit string most significant first. */
  function FromBits(s: string): nat
  {
    if s == [] then 0 else 2 * FromBits(s[..|s| - 1]) + (if s[|s| - 1] == '1' then 1 else 0)
  }

  /** Number of one bits among the m low bits of i. */
  function Ones(i: nat, m: nat): nat
  {
    if m == 0 then 0 else Ones(i / 2, m - 1) + i % 2
  }

  /** ids[j] for every position j where str has a '1', in order. */
  function Pick(ids: seq<int>, str: string): seq<int>
    requires |str| <= |ids|
  {
    if str == [] then []
    else Pick(ids, str[..|str| - 1]) + (if str[|str| - 1] == '1' then [ids[|str| - 1]] else [])
  }

  /** The positions of the '1' characters of str, in increasing order. */
  function Positions(str: string): seq<nat>
  {
    if str == [] then []
    else Positions(str[..|str| - 1]) + (if str[|str| - 1] == '1' then [|str| - 1] else [])
  }

  /** The subsets GetCombination keeps for masks 1 .. k-1, in mask order. */
  function SubsetsBelow(ids: seq<int>, k: nat): seq<seq<int>>
  {
    if k <= 1 then []
    else
      var s := Pick(ids, Bits(k - 1, |ids|));
      SubsetsBelow(ids, k - 1) + (if |s| > 1 then [s] else [])
  }

  /** Everything one call appends: masks 1 .. 2^m - 1. */
  function Combinations(ids: seq<int>): seq<seq<int>>
  {
    SubsetsBelow(ids, Pow2(|ids|))
  }

  /** The masks among 1 .. k-1 whose subsets are kept, in increasing order. */
  function KeptMasks(m: nat, k: nat): seq<nat>
  {
    if k <= 1 then [] else KeptMasks(m, k - 1) + (if Ones(k - 1, m) > 1 then [k - 1] else [])
  }

  /** Number of masks below k with at least t one bits among the m low bits. */
  function CountAtLeast(m: nat, k: nat, t: nat): nat
  {
    if k == 0 then 0 else CountAtLeast(m, k - 1, t) + (if Ones(k - 1, m) >= t then 1 else 0)
  }

  // ---------------------------------------------------------------------
  // Binary strings and masks

  lemma {:induction false} ZeroBits(m: nat)
    ensures Bits(0, m) == seq(m, _ => '0')
  {
    if m > 0 {
      ZeroBits(m - 1);
      assert seq(m - 1, _ => '0') + ['0'] == seq(m, _ => '0');
    }
  }

  /** The padded numeral of a mask 1 <= i < 2^m has exactly m characters and
      is the m-bit representation of i, most significant bit first. */
  lemma {:induction false} MaskStringIsBits(i: nat, m: nat)
    requires 1 <= i < Pow2(m)
    ensures MaskString(i, m) == Bits(i, m)
    decreases i
  {
    assert m >= 1;
    if i < 2 {
      ZeroBits(m - 1);
      assert Binary(i) == ['1'];
      assert MaskString(i, m) == seq(m - 1, _ => '0') + ['1'];
    } else {
      assert i / 2 < Pow2(m - 1);
      MaskStringIsBits(i / 2, m - 1);
      var b := Binary(i / 2);
      assert |b| <= m - 1;
      assert Binary(i) == b + [Digit(i % 2)];
      if |b| == m - 1 {
        assert MaskString(i, m) == b + [Digit(i % 2)];
      } else {
        assert MaskString(i, m) == seq(m - 1 - |b|, _ => '0') + b + [Digit(i % 2)];
      }
    }
  }

  /** Reading the bits back most significant first gives the mask. */
  lemma {:induction false} BitsRoundTrip(i: nat, m: nat)
    requires i < Pow2(m)
    ensures FromBits(Bits(i, m)) == i
  {
    if m > 0 {
      BitsRoundTrip(i / 2, m - 1);
      assert Bits(i, m)[..m - 1] == Bits(i / 2, m - 1);
    }
  }

  /** The first character, which selects the first collected id, is the most
      significant bit of the mask. */
  lemma {:induction false} FirstCharIsTopBit(i: nat, m: nat)
    requires 1 <= m && i < Pow2(m)
    ensures Bits(i, m)[0] == '1' <==> i >= Pow2(m - 1)
  {
    if m > 1 {
      FirstCharIsTopBit(i / 2, m - 1);
      assert Bits(i, m)[0] == Bits(i / 2, m - 1)[0];
    }
  }

  lemma BitsInjective(a: nat, b: nat, m: nat)
    requires a < Pow2(m) && b < Pow2(m)
    requires Bits(a, m) == Bits(b, m)
    ensures a == b
  {
    BitsRoundTrip(a, m);
    BitsRoundTrip(b, m);
  }

  lemma {:induction false} BitsAreBinary(i: nat, m: nat)
    ensures forall k :: 0 <= k < m ==> Bits(i, m)[k] == '0' || Bits(i, m)[k] == '1'
  {
    if m > 0 {
      BitsAreBinary(i / 2, m - 1);
    }
  }

  lemma {:induction false} OnesOfZero(m: nat)
    ensures Ones(0, m) == 0
  {
    if m > 0 {
      OnesOfZero(m - 1);
    }
  }

  // ---------------------------------------------------------------------
  // Picking ids by a mask string

  /** The positions of str are its '1' characters, each once, in increasing order. */
  lemma {:induction false} PositionsSpec(str: string)
    ensures forall k :: 0 <= k < |Positions(str)| ==> Positions(str)[k] < |str| && str[Positions(str)[k]] == '1'
    ensures forall k, l :: 0 <= k < l < |Positions(str)| ==> Positions(str)[k] < Positions(str)[l]
    ensures forall j :: 0 <= j < |str| && str[j] == '1' ==> j in Positions(str)
    decreases |str|
  {
    if str != [] {
      var m := |str| - 1;
      var init := str[..m];
      PositionsSpec(init);
      var P, Q := Positions(str), Positions(init);
      assert P == Q + (if str[m] == '1' then [m] else []);
      forall k | 0 <= k < |P|
        ensures P[k] < |str| && str[P[k]] == '1'
      {
        if k < |Q| {
          assert P[k] == Q[k] && init[Q[k]] == str[Q[k]];
        }
      }
      forall k, l | 0 <= k < l < |P|
        ensures P[k] < P[l]
      {
        if l >= |Q| {
          assert P[k] == Q[k] && Q[k] < m;
        }
      }
      forall j | 0 <= j < |str| && str[j] == '1'
        ensures j in P
      {
        if j < m {
          assert init[j] == str[j];
        } else {
          assert P[|P| - 1] == m;
        }
      }
    }
  }

  /** The k-th picked id is the id at the k-th '1' position. */
  lemma {:induction false} PickAt(ids: seq<int>, str: string)
    requires |str| <= |ids|
    ensures |Pick(ids, str)| == |Positions(str)|
    ensures forall k :: 0 <= k < |Positions(str)| ==> Positions(str)[k] < |ids| && Pick(ids, str)[k] == ids[Positions(str)[k]]
    decreases |str|
  {
    if str != [] {
      var m := |str| - 1;
      var init := str[..m];
      PickAt(ids, init);
      var P, Q := Positions(str), Positions(init);
      var S, R := Pick(ids, str), Pick(ids, init);
      assert P == Q + (if str[m] == '1' then [m] else []);
      assert S == R + (if str[m] == '1' then [ids[m]] else []);
      forall k | 0 <= k < |P|
        ensures P[k] < |ids| && S[k] == ids[P[k]]
      {
        if k < |Q| {
          assert P[k] == Q[k] && S[k] == R[k];
        }
      }
    }
  }

  /** Pick selects exactly the ids at the '1' positions, in increasing position order. */
  lemma PickSpec(ids: seq<int>, str: string)
    requires |str| <= |ids|
    ensures |Pick(ids, str)| == |Positions(str)|
    ensures forall k :: 0 <= k < |Positions(str)| ==>
              Positions(str)[k] < |str| && str[Positions(str)[k]] == '1' && Pick(ids, str)[k] == ids[Positions(str)[k]]
    ensures forall k, l :: 0 <= k < l < |Positions(str)| ==> Positions(str)[k] < Positions(str)[l]
    ensures forall j :: 0 <= j < |str| && str[j] == '1' ==> j in Positions(str)
  {
    PositionsSpec(str);
    PickAt(ids, str);
  }

  lemma {:induction false} PickSize(ids: seq<int>, i: nat, m: nat)
    requires m <= |ids|
    ensures |Pick(ids, Bits(i, m))| == Ones(i, m)
  {
    if m > 0 {
      assert Bits(i, m)[..m - 1] == Bits(i / 2, m - 1);
      PickSize(ids, i / 2, m - 1);
    }
  }

  /** Every picked id is one of ids. */
  lemma PickMembers(ids: seq<int>, str: string)
    requires |str| <= |ids|
    ensures forall x :: x in Pick(ids, str) ==> x in ids
  {
    PickSpec(ids, str);
    forall x | x in Pick(ids, str)
      ensures x in ids
    {
      var k :| 0 <= k < |Pick(ids, str)| && Pick(ids, str)[k] == x;
      assert x == ids[Positions(str)[k]];
    }
  }

  /** With distinct ids, the id at position j is picked exactly when str[j] is '1'. */
  lemma PickContains(ids: seq<int>, str: string, j: nat)
    requires |str| <= |ids| && Distinct(ids) && j < |str|
    ensures ids[j] in Pick(ids, str) <==> str[j] == '1'
  {
    PickSpec(ids, str);
    var P := Positions(str);
    if str[j] == '1' {
      var k :| 0 <= k < |P| && P[k] == j;
      assert Pick(ids, str)[k] == ids[j];
    }
    if ids[j] in Pick(ids, str) {
      var k :| 0 <= k < |Pick(ids, str)| && Pick(ids, str)[k] == ids[j];
      assert ids[P[k]] == ids[j];
      assert P[k] == j;
    }
  }

  /** Distinct ids: different 0/1 strings of equal length pick different subsets. */
  lemma PickInjective(ids: seq<int>, s1: string, s2: string)
    requires |s1| == |s2| <= |ids| && Distinct(ids)
    requires forall k :: 0 <= k < |s1| ==> (s1[k] == '0' || s1[k] == '1') && (s2[k] == '0' || s2[k] == '1')
    requires s1 != s2
    ensures Pick(ids, s1) != Pick(ids, s2)
  {
    var j :| 0 <= j < |s1| && s1[j] != s2[j];
    PickContains(ids, s1, j);
    PickContains(ids, s2, j);
  }

  // ---------------------------------------------------------------------
  // Counting masks

  /** Splitting masks below 2q by their lowest bit. */
  lemma {:induction false} CountSplit(m: nat, q: nat, t: nat)
    requires m >= 1 && t >= 1
    ensures CountAtLeast(m, 2 * q, t) == CountAtLeast(m - 1, q, t) + CountAtLeast(m - 1, q, t - 1)
  {
    if q > 0 {
      CountSplit(m, q - 1, t);
      assert (2 * q - 1) / 2 == q - 1 && (2 * q - 1) % 2 == 1;
      assert (2 * q - 2) / 2 == q - 1 && (2 * q - 2) % 2 == 0;
      assert Ones(2 * q - 1, m) == Ones(q - 1, m - 1) + 1;
      assert Ones(2 * q - 2, m) == Ones(q - 1, m - 1);
      assert CountAtLeast(m, 2 * q, t) == CountAtLeast(m, 2 * q - 2, t)
        + (if Ones(2 * q - 2, m) >= t then 1 else 0) + (if Ones(2 * q - 1, m) >= t then 1 else 0);
    }
  }

  lemma {:induction false} CountAtLeastZero(m: nat, k: nat)
    ensures CountAtLeast(m, k, 0) == k
  {
    if k > 0 {
      CountAtLeastZero(m, k - 1);
    }
  }

  /** All masks but zero have a one bit. */
  lemma {:induction false} CountNonEmpty(m: nat)
    ensures CountAtLeast(m, Pow2(m), 1) == Pow2(m) - 1
  {
    if m == 0 {
      assert CountAtLeast(0, 1, 1) == 0;
    } else {
      CountNonEmpty(m - 1);
      CountSplit(m, Pow2(m - 1), 1);
      CountAtLeastZero(m - 1, Pow2(m - 1));
    }
  }

  /** 2^m - 1 - m masks below 2^m have two or more one bits. */
  lemma {:induction false} CountPairs(m: nat)
    ensures CountAtLeast(m, Pow2(m), 2) == Pow2(m) - 1 - m
  {
    if m == 0 {
      assert CountAtLeast(0, 1, 2) == 0;
    } else {
      CountPairs(m - 1);
      CountNonEmpty(m - 1);
      CountSplit(m, Pow2(m - 1), 2);
    }
  }

  lemma {:induction false} KeptMasksCount(m: nat, k: nat)
    requires k >= 1
    ensures |KeptMasks(m, k)| == CountAtLeast(m, k, 2)
  {
    if k == 1 {
      OnesOfZero(m);
    } else {
      KeptMasksCount(m, k - 1);
    }
  }

  /** The kept masks are exactly the masks 1 .. k-1 with two or more one bits, increasing. */
  lemma {:induction false} KeptMasksSpec(m: nat, k: nat)
    ensures forall q :: 0 <= q < |KeptMasks(m, k)| ==>
              1 <= KeptMasks(m, k)[q] < k && Ones(KeptMasks(m, k)[q], m) > 1
    ensures forall q, r :: 0 <= q < r < |KeptMasks(m, k)| ==> KeptMasks(m, k)[q] < KeptMasks(m, k)[r]
    ensures forall i :: 1 <= i < k && Ones(i, m) > 1 ==> i in KeptMasks(m, k)
  {
    if k > 1 {
      KeptMasksSpec(m, k - 1);
      var prev := KeptMasks(m, k - 1);
      if Ones(k - 1, m) > 1 {
        assert KeptMasks(m, k) == prev + [k - 1];
        assert k - 1 in KeptMasks(m, k);
      } else {
        assert KeptMasks(m, k) == prev;
      }
    }
  }

  /** The q-th kept subset is the pick of the q-th kept mask. */
  lemma {:induction false} SubsetsFollowMasks(ids: seq<int>, k: nat)
    ensures |SubsetsBelow(ids, k)| == |KeptMasks(|ids|, k)|
    ensures forall q :: 0 <= q < |SubsetsBelow(ids, k)| ==>
              SubsetsBelow(ids, k)[q] == Pick(ids, Bits(KeptMasks(|ids|, k)[q], |ids|))
  {
    if k > 1 {
      SubsetsFollowMasks(ids, k - 1);
      PickSize(ids, k - 1, |ids|);
    }
  }

  // ---------------------------------------------------------------------
  // What one call appends

  /** One call appends exactly 2^m - 1 - m subsets. */
  lemma CombinationsCount(ids: seq<int>)
    ensures |Combinations(ids)| == Pow2(|ids|) - 1 - |ids|
  {
    SubsetsFollowMasks(ids, Pow2(|ids|));
    KeptMasksCount(|ids|, Pow2(|ids|));
    CountPairs(|ids|);
  }

  /** With at most one id nothing is appended. */
  lemma CombinationsOfFewIds(ids: seq<int>)
    requires |ids| <= 1
    ensures Combinations(ids) == []
  {
    CombinationsCount(ids);
  }

  /** The q-th appended subset comes from the q-th mask (in increasing order)
      among 1 .. 2^m - 1 with two or more one bits: it lists the ids whose
      characters are '1' in the mask's m-character string, in id-list order,
      and has at least two members that are all collected ids. Every such
      mask has its subset appended. */
  lemma CombinationsShape(ids: seq<int>)
    ensures |Combinations(ids)| == |KeptMasks(|ids|, Pow2(|ids|))|
    ensures forall q :: 0 <= q < |Combinations(ids)| ==>
              var mask := KeptMasks(|ids|, Pow2(|ids|))[q];
              && 1 <= mask < Pow2(|ids|)
              && Combinations(ids)[q] == Pick(ids, Bits(mask, |ids|))
              && |Combinations(ids)[q]| >= 2
              && (forall x :: x in Combinations(ids)[q] ==> x in ids)
    ensures forall q, r :: 0 <= q < r < |Combinations(ids)| ==>
              KeptMasks(|ids|, Pow2(|ids|))[q] < KeptMasks(|ids|, Pow2(|ids|))[r]
    ensures forall mask :: 1 <= mask < Pow2(|ids|) && Ones(mask, |ids|) >= 2 ==>
              mask in KeptMasks(|ids|, Pow2(|ids|))
  {
    var m := |ids|;
    var K := Pow2(m);
    SubsetsFollowMasks(ids, K);
    KeptMasksSpec(m, K);
    forall q | 0 <= q < |Combinations(ids)|
      ensures |Combinations(ids)[q]| >= 2 && (forall x :: x in Combinations(ids)[q] ==> x in ids)
    {
      var mask := KeptMasks(m, K)[q];
      PickSize(ids, mask, m);
      PickMembers(ids, Bits(mask, m));
    }
  }

  /** With distinct ids no subset is appended twice. */
  lemma CombinationsDistinct(ids: seq<int>)
    requires Distinct(ids)
    ensures forall q, r :: 0 <= q < r < |Combinations(ids)| ==> Combinations(ids)[q] != Combinations(ids)[r]
  {
    var m := |ids|;
    var K := Pow2(m);
    SubsetsFollowMasks(ids, K);
    KeptMasksSpec(m, K);
    forall q, r | 0 <= q < r < |Combinations(ids)|
      ensures Combinations(ids)[q] != Combinations(ids)[r]
    {
      var a, b := KeptMasks(m, K)[q], KeptMasks(m, K)[r];
      if Bits(a, m) == Bits(b, m) {
        BitsInjective(a, b, m);
      }
      BitsAreBinary(a, m);
      BitsAreBinary(b, m);
      PickInjective(ids, Bits(a, m), Bits(b, m));
    }
  }

  /** The three bits of a mask below 8, most significant first. */
  lemma BitsOfThree(i: nat)
    requires i < 8
    ensures Bits(i, 3) == [Digit(i / 4), Digit(i / 2 % 2), Digit(i % 2)]
  {
    assert Bits(i / 2 / 2 / 2, 0) == [];
    assert i / 2 / 2 == i / 4 && i / 4 % 2 == i / 4;
  }

  /** What a three-character mask picks from three ids. */
  lemma PickOfThree(ids: seq<int>, str: string)
    requires |ids| == 3 && |str| == 3
    ensures Pick(ids, str) ==
      (if str[0] == '1' then [ids[0]] else []) + (if str[1] == '1' then [ids[1]] else [])
      + (if str[2] == '1' then [ids[2]] else [])
  {
    assert str[..3] == str;
    assert str[..3][..2] == str[..2] && str[..2][..1] == str[..1] && str[..1][..0] == [];
    assert Pick(ids, str[..1]) == (if str[0] == '1' then [ids[0]] else []);
    assert Pick(ids, str[..2]) == Pick(ids, str[..1]) + (if str[1] == '1' then [ids[1]] else []);
  }

  /** What mask k below 8 picks from three ids. */
  lemma PickThree(ids: seq<int>, k: nat)
    requires |ids| == 3 && k < 8
    ensures Pick(ids, Bits(k, 3)) ==
      (if k / 4 == 1 then [ids[0]] else []) + (if k / 2 % 2 == 1 then [ids[1]] else [])
      + (if k % 2 == 1 then [ids[2]] else [])
  {
    BitsOfThree(k);
    PickOfThree(ids, Bits(k, 3));
  }

  /** Masks 1 .. 4 over three ids keep only mask 3. */
  lemma ThreeCustomersLow(a: int, b: int, c: int)
    ensures SubsetsBelow([a, b, c], 5) == [[b, c]]
  {
    var ids := [a, b, c];
    PickThree(ids, 1);
    assert Pick(ids, Bits(1, |ids|)) == [c];
    assert SubsetsBelow(ids, 2) == [];
    PickThree(ids, 2);
    assert Pick(ids, Bits(2, |ids|)) == [b];
    assert SubsetsBelow(ids, 3) == [];
    PickThree(ids, 3);
    assert Pick(ids, Bits(3, |ids|)) == [b, c];
    assert SubsetsBelow(ids, 4) == [[b, c]];
    PickThree(ids, 4);
    assert Pick(ids, Bits(4, |ids|)) == [a];
  }

  /** Three customers after the depot: masks 3, 5, 6 and 7 are kept, in that
      order. */
  lemma ThreeCustomers(a: int, b: int, c: int)
    ensures Combinations([a, b, c]) == [[b, c], [a, c], [a, b], [a, b, c]]
  {
    var ids := [a, b, c];
    assert Pow2(|ids|) == 8;
    ThreeCustomersLow(a, b, c);
    PickThree(ids, 5);
    assert Pick(ids, Bits(5, |ids|)) == [a, c];
    assert SubsetsBelow(ids, 6) == [[b, c], [a, c]];
    PickThree(ids, 6);
    assert Pick(ids, Bits(6, |ids|)) == [a, b];
    assert SubsetsBelow(ids, 7) == [[b, c], [a, c], [a, b]];
    PickThree(ids, 7);
    assert Pick(ids, Bits(7, |ids|)) == [a, b, c];
  }
}
