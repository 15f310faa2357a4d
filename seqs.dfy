/** Generic sequence helpers shared by the sub-tour enumerator and the model builder. */
module Seqs {

  /** The cells of the box a-range x B x W listed in the order of three nested
      counting loops (outer index first), up to but excluding cell (a, b, c).
      Grid(cell, ctx, B, W, A, 0, 0) is the whole box A x B x W. */
  function Grid<C, T>(cell: (C, nat, nat, nat) -> T, ctx: C, B: nat, W: nat, a: nat, b: nat, c: nat): seq<T>
    decreases a, b, c
  {
    if c > 0 then Grid(cell, ctx, B, W, a, b, c - 1) + [cell(ctx, a, b, c - 1)]
    else if b > 0 then Grid(cell, ctx, B, W, a, b - 1, W)
    else if a > 0 then Grid(cell, ctx, B, W, a - 1, B, 0)
    else []
  }

  /** Cell (x, y, z) of the box B x W is listed before cell (a, b, c). */
  predicate Before(B: nat, W: nat, x: nat, y: nat, z: nat, a: nat, b: nat, c: nat)
  {
    y < B && z < W && (x < a || (x == a && (y < b || (y == b && z < c))))
  }

  /** (a, b, c) is a position the three nested loops can reach. */
  predicate Reachable(B: nat, W: nat, b: nat, c: nat)
  {
    b <= B && c <= W && (b == B ==> c == 0)
  }

  lemma {:induction false} GridLength<C, T>(cell: (C, nat, nat, nat) -> T, ctx: C, B: nat, W: nat, a: nat, b: nat, c: nat)
    ensures |Grid(cell, ctx, B, W, a, b, c)| == a * (B * W) + b * W + c
    decreases a, b, c
  {
    if c > 0 {
      GridLength(cell, ctx, B, W, a, b, c - 1);
    } else if b > 0 {
      GridLength(cell, ctx, B, W, a, b - 1, W);
      assert (b - 1) * W + W == b * W;
    } else if a > 0 {
      GridLength(cell, ctx, B, W, a - 1, B, 0);
      assert (a - 1) * (B * W) + B * W == a * (B * W);
    }
  }

  /** Every cell listed before (a, b, c) is in the prefix. */
  lemma {:induction false} GridHas<C, T>(cell: (C, nat, nat, nat) -> T, ctx: C, B: nat, W: nat, a: nat, b: nat, c: nat,
                                         x: nat, y: nat, z: nat)
    requires Before(B, W, x, y, z, a, b, c)
    ensures cell(ctx, x, y, z) in Grid(cell, ctx, B, W, a, b, c)
    decreases a, b, c
  {
    if c > 0 {
      if !(x == a && y == b && z == c - 1) {
        GridHas(cell, ctx, B, W, a, b, c - 1, x, y, z);
      }
    } else if b > 0 {
      GridHas(cell, ctx, B, W, a, b - 1, W, x, y, z);
    } else {
      GridHas(cell, ctx, B, W, a - 1, B, 0, x, y, z);
    }
  }

  /** Only cells listed before (a, b, c) are in the prefix. */
  lemma {:induction false} GridOnly<C, T>(cell: (C, nat, nat, nat) -> T, ctx: C, B: nat, W: nat, a: nat, b: nat, c: nat, t: T)
    requires Reachable(B, W, b, c)
    requires t in Grid(cell, ctx, B, W, a, b, c)
    ensures exists x: nat, y: nat, z: nat :: Before(B, W, x, y, z, a, b, c) && t == cell(ctx, x, y, z)
    decreases a, b, c
  {
    if c > 0 {
      var g := Grid(cell, ctx, B, W, a, b, c - 1);
      if t in g {
        GridOnly(cell, ctx, B, W, a, b, c - 1, t);
        var x: nat, y: nat, z: nat :| Before(B, W, x, y, z, a, b, c - 1) && t == cell(ctx, x, y, z);
        assert Before(B, W, x, y, z, a, b, c);
      } else {
        assert t == cell(ctx, a, b, c - 1);
        assert Before(B, W, a, b, c - 1, a, b, c);
      }
    } else if b > 0 {
      GridOnly(cell, ctx, B, W, a, b - 1, W, t);
      var x: nat, y: nat, z: nat :| Before(B, W, x, y, z, a, b - 1, W) && t == cell(ctx, x, y, z);
      assert Before(B, W, x, y, z, a, b, c);
    } else if a > 0 {
      GridOnly(cell, ctx, B, W, a - 1, B, 0, t);
      var x: nat, y: nat, z: nat :| Before(B, W, x, y, z, a - 1, B, 0) && t == cell(ctx, x, y, z);
      assert Before(B, W, x, y, z, a, b, c);
    }
  }

  /** Sum of a sequence of integers. */
  function Total(s: seq<int>): int
  {
    if s == [] then 0 else Total(s[..|s| - 1]) + s[|s| - 1]
  }

  /** A sum of non-negative entries bounds each entry, and two distinct entries together. */
  lemma {:induction false} TotalBoundsPairs(s: seq<int>, k: nat, l: nat)
    requires forall q :: 0 <= q < |s| ==> s[q] >= 0
    requires k < |s| && l < |s| && k != l
    ensures s[k] + s[l] <= Total(s)
    ensures s[k] <= Total(s)
    decreases |s|
  {
    var m := |s| - 1;
    TotalNonNegative(s[..m]);
    if k != m && l != m {
      TotalBoundsPairs(s[..m], k, l);
    } else if k == m {
      TotalBoundsOne(s[..m], l);
    } else {
      TotalBoundsOne(s[..m], k);
    }
  }

  lemma {:induction false} TotalBoundsOne(s: seq<int>, k: nat)
    requires forall q :: 0 <= q < |s| ==> s[q] >= 0
    requires k < |s|
    ensures s[k] <= Total(s)
    decreases |s|
  {
    var m := |s| - 1;
    TotalNonNegative(s[..m]);
    if k != m {
      TotalBoundsOne(s[..m], k);
    }
  }

  lemma {:induction false} TotalNonNegative(s: seq<int>)
    requires forall q :: 0 <= q < |s| ==> s[q] >= 0
    ensures Total(s) >= 0
    decreases |s|
  {
    if s != [] {
      TotalNonNegative(s[..|s| - 1]);
    }
  }

  /** Non-negative entries that sum to zero are all zero. */
  lemma TotalZero(s: seq<int>)
    requires forall q :: 0 <= q < |s| ==> s[q] >= 0
    requires Total(s) == 0
    ensures forall q :: 0 <= q < |s| ==> s[q] == 0
  {
    forall q | 0 <= q < |s|
      ensures s[q] == 0
    {
      TotalBoundsOne(s, q);
    }
  }

  /** 0/1 entries summing to at most one: at most one entry is one. */
  lemma TotalAtMostOne(s: seq<int>)
    requires forall q :: 0 <= q < |s| ==> 0 <= s[q] <= 1
    requires Total(s) <= 1
    ensures forall k, l :: 0 <= k < |s| && 0 <= l < |s| && s[k] == 1 && s[l] == 1 ==> k == l
  {
    forall k, l | 0 <= k < |s| && 0 <= l < |s| && s[k] == 1 && s[l] == 1
      ensures k == l
    {
      if k != l {
        TotalBoundsPairs(s, k, l);
      }
    }
  }

  /** 0/1 entries summing to exactly one: exactly one entry is one, the others are zero. */
  lemma {:induction false} TotalExactlyOne(s: seq<int>)
    requires forall q :: 0 <= q < |s| ==> 0 <= s[q] <= 1
    requires Total(s) == 1
    ensures exists k :: 0 <= k < |s| && s[k] == 1 && forall l :: 0 <= l < |s| && l != k ==> s[l] == 0
    decreases |s|
  {
    var m := |s| - 1;
    var init := s[..m];
    if s[m] == 1 {
      TotalNonNegative(init);
      TotalZero(init);
      assert forall l :: 0 <= l < |s| && l != m ==> s[l] == init[l];
    } else {
      TotalExactlyOne(init);
      var k :| 0 <= k < |init| && init[k] == 1 && forall l :: 0 <= l < |init| && l != k ==> init[l] == 0;
      assert s[k] == 1;
      assert forall l :: 0 <= l < |s| && l != k ==> s[l] == 0;
    }
  }
  /** One entry one and the others zero: the sum is one. */
  lemma {:induction false} TotalOneHot(s: seq<int>, k: nat)
    requires k < |s| && s[k] == 1
    requires forall l :: 0 <= l < |s| && l != k ==> s[l] == 0
    ensures Total(s) == 1
    decreases |s|
  {
    var m := |s| - 1;
    if k == m {
      TotalAllZero(s[..m]);
    } else {
      TotalOneHot(s[..m], k);
    }
  }

  /** All entries zero: the sum is zero. */
  lemma {:induction false} TotalAllZero(s: seq<int>)
    requires forall l :: 0 <= l < |s| ==> s[l] == 0
    ensures Total(s) == 0
    decreases |s|
  {
    if s != [] {
      TotalAllZero(s[..|s| - 1]);
    }
  }

  /** A positive sum has a positive entry. */
  lemma {:induction false} TotalPositive(s: seq<int>)
    requires Total(s) > 0
    ensures exists k :: 0 <= k < |s| && s[k] > 0
    decreases |s|
  {
    var m := |s| - 1;
    if s[m] <= 0 {
      TotalPositive(s[..m]);
      var k :| 0 <= k < m && s[..m][k] > 0;
      assert s[k] > 0;
    }
  }
}
