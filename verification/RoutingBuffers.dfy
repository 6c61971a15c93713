/** The buffers of the expert alignment step (_align_tokens in
  src/torchinferno/kernels/deepseek_v4_marlin.py): routes are counted per bucket and every bucket is
  padded to whole blocks. */
module RoutingBuffers {
  import opened IntMath

  /** How many routes go to bucket b. */
  function Count(routes: seq<nat>, b: nat): (c: nat)
    ensures c <= |routes|
  {
    if routes == [] then 0 else Count(routes[1..], b) + if routes[0] == b then 1 else 0
  }

  /** Routes in the first n buckets, and slots they take when padded. */
  function Routed(routes: seq<nat>, n: nat): nat {
    if n == 0 then 0 else Routed(routes, n - 1) + Count(routes, n - 1)
  }

  function Padded(routes: seq<nat>, n: nat, block: nat): nat
    requires block > 0
  {
    if n == 0 then 0 else Padded(routes, n - 1, block) + RoundUp(Count(routes, n - 1), block)
  }

  function Min(a: int, b: int): int {
    if a < b then a else b
  }

  /** `maximum`: the slots allocated for sorted_ids. */
  function Maximum(routes: nat, experts: nat, block: nat): (m: int)
    requires block > 0
  {
    var buckets := experts + 1;
    var all := routes + buckets * (block - 1);
    if routes < buckets then Min(routes * block, all) else all
  }

  /** The length of expert_ids. */
  function BlockSlots(maximum: nat, block: nat): nat
    requires block > 0
  {
    CeilDiv(maximum, block)
  }

  /** Every route is counted in at most one bucket. */
  lemma {:induction false} RoutedAtMost(routes: seq<nat>, n: nat)
    ensures Routed(routes, n) <= |routes|
    ensures (forall i :: 0 <= i < |routes| ==> routes[i] < n) ==> Routed(routes, n) == |routes|
  {
    if routes == [] {
      RoutedEmpty(n);
    } else {
      RoutedAtMost(routes[1..], n);
      RoutedCons(routes, n);
    }
  }

  lemma {:induction false} RoutedEmpty(n: nat)
    ensures Routed([], n) == 0
  {
    if n > 0 {
      RoutedEmpty(n - 1);
    }
  }

  lemma {:induction false} RoutedCons(routes: seq<nat>, n: nat)
    requires routes != []
    ensures Routed(routes, n) == Routed(routes[1..], n) + if routes[0] < n then 1 else 0
  {
    if n > 0 {
      RoutedCons(routes, n - 1);
    }
  }

  /** Padding adds at most block - 1 slots per bucket, and never more than block - 1 per route. */
  lemma {:induction false} PaddedAtMost(routes: seq<nat>, n: nat, block: nat)
    requires block > 0
    ensures Padded(routes, n, block) <= Routed(routes, n) + n * (block - 1)
    ensures Padded(routes, n, block) <= Routed(routes, n) * block
    ensures Padded(routes, n, block) % block == 0
  {
    hide CeilDiv, Count;
    if n > 0 {
      PaddedAtMost(routes, n - 1, block);
      var c := Count(routes, n - 1);
      BucketAtMost(c, block);
      Distribute(Routed(routes, n - 1), c, block);
      Distribute(n - 1, 1, block - 1);
      MultiplesAdd(Padded(routes, n - 1, block), CeilDiv(c, block), block);
    }
  }

  lemma BucketAtMost(c: nat, block: nat)
    requires block > 0
    ensures RoundUp(c, block) <= c + block - 1 && RoundUp(c, block) <= c * block
  {
    if c > 0 {
      MulAtMost(1, block, c - 1);
      Distribute(c - 1, 1, block);
    }
  }

  lemma MultiplesAdd(a: nat, q: nat, d: nat)
    requires d > 0 && a % d == 0
    ensures (a + q * d) % d == 0
  {
    Distribute(a / d, q, d);
    DivMod(a / d + q, 0, d);
  }

  /** For every assignment of routes to the buckets and every block size, the padded routes fit into
      the allocated slots, in the branch with the minimum too, and their blocks into expert_ids. */
  lemma BuffersSuffice(routes: seq<nat>, experts: nat, block: nat)
    requires block > 0
    ensures var m := Maximum(|routes|, experts, block);
      var total := Padded(routes, experts + 1, block);
      && 0 <= total <= m && total % block == 0 && total / block <= BlockSlots(m, block)
  {
    hide Routed, Padded, CeilDiv;
    var n := experts + 1;
    RoutedAtMost(routes, n);
    PaddedAtMost(routes, n, block);
    MulAtMost(Routed(routes, n), |routes|, block);
    BlocksFit(Padded(routes, n, block), Maximum(|routes|, experts, block), block);
  }

  lemma BlocksFit(total: nat, m: nat, block: nat)
    requires block > 0 && total <= m && total % block == 0
    ensures total / block <= CeilDiv(m, block)
  {
    var p, q := total / block, CeilDiv(m, block);
    assert total == p * block;
    if q < p {
      MulAtMost(q + 1, p, block);
      Distribute(q, 1, block);
      assert false;
    }
  }

  ghost predicate JustOver(c: nat, block: nat) {
    exists k: nat :: c == k * block + 1
  }

  lemma {:induction false} JustOverPadded(routes: seq<nat>, n: nat, block: nat)
    requires block > 0 && forall b: nat :: b < n ==> JustOver(Count(routes, b), block)
    ensures Padded(routes, n, block) == Routed(routes, n) + n * (block - 1) && Routed(routes, n) >= n
  {
    if n > 0 {
      hide Count, RoundUp;
      JustOverPadded(routes, n - 1, block);
      OneMore(Count(routes, n - 1), block);
      Distribute(n - 1, 1, block - 1);
    }
  }

  /** `maximum` is not too large: when every bucket holds one route more than a multiple of the block,
      every slot is used. */
  lemma EverySlotCanBeUsed(routes: seq<nat>, experts: nat, block: nat)
    requires block > 0 && forall i :: 0 <= i < |routes| ==> routes[i] < experts + 1
    requires forall b: nat :: b < experts + 1 ==> JustOver(Count(routes, b), block)
    ensures Padded(routes, experts + 1, block) == Maximum(|routes|, experts, block)
  {
    hide JustOver, Count, Padded, Routed;
    RoutedAtMost(routes, experts + 1);
    JustOverPadded(routes, experts + 1, block);
  }

  lemma OneMore(c: nat, block: nat)
    requires block > 0 && JustOver(c, block)
    ensures RoundUp(c, block) == c + block - 1 && c > 0
  {
    var k: nat :| c == k * block + 1;
    Distribute(k, 1, block);
    DivMod(k + 1, 0, block);
  }

  ghost predicate AtMostOnce(routes: seq<nat>, n: nat) {
    forall b: nat :: b < n ==> Count(routes, b) <= 1
  }

  lemma {:induction false} AloneInBlocks(routes: seq<nat>, n: nat, block: nat)
    requires block > 0 && AtMostOnce(routes, n)
    ensures Padded(routes, n, block) == Routed(routes, n) * block
  {
    if n > 0 {
      hide Count, RoundUp;
      AloneInBlocks(routes, n - 1, block);
      var c := Count(routes, n - 1);
      assert c <= 1;
      BlockOfOne(block);
      Distribute(Routed(routes, n - 1), c, block);
    }
  }

  lemma BlockOfOne(block: nat)
    requires block > 0
    ensures RoundUp(0, block) == 0 && RoundUp(1, block) == block
  {
    DivMod(0, block - 1, block);
    DivMod(1, 0, block);
  }

  lemma WholeBlocks(n: nat, block: nat)
    requires block > 0
    ensures BlockSlots(n * block, block) == n
  {
    DivMod(n, block - 1, block);
  }

  /** Nor in the branch with the minimum, which is always a block a route: fewer routes than buckets, no
      two of them in one bucket, use every slot. */
  lemma EveryBlockCanBeUsed(routes: seq<nat>, experts: nat, block: nat)
    requires block > 0 && |routes| < experts + 1 && AtMostOnce(routes, experts + 1)
    requires forall i :: 0 <= i < |routes| ==> routes[i] < experts + 1
    ensures Padded(routes, experts + 1, block) == Maximum(|routes|, experts, block) == |routes| * block
    ensures BlockSlots(|routes| * block, block) == |routes|
  {
    WholeBlocks(|routes|, block);
    hide AtMostOnce, Count, Padded, Routed;
    RoutedAtMost(routes, experts + 1);
    AloneInBlocks(routes, experts + 1, block);
    MulAtMost(|routes|, experts + 1, block - 1);
    Distribute(block - 1, 1, |routes|);
  }
}
