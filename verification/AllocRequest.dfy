/** Sizes of requests, and which bin serves a small one. */
module AllocRequest {
  import opened Arith
  import opened AllocTrie
  import opened AllocLinks
  import opened AllocBins
  import opened AllocBinOps
  import opened AllocSearch
  import opened AllocHeap

  const MAX_SMALL_REQUEST: nat := 240
  const MIN_REQUEST: nat := 23
  const MAX_REQUEST: nat := SIZE_T_MODULUS - 128
  const MAX_SIZE_T: nat := SIZE_T_MODULUS - 1
  const DEFAULT_GRANULARITY: nat := 128 * 1024

  function PadRequest(n: nat): nat
  {
    (n + 8 + 7) % SIZE_T_MODULUS / 8 * 8
  }

  function RequestToSize(n: nat): nat
  {
    if n < MIN_REQUEST then MIN_CHUNK_SIZE else PadRequest(n)
  }

  /** A chunk of the padded size has room for the request behind its header word, and wastes less than it must. */
  lemma RequestFits(n: nat)
    requires n < MAX_REQUEST
    ensures var nb := RequestToSize(n);
      nb % 8 == 0 && MIN_CHUNK_SIZE <= nb < SIZE_T_MODULUS && nb >= n + 8 && (nb == MIN_CHUNK_SIZE || nb < n + 16)
    ensures n <= MAX_SMALL_REQUEST <==> RequestToSize(n) < MIN_LARGE_SIZE
  {
    assert n + 15 < SIZE_T_MODULUS;
  }

  /** How much alloc_sys asks the system for, computed with unsigned wrap-around. */
  function SystemSize(nb: nat): nat
  {
    var req := (nb + TOP_FOOT_SIZE + 1) % SIZE_T_MODULUS;
    (req + DEFAULT_GRANULARITY - 1) % SIZE_T_MODULUS / DEFAULT_GRANULARITY * DEFAULT_GRANULARITY
  }

  /** Only a size close to 2^64 wraps around, and then the computed size is too small, which alloc_sys notices. */
  lemma SystemSizeFits(nb: nat)
    requires nb < SIZE_T_MODULUS
    ensures SystemSize(nb) > nb <==> nb + TOP_FOOT_SIZE + DEFAULT_GRANULARITY < SIZE_T_MODULUS
    ensures SystemSize(nb) > nb ==> SystemSize(nb) > nb + TOP_FOOT_SIZE && SystemSize(nb) % DEFAULT_GRANULARITY == 0
  {
    var sum := nb + TOP_FOOT_SIZE + 1;
    if sum >= SIZE_T_MODULUS {
      DivUnique(sum, SIZE_T_MODULUS, 1);
    } else {
      DivUnique(sum, SIZE_T_MODULUS, 0);
      var up := sum + DEFAULT_GRANULARITY - 1;
      if up >= SIZE_T_MODULUS {
        DivUnique(up, SIZE_T_MODULUS, 1);
      } else {
        DivUnique(up, SIZE_T_MODULUS, 0);
      }
    }
  }

  /** Size s is the least size of any binned chunk that holds nb. */
  ghost predicate LeastBinned(bins: Bins, nb: nat, s: nat)
  {
    s in bins && s >= nb && forall q :: q in bins && q >= nb ==> s <= q
  }

  ghost predicate NoneBinned(bins: Bins, nb: nat)
  {
    forall q :: q in bins ==> q < nb
  }

  lemma SmallSizes(head: map<int, Head>, k: Links, smallmap: set<nat>, bins: Bins)
    requires Listed(head, bins) && SmallsOk(k, smallmap, bins)
    ensures forall j :: j in smallmap <==> j < NSMALLBINS && 8 * j in bins
    ensures forall q :: q in bins ==>
      q % 8 == 0 && (q < MIN_LARGE_SIZE ==> SmallIndex(q) in smallmap && 8 * SmallIndex(q) == q)
  {
    forall q | q in bins ensures q % 8 == 0 &&
      (q < MIN_LARGE_SIZE ==> SmallIndex(q) in smallmap && 8 * SmallIndex(q) == q) {
      assert ListOk(head, bins, q);
      assert q < MIN_LARGE_SIZE ==> 8 * SmallIndex(q) in bins;
    }
    hide Listed;
  }

  /** What the bits of the small bin map at and above the request's own index say. */
  lemma SmallBits(head: map<int, Head>, k: Links, smallmap: set<nat>, bins: Bins, nb: nat)
    requires Listed(head, bins) && SmallsOk(k, smallmap, bins) && nb % 8 == 0 && MIN_CHUNK_SIZE <= nb < MIN_LARGE_SIZE
    ensures var i := SmallIndex(nb); i in smallmap ==> LeastBinned(bins, nb, 8 * i)
    ensures var i := SmallIndex(nb); i !in smallmap && i + 1 in smallmap ==> LeastBinned(bins, nb, 8 * (i + 1))
    ensures var i := SmallIndex(nb); var j := NextBin(smallmap, i);
      i !in smallmap && i + 1 !in smallmap && j < NSMALLBINS ==> LeastBinned(bins, nb, 8 * j) && 8 * j >= nb + 16
    ensures var i := SmallIndex(nb);
      i !in smallmap && NextBin(smallmap, i) >= NSMALLBINS ==> forall q :: q in bins && q < MIN_LARGE_SIZE ==> q < nb
  {
    hide Listed, SmallsOk, NextBin;
    var i := SmallIndex(nb);
    SmallSizes(head, k, smallmap, bins);
    forall q | q in bins && nb <= q < MIN_LARGE_SIZE ensures SmallIndex(q) in smallmap && SmallIndex(q) >= i {
      assert 8 * SmallIndex(q) == q;
    }
  }

  lemma LeastOfAll(bins: Bins, nb: nat, s: nat)
    requires forall q :: q in LargeSizes(bins) && q >= nb ==> s <= q
    requires s in LargeSizes(bins) && s >= nb
    requires forall q :: q in bins && q < MIN_LARGE_SIZE ==> q < nb
    ensures LeastBinned(bins, nb, s)
  {
    forall q | q in bins && q >= nb ensures s <= q {
      assert q in LargeSizes(bins);
    }
  }

  lemma NoneOfAll(bins: Bins, nb: nat)
    requires forall q :: q in LargeSizes(bins) ==> q < nb
    requires forall q :: q in bins && q < MIN_LARGE_SIZE ==> q < nb
    ensures NoneBinned(bins, nb)
  {
    forall q | q in bins ensures q < nb {
      assert q < MIN_LARGE_SIZE || q in LargeSizes(bins);
    }
  }
}
