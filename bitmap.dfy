/** The per-decision CPU bitmap: one flag per core of the node, `true` for a core some pod
    already holds ("bit 1") and `false` for a free core ("bit 0"), together with the two ways of
    listing the free cores, flat and per NUMA node. */
module Bitmap {
  import opened Api

  /** The free cores with index in [lo, hi), ascending. */
  function FreeIn(bits: seq<bool>, lo: nat, hi: nat): seq<nat>
    requires lo <= hi <= |bits|
    decreases hi - lo
  {
    if hi == lo then []
    else FreeIn(bits, lo, hi - 1) + (if bits[hi - 1] then [] else [hi - 1])
  }

  /** Every free core of the bitmap, ascending: what `Get0BitOffs` returns. */
  function FreeOffsets(bits: seq<bool>): seq<nat>
  {
    FreeIn(bits, 0, |bits|)
  }

  predicate StrictlyAscending(s: seq<nat>)
  {
    forall i, j :: 0 <= i < j < |s| ==> s[i] < s[j]
  }

  /** `FreeIn` lists exactly the free cores of the range. */
  lemma {:induction false} FreeInMembers(bits: seq<bool>, lo: nat, hi: nat)
    requires lo <= hi <= |bits|
    ensures forall c: nat :: c in FreeIn(bits, lo, hi) <==> lo <= c < hi && !bits[c]
    decreases hi - lo
  {
    if hi > lo {
      FreeInMembers(bits, lo, hi - 1);
      var last: seq<nat> := if bits[hi - 1] then [] else [hi - 1];
      assert FreeIn(bits, lo, hi) == FreeIn(bits, lo, hi - 1) + last;
      assert forall c: nat :: c in last <==> c == hi - 1 && !bits[c];
    }
  }

  /** `FreeIn` lists the free cores of the range in ascending order, each once. */
  lemma {:induction false} FreeInAscending(bits: seq<bool>, lo: nat, hi: nat)
    requires lo <= hi <= |bits|
    ensures StrictlyAscending(FreeIn(bits, lo, hi))
    decreases hi - lo
  {
    if hi > lo {
      FreeInAscending(bits, lo, hi - 1);
      if !bits[hi - 1] {
        FreeInMembers(bits, lo, hi - 1);
        var prev := FreeIn(bits, lo, hi - 1);
        assert forall k :: 0 <= k < |prev| ==> prev[k] in prev;
      }
    }
  }

  /** `FreeIn` lists exactly the free cores of the range, each once, in ascending order. */
  lemma FreeInIsFreeRange(bits: seq<bool>, lo: nat, hi: nat)
    requires lo <= hi <= |bits|
    ensures StrictlyAscending(FreeIn(bits, lo, hi))
    ensures forall c: nat :: c in FreeIn(bits, lo, hi) <==> lo <= c < hi && !bits[c]
  {
    FreeInAscending(bits, lo, hi);
    FreeInMembers(bits, lo, hi);
  }

  /** The flat free list holds exactly the free cores of the bitmap, ascending. */
  lemma FreeOffsetsAreFreeCores(bits: seq<bool>)
    ensures StrictlyAscending(FreeOffsets(bits))
    ensures forall c: nat :: c in FreeOffsets(bits) <==> c < |bits| && !bits[c]
  {
    FreeInIsFreeRange(bits, 0, |bits|);
  }

  /** The library bitmap `bitmap.NewNumaBitmapSize`, mutated in place by `SetBit`. */
  class NumaBitmap {
    const bits: array<bool>

    /** A bitmap of `size` cores, all free. */
    constructor (size: nat)
      ensures fresh(bits) && bits.Length == size
      ensures forall i :: 0 <= i < size ==> !bits[i]
    {
      bits := new bool[size](_ => false);
    }

    /** Marks core `off` used. An offset outside the bitmap changes nothing. */
    method SetBit(off: int)
      modifies bits
      ensures bits[..] == if 0 <= off < bits.Length then old(bits[..])[off := true] else old(bits[..])
    {
      if 0 <= off < bits.Length {
        bits[off] := true;
      }
    }

    /** The offsets of the zero (free) bits, ascending. */
    method Get0BitOffs() returns (offs: seq<nat>)
      ensures offs == FreeOffsets(bits[..])
    {
      offs := [];
      for i := 0 to bits.Length
        invariant offs == FreeIn(bits[..], 0, i)
      {
        if !bits[i] {
          offs := offs + [i];
        }
      }
    }
  }

  /** A NUMA partition of the free cores: given the bitmap and the NUMA node count, either an
      error or one list of free cores per NUMA node. */
  type Partition = (seq<bool>, nat) -> Result<seq<seq<nat>>>

  /** What the allocator needs of a partition's lists: at least one list per NUMA node, each
      ascending and holding only free cores of the bitmap. */
  ghost predicate IsFreePartition(bits: seq<bool>, n: nat, lists: seq<seq<nat>>)
  {
    |lists| >= n &&
    forall i :: 0 <= i < |lists| ==>
      StrictlyAscending(lists[i]) && forall c :: c in lists[i] ==> c < |bits| && !bits[c]
  }

  /** A partition that, whenever it succeeds, returns an `IsFreePartition`. */
  ghost predicate WellFormed(p: Partition)
  {
    forall bits: seq<bool>, n: nat :: p(bits, n).Ok? ==> IsFreePartition(bits, n, p(bits, n).value)
  }

  lemma DivMonotone(a: nat, b: nat, n: nat)
    requires a <= b && n > 0
    ensures a / n <= b / n
  {
    var qa, qb := a / n, b / n;
    assert a == qa * n + a % n;
    assert b == qb * n + b % n;
    if qa > qb {
      MulMonotone(qb + 1, qa, n);
      assert false;
    }
  }

  lemma MulMonotone(x: nat, y: nat, n: nat)
    requires x <= y
    ensures x * n <= y * n
  {
  }

  /** The first core of NUMA node `i` under an even contiguous split of `m` cores into `n`
      nodes. */
  function ContiguousStart(i: nat, n: nat, m: nat): (start: nat)
    requires 0 < n && i <= n
    ensures start <= m
  {
    DivMonotone(i * m, n * m, n);
    i * m / n
  }

  lemma ContiguousStartMonotone(i: nat, n: nat, m: nat)
    requires 0 < n && i < n
    ensures ContiguousStart(i, n, m) <= ContiguousStart(i + 1, n, m)
  {
    DivMonotone(i * m, (i + 1) * m, n);
  }

  /** An example partition: node `i` owns cores [i*m/n, (i+1)*m/n) of an `m`-core bitmap.
      The library's own layouts are not part of this model; this one only shows the shape. */
  function Contiguous(bits: seq<bool>, n: nat): Result<seq<seq<nat>>>
  {
    if n == 0 then Err(Error("numa node count must be positive"))
    else
      Ok(seq(n, i requires 0 <= i < n =>
        ContiguousStartMonotone(i, n, |bits|);
        FreeIn(bits, ContiguousStart(i, n, |bits|), ContiguousStart(i + 1, n, |bits|))))
  }

  /** The contiguous split meets what the allocator asks of a partition. */
  lemma ContiguousIsWellFormed()
    ensures WellFormed(Contiguous)
  {
    forall bits: seq<bool>, n: nat | Contiguous(bits, n).Ok?
      ensures IsFreePartition(bits, n, Contiguous(bits, n).value)
    {
      var lists := Contiguous(bits, n).value;
      forall i | 0 <= i < n
        ensures StrictlyAscending(lists[i]) && forall c :: c in lists[i] ==> c < |bits| && !bits[c]
      {
        ContiguousStartMonotone(i, n, |bits|);
        FreeInIsFreeRange(bits, ContiguousStart(i, n, |bits|), ContiguousStart(i + 1, n, |bits|));
      }
    }
  }
}
