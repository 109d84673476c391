/** The observables of the dense CPU kernel: positions, a histogram along
    one axis, particle numbers, forces and the particles themselves, each
    evaluated over the kernel's particle data.  The histogram's workers run
    here one after another; their partial histograms are summed as in the
    kernel. */
module DenseObservables {
  import opened Vectors
  import opened Chunks

  /** An entry of the dense kernel's particle data. */
  datatype DenseEntry = DenseEntry(pos: Vec3, force: Vec3, ptype: nat, id: nat)

  /** An entry counts when the filter is empty or names its type. */
  predicate Counted(typesToCount: seq<nat>, t: nat) {
    typesToCount == [] || t in typesToCount
  }

  /** The indices of the counted entries, in data order. */
  function SelectedIndices(data: seq<DenseEntry>, typesToCount: seq<nat>): (r: seq<nat>)
    ensures forall k | 0 <= k < |r| :: r[k] < |data| && Counted(typesToCount, data[r[k]].ptype)
    ensures forall k, l | 0 <= k < l < |r| :: r[k] < r[l]
  {
    if data == [] then []
    else
      var n := |data| - 1;
      SelectedIndices(data[..n], typesToCount) + (if Counted(typesToCount, data[n].ptype) then [n] else [])
  }

  /** Every counted entry is selected. */
  lemma {:induction false} SelectedIndicesComplete(data: seq<DenseEntry>, typesToCount: seq<nat>, i: nat)
    requires i < |data| && Counted(typesToCount, data[i].ptype)
    ensures i in SelectedIndices(data, typesToCount)
  {
    var n := |data| - 1;
    if i < n {
      assert data[..n][i] == data[i];
      SelectedIndicesComplete(data[..n], typesToCount, i);
    }
  }

  /** The positions of the counted entries, in data order. */
  function PositionsOf(data: seq<DenseEntry>, typesToCount: seq<nat>): seq<Vec3> {
    if data == [] then []
    else
      var n := |data| - 1;
      PositionsOf(data[..n], typesToCount) + (if Counted(typesToCount, data[n].ptype) then [data[n].pos] else [])
  }

  /** The forces of the counted entries, in data order. */
  function ForcesOf(data: seq<DenseEntry>, typesToCount: seq<nat>): seq<Vec3> {
    if data == [] then []
    else
      var n := |data| - 1;
      ForcesOf(data[..n], typesToCount) + (if Counted(typesToCount, data[n].ptype) then [data[n].force] else [])
  }

  /** The k-th position (force) reported is that of the k-th counted entry. */
  lemma {:induction false} PositionsAndForcesOfSelected(data: seq<DenseEntry>, typesToCount: seq<nat>)
    ensures |PositionsOf(data, typesToCount)| == |ForcesOf(data, typesToCount)| == |SelectedIndices(data, typesToCount)|
    ensures forall k | 0 <= k < |SelectedIndices(data, typesToCount)| ::
              && PositionsOf(data, typesToCount)[k] == data[SelectedIndices(data, typesToCount)[k]].pos
              && ForcesOf(data, typesToCount)[k] == data[SelectedIndices(data, typesToCount)[k]].force
  {
    if data != [] {
      var n := |data| - 1;
      PositionsAndForcesOfSelected(data[..n], typesToCount);
      var sel := SelectedIndices(data[..n], typesToCount);
      forall k | 0 <= k < |sel|
        ensures sel[k] < n && data[..n][sel[k]] == data[sel[k]]
      {
      }
    }
  }

  /** With no filter every entry is reported. */
  lemma {:induction false} UnfilteredReportsAll(data: seq<DenseEntry>)
    ensures |PositionsOf(data, [])| == |ForcesOf(data, [])| == |data|
    ensures forall i | 0 <= i < |data| :: PositionsOf(data, [])[i] == data[i].pos && ForcesOf(data, [])[i] == data[i].force
  {
    if data != [] {
      var n := |data| - 1;
      UnfilteredReportsAll(data[..n]);
    }
  }

  class PositionsObservable {
    const typesToCount: seq<nat>
    var result: seq<Vec3>

    constructor (typesToCount: seq<nat>)
      ensures this.typesToCount == typesToCount && result == []
    {
      this.typesToCount := typesToCount;
      result := [];
    }

    /** `evaluate`: all positions without a filter, otherwise those of the
        entries of counted types, in data order. */
    method Evaluate(data: seq<DenseEntry>)
      modifies this
      ensures result == PositionsOf(data, typesToCount)
    {
      result := [];
      var i := 0;
      while i < |data|
        invariant 0 <= i <= |data|
        invariant result == PositionsOf(data[..i], typesToCount)
      {
        assert data[..i + 1][..i] == data[..i];
        if typesToCount == [] || data[i].ptype in typesToCount {
          result := result + [data[i].pos];
        }
        i := i + 1;
      }
      assert data[..i] == data;
    }
  }

  // ---------------------------------------------------------------------
  // HistogramAlongAxis

  /** The coordinate of a position along axis 0, 1 or 2. */
  function AxisValue(v: Vec3, axis: nat): real
    requires axis < 3
  {
    if axis == 0 then v.x else if axis == 1 then v.y else v.z
  }

  /** `std::upper_bound`: the first index whose border lies above `x`. */
  function UpperBound(borders: seq<real>, x: real): (r: nat)
    ensures r <= |borders|
    ensures forall i | 0 <= i < r :: borders[i] <= x
    ensures r < |borders| ==> x < borders[r]
  {
    if borders == [] then 0
    else if x < borders[0] then 0
    else 1 + UpperBound(borders[1..], x)
  }

  predicate Sorted(borders: seq<real>) {
    forall i, j | 0 <= i < j < |borders| :: borders[i] <= borders[j]
  }

  /** On sorted borders the upper bound splits them into those at most `x`
      and those above it. */
  lemma UpperBoundSplits(borders: seq<real>, x: real)
    requires Sorted(borders)
    ensures forall i | 0 <= i < |borders| :: (borders[i] <= x <==> i < UpperBound(borders, x))
  {
    var r := UpperBound(borders, x);
    forall i | 0 <= i < |borders| && r <= i
      ensures x < borders[i]
    {
      assert borders[r] <= borders[i];
    }
  }

  /** The bin a value falls into: the one below its upper bound, when that
      bound exists and lies in `1 .. size-1`; otherwise the value is dropped. */
  function Bin(borders: seq<real>, size: nat, x: real): (r: int)
    ensures -1 <= r < size
  {
    var ub := UpperBound(borders, x);
    if ub < |borders| && 1 <= ub < size then ub - 1 else -1
  }

  /** A histogram with one more count in bin `b` (none when `b` is -1). */
  function AddToBin(h: seq<nat>, b: int): (r: seq<nat>)
    requires -1 <= b < |h|
    ensures |r| == |h|
  {
    if b < 0 then h else h[b := h[b] + 1]
  }

  /** The histogram of the counted entries of `data`. */
  function HistogramOf(data: seq<DenseEntry>, borders: seq<real>, typesToCount: set<nat>, axis: nat, size: nat): (h: seq<nat>)
    requires axis < 3
    ensures |h| == size
  {
    if data == [] then seq(size, _ => 0)
    else
      var n := |data| - 1;
      var before := HistogramOf(data[..n], borders, typesToCount, axis, size);
      if data[n].ptype in typesToCount then AddToBin(before, Bin(borders, size, AxisValue(data[n].pos, axis))) else before
  }

  /** Pointwise sum of two histograms. */
  function AddHistograms(a: seq<nat>, b: seq<nat>): (r: seq<nat>)
    requires |a| == |b|
    ensures |r| == |a| && forall i | 0 <= i < |a| :: r[i] == a[i] + b[i]
  {
    seq(|a|, i requires 0 <= i < |a| => a[i] + b[i])
  }

  /** The histogram of two consecutive ranges is the sum of their histograms. */
  lemma {:induction false} HistogramSplit(d1: seq<DenseEntry>, d2: seq<DenseEntry>, borders: seq<real>, typesToCount: set<nat>, axis: nat, size: nat)
    requires axis < 3
    ensures HistogramOf(d1 + d2, borders, typesToCount, axis, size)
         == AddHistograms(HistogramOf(d1, borders, typesToCount, axis, size), HistogramOf(d2, borders, typesToCount, axis, size))
    decreases |d2|
  {
    if d2 == [] {
      assert d1 + d2 == d1;
    } else {
      var n := |d2| - 1;
      HistogramSplit(d1, d2[..n], borders, typesToCount, axis, size);
      assert (d1 + d2)[..|d1| + n] == d1 + d2[..n];
      assert (d1 + d2)[|d1| + n] == d2[n];
    }
  }

  /** Every count in the histogram belongs to an entry: the counts add up to
      at most the number of entries. */
  function Total(h: seq<nat>): nat {
    if h == [] then 0 else Total(h[..|h| - 1]) + h[|h| - 1]
  }

  lemma {:induction false} TotalAddToBin(h: seq<nat>, b: int)
    requires -1 <= b < |h|
    ensures Total(AddToBin(h, b)) == Total(h) + (if b < 0 then 0 else 1)
  {
    if b >= 0 {
      var n := |h| - 1;
      var r := AddToBin(h, b);
      assert r[..n] == if b < n then h[..n][b := h[b] + 1] else h[..n];
      if b < n {
        TotalAddToBin(h[..n], b);
      }
    }
  }

  lemma {:induction false} TotalZeros(size: nat)
    ensures Total(seq(size, _ => 0)) == 0
  {
    if size > 0 {
      assert seq(size, _ => 0)[..size - 1] == seq(size - 1, _ => 0);
      TotalZeros(size - 1);
    }
  }

  lemma {:induction false} HistogramTotalBounded(data: seq<DenseEntry>, borders: seq<real>, typesToCount: set<nat>, axis: nat, size: nat)
    requires axis < 3
    ensures Total(HistogramOf(data, borders, typesToCount, axis, size)) <= |data|
  {
    if data == [] {
      TotalZeros(size);
    } else {
      var n := |data| - 1;
      HistogramTotalBounded(data[..n], borders, typesToCount, axis, size);
      var before := HistogramOf(data[..n], borders, typesToCount, axis, size);
      TotalAddToBin(before, Bin(borders, size, AxisValue(data[n].pos, axis)));
    }
  }

  class HistogramAlongAxis {
    const binBorders: seq<real>
    const typesToCount: set<nat>
    const axis: nat
    var result: seq<nat>

    /** The result's size is fixed by the base observable, not part of this model. */
    constructor (binBorders: seq<real>, typesToCount: set<nat>, axis: nat, size: nat)
      requires axis < 3
      ensures this.binBorders == binBorders && this.typesToCount == typesToCount && this.axis == axis
      ensures result == seq(size, _ => 0)
    {
      this.binBorders := binBorders;
      this.typesToCount := typesToCount;
      this.axis := axis;
      result := seq(size, _ => 0);
    }

    /** The worker: the partial histogram of the entries `from .. to-1`. */
    static method Worker(data: seq<DenseEntry>, from: nat, to: nat, binBorders: seq<real>, typesToCount: set<nat>,
                         axis: nat, resultSize: nat)
      returns (update: seq<nat>)
      requires axis < 3 && from <= to <= |data|
      ensures update == HistogramOf(data[from..to], binBorders, typesToCount, axis, resultSize)
    {
      update := seq(resultSize, _ => 0);
      var it := from;
      while it < to
        invariant from <= it <= to
        invariant update == HistogramOf(data[from..it], binBorders, typesToCount, axis, resultSize)
      {
        assert data[from..it + 1][..it - from] == data[from..it];
        if data[it].ptype in typesToCount {
          var upperBound := UpperBound(binBorders, AxisValue(data[it].pos, axis));
          if upperBound != |binBorders| {
            if upperBound >= 1 && upperBound < resultSize {
              update := update[upperBound - 1 := update[upperBound - 1] + 1];
            }
          }
        }
        it := it + 1;
      }
    }

    /** Adds a worker's partial histogram onto the result. */
    method Merge(update: seq<nat>)
      requires |update| == |result|
      modifies this
      ensures result == AddHistograms(old(result), update)
    {
      var k := 0;
      while k < |update|
        invariant 0 <= k <= |update| && |result| == |update|
        invariant forall i | 0 <= i < |update| :: result[i] == old(result)[i] + (if i < k then update[i] else 0)
      {
        result := result[k := result[k] + update[k]];
        k := k + 1;
      }
    }

    /** Worker `c` was given the entries of chunk `c` and returned their histogram. */
    static ghost predicate ChunkHistogram(data: seq<DenseEntry>, nThreads: nat, c: nat, update: seq<nat>,
                                          binBorders: seq<real>, typesToCount: set<nat>, axis: nat, size: nat)
    {
      && 1 <= nThreads && c < nThreads && axis < 3
      && ChunkStart(c, |data|, nThreads) <= ChunkStart(c + 1, |data|, nThreads) <= |data|
      && update == HistogramOf(data[ChunkStart(c, |data|, nThreads)..ChunkStart(c + 1, |data|, nThreads)],
                               binBorders, typesToCount, axis, size)
    }

    /** The work distribution of `evaluate`: `nThreads - 1` chunks of
        `|data| / nThreads` entries and a last chunk with the rest. */
    static method RunWorkers(data: seq<DenseEntry>, nThreads: nat, binBorders: seq<real>, typesToCount: set<nat>,
                             axis: nat, resultSize: nat)
      returns (updates: seq<seq<nat>>)
      requires 1 <= nThreads && axis < 3
      ensures |updates| == nThreads
      ensures forall c: nat | c < nThreads ::
                ChunkHistogram(data, nThreads, c, updates[c], binBorders, typesToCount, axis, resultSize)
    {
      updates := [];
      var grainSize := |data| / nThreads;
      var workIter := 0;
      var i := 0;
      while i < nThreads - 1
        invariant 0 <= i < nThreads && workIter == ChunkStart(i, |data|, nThreads) && |updates| == i
        invariant forall c: nat | c < i ::
                    ChunkHistogram(data, nThreads, c, updates[c], binBorders, typesToCount, axis, resultSize)
      {
        ChunkStartBounds(i, |data|, nThreads);
        var update := Worker(data, workIter, workIter + grainSize, binBorders, typesToCount, axis, resultSize);
        updates := updates + [update];
        workIter := workIter + grainSize;
        i := i + 1;
      }
      ChunkStartBounds(i, |data|, nThreads);
      var update := Worker(data, workIter, |data|, binBorders, typesToCount, axis, resultSize);
      updates := updates + [update];
    }

    /** Adding chunk `c`'s histogram to that of the chunks before it gives
        the histogram of the chunks up to and including `c`. */
    static lemma MergeStep(data: seq<DenseEntry>, nThreads: nat, c: nat, update: seq<nat>, acc: seq<nat>,
                           binBorders: seq<real>, typesToCount: set<nat>, axis: nat, size: nat)
      requires ChunkHistogram(data, nThreads, c, update, binBorders, typesToCount, axis, size)
      requires acc == HistogramOf(data[..ChunkStart(c, |data|, nThreads)], binBorders, typesToCount, axis, size)
      ensures AddHistograms(acc, update)
           == HistogramOf(data[..ChunkStart(c + 1, |data|, nThreads)], binBorders, typesToCount, axis, size)
    {
      var lo, hi := ChunkStart(c, |data|, nThreads), ChunkStart(c + 1, |data|, nThreads);
      HistogramSplit(data[..lo], data[lo..hi], binBorders, typesToCount, axis, size);
      assert data[..lo] + data[lo..hi] == data[..hi];
    }

    /** `evaluate`: zero the result, let every worker histogram its chunk,
        and add up the partial histograms in chunk order. */
    method Evaluate(data: seq<DenseEntry>, nThreads: nat)
      requires 1 <= nThreads && axis < 3
      modifies this
      ensures result == HistogramOf(data, binBorders, typesToCount, axis, |old(result)|)
    {
      var resultSize := |result|;
      result := seq(resultSize, _ => 0);
      var updates := RunWorkers(data, nThreads, binBorders, typesToCount, axis, resultSize);
      assert data[..ChunkStart(0, |data|, nThreads)] == [];
      var c := 0;
      while c < nThreads
        invariant 0 <= c <= nThreads && |result| == resultSize
        invariant ChunkStart(c, |data|, nThreads) <= |data|
        invariant result == HistogramOf(data[..ChunkStart(c, |data|, nThreads)], binBorders, typesToCount, axis, resultSize)
      {
        assert ChunkHistogram(data, nThreads, c, updates[c], binBorders, typesToCount, axis, resultSize);
        MergeStep(data, nThreads, c, updates[c], result, binBorders, typesToCount, axis, resultSize);
        Merge(updates[c]);
        c := c + 1;
      }
      assert data[..|data|] == data;
    }
  }

  // ---------------------------------------------------------------------
  // NParticles, Forces, Particles

  /** `std::find`: the first position of `t` in `types`, or `|types|`. */
  function FirstIndex(types: seq<nat>, t: nat): (r: nat)
    ensures r <= |types| && (r < |types| ==> types[r] == t)
    ensures forall k | 0 <= k < r :: types[k] != t
  {
    if types == [] then 0 else if types[0] == t then 0 else 1 + FirstIndex(types[1..], t)
  }

  /** The number of entries of type `t`. */
  function CountType(data: seq<DenseEntry>, t: nat): nat {
    if data == [] then 0 else CountType(data[..|data| - 1], t) + (if data[|data| - 1].ptype == t then 1 else 0)
  }

  /** The counts of `NParticles`: one per filter position, an entry counted
      at the first position naming its type. */
  function NCounts(data: seq<DenseEntry>, types: seq<nat>): (r: seq<nat>)
    ensures |r| == |types|
  {
    if data == [] then seq(|types|, _ => 0)
    else
      var before := NCounts(data[..|data| - 1], types);
      var k := FirstIndex(types, data[|data| - 1].ptype);
      if k < |types| then before[k := before[k] + 1] else before
  }

  /** Each filter position counts the entries of its type if it is the
      first position naming that type, and nothing otherwise. */
  lemma {:induction false} NCountsCharacterised(data: seq<DenseEntry>, types: seq<nat>)
    ensures forall k | 0 <= k < |types| ::
              NCounts(data, types)[k] == if FirstIndex(types, types[k]) == k then CountType(data, types[k]) else 0
  {
    if data != [] {
      NCountsCharacterised(data[..|data| - 1], types);
    }
  }

  class NParticlesObservable {
    const typesToCount: seq<nat>
    var result: seq<nat>

    constructor (typesToCount: seq<nat>)
      ensures this.typesToCount == typesToCount && result == []
    {
      this.typesToCount := typesToCount;
      result := [];
    }

    /** `evaluate`: the number of entries without a filter, otherwise one
        count per filter position. */
    method Evaluate(data: seq<DenseEntry>)
      modifies this
      ensures typesToCount == [] ==> result == [|data|]
      ensures typesToCount != [] ==> result == NCounts(data, typesToCount)
    {
      var resultVec: seq<nat> := [];
      if typesToCount == [] {
        resultVec := resultVec + [|data|];
      } else {
        resultVec := seq(|typesToCount|, _ => 0);
        var i := 0;
        while i < |data|
          invariant 0 <= i <= |data|
          invariant resultVec == NCounts(data[..i], typesToCount)
        {
          assert data[..i + 1][..i] == data[..i];
          var typeIt := FirstIndex(typesToCount, data[i].ptype);
          if typeIt != |typesToCount| {
            resultVec := resultVec[typeIt := resultVec[typeIt] + 1];
          }
          i := i + 1;
        }
        assert data[..i] == data;
      }
      result := resultVec;
    }
  }

  class ForcesObservable {
    const typesToCount: seq<nat>
    var result: seq<Vec3>

    constructor (typesToCount: seq<nat>)
      ensures this.typesToCount == typesToCount && result == []
    {
      this.typesToCount := typesToCount;
      result := [];
    }

    /** The inner loop of `evaluate`: whether some filter entry names `t`. */
    static method IsCounted(typesToCount: seq<nat>, t: nat) returns (found: bool)
      ensures found <==> t in typesToCount
    {
      found := false;
      for k := 0 to |typesToCount|
        invariant found <==> t in typesToCount[..k]
      {
        if typesToCount[k] == t {
          found := true;
          break;
        }
      }
      assert found || typesToCount[..|typesToCount|] == typesToCount;
    }

    /** `evaluate`: the result is cleared and then holds one force per counted entry, in data order. */
    method Evaluate(data: seq<DenseEntry>)
      modifies this
      ensures result == ForcesOf(data, typesToCount)
    {
      result := [];
      var i := 0;
      while i < |data|
        invariant 0 <= i <= |data|
        invariant result == ForcesOf(data[..i], typesToCount)
      {
        assert data[..i + 1][..i] == data[..i];
        if typesToCount == [] {
          result := result + [data[i].force];
        } else {
          var counted := IsCounted(typesToCount, data[i].ptype);
          if counted {
            result := result + [data[i].force];
          }
        }
        i := i + 1;
      }
      assert data[..i] == data;
    }
  }

  class ParticlesObservable {
    var resultTypes: seq<nat>
    var resultIds: seq<nat>
    var resultPositions: seq<Vec3>

    constructor ()
      ensures resultTypes == [] && resultIds == [] && resultPositions == []
    {
      resultTypes, resultIds, resultPositions := [], [], [];
    }

    /** `evaluate`: three index-aligned vectors of types, ids and positions. */
    method Evaluate(data: seq<DenseEntry>)
      modifies this
      ensures |resultTypes| == |resultIds| == |resultPositions| == |data|
      ensures forall i | 0 <= i < |data| ::
                resultTypes[i] == data[i].ptype && resultIds[i] == data[i].id && resultPositions[i] == data[i].pos
    {
      resultTypes, resultIds, resultPositions := [], [], [];
      for i := 0 to |data|
        invariant |resultTypes| == |resultIds| == |resultPositions| == i
        invariant forall j | 0 <= j < i ::
                    resultTypes[j] == data[j].ptype && resultIds[j] == data[j].id && resultPositions[j] == data[j].pos
      {
        resultTypes := resultTypes + [data[i].ptype];
        resultIds := resultIds + [data[i].id];
        resultPositions := resultPositions + [data[i].pos];
      }
    }
  }
}
