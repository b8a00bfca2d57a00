/**
 * The split planner of `OraOopDataDrivenDBInputFormat`: the table's data
 * chunks are grouped into `min(#chunks, desired)` input splits, one per
 * mapper, by one of three allocation methods (ROUNDROBIN, SEQUENTIAL,
 * RANDOM); `getSplits` refuses an empty chunk list and hands out the
 * configured location hints.
 *
 * The splits are objects updated in place, as in the connector: the planner
 * creates them, numbers them, and appends chunks to their lists.
 */
module SplitPlanner {
  import opened Wrappers
  import opened JavaStrings
  import opened DataChunks
  import OracleTables
  import U = Utilities

  // ------------------------------------------------------------ the splits

  /**
   * An `OraOopDBInputSplit` as far as the planner sees it. A split created
   * with the no-argument constructor is numbered 0, has no blocks, no chunks
   * and no location.
   */
  class InputSplit {
    var splitId: int32
    var totalNumberOfBlocksInAllSplits: int32
    var chunks: seq<Chunk>
    var splitLocation: Option<string>

    constructor ()
      ensures splitId == 0 && totalNumberOfBlocksInAllSplits == 0
      ensures chunks == [] && splitLocation == None
    {
      splitId := 0;
      totalNumberOfBlocksInAllSplits := 0;
      chunks := [];
      splitLocation := None;
    }
  }

  /** No split object appears twice in the list. */
  predicate Distinct(splits: seq<InputSplit>) {
    forall i, j :: 0 <= i < |splits| && 0 <= j < |splits| && i != j ==> splits[i] != splits[j]
  }

  /** Split `i` is numbered `i`, carries the table's block total and no location yet. */
  predicate Numbered(splits: seq<InputSplit>, total: int32)
    reads set i | 0 <= i < |splits| :: splits[i]
  {
    forall i :: 0 <= i < |splits| ==>
      splits[i].splitId == i && splits[i].totalNumberOfBlocksInAllSplits == total
      && splits[i].splitLocation == None
  }

  /** Split `i` holds list `i` of `lists`. */
  predicate Holds(splits: seq<InputSplit>, lists: seq<seq<Chunk>>)
    reads set i | 0 <= i < |splits| :: splits[i]
  {
    |splits| == |lists| && forall i :: 0 <= i < |splits| ==> splits[i].chunks == lists[i]
  }

  /** Why the planner throws: a negative list capacity or `get` on an empty list. */
  datatype PlannerError = IllegalCapacity(capacity: int) | IndexOutOfBounds(index: int, size: int)

  function Min(a: int, b: int): (r: int)
    ensures r <= a && r <= b && (r == a || r == b)
  {
    if a <= b then a else b
  }

  // ---------------------------------------------------------- block total

  /** Exact number of blocks in a list of chunks. */
  function BlocksSum(cs: seq<Chunk>): int {
    if cs == [] then 0 else BlocksSum(cs[..|cs| - 1]) + NumberOfBlocks(cs[|cs| - 1])
  }

  // -------------------------------------------------- concatenated lists

  /** All the lists, one after another. */
  function Flatten<T>(ss: seq<seq<T>>): seq<T> {
    if ss == [] then [] else Flatten(ss[..|ss| - 1]) + ss[|ss| - 1]
  }

  /** Appending to one list adds exactly that element to the whole. */
  lemma {:induction false} FlattenAppend<T>(ss: seq<seq<T>>, i: nat, x: T)
    requires i < |ss|
    ensures multiset(Flatten(ss[i := ss[i] + [x]])) == multiset(Flatten(ss)) + multiset{x}
  {
    var last := |ss| - 1;
    var tt := ss[i := ss[i] + [x]];
    var front := ss[..last];
    assert Flatten(ss) == Flatten(front) + ss[last];
    if i == last {
      assert tt[..last] == front;
      assert Flatten(tt) == Flatten(front) + (ss[last] + [x]);
    } else {
      assert tt[..last] == front[i := front[i] + [x]];
      assert Flatten(tt) == Flatten(front[i := front[i] + [x]]) + ss[last];
      FlattenAppend(front, i, x);
    }
  }

  /** Lists that are all empty hold nothing. */
  lemma {:induction false} FlattenEmpties<T>(k: nat)
    ensures Flatten<T>(seq(k, _ => [])) == []
  {
    if k > 0 {
      var ss: seq<seq<T>> := seq(k, _ => []);
      assert ss[..k - 1] == seq(k - 1, _ => []);
      FlattenEmpties<T>(k - 1);
    }
  }

  // ----------------------------------------------------------- ROUNDROBIN

  /**
   * ROUNDROBIN over `k` splits: the chunks are dealt out in input order, the
   * chunk at position `j` going to split `j % k`.
   */
  function RoundRobin<T>(cs: seq<T>, k: nat): (r: seq<seq<T>>)
    requires k >= 1
    ensures |r| == k
  {
    if cs == [] then seq(k, _ => [])
    else
      var p := RoundRobin(cs[..|cs| - 1], k);
      var i := (|cs| - 1) % k;
      p[i := p[i] + [cs[|cs| - 1]]]
  }

  /** The chunks at positions `i`, `i + k`, `i + 2k`, … in order. */
  function Stride<T>(cs: seq<T>, i: nat, k: nat): seq<T>
    requires k >= 1
    decreases |cs| - i
  {
    if i >= |cs| then [] else [cs[i]] + Stride(cs, i + k, k)
  }

  lemma MulMono(a: int, b: int, k: nat)
    requires a <= b
    ensures a * k <= b * k
  {
  }

  /** Euclidean division by a positive divisor is fixed by its defining equation. */
  lemma DivModUnique(a: int, k: int, q: int, r: int)
    requires k >= 1 && 0 <= r < k && a == q * k + r
    ensures a / k == q && a % k == r
  {
    var q0 := a / k;
    var r0 := a % k;
    assert a == q0 * k + r0;
    assert (q - q0) * k == r0 - r;
    if q - q0 >= 1 {
      MulMono(1, q - q0, k);
    } else if q - q0 <= -1 {
      MulMono(q - q0, -1, k);
    }
  }

  /** Position `n` is among `i`, `i + k`, … exactly when it leaves remainder `i`. */
  lemma Residue(n: nat, i: nat, k: nat)
    requires i < k
    ensures n % k == i <==> i <= n && (n - i) % k == 0
  {
    if n % k == i {
      DivModUnique(n - i, k, n / k, 0);
    }
    if i <= n && (n - i) % k == 0 {
      DivModUnique(n, k, (n - i) / k, i);
    }
  }

  lemma ModShift(d: nat, k: nat)
    requires k >= 1
    ensures (d + k) % k == d % k
  {
    DivModUnique(d + k, k, d / k + 1, d % k);
  }

  /** Position `n` is reached from `i` in steps of `k`. */
  predicate OnStride(n: nat, i: nat, k: nat)
    requires k >= 1
    decreases n - i
  {
    i == n || (i < n && OnStride(n, i + k, k))
  }

  /** Being on the stride is the remainder test the planner's loop amounts to. */
  lemma {:induction false} OnStrideMod(n: nat, i: nat, k: nat)
    requires k >= 1
    ensures OnStride(n, i, k) <==> i <= n && (n - i) % k == 0
    decreases n - i
  {
    if i < n {
      OnStrideMod(n, i + k, k);
      StrideTurn(n, i, k);
    }
  }

  /** Position `n` is on the stride from `i` exactly when it is on the stride from `i + k`. */
  lemma StrideTurn(n: nat, i: nat, k: nat)
    requires k >= 1 && i < n
    ensures (i + k <= n && (n - (i + k)) % k == 0) <==> (n - i) % k == 0
  {
    if n < i + k {
      assert 0 < n - i < k;
    } else {
      ModShift(n - (i + k), k);
    }
  }

  /** Appending an item extends exactly the stride that reaches its position. */
  lemma {:induction false} StrideSnoc<T>(cs: seq<T>, x: T, i: nat, k: nat)
    requires k >= 1
    ensures Stride(cs + [x], i, k) == Stride(cs, i, k) + (if OnStride(|cs|, i, k) then [x] else [])
    decreases |cs| - i
  {
    if i < |cs| {
      StrideSnoc(cs, x, i + k, k);
      assert (cs + [x])[i] == cs[i];
    } else if i == |cs| {
      assert Stride(cs + [x], i + k, k) == [];
    }
  }

  /**
   * Each ROUNDROBIN split holds the chunks whose position leaves its index as
   * remainder, in input order.
   */
  lemma {:induction false} RoundRobinStride<T>(cs: seq<T>, k: nat)
    requires k >= 1
    ensures forall i :: 0 <= i < k ==> RoundRobin(cs, k)[i] == Stride(cs, i, k)
  {
    if cs != [] {
      var n := |cs| - 1;
      var front := cs[..n];
      RoundRobinStride(front, k);
      assert cs == front + [cs[n]];
      forall i | 0 <= i < k
        ensures RoundRobin(cs, k)[i] == Stride(cs, i, k)
      {
        StrideSnoc(front, cs[n], i, k);
        OnStrideMod(n, i, k);
        Residue(n, i, k);
      }
    }
  }

  /** ROUNDROBIN neither drops nor duplicates a chunk. */
  lemma {:induction false} RoundRobinConserves<T>(cs: seq<T>, k: nat)
    requires k >= 1
    ensures multiset(Flatten(RoundRobin(cs, k))) == multiset(cs)
  {
    if cs == [] {
      FlattenEmpties<T>(k);
    } else {
      var n := |cs| - 1;
      var front := cs[..n];
      var p := RoundRobin(front, k);
      var i := n % k;
      assert RoundRobin(cs, k) == p[i := p[i] + [cs[n]]];
      RoundRobinConserves(front, k);
      FlattenAppend(p, i, cs[n]);
      MultisetSnoc(cs);
    }
  }

  /** A non-empty list holds its front and its last element. */
  lemma MultisetSnoc<T>(cs: seq<T>)
    requires cs != []
    ensures multiset(cs) == multiset(cs[..|cs| - 1]) + multiset{cs[|cs| - 1]}
  {
    assert cs == cs[..|cs| - 1] + [cs[|cs| - 1]];
  }

  lemma ModNext(j: nat, k: nat)
    requires k >= 1
    ensures (j + 1) % k == if j % k + 1 == k then 0 else j % k + 1
  {
    if j % k + 1 == k {
      DivModUnique(j + 1, k, j / k + 1, 0);
    } else {
      DivModUnique(j + 1, k, j / k, j % k + 1);
    }
  }

  // ----------------------------------------------------------- SEQUENTIAL

  /**
   * First position of SEQUENTIAL split `m` of `k` over `n` chunks: the least
   * `j` with `j * k >= m * n`, i.e. the ceiling of `m * n / k`.
   */
  function Start(m: nat, n: nat, k: nat): nat
    requires k >= 1
  {
    (m * n + k - 1) / k
  }

  lemma StartBracket(m: nat, n: nat, k: nat)
    requires k >= 1
    ensures Start(m, n, k) * k >= m * n
    ensures Start(m, n, k) * k < m * n + k
  {
    var a := m * n + k - 1;
    assert a == (a / k) * k + a % k;
  }

  /**
   * `j` allocated chunks reach the threshold of split `m`, `(n / k) * m`,
   * compared exactly.
   */
  predicate Reached(j: int, m: int, n: int, k: int) {
    j * k >= m * n
  }

  /** `j` has reached split `m`'s threshold exactly when it is past `Start(m)`. */
  lemma StartLeast(m: nat, n: nat, k: nat, j: nat)
    requires k >= 1
    ensures j >= Start(m, n, k) <==> Reached(j, m, n, k)
  {
    var s := Start(m, n, k);
    StartBracket(m, n, k);
    if j >= s {
      MulMono(s, j, k);
    } else {
      MulMono(j, s - 1, k);
    }
  }

  /** The runs start at 0 and end at `n`. */
  lemma StartEnds(n: nat, k: nat)
    requires k >= 1
    ensures Start(0, n, k) == 0 && Start(k, n, k) == n
  {
    DivModUnique(k - 1, k, 0, k - 1);
    DivModUnique(k * n + k - 1, k, n, k - 1);
  }

  /** The run starts grow with the split index. */
  lemma StartOrder(a: nat, b: nat, n: nat, k: nat)
    requires 1 <= k && a <= b
    ensures Start(a, n, k) <= Start(b, n, k)
  {
    StartBracket(b, n, k);
    MulMono(a, b, n);
    StartLeast(a, n, k, Start(b, n, k));
  }

  /** With at least as many chunks as splits, every run is longer than empty. */
  lemma StartStrict(m: nat, n: nat, k: nat)
    requires 1 <= k <= n
    ensures Start(m, n, k) < Start(m + 1, n, k)
  {
    StartBracket(m, n, k);
    StartLeast(m + 1, n, k, Start(m, n, k));
  }

  /** The runs lie within the list, in order. */
  lemma StartBounds(m: nat, n: nat, k: nat)
    requires 1 <= k && m < k
    ensures Start(0, n, k) == 0 && Start(k, n, k) == n
    ensures Start(m, n, k) <= Start(m + 1, n, k) <= n
  {
    StartEnds(n, k);
    StartOrder(m, m + 1, n, k);
    StartOrder(m + 1, k, n, k);
  }

  /** SEQUENTIAL split `m` of `k`: the contiguous run of chunks from `Start(m)` to `Start(m + 1)`. */
  function SequentialRun<T>(cs: seq<T>, k: nat, m: nat): seq<T>
    requires 1 <= k && m < k
  {
    StartBounds(m, |cs|, k);
    cs[Start(m, |cs|, k)..Start(m + 1, |cs|, k)]
  }

  /** SEQUENTIAL over `k` splits. */
  function Sequential<T>(cs: seq<T>, k: nat): (r: seq<seq<T>>)
    requires k >= 1
    ensures |r| == k
  {
    seq(k, m requires 0 <= m < k => SequentialRun(cs, k, m))
  }

  /**
   * The chunk at position `j` is in SEQUENTIAL split `m` exactly when
   * `m * n <= j * k < (m + 1) * n`: the split index advances once the chunks
   * allocated so far reach `(n / k) * (index + 1)`.
   */
  lemma SequentialOwner(n: nat, k: nat, m: nat, j: nat)
    requires 1 <= k && m < k
    ensures Start(m, n, k) <= j < Start(m + 1, n, k) <==> m * n <= j * k < (m + 1) * n
  {
    StartLeast(m, n, k, j);
    StartLeast(m + 1, n, k, j);
  }

  /** SEQUENTIAL hands out the whole list, in order, as consecutive runs. */
  lemma SequentialConcatenates<T>(cs: seq<T>, k: nat)
    requires k >= 1
    ensures Flatten(Sequential(cs, k)) == cs
  {
    SequentialPrefix(cs, k, k);
    StartBounds(0, |cs|, k);
    assert Sequential(cs, k)[..k] == Sequential(cs, k);
  }

  lemma {:induction false} SequentialPrefix<T>(cs: seq<T>, k: nat, m: nat)
    requires 1 <= k && m <= k
    ensures Start(m, |cs|, k) <= |cs| && Flatten(Sequential(cs, k)[..m]) == cs[..Start(m, |cs|, k)]
  {
    var ss := Sequential(cs, k);
    var n := |cs|;
    StartEnds(n, k);
    StartOrder(m, k, n, k);
    if m == 0 {
      StartEnds(n, k);
    } else {
      SequentialPrefix(cs, k, m - 1);
      StartBounds(m - 1, n, k);
      var a := Start(m - 1, n, k);
      var b := Start(m, n, k);
      var prev := ss[..m - 1];
      var run := ss[m - 1];
      assert run == cs[a..b];
      assert ss[..m] == prev + [run];
      FlattenSnoc(prev, run);
      assert cs[..a] + cs[a..b] == cs[..b];
    }
  }

  lemma FlattenSnoc<T>(ss: seq<seq<T>>, s: seq<T>)
    ensures Flatten(ss + [s]) == Flatten(ss) + s
  {
    assert (ss + [s])[..|ss|] == ss;
  }

  /** With at least as many chunks as splits, no SEQUENTIAL split is empty. */
  lemma SequentialNonEmpty<T>(cs: seq<T>, k: nat, m: nat)
    requires 1 <= k <= |cs| && m < k
    ensures |Sequential(cs, k)[m]| >= 1
  {
    StartBounds(m, |cs|, k);
    StartStrict(m, |cs|, k);
  }

  /**
   * SEQUENTIAL splits are balanced: each holds `n / k` chunks rounded down
   * or up, so `|run| * k` is within `k` of `n`.
   */
  lemma SequentialBalanced<T>(cs: seq<T>, k: nat, m: nat)
    requires 1 <= k && m < k
    ensures |cs| - k < |Sequential(cs, k)[m]| * k < |cs| + k
  {
    var n := |cs|;
    StartBounds(m, n, k);
    StartBracket(m, n, k);
    StartBracket(m + 1, n, k);
    var a := Start(m, n, k);
    var b := Start(m + 1, n, k);
    assert |Sequential(cs, k)[m]| == b - a;
    GapBetween(a, b, m * n, n, k);
  }

  /** Two starts bracketed `n` apart lie less than one split from `n / k` apart. */
  lemma GapBetween(a: int, b: int, x: int, n: int, k: int)
    requires a * k >= x && a * k < x + k
    requires b * k >= x + n && b * k < x + n + k
    ensures n - k < (b - a) * k < n + k
  {
    assert (b - a) * k == b * k - a * k;
  }

  /**
   * The workload check of the connector's own unit test: 241 chunks in 32
   * SEQUENTIAL splits give every split 7 or 8 chunks, so the smallest split
   * has at least 75% of the largest one's chunks.
   */
  lemma SequentialWorkload241<T>(cs: seq<T>, m: nat, m': nat)
    requires |cs| == 241 && m < 32 && m' < 32
    ensures 7 <= |Sequential(cs, 32)[m]| <= 8
    ensures 4 * |Sequential(cs, 32)[m]| >= 3 * |Sequential(cs, 32)[m']|
  {
    SequentialBalanced(cs, 32, m);
    SequentialBalanced(cs, 32, m');
  }

  // ----------------------------------------------------------- the planner

  /** The block-count loop: a running `int` sum, which wraps as the exact sum does. */
  method TotalBlocks(dataChunks: array<Chunk>) returns (total: int32)
    ensures total == Wrap32(BlocksSum(dataChunks[..]))
  {
    total := 0;
    for j := 0 to dataChunks.Length
      invariant total == Wrap32(BlocksSum(dataChunks[..j]))
    {
      assert dataChunks[..j + 1][..j] == dataChunks[..j];
      WrapAdd(BlocksSum(dataChunks[..j]), NumberOfBlocks(dataChunks[j]));
      total := Wrap32(total + NumberOfBlocks(dataChunks[j]));
    }
    assert dataChunks[..dataChunks.Length] == dataChunks[..];
  }

  /**
   * How the chunks, in the order the switch sees them, are shared among `k`
   * splits. RANDOM deals out the shuffled list as ROUNDROBIN does.
   */
  function Allocation(blockAllocationMethod: U.BlockAllocationMethod, cs: seq<Chunk>, k: nat): (r: seq<seq<Chunk>>)
    requires k >= 1
    ensures |r| == k
  {
    if blockAllocationMethod == U.SEQUENTIAL then Sequential(cs, k) else RoundRobin(cs, k)
  }

  /** Every allocation method hands out each chunk exactly once. */
  lemma AllocationConserves(blockAllocationMethod: U.BlockAllocationMethod, cs: seq<Chunk>, k: nat)
    requires k >= 1
    ensures multiset(Flatten(Allocation(blockAllocationMethod, cs, k))) == multiset(cs)
  {
    if blockAllocationMethod == U.SEQUENTIAL {
      SequentialConcatenates(cs, k);
    } else {
      RoundRobinConserves(cs, k);
    }
  }

  /** `new OraOopDBInputSplit()` `k` times, numbered and given the block total. */
  method NewSplits(k: nat, total: int32) returns (splits: seq<InputSplit>)
    requires k <= MAX_INT
    ensures |splits| == k && Distinct(splits) && Numbered(splits, total)
    ensures forall i :: 0 <= i < k ==> fresh(splits[i]) && splits[i].chunks == []
  {
    splits := [];
    for i := 0 to k
      invariant |splits| == i && Distinct(splits) && Numbered(splits, total)
      invariant forall m :: 0 <= m < i ==> fresh(splits[m]) && splits[m].chunks == []
    {
      var split := new InputSplit();
      split.splitId := i;
      split.totalNumberOfBlocksInAllSplits := total;
      splits := splits + [split];
    }
  }

  /** `Collections.shuffle` on the caller's list, its outcome given as `shuffled`. */
  method Shuffle(dataChunks: array<Chunk>, shuffled: seq<Chunk>)
    requires |shuffled| == dataChunks.Length
    modifies dataChunks
    ensures dataChunks[..] == shuffled
  {
    for j := 0 to dataChunks.Length
      invariant dataChunks[..j] == shuffled[..j]
    {
      dataChunks[j] := shuffled[j];
    }
  }

  /** `split.getDataChunks().add(dataChunk)` on split `idx`; the other splits are untouched. */
  method AddDataChunk(splits: seq<InputSplit>, idx: nat, dataChunk: Chunk, ghost total: int32)
    requires idx < |splits| && Distinct(splits) && Numbered(splits, total)
    modifies splits[idx]
    ensures Numbered(splits, total)
    ensures forall m :: 0 <= m < |splits| ==>
              splits[m].chunks == old(splits[m].chunks) + (if m == idx then [dataChunk] else [])
  {
    splits[idx].chunks := splits[idx].chunks + [dataChunk];
  }

  /** The ROUNDROBIN loop, from the list's first chunk. */
  method DealRoundRobin(splits: seq<InputSplit>, dataChunks: array<Chunk>, ghost total: int32)
    requires |splits| >= 1 && Distinct(splits) && Numbered(splits, total)
    requires forall i :: 0 <= i < |splits| ==> splits[i].chunks == []
    modifies set i | 0 <= i < |splits| :: splits[i]
    ensures Numbered(splits, total)
    ensures Holds(splits, RoundRobin(dataChunks[..], |splits|))
  {
    var k := |splits|;
    var idxSplit := 0;
    for j := 0 to dataChunks.Length
      invariant 0 <= idxSplit <= k && (if idxSplit == k then 0 else idxSplit) == j % k
      invariant Numbered(splits, total)
      invariant forall i :: 0 <= i < k ==> splits[i].chunks == RoundRobin(dataChunks[..j], k)[i]
    {
      if idxSplit >= k {
        idxSplit := 0;
      }
      ModNext(j, k);
      assert dataChunks[..j + 1][..j] == dataChunks[..j];
      AddDataChunk(splits, idxSplit, dataChunks[j], total);
      idxSplit := idxSplit + 1;
    }
    assert dataChunks[..dataChunks.Length] == dataChunks[..];
  }

  /** The run starts of SEQUENTIAL over `n` chunks and `k` splits; entry `k` ends the list. */
  function Starts(n: nat, k: nat): (r: seq<nat>)
    requires k >= 1
    ensures |r| == k + 1
  {
    seq(k + 1, m requires 0 <= m <= k => Start(m, n, k))
  }

  /**
   * Run starts as the SEQUENTIAL loop uses them: from 0 to `n`, strictly
   * increasing, `starts[m]` being the first count that reaches threshold `m`.
   */
  ghost predicate Boundaries(starts: seq<nat>, n: nat, k: nat) {
    && |starts| == k + 1 && starts[0] == 0 && starts[k] == n
    && (forall m :: 0 <= m < k ==> starts[m] < starts[m + 1])
    && (forall a, b :: 0 <= a <= b <= k ==> starts[a] <= starts[b])
    && (forall m, j: nat :: 0 <= m <= k ==> (Reached(j, m, n, k) <==> j >= starts[m]))
  }

  lemma StartsAreBoundaries(n: nat, k: nat)
    requires 1 <= k <= n
    ensures Boundaries(Starts(n, k), n, k)
  {
    var starts := Starts(n, k);
    StartEnds(n, k);
    forall m | 0 <= m < k
      ensures starts[m] < starts[m + 1]
    {
      StartStrict(m, n, k);
    }
    forall a, b | 0 <= a <= b <= k
      ensures starts[a] <= starts[b]
    {
      StartOrder(a, b, n, k);
    }
    forall m, j: nat | 0 <= m <= k
      ensures Reached(j, m, n, k) <==> j >= starts[m]
    {
      StartLeast(m, n, k, j);
    }
  }

  /**
   * The index test of the SEQUENTIAL loop: move to the next split once the
   * chunks allocated reach its threshold, while a next split exists.
   */
  method NextSplit(idxSplit: nat, dataChunksAllocatedToSplits: nat, n: nat, k: nat, ghost starts: seq<nat>)
    returns (next: nat)
    requires 1 <= k && idxSplit < k && |starts| == k + 1
    requires starts[idxSplit] < dataChunksAllocatedToSplits <= starts[idxSplit + 1]
    requires Reached(dataChunksAllocatedToSplits, idxSplit + 1, n, k) <==> dataChunksAllocatedToSplits >= starts[idxSplit + 1]
    requires idxSplit + 1 < k ==> starts[idxSplit + 1] < starts[idxSplit + 2]
    ensures next <= k && starts[next] <= dataChunksAllocatedToSplits
    ensures next < k ==> dataChunksAllocatedToSplits < starts[next + 1]
  {
    next := idxSplit;
    if Reached(dataChunksAllocatedToSplits, idxSplit + 1, n, k) && idxSplit < k {
      next := idxSplit + 1;
    }
  }

  /** The SEQUENTIAL loop, from the list's first chunk. */
  method DealSequential(splits: seq<InputSplit>, dataChunks: array<Chunk>, ghost total: int32)
    requires 1 <= |splits| <= dataChunks.Length && Distinct(splits) && Numbered(splits, total)
    requires forall i :: 0 <= i < |splits| ==> splits[i].chunks == []
    modifies set i | 0 <= i < |splits| :: splits[i]
    ensures Numbered(splits, total)
    ensures Holds(splits, Sequential(dataChunks[..], |splits|))
  {
    var k := |splits|;
    var n := dataChunks.Length;
    ghost var cs := dataChunks[..];
    assert |cs| == n;
    ghost var starts := Starts(n, k);
    StartsFirst(n, k);
    var dataChunksAllocatedToSplits := 0;
    var idxSplit := 0;
    for j := 0 to n
      invariant dataChunksAllocatedToSplits == j && 0 <= idxSplit <= k
      invariant starts[idxSplit] <= j && (idxSplit < k ==> j < starts[idxSplit + 1])
      invariant Numbered(splits, total)
      invariant forall m :: 0 <= m < k ==> splits[m].chunks == Dealt(cs, starts, m, j)
    {
      DealtStarts(cs, k, idxSplit, j);
      AddDataChunk(splits, idxSplit, dataChunks[j], total);
      dataChunksAllocatedToSplits := dataChunksAllocatedToSplits + 1;
      StartsAround(n, k, idxSplit, dataChunksAllocatedToSplits);
      idxSplit := NextSplit(idxSplit, dataChunksAllocatedToSplits, n, k, starts);
    }
    DealtSequential(cs, k);
  }

  /** The first run starts at 0 and is not empty; entry `k` ends the list. */
  lemma StartsFirst(n: nat, k: nat)
    requires 1 <= k <= n
    ensures Starts(n, k)[0] == 0 < Starts(n, k)[1]
    ensures Starts(n, k)[k] == n
  {
    StartEnds(n, k);
    StartStrict(0, n, k);
  }

  /** What the index step needs to know about the run starts next to split `idx`. */
  lemma StartsAround(n: nat, k: nat, idx: nat, count: nat)
    requires 1 <= k <= n && idx < k
    ensures Reached(count, idx + 1, n, k) <==> count >= Starts(n, k)[idx + 1]
    ensures idx + 1 < k ==> Starts(n, k)[idx + 1] < Starts(n, k)[idx + 2]
  {
    StartLeast(idx + 1, n, k, count);
    StartStrict(idx + 1, n, k);
  }

  /** Dealing chunk `j` inside run `idx` of the run starts adds it to that run only. */
  lemma DealtStarts<T>(cs: seq<T>, k: nat, idx: nat, j: nat)
    requires 1 <= k <= |cs| && idx < k && j < |cs|
    requires Starts(|cs|, k)[idx] <= j < Starts(|cs|, k)[idx + 1]
    ensures forall m :: 0 <= m < k ==>
              Dealt(cs, Starts(|cs|, k), m, j + 1) == Dealt(cs, Starts(|cs|, k), m, j) + (if m == idx then [cs[j]] else [])
  {
    StartsAreBoundaries(|cs|, k);
    DealtStep(cs, Starts(|cs|, k), idx, j);
  }

  /** Dealing the whole list by the run starts gives the runs of `Sequential`. */
  lemma DealtSequential<T>(cs: seq<T>, k: nat)
    requires 1 <= k <= |cs|
    ensures |Sequential(cs, k)| == k
    ensures forall m :: 0 <= m < k ==> Dealt(cs, Starts(|cs|, k), m, |cs|) == Sequential(cs, k)[m]
  {
    forall m | 0 <= m < k
      ensures Dealt(cs, Starts(|cs|, k), m, |cs|) == Sequential(cs, k)[m]
    {
      DealtAll(cs, k, m);
    }
  }

  /** Only the run starts satisfy the boundary conditions. */
  lemma BoundariesUnique(starts: seq<nat>, n: nat, k: nat)
    requires 1 <= k <= n && Boundaries(starts, n, k)
    ensures starts == Starts(n, k)
  {
    forall m | 0 <= m <= k
      ensures starts[m] == Start(m, n, k)
    {
      StartLeast(m, n, k, starts[m]);
      StartLeast(m, n, k, Start(m, n, k));
    }
  }

  /** What the run from `starts[m]` to `starts[m + 1]` holds once the first `j` chunks are dealt. */
  ghost function Dealt<T>(cs: seq<T>, starts: seq<nat>, m: nat, j: nat): seq<T>
    requires m + 1 < |starts| && j <= |cs|
  {
    if j == 0 then []
    else Dealt(cs, starts, m, j - 1) + (if starts[m] <= j - 1 < starts[m + 1] then [cs[j - 1]] else [])
  }

  /** Once every chunk is dealt, a run holds exactly its slice of the list. */
  lemma {:induction false} DealtSlice<T>(cs: seq<T>, starts: seq<nat>, m: nat, j: nat)
    requires m + 1 < |starts| && starts[m] <= starts[m + 1] <= |cs| && j <= |cs|
    ensures Dealt(cs, starts, m, j) == cs[Min(starts[m], j)..Min(starts[m + 1], j)]
  {
    if j > 0 {
      DealtSlice(cs, starts, m, j - 1);
      if starts[m] <= j - 1 < starts[m + 1] {
        assert cs[starts[m]..j - 1] + [cs[j - 1]] == cs[starts[m]..j];
      }
    }
  }

  lemma DealtStep<T>(cs: seq<T>, starts: seq<nat>, idx: nat, j: nat)
    requires idx + 1 < |starts| && j < |cs| && starts[idx] <= j < starts[idx + 1]
    requires forall a, b :: 0 <= a <= b < |starts| ==> starts[a] <= starts[b]
    ensures forall m :: 0 <= m < |starts| - 1 ==>
              Dealt(cs, starts, m, j + 1) == Dealt(cs, starts, m, j) + (if m == idx then [cs[j]] else [])
  {
    forall m | 0 <= m < |starts| - 1
      ensures Dealt(cs, starts, m, j + 1) == Dealt(cs, starts, m, j) + (if m == idx then [cs[j]] else [])
    {
      if m < idx {
        assert starts[m + 1] <= starts[idx];
      } else if m > idx {
        assert starts[idx + 1] <= starts[m];
      }
    }
  }

  lemma DealtAll<T>(cs: seq<T>, k: nat, m: nat)
    requires 1 <= k <= |cs| && m < k
    ensures Boundaries(Starts(|cs|, k), |cs|, k)
    ensures Dealt(cs, Starts(|cs|, k), m, |cs|) == Sequential(cs, k)[m]
  {
    StartsAreBoundaries(|cs|, k);
    DealtSlice(cs, Starts(|cs|, k), m, |cs|);
  }

  /**
   * `groupTableDataChunksIntoSplits`. `shuffled` is the order
   * `Collections.shuffle` leaves the caller's list in when the method is
   * RANDOM. A negative desired count fails when the split list is created; a
   * desired count of 0 leaves no split for the first chunk.
   */
  method GroupTableDataChunksIntoSplits(dataChunks: array<Chunk>, desiredNumberOfSplits: int32,
                                        blockAllocationMethod: U.BlockAllocationMethod,
                                        shuffled: seq<Chunk>)
    returns (r: Result<seq<InputSplit>, PlannerError>)
    requires multiset(shuffled) == multiset(dataChunks[..])
    modifies dataChunks
    ensures var n := dataChunks.Length;
            var k := Min(n, desiredNumberOfSplits as int);
            && (k < 0 ==> r == Err(IllegalCapacity(k)) && dataChunks[..] == old(dataChunks[..]))
            && (k == 0 && n > 0 ==> r == Err(IndexOutOfBounds(0, 0)))
            && (k == 0 && n == 0 ==> r == Ok([]))
            && (k >= 0 && blockAllocationMethod == U.RANDOM ==> dataChunks[..] == shuffled)
            && (k >= 0 && blockAllocationMethod != U.RANDOM ==> dataChunks[..] == old(dataChunks[..]))
            && (k >= 1 ==>
                  && r.Ok? && |r.value| == k && Distinct(r.value)
                  && (forall i :: 0 <= i < k ==> fresh(r.value[i]))
                  && Numbered(r.value, Wrap32(BlocksSum(old(dataChunks[..]))))
                  && Holds(r.value, Allocation(blockAllocationMethod, dataChunks[..], k)))
  {
    var numberOfDataChunks := dataChunks.Length;
    var actualNumberOfSplits := Min(numberOfDataChunks, desiredNumberOfSplits as int);
    var totalNumberOfBlocksInAllDataChunks := TotalBlocks(dataChunks);
    if actualNumberOfSplits < 0 {
      return Err(IllegalCapacity(actualNumberOfSplits));
    }
    var splits := NewSplits(actualNumberOfSplits, totalNumberOfBlocksInAllDataChunks);
    if blockAllocationMethod == U.RANDOM {
      assert |shuffled| == |multiset(shuffled)| == |multiset(dataChunks[..])| == dataChunks.Length;
      Shuffle(dataChunks, shuffled);
    }
    if actualNumberOfSplits == 0 {
      if numberOfDataChunks > 0 {
        return Err(IndexOutOfBounds(0, 0));
      }
      return Ok([]);
    }
    if blockAllocationMethod == U.SEQUENTIAL {
      DealSequential(splits, dataChunks, totalNumberOfBlocksInAllDataChunks);
    } else {
      DealRoundRobin(splits, dataChunks, totalNumberOfBlocksInAllDataChunks);
    }
    r := Ok(splits);
  }

  // ------------------------------------------------------------ getSplits

  /**
   * Chunks asked of each Oracle data file: `2 * desired + 1` in `int`
   * arithmetic, so that the count is never a multiple of the split count.
   */
  function ChunksPerOracleDataFile(desiredNumberOfMappers: int32): int32 {
    Wrap32(desiredNumberOfMappers * 2 + 1)
  }

  /** The chunk count is odd, and with two or more mappers it leaves remainder 1. */
  lemma ChunksPerFileNotMultiple(desiredNumberOfMappers: int32)
    ensures ChunksPerOracleDataFile(desiredNumberOfMappers) % 2 == 1
    ensures 2 <= desiredNumberOfMappers <= (MAX_INT - 1) / 2 ==>
              ChunksPerOracleDataFile(desiredNumberOfMappers) % desiredNumberOfMappers == 1
  {
    var d := desiredNumberOfMappers as int;
    var x := d * 2 + 1;
    var r := ChunksPerOracleDataFile(desiredNumberOfMappers) as int;
    var q := (x - r) / TWO_32;
    assert x - r == q * TWO_32 + (x - r) % TWO_32;
    DivModUnique(r, 2, d - q * 0x8000_0000, 1);
    if 2 <= d <= (MAX_INT - 1) / 2 {
      DivModUnique(x, d, 2, 1);
    }
  }

  /** The fatal message for a table without chunks, worded by chunk method. */
  function NoChunksMessage(chunkMethod: U.DataChunkMethod, table: OracleTables.OracleTable): string {
    if chunkMethod == U.PARTITION then
      "The table " + OracleTables.Text(table.name)
      + " does not contain any partitions and you have specified to chunk the table by partitions."
    else
      "The table " + OracleTables.Text(table.name) + " does not contain any data."
  }

  /** The two wordings differ, so the message tells which chunk method failed. */
  lemma NoChunksMessagesDiffer(table: OracleTables.OracleTable)
    ensures NoChunksMessage(U.PARTITION, table) != NoChunksMessage(U.ROWID, table)
  {
    var name := OracleTables.Text(table.name);
    var a := NoChunksMessage(U.PARTITION, table);
    var b := NoChunksMessage(U.ROWID, table);
    assert |a| != |b|;
  }

  /** Split `idx`'s hint: entry `idx` of the comma-separated list, trimmed, unless empty. */
  function LocationHint(oraoopLocations: string, idx: nat): (r: Option<string>)
    ensures r.Some? ==> r.value != "" && IsTrim(r.value) && ',' !in r.value
  {
    Hint(Split(oraoopLocations, ','), idx)
  }

  /** Entry `idx` of the already split location list, trimmed, unless empty or missing. */
  function Hint(locations: seq<string>, idx: nat): (r: Option<string>)
    requires forall i :: 0 <= i < |locations| ==> ',' !in locations[i]
    ensures r.Some? ==> r.value != "" && IsTrim(r.value) && ',' !in r.value
  {
    if idx < |locations| then
      var location := Trim(locations[idx]);
      TrimKeepsOut(locations[idx], ',');
      if location != "" then Some(location) else None
    else None
  }

  /** No configured locations (the empty default) means no hints at all. */
  lemma NoLocationsNoHints(idx: nat)
    ensures LocationHint("", idx) == None
  {
    assert Split("", ',') == [""];
  }

  /**
   * The location loop of `getSplits`: split `idx` takes hint `idx` when there
   * is one; splits without a hint keep their location, and nothing else
   * changes.
   */
  method AssignLocations(splits: seq<InputSplit>, oraoopLocations: string)
    requires Distinct(splits)
    modifies set i | 0 <= i < |splits| :: splits[i]
    ensures forall i :: 0 <= i < |splits| ==>
              splits[i].splitLocation
                == (if LocationHint(oraoopLocations, i).Some? then LocationHint(oraoopLocations, i)
                    else old(splits[i].splitLocation))
    ensures forall i :: 0 <= i < |splits| ==>
              splits[i].splitId == old(splits[i].splitId) && splits[i].chunks == old(splits[i].chunks)
              && splits[i].totalNumberOfBlocksInAllSplits == old(splits[i].totalNumberOfBlocksInAllSplits)
  {
    var locations := Split(oraoopLocations, ',');
    AssignHints(splits, locations);
  }

  method AssignHints(splits: seq<InputSplit>, locations: seq<string>)
    requires Distinct(splits)
    requires forall i :: 0 <= i < |locations| ==> ',' !in locations[i]
    modifies set i | 0 <= i < |splits| :: splits[i]
    ensures forall i :: 0 <= i < |splits| ==>
              splits[i].splitLocation
                == (if Hint(locations, i).Some? then Hint(locations, i) else old(splits[i].splitLocation))
    ensures forall i :: 0 <= i < |splits| ==>
              splits[i].splitId == old(splits[i].splitId) && splits[i].chunks == old(splits[i].chunks)
              && splits[i].totalNumberOfBlocksInAllSplits == old(splits[i].totalNumberOfBlocksInAllSplits)
  {
    for idx := 0 to |locations|
      invariant forall i :: 0 <= i < |splits| ==>
                  splits[i].splitLocation
                    == (if i < idx && Hint(locations, i).Some? then Hint(locations, i)
                        else old(splits[i].splitLocation))
      invariant forall i :: 0 <= i < |splits| ==>
                  splits[i].splitId == old(splits[i].splitId) && splits[i].chunks == old(splits[i].chunks)
                  && splits[i].totalNumberOfBlocksInAllSplits == old(splits[i].totalNumberOfBlocksInAllSplits)
    {
      if idx < |splits| {
        HintSplit(splits[idx], locations, idx);
      }
    }
  }

  /** One turn of the location loop, on a split that exists. */
  method HintSplit(split: InputSplit, locations: seq<string>, idx: nat)
    requires idx < |locations| && forall i :: 0 <= i < |locations| ==> ',' !in locations[i]
    modifies split
    ensures split.splitLocation
              == (if Hint(locations, idx).Some? then Hint(locations, idx) else old(split.splitLocation))
    ensures split.splitId == old(split.splitId) && split.chunks == old(split.chunks)
    ensures split.totalNumberOfBlocksInAllSplits == old(split.totalNumberOfBlocksInAllSplits)
  {
    var location := Trim(locations[idx]);
    assert Hint(locations, idx) == if location != "" then Some(location) else None;
    if location != "" {
      split.splitLocation := Some(location);
    }
  }

  /** Why `getSplits` fails: no chunks to plan, or the planner threw. */
  datatype SplitsError = NoChunks(message: string) | PlannerFailed(error: PlannerError)

  /**
   * `getSplits` once the chunks are known: an empty chunk list is fatal;
   * otherwise the chunks are grouped into splits, which then take their
   * location hints.
   */
  method GetSplits(dataChunks: array<Chunk>, desiredNumberOfMappers: int32,
                   chunkMethod: U.DataChunkMethod, blockAllocationMethod: U.BlockAllocationMethod,
                   table: OracleTables.OracleTable, shuffled: seq<Chunk>, oraoopLocations: string)
    returns (r: Result<seq<InputSplit>, SplitsError>)
    requires multiset(shuffled) == multiset(dataChunks[..])
    modifies dataChunks
    ensures dataChunks.Length == 0 ==> r == Err(NoChunks(NoChunksMessage(chunkMethod, table)))
    ensures dataChunks.Length > 0 && desiredNumberOfMappers < 1 ==> r.Err? && r.error.PlannerFailed?
    ensures dataChunks.Length > 0 && desiredNumberOfMappers >= 1 ==>
              var k := Min(dataChunks.Length, desiredNumberOfMappers as int);
              && r.Ok? && |r.value| == k
              && (forall i :: 0 <= i < k ==>
                    r.value[i].splitId == i && r.value[i].splitLocation == LocationHint(oraoopLocations, i))
              && Holds(r.value, Allocation(blockAllocationMethod, dataChunks[..], k))
              && multiset(Flatten(Allocation(blockAllocationMethod, dataChunks[..], k))) == multiset(old(dataChunks[..]))
  {
    if dataChunks.Length == 0 {
      return Err(NoChunks(NoChunksMessage(chunkMethod, table)));
    }
    ghost var before := dataChunks[..];
    var planned := GroupTableDataChunksIntoSplits(dataChunks, desiredNumberOfMappers, blockAllocationMethod, shuffled);
    if planned.Err? {
      return Err(PlannerFailed(planned.error));
    }
    var splits := planned.value;
    assert multiset(dataChunks[..]) == multiset(before);
    AllocationConserves(blockAllocationMethod, dataChunks[..], |splits|);
    AssignLocations(splits, oraoopLocations);
    r := Ok(splits);
  }
}
