/** The vocabulary-parallel embedding lookup: one program per tile of the output, one launch per rank. */
module EmbeddingKernel {
  import opened Basics

  const BLOCK_M: nat := 64

  datatype Error = BadShard | ShardTooWide | NoColumns

  /** `triton.next_power_of_2` of a positive number: the smallest power of two not below it. */
  function NextPowerOfTwo(n: nat, p: nat): (r: nat)
    requires p > 0
    ensures r >= n && r >= p && (r == p || r < 2 * n)
    decreases n - p
  {
    if p >= n then p else NextPowerOfTwo(n, 2 * p)
  }

  function BlockD(d: nat): (b: nat)
    requires d > 0
    ensures b > 0
  {
    if d >= 128 then 128 else NextPowerOfTwo(d, 1)
  }

  // ---- one rank ----------------------------------------------------------------------------------

  /** A rank's table has rows of `d` columns; its row 0 is global id `start`. */
  datatype Shard = Shard(weight: seq<seq<real>>, start: int, end: int)

  predicate Columns(weight: seq<seq<real>>, d: nat) {
    forall i :: 0 <= i < |weight| ==> |weight[i]| == d
  }

  predicate Fits(s: Shard) { s.start <= s.end && s.end - s.start <= |s.weight| }

  /** A row of the rank's table for ids in the shard, zeros for the others. */
  function Lookup(s: Shard, id: int, d: nat, col: nat): real
    requires Columns(s.weight, d) && Fits(s) && col < d
  {
    if s.start <= id < s.end then s.weight[id - s.start][col] else 0.0
  }

  /** The rows and columns of a program's tile. */
  predicate InTile(pm: nat, pd: nat, blockD: nat, m: int, col: int) {
    pm * BLOCK_M <= m < (pm + 1) * BLOCK_M && pd * blockD <= col < (pd + 1) * blockD
  }

  /** Every cell of the output lies in the tile of exactly one program of the grid. */
  lemma TiledOnce(rows: nat, d: nat, m: nat, col: nat)
    requires d > 0 && m < rows && col < d
    ensures var b := BlockD(d); var p := (m / BLOCK_M, col / b);
            && p.0 < Cdiv(rows, BLOCK_M) && p.1 < Cdiv(d, b) && InTile(p.0, p.1, b, m, col)
            && forall pm: nat, pd: nat :: InTile(pm, pd, b, m, col) ==> (pm, pd) == p
  {
    var b := BlockD(d);
    InCount(m, rows, BLOCK_M);
    InCount(col, d, b);
    forall pm: nat, pd: nat | InTile(pm, pd, b, m, col) ensures (pm, pd) == (m / BLOCK_M, col / b) {
      DivIs(m, BLOCK_M, pm);
      DivIs(col, b, pd);
    }
  }

  /** One program: loads the ids of its rows, gathers, and stores its tile, masked at the edges. The output is
      contiguous: a cell is at its row times the columns plus its column. */
  method Program(ids: seq<int>, s: Shard, d: nat, blockD: nat, pm: nat, pd: nat, out: array<real>)
    requires Columns(s.weight, d) && Fits(s) && out.Length == Area(|ids|, d)
    modifies out
    ensures forall m, col :: 0 <= m < |ids| && 0 <= col < d ==>
              var k := Address(|ids|, d, m, col);
              out[k] == if InTile(pm, pd, blockD, m, col) then Lookup(s, ids[m], d, col) else old(out[k])
  {
    hide Address, Area;
    for i := 0 to BLOCK_M
      invariant forall m, col :: 0 <= m < |ids| && 0 <= col < d ==>
                  var k := Address(|ids|, d, m, col);
                  out[k] == if InTile(pm, pd, blockD, m, col) && m < pm * BLOCK_M + i
                            then Lookup(s, ids[m], d, col) else old(out[k])
    {
      var m := pm * BLOCK_M + i;
      if m < |ids| { StoreRow(ids, s, d, blockD, m, pd, out); }
    }
  }

  /** One row of a tile. Rows whose id is out of the shard are never gathered; they store zeros. */
  method StoreRow(ids: seq<int>, s: Shard, d: nat, blockD: nat, m: nat, pd: nat, out: array<real>)
    requires Columns(s.weight, d) && Fits(s) && out.Length == Area(|ids|, d) && m < |ids|
    modifies out
    ensures forall r, col :: 0 <= r < |ids| && 0 <= col < d ==>
              var k := Address(|ids|, d, r, col);
              out[k] == if r == m && pd * blockD <= col < (pd + 1) * blockD
                        then Lookup(s, ids[m], d, col) else old(out[k])
  {
    hide Address, Area;
    var inRange := s.start <= ids[m] < s.end;
    var localId := if inRange then ids[m] - s.start else 0;
    var from := pd * blockD;
    assert (pd + 1) * blockD == from + blockD;
    for j := 0 to blockD
      invariant forall r, col :: 0 <= r < |ids| && 0 <= col < d ==>
                  var k := Address(|ids|, d, r, col);
                  out[k] == if r == m && from <= col < from + j then Lookup(s, ids[m], d, col) else old(out[k])
    {
      var col := from + j;
      if col < d {
        CellsApart(|ids|, d, m, col);
        out[Address(|ids|, d, m, col)] := if inRange then s.weight[localId][col] else 0.0;
      }
    }
  }

  /** The launch, its programs in any order. It is refused for a shard the table cannot hold, and cannot be
      laid out for rows without columns, where the block size is zero. */
  method MaskedEmbeddingLookup(ids: seq<int>, s: Shard, d: nat, order: seq<(nat, nat)>, out: array<real>) returns (r: Result<(), Error>)
    requires Columns(s.weight, d) && out.Length == Area(|ids|, d)
    requires d > 0 ==> (forall i :: 0 <= i < |order| ==> InGrid(|ids|, d, order[i])) && forall p: (nat, nat) :: InGrid(|ids|, d, p) ==> p in order
    modifies out
    ensures r.Ok? <==> Fits(s) && (|ids| == 0 || d > 0)
    ensures r.Ok? ==> forall m, col :: 0 <= m < |ids| && 0 <= col < d ==>
              out[Address(|ids|, d, m, col)] == Lookup(s, ids[m], d, col)
  {
    if s.end < s.start { return Err(BadShard); }
    if s.end - s.start > |s.weight| { return Err(ShardTooWide); }
    if |ids| == 0 { return Ok(()); }
    if d == 0 { return Err(NoColumns); }
    RunGrid(ids, s, d, order, out);
    r := Ok(());
  }

  /** The tile a cell lies in. */
  function TileOf(d: nat, m: nat, col: nat): (nat, nat)
    requires d > 0
  {
    (m / BLOCK_M, col / BlockD(d))
  }

  lemma TilesAre(rows: nat, d: nat, pm: nat, pd: nat)
    requires d > 0
    ensures forall m, col :: 0 <= m < rows && 0 <= col < d ==> (InTile(pm, pd, BlockD(d), m, col) <==> (pm, pd) == TileOf(d, m, col))
  {
    forall m, col | 0 <= m < rows && 0 <= col < d ensures InTile(pm, pd, BlockD(d), m, col) <==> (pm, pd) == TileOf(d, m, col) {
      TiledOnce(rows, d, m, col);
    }
  }

  lemma AllTiled(rows: nat, d: nat, order: seq<(nat, nat)>)
    requires d > 0 && forall p: (nat, nat) :: InGrid(rows, d, p) ==> p in order
    ensures forall m, col :: 0 <= m < rows && 0 <= col < d ==> TileOf(d, m, col) in order
  {
    forall m, col | 0 <= m < rows && 0 <= col < d ensures TileOf(d, m, col) in order {
      TiledOnce(rows, d, m, col);
      assert InGrid(rows, d, TileOf(d, m, col));
    }
  }

  method RunGrid(ids: seq<int>, s: Shard, d: nat, order: seq<(nat, nat)>, out: array<real>)
    requires Columns(s.weight, d) && Fits(s) && d > 0 && out.Length == Area(|ids|, d)
    requires forall p: (nat, nat) :: InGrid(|ids|, d, p) ==> p in order
    modifies out
    ensures forall m, col :: 0 <= m < |ids| && 0 <= col < d ==> out[Address(|ids|, d, m, col)] == Lookup(s, ids[m], d, col)
  {
    hide Lookup, InTile, TileOf, BlockD, Address, Area;
    for n := 0 to |order|
      invariant forall m, col :: 0 <= m < |ids| && 0 <= col < d && TileOf(d, m, col) in order[..n] ==>
                  out[Address(|ids|, d, m, col)] == Lookup(s, ids[m], d, col)
    {
      Program(ids, s, d, BlockD(d), order[n].0, order[n].1, out);
      TilesAre(|ids|, d, order[n].0, order[n].1);
      assert order[..n + 1] == order[..n] + [order[n]];
    }
    assert order[..|order|] == order;
    AllTiled(|ids|, d, order);
  }

  ghost predicate InGrid(rows: nat, d: nat, p: (nat, nat))
    requires d > 0
  {
    p.0 < Cdiv(rows, BLOCK_M) && p.1 < Cdiv(d, BlockD(d))
  }

  // ---- all ranks ---------------------------------------------------------------------------------

  /** The shards follow one another over [0, |table|), each rank's table starting with its rows. */
  predicate Partition(table: seq<seq<real>>, shards: seq<Shard>, d: nat) {
    && Columns(table, d) && shards != []
    && shards[0].start == 0 && shards[|shards| - 1].end == |table|
    && (forall r :: 0 < r < |shards| ==> shards[r].start == shards[r - 1].end)
    && forall r :: 0 <= r < |shards| ==> Holds(table, shards[r], d)
  }

  predicate Holds(table: seq<seq<real>>, s: Shard, d: nat) {
    && Columns(s.weight, d) && Fits(s) && 0 <= s.start && s.end <= |table|
    && forall i :: s.start <= i < s.end ==> s.weight[i - s.start] == table[i]
  }

  /** The all-reduce over the first `n` ranks. */
  function SumOfRanks(table: seq<seq<real>>, shards: seq<Shard>, d: nat, id: int, col: nat, n: nat): real
    requires (forall r :: 0 <= r < |shards| ==> Holds(table, shards[r], d)) && col < d && n <= |shards|
  {
    if n == 0 then 0.0 else SumOfRanks(table, shards, d, id, col, n - 1) + Lookup(shards[n - 1], id, d, col)
  }

  lemma {:induction false} SumOfFirst(table: seq<seq<real>>, shards: seq<Shard>, d: nat, id: int, col: nat, n: nat)
    requires Partition(table, shards, d) && col < d && 0 < n <= |shards|
    ensures 0 <= shards[n - 1].end <= |table|
    ensures SumOfRanks(table, shards, d, id, col, n) == if 0 <= id < shards[n - 1].end then table[id][col] else 0.0
    decreases n
  {
    assert Holds(table, shards[n - 1], d);
    if n > 1 { SumOfFirst(table, shards, d, id, col, n - 1); }
    assert n == 1 ==> SumOfRanks(table, shards, d, id, col, 0) == 0.0;
  }

  /** For any consecutive partition of the vocabulary, summing the ranks' lookups gives the plain row for an
      id of the vocabulary and zero for any other. */
  lemma RanksSumToEmbedding(table: seq<seq<real>>, shards: seq<Shard>, d: nat, id: int, col: nat)
    requires Partition(table, shards, d) && col < d
    ensures SumOfRanks(table, shards, d, id, col, |shards|) == if 0 <= id < |table| then table[id][col] else 0.0
  {
    SumOfFirst(table, shards, d, id, col, |shards|);
  }
}
