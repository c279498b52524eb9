/** `file_storage_backend`: writers reserve a region under the lock and write it later, in any order. */
module FileStore {
  import opened Basics

  type Key = nat

  const UNIT_ID_BYTES := 4

  /** `unit_id` with its width: a 32-bit signed integer. */
  newtype Int32 = x: int | -0x8000_0000 <= x < 0x8000_0000

  // ---- records -----------------------------------------------------------------------------------

  /** The bytes of a unit id, little-endian. */
  function Bytes(id: Int32): (b: seq<byte>)
    ensures |b| == UNIT_ID_BYTES
  {
    var u := if id < 0 then id as int + 0x1_0000_0000 else id as int;
    [(u % 256) as byte, (u / 256 % 256) as byte, (u / 256 / 256 % 256) as byte, (u / 256 / 256 / 256) as byte]
  }

  function IdOf(b: seq<byte>): Int32
    requires |b| == UNIT_ID_BYTES
  {
    var u := b[0] as int + 256 * b[1] as int + 65536 * b[2] as int + 16777216 * b[3] as int;
    if u >= 0x8000_0000 then (u - 0x1_0000_0000) as Int32 else u as Int32
  }

  lemma IdRoundTrip(id: Int32)
    ensures IdOf(Bytes(id)) == id
  {
    var u := if id < 0 then id as int + 0x1_0000_0000 else id as int;
    var a, b := u / 256, u / 256 / 256;
    assert u == u % 256 + 256 * a && a == a % 256 + 256 * b && b == b % 256 + 256 * (b / 256);
  }

  /** One unit of a record: its id in the leading bytes if they fit, zeros elsewhere. */
  function Cell(id: Int32, unitBytes: nat): (c: seq<byte>)
    ensures |c| == unitBytes
  {
    if unitBytes >= UNIT_ID_BYTES then Bytes(id) + Fill(unitBytes - UNIT_ID_BYTES, 0) else Fill(unitBytes, 0)
  }

  function Encoded(ids: seq<Int32>, unitBytes: nat): seq<byte> {
    if ids == [] then [] else Cell(ids[0], unitBytes) + Encoded(ids[1..], unitBytes)
  }

  function Decoded(b: seq<byte>, unitBytes: nat, n: nat): seq<Int32>
    requires unitBytes >= UNIT_ID_BYTES && |b| == n * unitBytes
    decreases n
  {
    if n == 0 then [] else
      MulStep(n, unitBytes);
      [IdOf(b[..UNIT_ID_BYTES])] + Decoded(b[unitBytes..], unitBytes, n - 1)
  }

  lemma {:induction false} EncodedSize(ids: seq<Int32>, unitBytes: nat)
    ensures |Encoded(ids, unitBytes)| == |ids| * unitBytes
  {
    if ids != [] {
      EncodedSize(ids[1..], unitBytes);
      MulStep(|ids|, unitBytes);
    }
  }

  lemma {:induction false} RecordRoundTrip(ids: seq<Int32>, unitBytes: nat)
    requires unitBytes >= UNIT_ID_BYTES
    ensures |Encoded(ids, unitBytes)| == |ids| * unitBytes
    ensures Decoded(Encoded(ids, unitBytes), unitBytes, |ids|) == ids
  {
    EncodedSize(ids, unitBytes);
    if ids != [] {
      MulStep(|ids|, unitBytes);
      RecordRoundTrip(ids[1..], unitBytes);
      IdRoundTrip(ids[0]);
      var b := Encoded(ids, unitBytes);
      assert b[..UNIT_ID_BYTES] == Bytes(ids[0]);
      assert b[unitBytes..] == Encoded(ids[1..], unitBytes);
    }
  }

  lemma {:induction false} EncodedAppend(a: seq<Int32>, id: Int32, unitBytes: nat)
    ensures Encoded(a + [id], unitBytes) == Encoded(a, unitBytes) + Cell(id, unitBytes)
  {
    if a != [] {
      assert (a + [id])[1..] == a[1..] + [id];
      EncodedAppend(a[1..], id, unitBytes);
    }
  }

  lemma NothingEncoded(unitBytes: nat)
    ensures Encoded([], unitBytes) == []
  {}

  /** The encoding loop: a zeroed buffer, each id copied to the start of its unit. */
  method EncodeRecord(ids: seq<Int32>, unitBytes: nat) returns (buf: seq<byte>)
    ensures buf == Encoded(ids, unitBytes)
  {
    hide Cell, Bytes, Encoded;
    var b := new byte[|ids| * unitBytes](_ => 0);
    NothingEncoded(unitBytes);
    for i := 0 to |ids|
      invariant 0 <= i * unitBytes <= b.Length
      invariant b[..i * unitBytes] == Encoded(ids[..i], unitBytes)
      invariant forall k :: i * unitBytes <= k < b.Length ==> b[k] == 0
    {
      var at := i * unitBytes;
      MulStep(i + 1, unitBytes);
      UnitFits(i, |ids|, unitBytes);
      assert ids[..i + 1] == ids[..i] + [ids[i]];
      EncodedAppend(ids[..i], ids[i], unitBytes);
      CopyId(b, at, ids[i], unitBytes);
    }
    assert ids[..|ids|] == ids && b[..b.Length] == b[..];
    buf := b[..];
  }

  lemma UnitFits(i: nat, n: nat, d: nat)
    requires i < n
    ensures i * d + d <= n * d
  {
    MulLe(i + 1, n, d);
    MulStep(i + 1, d);
  }

  /** Copies one id into a zeroed unit. */
  method CopyId(b: array<byte>, at: nat, id: Int32, unitBytes: nat)
    requires at + unitBytes <= b.Length && forall k :: at <= k < b.Length ==> b[k] == 0
    modifies b
    ensures b[..at + unitBytes] == old(b[..at]) + Cell(id, unitBytes)
    ensures forall k :: at + unitBytes <= k < b.Length ==> b[k] == 0
  {
    hide Bytes;
    if unitBytes >= UNIT_ID_BYTES {
      var id4 := Bytes(id);
      forall k | 0 <= k < UNIT_ID_BYTES { b[at + k] := id4[k]; }
    }
  }

  // ---- the file ----------------------------------------------------------------------------------

  function Extend(file: seq<byte>, n: nat): seq<byte> {
    if n <= |file| then file else file + Fill(n - |file|, 0)
  }

  /** `pwrite`: a hole before the offset reads as zeros; writing nothing changes nothing. */
  function Pwrite(file: seq<byte>, off: nat, buf: seq<byte>): seq<byte> {
    if buf == [] then file else
      var f := Extend(file, off + |buf|);
      f[..off] + buf + f[off + |buf|..]
  }

  datatype Write = Write(key: Key, off: nat, buf: seq<byte>)

  /** The state under the lock, and the writes reserved so far. */
  datatype Table = Table(end: nat, offsets: map<Key, nat>, writes: seq<Write>)

  function Reserve(t: Table, key: Key, buf: seq<byte>): Table {
    Table(t.end + |buf|, t.offsets[key := t.end], t.writes + [Write(key, t.end, buf)])
  }

  datatype Request = Request(key: Key, buf: seq<byte>)

  /** Requests reserve in the order in which they get the lock. */
  function ReserveAll(t: Table, qs: seq<Request>): Table
    decreases |qs|
  {
    if qs == [] then t else ReserveAll(Reserve(t, qs[0].key, qs[0].buf), qs[1..])
  }

  /** The regions follow one another from `lo` to `hi` without gap or overlap. */
  predicate Tiles(ws: seq<Write>, lo: nat, hi: nat)
    decreases |ws|
  {
    if ws == [] then lo == hi else ws[0].off == lo && Tiles(ws[1..], lo + |ws[0].buf|, hi)
  }

  lemma {:induction false} TilesAppend(ws: seq<Write>, lo: nat, hi: nat, w: Write)
    requires Tiles(ws, lo, hi) && w.off == hi
    ensures Tiles(ws + [w], lo, hi + |w.buf|)
    decreases |ws|
  {
    if ws == [] {
      assert (ws + [w])[1..] == [];
    } else {
      assert (ws + [w])[1..] == ws[1..] + [w];
      TilesAppend(ws[1..], lo + |ws[0].buf|, hi, w);
    }
  }

  /** The last write reserved for a key. */
  function LatestWrite(ws: seq<Write>, key: Key): (r: Option<nat>)
    ensures r.Some? ==> r.value < |ws| && ws[r.value].key == key
  {
    if ws == [] then None
    else if ws[|ws| - 1].key == key then Some(|ws| - 1)
    else LatestWrite(ws[..|ws| - 1], key)
  }

  lemma {:induction false} LatestIs(ws: seq<Write>, k: nat)
    requires k < |ws| && forall j :: k < j < |ws| ==> ws[j].key != ws[k].key
    ensures LatestWrite(ws, ws[k].key) == Some(k)
    decreases |ws|
  {
    if k < |ws| - 1 { LatestIs(ws[..|ws| - 1], k); }
  }

  /** The offset kept for a key is that of its latest reserved write. */
  ghost predicate LatestKept(t: Table) {
    forall key :: LatestWrite(t.writes, key).Some? ==>
      key in t.offsets && t.offsets[key] == t.writes[LatestWrite(t.writes, key).value].off
  }

  /** Reservations tile the file from its initial end to the final end offset. */
  lemma {:induction false} ReservedTiles(t: Table, qs: seq<Request>, lo: nat)
    requires Tiles(t.writes, lo, t.end) && LatestKept(t)
    ensures var r := ReserveAll(t, qs); Tiles(r.writes, lo, r.end) && LatestKept(r) && t.end <= r.end
    decreases |qs|
  {
    hide LatestKept, Tiles;
    if qs != [] {
      TilesAppend(t.writes, lo, t.end, Write(qs[0].key, t.end, qs[0].buf));
      ReserveLatest(t, qs[0].key, qs[0].buf);
      ReservedTiles(Reserve(t, qs[0].key, qs[0].buf), qs[1..], lo);
    }
  }

  lemma ReserveLatest(t: Table, key: Key, buf: seq<byte>)
    requires LatestKept(t)
    ensures LatestKept(Reserve(t, key, buf))
  {
    var s := Reserve(t, key, buf);
    forall k | LatestWrite(s.writes, k).Some?
      ensures k in s.offsets && s.offsets[k] == s.writes[LatestWrite(s.writes, k).value].off
    {
      assert s.writes[..|s.writes| - 1] == t.writes;
    }
  }

  function EndOf(w: Write): nat { w.off + |w.buf| }

  lemma {:induction false} TilesBounds(ws: seq<Write>, lo: nat, hi: nat, i: nat)
    requires Tiles(ws, lo, hi) && i < |ws|
    ensures lo <= ws[i].off && EndOf(ws[i]) <= hi
    decreases |ws|
  {
    if i > 0 {
      TilesBounds(ws[1..], lo + |ws[0].buf|, hi, i - 1);
    } else if |ws| > 1 {
      TilesBounds(ws[1..], lo + |ws[0].buf|, hi, 0);
    }
  }

  /** Two regions never overlap. */
  lemma {:induction false} RegionsApart(ws: seq<Write>, lo: nat, hi: nat, i: nat, j: nat)
    requires Tiles(ws, lo, hi) && i < j < |ws|
    ensures EndOf(ws[i]) <= ws[j].off
    decreases |ws|
  {
    if i == 0 {
      TilesBounds(ws[1..], lo + |ws[0].buf|, hi, j - 1);
    } else {
      RegionsApart(ws[1..], lo + |ws[0].buf|, hi, i - 1, j - 1);
    }
  }

  // ---- physical writes in any order --------------------------------------------------------------

  predicate Known(order: seq<nat>, n: nat) {
    forall i :: 0 <= i < |order| ==> order[i] < n
  }

  /** The physical writes that have happened, in the order they happened. */
  function Perform(file: seq<byte>, ws: seq<Write>, order: seq<nat>): seq<byte>
    requires Known(order, |ws|)
    decreases |order|
  {
    if order == [] then file else Perform(Pwrite(file, ws[order[0]].off, ws[order[0]].buf), ws, order[1..])
  }

  predicate RegionHolds(file: seq<byte>, w: Write) {
    w.buf != [] ==> EndOf(w) <= |file| && file[w.off..EndOf(w)] == w.buf
  }

  /** What a write leaves: its bytes at its offset, zeros in the hole before it if there is one, and the rest as it
      was; writing nothing leaves the file alone. */
  lemma PwriteIs(file: seq<byte>, off: nat, buf: seq<byte>)
    ensures var r := Pwrite(file, off, buf);
            && |r| == (if buf == [] || off + |buf| <= |file| then |file| else off + |buf|)
            && forall j :: 0 <= j < |r| ==>
                 r[j] == if off <= j < off + |buf| then buf[j - off] else if j < |file| then file[j] else 0
  {}

  lemma PwriteHolds(file: seq<byte>, w: Write)
    ensures RegionHolds(Pwrite(file, w.off, w.buf), w)
  {}

  /** A write leaves every region apart from its own, and whatever was in the file before its offset. */
  lemma PwriteLeaves(file: seq<byte>, w: Write, v: Write)
    requires RegionHolds(file, v) && (EndOf(v) <= w.off || EndOf(w) <= v.off)
    ensures RegionHolds(Pwrite(file, w.off, w.buf), v)
  {
    if w.buf != [] && v.buf != [] {
      var f := Extend(file, EndOf(w));
      var r := Pwrite(file, w.off, w.buf);
      var tail := f[w.off + |w.buf|..];
      assert r == f[..w.off] + w.buf + tail;
      forall k | v.off <= k < EndOf(v) ensures r[k] == file[k] {
        if EndOf(w) <= k { assert r[k] == tail[k - EndOf(w)]; }
      }
      assert r[v.off..EndOf(v)] == file[v.off..EndOf(v)];
    }
  }

  /** What a partly written file looks like: the initial contents, the regions done, nothing past the end. */
  ghost predicate Image(file: seq<byte>, initial: seq<byte>, ws: seq<Write>, hi: nat, done: set<nat>) {
    && initial <= file && |file| <= hi
    && forall i :: i in done && i < |ws| ==> RegionHolds(file, ws[i])
  }

  lemma PwriteImage(file: seq<byte>, initial: seq<byte>, ws: seq<Write>, hi: nat, done: set<nat>, i: nat)
    requires Tiles(ws, |initial|, hi) && i < |ws| && Image(file, initial, ws, hi, done)
    ensures Image(Pwrite(file, ws[i].off, ws[i].buf), initial, ws, hi, done + {i})
  {
    hide Pwrite, RegionHolds;
    TilesBounds(ws, |initial|, hi, i);
    PwriteHolds(file, ws[i]);
    forall j | j in done && j < |ws| && j != i ensures RegionHolds(Pwrite(file, ws[i].off, ws[i].buf), ws[j]) {
      if i < j { RegionsApart(ws, |initial|, hi, i, j); } else { RegionsApart(ws, |initial|, hi, j, i); }
      PwriteLeaves(file, ws[i], ws[j]);
    }
    PwriteGrows(file, ws[i], initial, hi);
  }

  lemma PwriteGrows(file: seq<byte>, w: Write, initial: seq<byte>, hi: nat)
    requires initial <= file && |file| <= hi && |initial| <= w.off && EndOf(w) <= hi
    ensures initial <= Pwrite(file, w.off, w.buf) && |Pwrite(file, w.off, w.buf)| <= hi
  {}

  /** After any of the writes have happened in any order, each of their regions holds what was written,
      whether or not the others have happened. */
  lemma {:induction false} PerformImage(file: seq<byte>, initial: seq<byte>, ws: seq<Write>, hi: nat, done: set<nat>, order: seq<nat>)
    requires Tiles(ws, |initial|, hi) && Image(file, initial, ws, hi, done) && Known(order, |ws|)
    ensures Image(Perform(file, ws, order), initial, ws, hi, done + (set i | i in order))
    decreases |order|
  {
    hide Image, Pwrite, Tiles;
    if order == [] {
      assert done + (set i | i in order) == done;
    } else {
      var k := order[0];
      PwriteImage(file, initial, ws, hi, done, k);
      PerformImage(Pwrite(file, ws[k].off, ws[k].buf), initial, ws, hi, done + {k}, order[1..]);
      assert done + {k} + (set i | i in order[1..]) == done + (set i | i in order) by {
        assert order == [k] + order[1..];
      }
    }
  }

  function Contents(ws: seq<Write>): seq<byte> {
    if ws == [] then [] else ws[0].buf + Contents(ws[1..])
  }

  lemma {:induction false} RegionsMakeFile(file: seq<byte>, ws: seq<Write>, lo: nat, hi: nat)
    requires Tiles(ws, lo, hi) && lo <= |file| <= hi && forall i :: 0 <= i < |ws| ==> RegionHolds(file, ws[i])
    ensures |file| == hi && file[lo..] == Contents(ws)
    decreases |ws|
  {
    if ws != [] {
      var mid := lo + |ws[0].buf|;
      assert RegionHolds(file, ws[0]);
      forall i | 0 <= i < |ws[1..]| ensures RegionHolds(file, ws[1..][i]) { assert RegionHolds(file, ws[i + 1]); }
      RegionsMakeFile(file, ws[1..], mid, hi);
      assert file[lo..] == file[lo..mid] + file[mid..];
    }
  }

  /** Once every reserved write has happened, in whatever order, the file is its initial contents followed
      by the records in the order of their reservation. */
  lemma AnyOrderSameFile(initial: seq<byte>, offsets: map<Key, nat>, qs: seq<Request>, order: seq<nat>)
    requires var ws := ReserveAll(Table(|initial|, offsets, []), qs).writes;
             Known(order, |ws|) && (forall i :: 0 <= i < |ws| ==> i in order)
    ensures var t := ReserveAll(Table(|initial|, offsets, []), qs);
            && Tiles(t.writes, |initial|, t.end)
            && Perform(initial, t.writes, order) == initial + Contents(t.writes)
            && |Perform(initial, t.writes, order)| == t.end
  {
    hide ReserveAll, Perform, Contents, Pwrite, RegionHolds;
    var t0 := Table(|initial|, offsets, []);
    ReservedTiles(t0, qs, |initial|);
    var t := ReserveAll(t0, qs);
    PerformImage(initial, initial, t.writes, t.end, {}, order);
    var file := Perform(initial, t.writes, order);
    RegionsMakeFile(file, t.writes, |initial|, t.end);
    assert file == file[..|initial|] + file[|initial|..];
  }

  /** The region a key points to decodes to the ids of the key's latest reserved write as soon as that
      write has happened. */
  lemma LatestDecodes(initial: seq<byte>, offsets: map<Key, nat>, qs: seq<Request>, order: seq<nat>, k: nat, ids: seq<Int32>, unitBytes: nat)
    requires var ws := ReserveAll(Table(|initial|, offsets, []), qs).writes;
             && Known(order, |ws|) && k in order && k < |ws|
             && (forall j :: k < j < |ws| ==> ws[j].key != ws[k].key)
             && unitBytes >= UNIT_ID_BYTES && ws[k].buf == Encoded(ids, unitBytes)
    ensures var t := ReserveAll(Table(|initial|, offsets, []), qs);
            var file := Perform(initial, t.writes, order);
            && t.writes[k].key in t.offsets
            && var off := t.offsets[t.writes[k].key]; var n := |Encoded(ids, unitBytes)|;
               n == |ids| * unitBytes && (ids != [] ==> off + n <= |file| && Decoded(file[off..off + n], unitBytes, |ids|) == ids)
  {
    hide ReserveAll, Perform, Pwrite, Decoded, Encoded;
    var t0 := Table(|initial|, offsets, []);
    ReservedTiles(t0, qs, |initial|);
    var t := ReserveAll(t0, qs);
    PerformImage(initial, initial, t.writes, t.end, {}, order);
    LatestIs(t.writes, k);
    RecordRoundTrip(ids, unitBytes);
    assert RegionHolds(Perform(initial, t.writes, order), t.writes[k]);
    if ids != [] { MulStep(|ids|, unitBytes); }
  }

  // ---- the object --------------------------------------------------------------------------------

  class FileStorageBackend {
    const unitBytes: nat
    var file: seq<byte>
    var end: nat
    var offsets: map<Key, nat>

    /** Opens a file: new records go behind what it holds. */
    constructor (initial: seq<byte>, unitBytes: nat)
      ensures this.unitBytes == unitBytes && file == initial && end == |initial| && offsets == map[]
    {
      this.unitBytes, file, end, offsets := unitBytes, initial, |initial|, map[];
    }

    /** The section under the lock. */
    method Claim(key: Key, bytes: nat) returns (off: nat)
      modifies `end, `offsets
      ensures off == old(end) && end == off + bytes && offsets == old(offsets)[key := off]
    {
      off := end;
      end := end + bytes;
      offsets := offsets[key := off];
    }

    /** A whole write with nothing in between. Without a unit size it fails and changes nothing. */
    method StartWrite(key: Key, ids: seq<Int32>) returns (ok: bool)
      modifies this
      ensures ok <==> unitBytes > 0
      ensures !ok ==> file == old(file) && end == old(end) && offsets == old(offsets)
      ensures ok ==> var r := Reserve(Table(old(end), old(offsets), []), key, Encoded(ids, unitBytes));
                     end == r.end && offsets == r.offsets && file == Pwrite(old(file), old(end), Encoded(ids, unitBytes))
    {
      if unitBytes == 0 { return false; }
      var buf := EncodeRecord(ids, unitBytes);
      EncodedSize(ids, unitBytes);
      var off := Claim(key, |ids| * unitBytes);
      file := Pwrite(file, off, buf);
      ok := true;
    }

    /** A read succeeds if the key is known and that many bytes can be read from its offset on. */
    method StartRead(key: Key, n: nat) returns (ok: bool)
      ensures ok <==> key in offsets && (unitBytes == 0 || n * unitBytes == 0 || offsets[key] + n * unitBytes <= |file|)
    {
      if key !in offsets { return false; }
      var off := offsets[key];
      if unitBytes == 0 { return true; }
      var want := n * unitBytes;
      var got := if off >= |file| then 0 else if want <= |file| - off then want else |file| - off;
      ok := got == want;
    }
  }
}
