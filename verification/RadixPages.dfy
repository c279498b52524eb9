/** Byte strings cut into pages.

    A radix-tree key is a byte string; its branching unit is the page, `atomsPerUnit` atoms of
    `atomBytes` bytes. The tree compares keys atom by atom and rounds the common length down to
    a page; here that is shown to be the number of leading pages two keys share. */
module RadixPages {

  import opened Basics

  type Page = seq<byte>

  /** The number of leading elements two sequences share. */
  function Shared(a: seq<Page>, b: seq<Page>): (k: nat)
    ensures k <= |a| && k <= |b|
    ensures a[..k] == b[..k]
    ensures k < |a| && k < |b| ==> a[k] != b[k]
  {
    if a == [] || b == [] || a[0] != b[0] then 0 else
      var k := 1 + Shared(a[1..], b[1..]);
      assert a[..k] == [a[0]] + a[1..][..k - 1] && b[..k] == [b[0]] + b[1..][..k - 1];
      k
  }

  /** The bytes of a key, page after page (`atoms_` of a node, or a query). */
  function Join(ps: seq<Page>): (q: seq<byte>) {
    if ps == [] then [] else ps[0] + Join(ps[1..])
  }

  predicate Sized(ps: seq<Page>, pageBytes: nat) {
    forall i :: 0 <= i < |ps| ==> |ps[i]| == pageBytes
  }

  /** The pages of a query of `n` pages (walk builds one page key at a time from it). */
  function Chop(q: seq<byte>, pageBytes: nat, n: nat): (ps: seq<Page>)
    requires |q| == n * pageBytes
    decreases n
  {
    if n == 0 then [] else
      assert n * pageBytes == pageBytes + (n - 1) * pageBytes;
      [q[..pageBytes]] + Chop(q[pageBytes..], pageBytes, n - 1)
  }

  lemma {:induction false} ChopJoin(q: seq<byte>, pageBytes: nat, n: nat)
    requires |q| == n * pageBytes
    ensures |Chop(q, pageBytes, n)| == n && Sized(Chop(q, pageBytes, n), pageBytes)
    ensures Join(Chop(q, pageBytes, n)) == q
    decreases n
  {
    if n > 0 {
      assert n * pageBytes == pageBytes + (n - 1) * pageBytes;
      ChopJoin(q[pageBytes..], pageBytes, n - 1);
      assert q == q[..pageBytes] + q[pageBytes..];
      assert Chop(q, pageBytes, n)[1..] == Chop(q[pageBytes..], pageBytes, n - 1);
    }
  }

  lemma {:induction false} JoinLength(ps: seq<Page>, pageBytes: nat)
    requires Sized(ps, pageBytes)
    ensures |Join(ps)| == |ps| * pageBytes
  {
    if ps != [] {
      JoinLength(ps[1..], pageBytes);
      assert |ps| * pageBytes == pageBytes + |ps[1..]| * pageBytes;
    }
  }

  lemma {:induction false} JoinAppend(a: seq<Page>, b: seq<Page>)
    ensures Join(a + b) == Join(a) + Join(b)
  {
    if a == [] {
      assert a + b == b;
    } else {
      assert (a + b)[1..] == a[1..] + b;
      JoinAppend(a[1..], b);
    }
  }

  /** Cutting the bytes of page-sized pages gives the pages back. */
  lemma {:induction false} JoinChop(ps: seq<Page>, pageBytes: nat)
    requires Sized(ps, pageBytes)
    ensures |Join(ps)| == |ps| * pageBytes
    ensures Chop(Join(ps), pageBytes, |ps|) == ps
  {
    JoinLength(ps, pageBytes);
    if ps != [] {
      JoinChop(ps[1..], pageBytes);
      assert |ps| * pageBytes == pageBytes + (|ps| - 1) * pageBytes;
      assert Join(ps)[pageBytes..] == Join(ps[1..]);
    }
  }

  /** Leading atoms on which two byte strings agree, scanned atom by atom. */
  method CommonAtomPrefix(a: seq<byte>, b: seq<byte>, atomBytes: nat, na: nat, nb: nat) returns (i: nat)
    requires atomBytes > 0 && |a| == na * atomBytes && |b| == nb * atomBytes
    ensures i <= na && i <= nb && i * atomBytes <= |a| && i * atomBytes <= |b|
    ensures a[..i * atomBytes] == b[..i * atomBytes]
    ensures (i < na && i < nb) ==>
              ((i + 1) * atomBytes <= |a| && (i + 1) * atomBytes <= |b| &&
               a[i * atomBytes..(i + 1) * atomBytes] != b[i * atomBytes..(i + 1) * atomBytes])
  {
    i := 0;
    while i < na && i < nb
      invariant i <= na && i <= nb && i * atomBytes <= |a| && i * atomBytes <= |b|
      invariant a[..i * atomBytes] == b[..i * atomBytes]
    {
      MulLe(i + 1, na, atomBytes);
      MulLe(i + 1, nb, atomBytes);
      assert (i + 1) * atomBytes == i * atomBytes + atomBytes;
      var lo, hi := i * atomBytes, (i + 1) * atomBytes;
      if a[lo..hi] != b[lo..hi] {
        return;
      }
      assert a[..hi] == a[..lo] + a[lo..hi] && b[..hi] == b[..lo] + b[lo..hi];
      i := i + 1;
    }
  }

  /** Page-sized sequences agree on exactly as many pages as their bytes agree on whole pages. */
  lemma SharedBytes(ps: seq<Page>, qs: seq<Page>, pageBytes: nat, m: nat, c: nat)
    requires Sized(ps, pageBytes) && Sized(qs, pageBytes) && m <= |ps| && m <= |qs|
    requires c == m * pageBytes
    ensures c <= |Join(ps)| && c <= |Join(qs)|
    ensures Join(ps)[..c] == Join(qs)[..c] <==> ps[..m] == qs[..m]
  {
    assert ps == ps[..m] + ps[m..] && qs == qs[..m] + qs[m..];
    JoinAppend(ps[..m], ps[m..]);
    JoinAppend(qs[..m], qs[m..]);
    JoinChop(ps[..m], pageBytes);
    JoinChop(qs[..m], pageBytes);
  }

  /** If the bytes agree up to offset `lo`, at or after the start `c` of page `m`, then `m` pages are shared. */
  lemma SharedFrom(ps: seq<Page>, qs: seq<Page>, pageBytes: nat, m: nat, c: nat, lo: nat)
    requires Sized(ps, pageBytes) && Sized(qs, pageBytes) && m <= |ps| && m <= |qs|
    requires c == m * pageBytes && c <= lo <= |Join(ps)| && lo <= |Join(qs)|
    requires Join(ps)[..lo] == Join(qs)[..lo]
    ensures m <= Shared(ps, qs)
  {
    SharedBytes(ps, qs, pageBytes, m, c);
    assert Join(ps)[..c] == Join(ps)[..lo][..c] && Join(qs)[..c] == Join(qs)[..lo][..c];
    assert ps[..m] == qs[..m];
  }

  /** Bytes inside the shared pages are equal. */
  lemma SharedUpTo(ps: seq<Page>, qs: seq<Page>, pageBytes: nat, c: nat, lo: nat, hi: nat)
    requires Sized(ps, pageBytes) && Sized(qs, pageBytes)
    requires c == Shared(ps, qs) * pageBytes && lo <= hi <= c
    ensures hi <= |Join(ps)| && hi <= |Join(qs)| && Join(ps)[lo..hi] == Join(qs)[lo..hi]
  {
    SharedBytes(ps, qs, pageBytes, Shared(ps, qs), c);
    assert Join(ps)[lo..hi] == Join(ps)[..c][lo..hi] && Join(qs)[lo..hi] == Join(qs)[..c][lo..hi];
  }

  /** The walk rounds a common atom count `i` down to `m` whole pages; `m` is the number of pages the
      two keys share. Here `i` atoms, `lo` bytes, agree, and the next atom, up to byte `hi`, does not. */
  lemma RoundedIsShared(ps: seq<Page>, qs: seq<Page>, atomBytes: nat, atomsPerUnit: nat, m: nat, i: nat, lo: nat, hi: nat)
    requires atomBytes > 0 && atomsPerUnit > 0 && lo == i * atomBytes && hi == (i + 1) * atomBytes
    requires Sized(ps, atomsPerUnit * atomBytes) && Sized(qs, atomsPerUnit * atomBytes)
    requires i <= |ps| * atomsPerUnit && i <= |qs| * atomsPerUnit
    requires m * atomsPerUnit <= i < (m + 1) * atomsPerUnit
    requires lo <= |Join(ps)| && lo <= |Join(qs)| && Join(ps)[..lo] == Join(qs)[..lo]
    requires (i < |ps| * atomsPerUnit && i < |qs| * atomsPerUnit) ==>
               (lo <= hi <= |Join(ps)| && hi <= |Join(qs)| && Join(ps)[lo..hi] != Join(qs)[lo..hi])
    ensures m == Shared(ps, qs)
  {
    AtLeast(ps, qs, atomBytes, atomsPerUnit, m, i, lo);
    if m < Shared(ps, qs) {
      Beyond(ps, qs, atomBytes, atomsPerUnit, m, i, lo, hi);
    }
  }

  lemma AtLeast(ps: seq<Page>, qs: seq<Page>, atomBytes: nat, atomsPerUnit: nat, m: nat, i: nat, lo: nat)
    requires lo == i * atomBytes && m * atomsPerUnit <= i && atomsPerUnit > 0
    requires i <= |ps| * atomsPerUnit && i <= |qs| * atomsPerUnit
    requires Sized(ps, atomsPerUnit * atomBytes) && Sized(qs, atomsPerUnit * atomBytes)
    requires lo <= |Join(ps)| && lo <= |Join(qs)| && Join(ps)[..lo] == Join(qs)[..lo]
    ensures m <= Shared(ps, qs)
  {
    CountLe(m, |ps|, atomsPerUnit);
    CountLe(m, |qs|, atomsPerUnit);
    OffsetLe(m, i, atomsPerUnit, atomBytes);
    SharedFrom(ps, qs, atomsPerUnit * atomBytes, m, m * (atomsPerUnit * atomBytes), lo);
  }

  lemma Beyond(ps: seq<Page>, qs: seq<Page>, atomBytes: nat, atomsPerUnit: nat, m: nat, i: nat, lo: nat, hi: nat)
    requires lo == i * atomBytes && hi == (i + 1) * atomBytes && i < (m + 1) * atomsPerUnit
    requires Sized(ps, atomsPerUnit * atomBytes) && Sized(qs, atomsPerUnit * atomBytes)
    requires m < Shared(ps, qs)
    ensures i < |ps| * atomsPerUnit && i < |qs| * atomsPerUnit
    ensures lo <= hi <= |Join(ps)| && hi <= |Join(qs)| && Join(ps)[lo..hi] == Join(qs)[lo..hi]
  {
    var k := Shared(ps, qs);
    MulLe(m + 1, k, atomsPerUnit);
    MulLe(k, |ps|, atomsPerUnit);
    MulLe(k, |qs|, atomsPerUnit);
    OffsetGe(k, i + 1, atomsPerUnit, atomBytes);
    MulLe(i, i + 1, atomBytes);
    SharedUpTo(ps, qs, atomsPerUnit * atomBytes, k * (atomsPerUnit * atomBytes), lo, hi);
  }

  lemma CountLe(m: nat, n: nat, d: nat)
    requires d > 0 && m * d <= n * d
    ensures m <= n
  {
    if m > n { MulLe(n + 1, m, d); }
  }

  lemma OffsetLe(m: nat, i: nat, atomsPerUnit: nat, atomBytes: nat)
    requires m * atomsPerUnit <= i
    ensures m * (atomsPerUnit * atomBytes) <= i * atomBytes
  {
    MulLe(m * atomsPerUnit, i, atomBytes);
    PageOffset(m, atomsPerUnit, atomBytes);
  }

  lemma OffsetGe(m: nat, i: nat, atomsPerUnit: nat, atomBytes: nat)
    requires i <= m * atomsPerUnit
    ensures i * atomBytes <= m * (atomsPerUnit * atomBytes)
  {
    MulLe(i, m * atomsPerUnit, atomBytes);
    PageOffset(m, atomsPerUnit, atomBytes);
  }

  lemma PageOffset(m: nat, atomsPerUnit: nat, atomBytes: nat)
    ensures m * atomsPerUnit * atomBytes == m * (atomsPerUnit * atomBytes)
  {}
}
