/** Manifests: which chunk of an image sits at which offset, with all-zero chunks left out.
    A gap reads as zeros. */
module Manifests {
  import opened Bytes
  import opened Chunking

  const MANIFEST_SCHEMA_VERSION: nat := 1

  datatype ManifestKind = Disk | Memory

  function DefaultChunkSize(kind: ManifestKind): (n: nat)
    ensures 0 < n < 0x1_0000_0000 && (kind.Disk? ==> n == 0x100_0000) && (kind.Memory? ==> n == 0x8_0000)
  {
    match kind
    case Disk => 16 * 1024 * 1024
    case Memory => 512 * 1024
  }

  datatype ChunkRef = ChunkRef(offset: nat, hash: Digest)

  datatype Manifest =
    Manifest(schemaVersion: nat, kind: ManifestKind, chunkSize: nat, totalBytes: nat, chunks: seq<ChunkRef>)
  {
    function Grid(): Grid { Chunking.Grid(chunkSize, totalBytes) }
  }

  datatype ManifestError =
    | UnsupportedSchema(found: nat) | ZeroChunkSize
    | Misaligned(offset: nat) | PastEnd(offset: nat) | NotIncreasing(offset: nat)

  datatype Validation = Ok | Malformed(error: ManifestError)

  // ---- The canonical chunk list of an image --------------------------------------

  /** The refs of the chunks below `n` that hold a non-zero byte, in offset order. */
  function RefsTo(size: nat, chunks: seq<Bytes>, hash: Bytes -> Digest, n: nat): (refs: seq<ChunkRef>)
    requires n <= |chunks|
  {
    if n == 0 then []
    else
      var init := RefsTo(size, chunks, hash, n - 1);
      if AllZero(chunks[n - 1]) then init else init + [ChunkRef((n - 1) * size, hash(chunks[n - 1]))]
  }

  /** Chunking the whole image at once: the reference every builder must agree with. */
  function Canonical(kind: ManifestKind, g: Grid, image: Bytes, hash: Bytes -> Digest): (m: Manifest)
    requires g.Valid() && |image| == g.total
  {
    Manifest(MANIFEST_SCHEMA_VERSION, kind, g.size, g.total, RefsTo(g.size, Cut(g, image), hash, g.Count()))
  }

  ghost predicate StrictlySorted(refs: seq<ChunkRef>) {
    forall i, j | 0 <= i < j < |refs| :: refs[i].offset < refs[j].offset
  }

  /** `r` is the ref of some chunk below `n` that is not all zero. */
  ghost predicate RefOf(size: nat, chunks: seq<Bytes>, hash: Bytes -> Digest, n: nat, r: ChunkRef) {
    exists i | 0 <= i < n && i < |chunks| :: IsRef(size, chunks, hash, i, r)
  }

  ghost predicate IsRef(size: nat, chunks: seq<Bytes>, hash: Bytes -> Digest, i: nat, r: ChunkRef)
    requires i < |chunks|
  {
    !AllZero(chunks[i]) && r == ChunkRef(i * size, hash(chunks[i]))
  }

  lemma {:induction false} RefsToMembers(size: nat, chunks: seq<Bytes>, hash: Bytes -> Digest, n: nat, r: ChunkRef)
    requires n <= |chunks|
    ensures r in RefsTo(size, chunks, hash, n) <==> RefOf(size, chunks, hash, n, r)
  {
    if n > 0 {
      RefsToMembers(size, chunks, hash, n - 1, r);
      if RefOf(size, chunks, hash, n, r) && !RefOf(size, chunks, hash, n - 1, r) {
        var i :| 0 <= i < n && IsRef(size, chunks, hash, i, r);
        assert i == n - 1;
      }
      if IsRef(size, chunks, hash, n - 1, r) { assert r in RefsTo(size, chunks, hash, n); }
      if RefOf(size, chunks, hash, n - 1, r) {
        var i :| 0 <= i < n - 1 && IsRef(size, chunks, hash, i, r);
        assert IsRef(size, chunks, hash, i, r);
      }
    }
  }

  lemma {:induction false} RefsToSorted(size: nat, chunks: seq<Bytes>, hash: Bytes -> Digest, n: nat)
    requires n <= |chunks| && size > 0
    ensures StrictlySorted(RefsTo(size, chunks, hash, n))
    ensures forall i | 0 <= i < |RefsTo(size, chunks, hash, n)| :: RefsTo(size, chunks, hash, n)[i].offset < n * size
  {
    if n > 0 {
      RefsToSorted(size, chunks, hash, n - 1);
      assert n * size == (n - 1) * size + size;
    }
  }

  /** A strictly increasing list is determined by its members. */
  lemma {:induction false} SortedUnique(a: seq<ChunkRef>, b: seq<ChunkRef>)
    requires StrictlySorted(a) && StrictlySorted(b)
    requires forall r :: r in a <==> r in b
    ensures a == b
  {
    assert |a| > 0 ==> a[0] in b;
    assert |b| > 0 ==> b[0] in a;
    if |a| > 0 && |b| > 0 {
      SameLast(a, b);
      var ia, ib := a[..|a| - 1], b[..|b| - 1];
      forall r
        ensures r in ia <==> r in ib
      {
        InitMember(a, r);
        InitMember(b, r);
      }
      SortedUnique(ia, ib);
      assert a == ia + [a[|a| - 1]] && b == ib + [b[|b| - 1]];
    }
  }

  lemma SameLast(a: seq<ChunkRef>, b: seq<ChunkRef>)
    requires StrictlySorted(a) && StrictlySorted(b) && |a| > 0 && |b| > 0
    requires forall r :: r in a <==> r in b
    ensures a[|a| - 1] == b[|b| - 1]
  {
    var la, lb := a[|a| - 1], b[|b| - 1];
    assert la in b && lb in a;
    var i :| 0 <= i < |b| && b[i] == la;
    var j :| 0 <= j < |a| && a[j] == lb;
    assert la.offset <= lb.offset && lb.offset <= la.offset;
  }

  lemma InitMember(a: seq<ChunkRef>, r: ChunkRef)
    requires StrictlySorted(a) && |a| > 0
    ensures r in a[..|a| - 1] <==> r in a && r != a[|a| - 1]
  {
  }

  /** A builder that collects exactly the non-zero chunks, in any order, and sorts them
      has built the canonical list. */
  lemma CollectedIsCanonical(size: nat, chunks: seq<Bytes>, hash: Bytes -> Digest, refs: seq<ChunkRef>)
    requires size > 0 && StrictlySorted(refs)
    requires forall r :: r in refs <==> RefOf(size, chunks, hash, |chunks|, r)
    ensures refs == RefsTo(size, chunks, hash, |chunks|)
  {
    RefsToSorted(size, chunks, hash, |chunks|);
    forall r { RefsToMembers(size, chunks, hash, |chunks|, r); }
    SortedUnique(refs, RefsTo(size, chunks, hash, |chunks|));
  }

  // ---- Sorting refs ---------------------------------------------------------------

  ghost predicate Sorted(refs: seq<ChunkRef>) {
    forall i, j | 0 <= i < j < |refs| :: refs[i].offset <= refs[j].offset
  }

  ghost predicate DistinctOffsets(refs: seq<ChunkRef>) {
    forall i, j | 0 <= i < j < |refs| :: refs[i].offset != refs[j].offset
  }

  function Insert(refs: seq<ChunkRef>, r: ChunkRef): (s: seq<ChunkRef>)
    requires Sorted(refs)
    ensures Sorted(s) && multiset(s) == multiset(refs) + multiset{r}
  {
    if |refs| == 0 || refs[|refs| - 1].offset <= r.offset then
      refs + [r]
    else
      var init, last := refs[..|refs| - 1], refs[|refs| - 1];
      var s := Insert(init, r);
      InsertBelow(refs, r, s);
      s + [last]
  }

  lemma InsertBelow(refs: seq<ChunkRef>, r: ChunkRef, s: seq<ChunkRef>)
    requires Sorted(refs) && |refs| > 0 && r.offset < refs[|refs| - 1].offset
    requires Sorted(s) && multiset(s) == multiset(refs[..|refs| - 1]) + multiset{r}
    ensures var last := refs[|refs| - 1];
            Sorted(s + [last]) && multiset(s + [last]) == multiset(refs) + multiset{r}
  {
    var init, last := refs[..|refs| - 1], refs[|refs| - 1];
    assert refs == init + [last];
    forall i | 0 <= i < |s|
      ensures s[i].offset <= last.offset
    {
      assert s[i] in multiset(s);
      assert s[i] in init || s[i] == r;
    }
  }

  function SortByOffset(refs: seq<ChunkRef>): (s: seq<ChunkRef>)
    ensures Sorted(s) && multiset(s) == multiset(refs)
  {
    if |refs| == 0 then [] else
      assert refs == refs[..|refs| - 1] + [refs[|refs| - 1]];
      Insert(SortByOffset(refs[..|refs| - 1]), refs[|refs| - 1])
  }

  // ---- Validation -------------------------------------------------------------------

  ghost predicate WellFormed(m: Manifest) {
    && m.schemaVersion <= MANIFEST_SCHEMA_VERSION && m.chunkSize > 0
    && StrictlySorted(m.chunks)
    && forall i | 0 <= i < |m.chunks| :: Aligned(m.chunks[i].offset, m.chunkSize) && m.chunks[i].offset < m.totalBytes
  }

  predicate Aligned(offset: nat, size: nat)
    requires size > 0
  {
    offset % size == 0
  }

  /** The consistency check a consumer runs first; it reports the first bad entry. */
  method Validate(m: Manifest) returns (r: Validation)
    ensures r == Ok <==> WellFormed(m)
  {
    if m.schemaVersion > MANIFEST_SCHEMA_VERSION {
      return Malformed(UnsupportedSchema(m.schemaVersion));
    }
    if m.chunkSize == 0 {
      return Malformed(ZeroChunkSize);
    }
    var size := m.chunkSize;
    for k := 0 to |m.chunks|
      invariant forall i | 0 <= i < k :: Aligned(m.chunks[i].offset, size) && m.chunks[i].offset < m.totalBytes
      invariant forall i, j | 0 <= i < j < k :: m.chunks[i].offset < m.chunks[j].offset
    {
      var offset := m.chunks[k].offset;
      if !Aligned(offset, size) {
        return Malformed(Misaligned(offset));
      }
      if offset >= m.totalBytes {
        return Malformed(PastEnd(offset));
      }
      if k > 0 && offset <= m.chunks[k - 1].offset {
        return Malformed(NotIncreasing(offset));
      }
    }
    r := Ok;
  }
}
