/** Rebuilding an image from a manifest and a chunk store, directly or through the per-chunk
    bootstrap document. */
module Materialize {
  import opened Bytes
  import opened Coverage
  import opened Arithmetic
  import opened Chunking
  import opened Manifests
  import opened Uploader
  import opened RegionPipeline

  datatype ReadResult = File(bytes: Bytes) | Invalid(error: ManifestError) | MissingChunk(hash: Digest)

  ghost predicate InStore(refs: seq<ChunkRef>, store: map<Digest, Bytes>) {
    forall i | 0 <= i < |refs| :: refs[i].hash in store
  }

  ghost predicate Below(refs: seq<ChunkRef>, total: nat) {
    forall i | 0 <= i < |refs| :: refs[i].offset < total
  }

  /** A zero file of `total` bytes with every listed chunk written at its offset, in order. */
  function Overlay(total: nat, refs: seq<ChunkRef>, store: map<Digest, Bytes>): (r: Bytes)
    requires InStore(refs, store) && Below(refs, total)
    ensures |r| >= total
  {
    if |refs| == 0 then Zeros(total)
    else
      var last := refs[|refs| - 1];
      Patch(Overlay(total, refs[..|refs| - 1], store), Frag(last.offset, store[last.hash]))
  }

  /** Writes each chunk at its offset in a zero-filled file; gaps stay zero. */
  method MaterializeToFile(m: Manifest, store: map<Digest, Bytes>) returns (r: ReadResult)
    ensures r.File? <==> WellFormed(m) && InStore(m.chunks, store)
    ensures r.File? ==> Below(m.chunks, m.totalBytes) && r.bytes == Overlay(m.totalBytes, m.chunks, store)
  {
    var v := Validate(m);
    if v.Malformed? {
      return Invalid(v.error);
    }
    var file := Zeros(m.totalBytes);
    assert m.chunks[..0] == [];
    for i := 0 to |m.chunks|
      invariant InStore(m.chunks[..i], store) && Below(m.chunks[..i], m.totalBytes)
      invariant file == Overlay(m.totalBytes, m.chunks[..i], store)
    {
      var entry := m.chunks[i];
      if entry.hash !in store {
        return MissingChunk(entry.hash);
      }
      hide Overlay, Patch, InStore, Below;
      assert m.chunks[..i + 1] == m.chunks[..i] + [entry];
      OverlaySnoc(m.totalBytes, m.chunks[..i], store, entry);
      file := Patch(file, Frag(entry.offset, store[entry.hash]));
    }
    assert m.chunks[..|m.chunks|] == m.chunks;
    r := File(file);
  }

  // ---- The canonical manifest reads back the image -------------------------------------

  lemma InChunkIff(g: Grid, idx: nat, pos: nat)
    requires g.Valid() && pos < g.total && idx < g.Count() && g.Has(idx)
    ensures idx * g.size <= pos < idx * g.size + g.Len(idx) <==> pos / g.size == idx
  {
    Locate(g, pos);
    if idx * g.size <= pos < idx * g.size + g.Len(idx) { DivUnique(idx, pos - idx * g.size, g.size); }
  }

  /** Each stored chunk is served back unchanged. */
  ghost predicate Serves(store: map<Digest, Bytes>, hash: Bytes -> Digest, chunks: seq<Bytes>) {
    forall i | 0 <= i < |chunks| && !AllZero(chunks[i]) ::
      hash(chunks[i]) in store && store[hash(chunks[i])] == chunks[i]
  }

  lemma HonestServes(store: map<Digest, Bytes>, hash: Bytes -> Digest, chunks: seq<Bytes>)
    requires Honest(store, hash) && Stocked(store, hash, chunks) && Injective(hash)
    ensures Serves(store, hash, chunks)
  {
  }

  ghost predicate Placed(size: nat, total: nat, chunks: seq<Bytes>) {
    forall i | 0 <= i < |chunks| :: ChunkFits(size, total, chunks[i], i)
  }

  predicate ChunkFits(size: nat, total: nat, c: Bytes, i: nat) {
    i * size < total && i * size + |c| <= total
  }

  lemma CutPlaced(g: Grid, image: Bytes)
    requires g.Valid() && |image| == g.total
    ensures Placed(g.size, g.total, Cut(g, image))
  {
    forall i | 0 <= i < g.Count()
      ensures ChunkFits(g.size, g.total, Cut(g, image)[i], i)
    {
      CutAt(g, image, g.Count(), i);
    }
  }

  ghost predicate Readable(total: nat, refs: seq<ChunkRef>, store: map<Digest, Bytes>) {
    InStore(refs, store) && Below(refs, total) && |Overlay(total, refs, store)| == total
  }

  lemma OverlaySnoc(total: nat, refs: seq<ChunkRef>, store: map<Digest, Bytes>, r: ChunkRef)
    requires InStore(refs, store) && Below(refs, total) && r.hash in store && r.offset < total
    ensures InStore(refs + [r], store) && Below(refs + [r], total)
    ensures Overlay(total, refs + [r], store) == Patch(Overlay(total, refs, store), Frag(r.offset, store[r.hash]))
  {
    assert (refs + [r])[..|refs|] == refs;
  }

  lemma ReadableSnoc(total: nat, refs: seq<ChunkRef>, store: map<Digest, Bytes>, r: ChunkRef)
    requires Readable(total, refs, store) && r.hash in store && r.offset < total && r.offset + |store[r.hash]| <= total
    ensures Readable(total, refs + [r], store)
    ensures Overlay(total, refs + [r], store) == Patch(Overlay(total, refs, store), Frag(r.offset, store[r.hash]))
  {
    OverlaySnoc(total, refs, store, r);
  }

  lemma {:induction false} RefsServed(size: nat, total: nat, chunks: seq<Bytes>, hash: Bytes -> Digest,
                                      store: map<Digest, Bytes>, n: nat)
    requires n <= |chunks| && Placed(size, total, chunks) && Serves(store, hash, chunks)
    ensures Readable(total, RefsTo(size, chunks, hash, n), store)
  {
    if n > 0 {
      RefsServed(size, total, chunks, hash, store, n - 1);
      var c := chunks[n - 1];
      assert ChunkFits(size, total, c, n - 1);
      if !AllZero(c) {
        ReadableSnoc(total, RefsTo(size, chunks, hash, n - 1), store, ChunkRef((n - 1) * size, hash(c)));
        hide Readable;
      }
    }
  }

  /** The position lies in the span of chunk `q`. */
  predicate InSpan(g: Grid, pos: nat, q: nat) { q * g.size <= pos < q * g.size + g.size }

  lemma SpanOf(g: Grid, pos: nat) returns (q: nat)
    requires g.Valid() && pos < g.total
    ensures InSpan(g, pos, q) && q < g.Count()
  {
    q := pos / g.size;
    Locate(g, pos);
    DivIff(pos, g.size, q);
  }

  /** After the chunks below `n`, the file agrees with the image there and is zero beyond. */
  ghost predicate Filled(g: Grid, image: Bytes, hash: Bytes -> Digest, store: map<Digest, Bytes>, n: nat, pos: nat,
                         q: nat)
    requires g.Valid() && |image| == g.total && n <= g.Count() && pos < g.total
  {
    var refs := RefsTo(g.size, Cut(g, image), hash, n);
    Readable(g.total, refs, store) && Overlay(g.total, refs, store)[pos] == if q < n then image[pos] else 0
  }

  lemma FilledNone(g: Grid, image: Bytes, hash: Bytes -> Digest, store: map<Digest, Bytes>, pos: nat, q: nat)
    requires g.Valid() && |image| == g.total && pos < g.total
    ensures Filled(g, image, hash, store, 0, pos, q)
  {
    assert RefsTo(g.size, Cut(g, image), hash, 0) == [];
  }

  lemma {:induction false} OverlayPrefix(g: Grid, image: Bytes, hash: Bytes -> Digest, store: map<Digest, Bytes>,
                                         n: nat, pos: nat, q: nat)
    requires g.Valid() && |image| == g.total && n <= g.Count() && pos < g.total && Serves(store, hash, Cut(g, image))
    requires Placed(g.size, g.total, Cut(g, image)) && InSpan(g, pos, q)
    ensures Filled(g, image, hash, store, n, pos, q)
  {
    hide Cut, Placed, Serves, Filled, Readable, InSpan;
    if n == 0 {
      FilledNone(g, image, hash, store, pos, q);
    } else {
      OverlayPrefix(g, image, hash, store, n - 1, pos, q);
      RefsServed(g.size, g.total, Cut(g, image), hash, store, n);
      OverlayStep(g, image, hash, store, n - 1, pos, q);
    }
  }

  lemma OverlayStep(g: Grid, image: Bytes, hash: Bytes -> Digest, store: map<Digest, Bytes>, idx: nat, pos: nat, q: nat)
    requires g.Valid() && |image| == g.total && idx < g.Count() && pos < g.total && Serves(store, hash, Cut(g, image))
    requires Filled(g, image, hash, store, idx, pos, q) && InSpan(g, pos, q)
    requires Readable(g.total, RefsTo(g.size, Cut(g, image), hash, idx + 1), store)
    ensures Filled(g, image, hash, store, idx + 1, pos, q)
  {
    hide Cut, RefsTo, Overlay, InStore, Below, Serves;
    var refs, c := RefsTo(g.size, Cut(g, image), hash, idx), Cut(g, image)[idx];
    NextRef(g.size, Cut(g, image), hash, store, g.total, idx);
    ChunkByteAt(g, image, idx, pos, q);
    hide Patch, InSpan;
    if !AllZero(c) {
      PatchAt(Overlay(g.total, refs, store), Frag(idx * g.size, c), pos);
    }
  }

  /** One more chunk: nothing is written for a zero one. */
  lemma NextRef(size: nat, chunks: seq<Bytes>, hash: Bytes -> Digest, store: map<Digest, Bytes>, total: nat, idx: nat)
    requires idx < |chunks| && Serves(store, hash, chunks)
    requires Readable(total, RefsTo(size, chunks, hash, idx), store)
    requires Readable(total, RefsTo(size, chunks, hash, idx + 1), store)
    ensures var before := Overlay(total, RefsTo(size, chunks, hash, idx), store);
            var after := Overlay(total, RefsTo(size, chunks, hash, idx + 1), store);
            if AllZero(chunks[idx]) then after == before
            else idx * size <= |before| && after == Patch(before, Frag(idx * size, chunks[idx]))
  {
    if !AllZero(chunks[idx]) {
      var refs, r := RefsTo(size, chunks, hash, idx), ChunkRef(idx * size, hash(chunks[idx]));
      assert RefsTo(size, chunks, hash, idx + 1) == refs + [r];
      assert (refs + [r])[|refs|] == r;
      hide RefsTo, Overlay;
      OverlaySnoc(total, refs, store, r);
    }
  }

  lemma PatchAt(base: Bytes, f: Frag, pos: nat)
    requires f.off <= |base| && pos < |base|
    ensures pos < |Patch(base, f)| && Patch(base, f)[pos] == if f.Has(pos) then f.bytes[pos - f.off] else base[pos]
  {
    hide Patch;
  }

  /** The bytes of a chunk are the image's, and no position outside it is in its span. */
  lemma ChunkByte(g: Grid, image: Bytes, idx: nat, pos: nat)
    requires g.Valid() && |image| == g.total && idx < g.Count() && pos < g.total
    ensures var c := Cut(g, image)[idx];
            && (Frag(idx * g.size, c).Has(pos) <==> pos / g.size == idx)
            && (pos / g.size == idx ==> c[pos - idx * g.size] == image[pos])
  {
    CutAt(g, image, g.Count(), idx);
    InChunkIff(g, idx, pos);
  }

  lemma ChunkByteAt(g: Grid, image: Bytes, idx: nat, pos: nat, q: nat)
    requires g.Valid() && |image| == g.total && idx < g.Count() && pos < g.total && InSpan(g, pos, q)
    ensures var c := Cut(g, image)[idx];
            (Frag(idx * g.size, c).Has(pos) <==> q == idx) && (q == idx ==> c[pos - idx * g.size] == image[pos])
  {
    DivIff(pos, g.size, q);
    ChunkByte(g, image, idx, pos);
    hide Cut;
  }

  /** Materializing the canonical manifest of an image gives the image, byte for byte. */
  lemma ReadsBack(kind: ManifestKind, g: Grid, image: Bytes, hash: Bytes -> Digest, store: map<Digest, Bytes>)
    requires g.Valid() && |image| == g.total && Serves(store, hash, Cut(g, image))
    ensures var m := Canonical(kind, g, image, hash);
            && WellFormed(m) && InStore(m.chunks, store) && Below(m.chunks, g.total)
            && Overlay(g.total, m.chunks, store) == image
  {
    hide RefsTo, Cut, Overlay, Aligned, Serves, InStore, StrictlySorted, Below, WellFormed;
    OverlayIsImage(g, image, hash, store);
    RefsToSorted(g.size, Cut(g, image), hash, g.Count());
    RefsAligned(g.size, Cut(g, image), hash, g.Count());
    ListWellFormed(kind, g, RefsTo(g.size, Cut(g, image), hash, g.Count()));
  }

  /** A canonical manifest passes validation. */
  lemma CanonicalWellFormed(kind: ManifestKind, g: Grid, image: Bytes, hash: Bytes -> Digest)
    requires g.Valid() && |image| == g.total
    ensures WellFormed(Canonical(kind, g, image, hash))
  {
    var refs := RefsTo(g.size, Cut(g, image), hash, g.Count());
    hide RefsTo, Cut, Aligned, StrictlySorted, WellFormed;
    RefsToSorted(g.size, Cut(g, image), hash, g.Count());
    RefsAligned(g.size, Cut(g, image), hash, g.Count());
    forall r | r in refs
      ensures r.offset < g.total
    {
      RefsToMembers(g.size, Cut(g, image), hash, g.Count(), r);
      var i :| 0 <= i < g.Count() && IsRef(g.size, Cut(g, image), hash, i, r);
      CountIff(g, i);
    }
    ListWellFormed(kind, g, refs);
  }

  lemma ListWellFormed(kind: ManifestKind, g: Grid, refs: seq<ChunkRef>)
    requires g.Valid() && StrictlySorted(refs) && Below(refs, g.total)
    requires forall r | r in refs :: Aligned(r.offset, g.size)
    ensures WellFormed(Manifest(MANIFEST_SCHEMA_VERSION, kind, g.size, g.total, refs))
  {
    hide Aligned;
  }

  lemma OverlayAt(g: Grid, image: Bytes, hash: Bytes -> Digest, store: map<Digest, Bytes>, pos: nat)
    requires g.Valid() && |image| == g.total && pos < g.total && Serves(store, hash, Cut(g, image))
    requires Placed(g.size, g.total, Cut(g, image))
    ensures var refs := RefsTo(g.size, Cut(g, image), hash, g.Count());
            Readable(g.total, refs, store) && Overlay(g.total, refs, store)[pos] == image[pos]
  {
    var q := SpanOf(g, pos);
    hide RefsTo, Cut, Overlay, Placed, Serves, InStore, Below, InSpan;
    OverlayPrefix(g, image, hash, store, g.Count(), pos, q);
  }

  lemma OverlayIsImage(g: Grid, image: Bytes, hash: Bytes -> Digest, store: map<Digest, Bytes>)
    requires g.Valid() && |image| == g.total && Serves(store, hash, Cut(g, image))
    ensures var refs := RefsTo(g.size, Cut(g, image), hash, g.Count());
            InStore(refs, store) && Below(refs, g.total) && Overlay(g.total, refs, store) == image
  {
    var refs := RefsTo(g.size, Cut(g, image), hash, g.Count());
    CutPlaced(g, image);
    RefsServed(g.size, g.total, Cut(g, image), hash, store, g.Count());
    hide RefsTo, Cut, Overlay, Placed, Serves, InStore, Below;
    forall pos | 0 <= pos < g.total
      ensures Overlay(g.total, refs, store)[pos] == image[pos]
    {
      OverlayAt(g, image, hash, store, pos);
    }
    assert Overlay(g.total, refs, store) == image;
  }

  lemma {:induction false} RefsAligned(size: nat, chunks: seq<Bytes>, hash: Bytes -> Digest, n: nat)
    requires n <= |chunks| && size > 0
    ensures forall r | r in RefsTo(size, chunks, hash, n) :: Aligned(r.offset, size)
  {
    if n > 0 {
      RefsAligned(size, chunks, hash, n - 1);
      MultipleAligned(n - 1, size);
      hide Aligned;
    }
  }

  lemma MultipleAligned(q: nat, size: nat)
    requires size > 0
    ensures Aligned(q * size, size)
  {
    DivUnique(q, 0, size);
  }

  /** A chunk that holds data is found at its place in the other image too. */
  lemma RefShared(size: nat, a: seq<Bytes>, b: seq<Bytes>, hash: Bytes -> Digest, i: nat)
    requires size > 0 && |a| == |b| && i < |a| && Injective(hash)
    requires RefsTo(size, a, hash, |a|) == RefsTo(size, b, hash, |b|)
    ensures !AllZero(a[i]) ==> a[i] == b[i]
  {
    if !AllZero(a[i]) {
      var r := ChunkRef(i * size, hash(a[i]));
      assert IsRef(size, a, hash, i, r);
      RefsToMembers(size, a, hash, |a|, r);
      RefsToMembers(size, b, hash, |b|, r);
      var j :| 0 <= j < |b| && IsRef(size, b, hash, j, r);
      if i != j { MulDistinct(i, j, size); }
    }
  }

  lemma SameChunk(g: Grid, a: Bytes, b: Bytes, hash: Bytes -> Digest, idx: nat)
    requires g.Valid() && |a| == |b| == g.total && Injective(hash) && idx < g.Count()
    requires RefsTo(g.size, Cut(g, a), hash, g.Count()) == RefsTo(g.size, Cut(g, b), hash, g.Count())
    ensures Cut(g, a)[idx] == Cut(g, b)[idx]
  {
    RefShared(g.size, Cut(g, a), Cut(g, b), hash, idx);
    RefShared(g.size, Cut(g, b), Cut(g, a), hash, idx);
    SameLength(g, a, idx);
    SameLength(g, b, idx);
  }

  lemma SameByte(g: Grid, a: Bytes, b: Bytes, hash: Bytes -> Digest, pos: nat)
    requires g.Valid() && |a| == |b| == g.total && Injective(hash) && pos < g.total
    requires RefsTo(g.size, Cut(g, a), hash, g.Count()) == RefsTo(g.size, Cut(g, b), hash, g.Count())
    ensures a[pos] == b[pos]
  {
    hide Cut, RefsTo, Injective;
    CutByte(g, a, pos);
    CutByte(g, b, pos);
    SameChunk(g, a, b, hash, pos / g.size);
  }

  /** Two images of one shape have the same manifest exactly when they are the same image. */
  lemma ManifestIdentity(kind: ManifestKind, g: Grid, a: Bytes, b: Bytes, hash: Bytes -> Digest)
    requires g.Valid() && |a| == |b| == g.total && Injective(hash)
    ensures Canonical(kind, g, a, hash) == Canonical(kind, g, b, hash) <==> a == b
  {
    hide Cut, RefsTo, Injective;
    if Canonical(kind, g, a, hash) == Canonical(kind, g, b, hash) {
      forall pos | 0 <= pos < g.total
        ensures a[pos] == b[pos]
      {
        SameByte(g, a, b, hash, pos);
      }
    }
  }

  lemma CutByte(g: Grid, image: Bytes, pos: nat)
    requires g.Valid() && |image| == g.total && pos < g.total
    ensures pos / g.size < g.Count() && pos % g.size < |Cut(g, image)[pos / g.size]|
    ensures Cut(g, image)[pos / g.size][pos % g.size] == image[pos]
  {
    Locate(g, pos);
    CutAt(g, image, g.Count(), pos / g.size);
  }
}
