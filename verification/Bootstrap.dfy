/** The per-chunk bootstrap document built from a manifest, and the way back. */
module Bootstrap {
  import opened Bytes
  import opened Coverage
  import opened Chunking
  import opened Manifests
  import opened Materialize
  import opened RegionPipeline
  import opened Uploader
  import opened Wrappers

  const BOOTSTRAP_SCHEMA_VERSION: nat := 2

  // ---- Blob names ------------------------------------------------------------------------

  function HexDigit(n: nat): (c: char)
    requires n < 16
    ensures c == if n < 10 then '0' + n as char else 'a' + (n - 10) as char
  {
    "0123456789abcdef"[n]
  }

  /** Two lower-case hex digits for each byte. */
  function Hex(d: Digest): (s: string)
    ensures |s| == 2 * |d|
  {
    if |d| == 0 then "" else [HexDigit(d[0] / 16), HexDigit(d[0] % 16)] + Hex(d[1..])
  }

  /** The name a registry keeps a chunk under. */
  function BlobName(d: Digest): string { "sha256:" + Hex(d) }

  lemma {:induction false} HexInjective(a: Digest, b: Digest)
    requires Hex(a) == Hex(b)
    ensures a == b
  {
    if |a| > 0 {
      var s, t := Hex(a), Hex(b);
      assert s[0] == t[0] && s[1] == t[1];
      assert s[2..] == Hex(a[1..]) && t[2..] == Hex(b[1..]);
      HexInjective(a[1..], b[1..]);
      assert a == [a[0]] + a[1..] && b == [b[0]] + b[1..];
    }
  }

  /** Chunks with different digests have different blob names. */
  lemma BlobNameInjective(a: Digest, b: Digest)
    requires BlobName(a) == BlobName(b)
    ensures a == b
  {
    var prefix := "sha256:";
    assert BlobName(a)[|prefix|..] == Hex(a) && BlobName(b)[|prefix|..] == Hex(b);
    HexInjective(a, b);
  }

  // ---- The document ----------------------------------------------------------------------

  datatype BootstrapEntry =
    BootstrapEntry(fileOffset: nat, blobDigest: Option<string>, blobOffset: nat, length: nat, sha256: Digest)

  datatype BootstrapDoc =
    BootstrapDoc(schemaVersion: nat, kind: ManifestKind, totalBytes: nat, chunkSize: nat, entries: seq<BootstrapEntry>)

  /** The entry of one chunk: its length follows from the manifest's geometry, kept in 32 bits. */
  function Entry(m: Manifest, c: ChunkRef): BootstrapEntry
    requires c.offset <= m.totalBytes
  {
    var left := m.totalBytes - c.offset;
    var len := if m.chunkSize <= left then m.chunkSize else left;
    BootstrapEntry(c.offset, Some(BlobName(c.hash)), 0, len % 0x1_0000_0000, c.hash)
  }

  function BuildPerChunk(m: Manifest): (b: BootstrapDoc)
    requires forall i | 0 <= i < |m.chunks| :: m.chunks[i].offset <= m.totalBytes
  {
    BootstrapDoc(BOOTSTRAP_SCHEMA_VERSION, m.kind, m.totalBytes, m.chunkSize,
                 seq(|m.chunks|, i requires 0 <= i < |m.chunks| => Entry(m, m.chunks[i])))
  }

  predicate IsPerChunk(b: BootstrapDoc) {
    b.schemaVersion >= BOOTSTRAP_SCHEMA_VERSION && forall i | 0 <= i < |b.entries| :: b.entries[i].blobDigest.Some?
  }

  function ToManifest(b: BootstrapDoc): (m: Manifest) {
    Manifest(MANIFEST_SCHEMA_VERSION, b.kind, b.chunkSize, b.totalBytes,
             seq(|b.entries|, i requires 0 <= i < |b.entries| =>
               ChunkRef(b.entries[i].fileOffset, b.entries[i].sha256)))
  }

  /** The bootstrap of a manifest carries the whole manifest but its schema version, which
      becomes the current one. */
  lemma RoundTrip(m: Manifest)
    requires forall i | 0 <= i < |m.chunks| :: m.chunks[i].offset <= m.totalBytes
    ensures IsPerChunk(BuildPerChunk(m)) && ToManifest(BuildPerChunk(m)) == m.(schemaVersion := MANIFEST_SCHEMA_VERSION)
  {
    assert ToManifest(BuildPerChunk(m)).chunks == m.chunks;
  }

  // ---- The registry ----------------------------------------------------------------------

  type Registry = map<string, Bytes>

  /** The registry checks each upload: a blob sits under the name of its own digest. */
  ghost predicate Verified(registry: Registry, hash: Bytes -> Digest) {
    forall name | name in registry :: name == BlobName(hash(registry[name]))
  }

  ghost predicate Published(registry: Registry, hash: Bytes -> Digest, chunks: seq<Bytes>) {
    forall i | 0 <= i < |chunks| && !AllZero(chunks[i]) :: BlobName(hash(chunks[i])) in registry
  }

  lemma ServedByName(registry: Registry, hash: Bytes -> Digest, body: Bytes)
    requires Verified(registry, hash) && Injective(hash) && BlobName(hash(body)) in registry
    ensures registry[BlobName(hash(body))] == body
  {
    BlobNameInjective(hash(registry[BlobName(hash(body))]), hash(body));
  }

  /** Pushes every chunk a manifest lists, skipping the blobs already there. The registry takes
      a blob only under the name of its digest. */
  method Push(m: Manifest, store: map<Digest, Bytes>, hash: Bytes -> Digest, registry: Registry)
    returns (ok: bool, pushed: Registry)
    requires Verified(registry, hash)
    ensures Verified(pushed, hash)
    ensures forall name | name in registry :: name in pushed && pushed[name] == registry[name]
    ensures ok ==> forall i | 0 <= i < |m.chunks| :: BlobName(m.chunks[i].hash) in pushed
    ensures InStore(m.chunks, store) && Honest(store, hash) ==> ok
  {
    hide BlobName, Hex;
    ok, pushed := true, registry;
    for k := 0 to |m.chunks|
      invariant Verified(pushed, hash)
      invariant forall name | name in registry :: name in pushed && pushed[name] == registry[name]
      invariant forall i | 0 <= i < k :: BlobName(m.chunks[i].hash) in pushed
    {
      var h := m.chunks[k].hash;
      if BlobName(h) !in pushed {
        if h !in store || BlobName(hash(store[h])) != BlobName(h) {
          return false, pushed;
        }
        pushed := pushed[BlobName(h) := store[h]];
      }
    }
  }

  // ---- Reading the entries ----------------------------------------------------------------

  datatype FetchResult = Fetched(bytes: Bytes) | Unindexed | PullFailed | HashMismatch

  /** The bytes an entry stands for: its blob by name, cut at `blobOffset` and `length`, checked
      against the entry's digest. */
  function ReadEntry(e: BootstrapEntry, registry: Registry, hash: Bytes -> Digest): (r: FetchResult)
    ensures r.Fetched? ==> hash(r.bytes) == e.sha256 && |r.bytes| == e.length
  {
    if e.blobDigest.None? || e.blobDigest.value !in registry then PullFailed
    else
      var blob := registry[e.blobDigest.value];
      if |blob| < e.blobOffset + e.length then PullFailed
      else
        var bytes := blob[e.blobOffset..e.blobOffset + e.length];
        if hash(bytes) == e.sha256 then Fetched(bytes) else HashMismatch
  }

  ghost predicate EntriesRead(es: seq<BootstrapEntry>, registry: Registry, hash: Bytes -> Digest, total: nat) {
    forall i | 0 <= i < |es| :: ReadEntry(es[i], registry, hash).Fetched? && es[i].fileOffset < total
  }

  /** Writing the bytes of each entry at its file offset, in order, over zeros. */
  function PlaceEntries(es: seq<BootstrapEntry>, registry: Registry, hash: Bytes -> Digest, total: nat): (r: Bytes)
    requires EntriesRead(es, registry, hash, total)
    ensures |r| >= total
  {
    if |es| == 0 then Zeros(total)
    else
      var e := es[|es| - 1];
      Patch(PlaceEntries(es[..|es| - 1], registry, hash, total),
            Frag(e.fileOffset, ReadEntry(e, registry, hash).bytes))
  }

  /** The derived length of an entry is the real length of its chunk. */
  lemma EntryLength(kind: ManifestKind, g: Grid, image: Bytes, hash: Bytes -> Digest, store: map<Digest, Bytes>,
                    r: ChunkRef)
    requires g.Valid() && g.size < 0x1_0000_0000 && |image| == g.total && Serves(store, hash, Cut(g, image))
    requires r in Canonical(kind, g, image, hash).chunks
    ensures r.hash in store && r.offset < g.total
    ensures Entry(Canonical(kind, g, image, hash), r).length == |store[r.hash]|
  {
    var chunks := Cut(g, image);
    RefsToMembers(g.size, chunks, hash, g.Count(), r);
    var i :| 0 <= i < |chunks| && IsRef(g.size, chunks, hash, i, r);
    CutAt(g, image, g.Count(), i);
  }

  /** The non-zero chunks of an image by digest. */
  ghost function StoreOf(chunks: seq<Bytes>, hash: Bytes -> Digest): map<Digest, Bytes>
    requires Injective(hash)
  {
    map c | c in chunks && !AllZero(c) :: hash(c) := c
  }

  lemma StoreOfServes(chunks: seq<Bytes>, hash: Bytes -> Digest)
    requires Injective(hash)
    ensures Serves(StoreOf(chunks, hash), hash, chunks) && Honest(StoreOf(chunks, hash), hash)
  {
    var store := StoreOf(chunks, hash);
    forall i | 0 <= i < |chunks| && !AllZero(chunks[i])
      ensures hash(chunks[i]) in store && store[hash(chunks[i])] == chunks[i]
    {
      assert chunks[i] in chunks;
    }
  }

  /** What the registry gives for each listed chunk is what the store gives. */
  ghost predicate Mirrors(refs: seq<ChunkRef>, store: map<Digest, Bytes>, registry: Registry, hash: Bytes -> Digest) {
    forall i | 0 <= i < |refs| ::
      && refs[i].hash in store && hash(store[refs[i].hash]) == refs[i].hash
      && BlobName(refs[i].hash) in registry && registry[BlobName(refs[i].hash)] == store[refs[i].hash]
  }

  /** One entry for each ref, with the length of its chunk. */
  ghost predicate Paired(m: Manifest, es: seq<BootstrapEntry>, refs: seq<ChunkRef>, store: map<Digest, Bytes>) {
    && |es| == |refs|
    && forall i | 0 <= i < |refs| ::
         && refs[i].offset < m.totalBytes && es[i] == Entry(m, refs[i])
         && refs[i].hash in store && es[i].length == |store[refs[i].hash]|
  }

  lemma PlaceNothing(store: map<Digest, Bytes>, registry: Registry, hash: Bytes -> Digest, total: nat)
    ensures InStore([], store) && Below([], total) && EntriesRead([], registry, hash, total)
    ensures PlaceEntries([], registry, hash, total) == Overlay(total, [], store)
  {
  }

  lemma {:induction false} PlaceIsOverlay(m: Manifest, es: seq<BootstrapEntry>, refs: seq<ChunkRef>,
                                          store: map<Digest, Bytes>, registry: Registry, hash: Bytes -> Digest)
    requires Paired(m, es, refs, store) && Mirrors(refs, store, registry, hash)
    ensures InStore(refs, store) && Below(refs, m.totalBytes) && EntriesRead(es, registry, hash, m.totalBytes)
    ensures PlaceEntries(es, registry, hash, m.totalBytes) == Overlay(m.totalBytes, refs, store)
    decreases |refs|
  {
    hide Entry, Overlay, PlaceEntries, Patch, ReadEntry, BlobName, EntriesRead, InStore, Below;
    if refs == [] {
      PlaceNothing(store, registry, hash, m.totalBytes);
    } else {
      var n := |refs| - 1;
      PlaceIsOverlay(m, es[..n], refs[..n], store, registry, hash);
      PlaceOne(m, store, registry, hash, es[..n], refs[..n], refs[n]);
      assert refs == refs[..n] + [refs[n]] && es == es[..n] + [es[n]];
    }
  }

  lemma PlaceOne(m: Manifest, store: map<Digest, Bytes>, registry: Registry, hash: Bytes -> Digest,
                 es: seq<BootstrapEntry>, refs: seq<ChunkRef>, c: ChunkRef)
    requires InStore(refs, store) && Below(refs, m.totalBytes) && EntriesRead(es, registry, hash, m.totalBytes)
    requires PlaceEntries(es, registry, hash, m.totalBytes) == Overlay(m.totalBytes, refs, store)
    requires c.hash in store && hash(store[c.hash]) == c.hash && c.offset < m.totalBytes
    requires BlobName(c.hash) in registry && registry[BlobName(c.hash)] == store[c.hash]
    requires Entry(m, c).length == |store[c.hash]|
    ensures InStore(refs + [c], store) && Below(refs + [c], m.totalBytes)
    ensures EntriesRead(es + [Entry(m, c)], registry, hash, m.totalBytes)
    ensures PlaceEntries(es + [Entry(m, c)], registry, hash, m.totalBytes)
            == Overlay(m.totalBytes, refs + [c], store)
  {
    EntryReads(m, c, registry, hash);
    hide Entry, Overlay, PlaceEntries, Patch, ReadEntry, BlobName, EntriesRead, InStore, Below;
    PlaceSnoc(es, Entry(m, c), registry, hash, m.totalBytes);
    OverlaySnoc(m.totalBytes, refs, store, c);
  }

  lemma EntryReads(m: Manifest, c: ChunkRef, registry: Registry, hash: Bytes -> Digest)
    requires c.offset <= m.totalBytes && BlobName(c.hash) in registry && hash(registry[BlobName(c.hash)]) == c.hash
    requires Entry(m, c).length == |registry[BlobName(c.hash)]|
    ensures ReadEntry(Entry(m, c), registry, hash) == Fetched(registry[BlobName(c.hash)])
    ensures Entry(m, c).fileOffset == c.offset
  {
    var blob := registry[BlobName(c.hash)];
    assert blob[0..|blob|] == blob;
  }

  lemma PlaceSnoc(es: seq<BootstrapEntry>, e: BootstrapEntry, registry: Registry, hash: Bytes -> Digest, total: nat)
    requires EntriesRead(es, registry, hash, total)
    requires e.fileOffset < total && ReadEntry(e, registry, hash).Fetched?
    ensures EntriesRead(es + [e], registry, hash, total)
    ensures PlaceEntries(es + [e], registry, hash, total)
            == Patch(PlaceEntries(es, registry, hash, total), Frag(e.fileOffset, ReadEntry(e, registry, hash).bytes))
  {
    assert (es + [e])[..|es|] == es;
  }

  lemma ListedMirrors(kind: ManifestKind, g: Grid, image: Bytes, hash: Bytes -> Digest, store: map<Digest, Bytes>,
                      registry: Registry, r: ChunkRef)
    requires g.Valid() && |image| == g.total && Serves(store, hash, Cut(g, image))
    requires Injective(hash) && Verified(registry, hash) && Published(registry, hash, Cut(g, image))
    requires r in Canonical(kind, g, image, hash).chunks
    ensures r.hash in store && hash(store[r.hash]) == r.hash
    ensures BlobName(r.hash) in registry && registry[BlobName(r.hash)] == store[r.hash]
  {
    var chunks := Cut(g, image);
    RefsToMembers(g.size, chunks, hash, g.Count(), r);
    var i :| 0 <= i < |chunks| && IsRef(g.size, chunks, hash, i, r);
    ServedByName(registry, hash, chunks[i]);
  }

  /** A registry that holds an image's chunks gives the image back through the entries of its
      bootstrap alone, whatever else the registry holds. */
  lemma EntriesRebuild(kind: ManifestKind, g: Grid, image: Bytes, hash: Bytes -> Digest, registry: Registry)
    requires g.Valid() && g.size < 0x1_0000_0000 && |image| == g.total
    requires Injective(hash) && Verified(registry, hash) && Published(registry, hash, Cut(g, image))
    ensures var m := Canonical(kind, g, image, hash);
            && (forall i | 0 <= i < |m.chunks| :: m.chunks[i].offset <= m.totalBytes)
            && EntriesRead(BuildPerChunk(m).entries, registry, hash, g.total)
            && PlaceEntries(BuildPerChunk(m).entries, registry, hash, g.total) == image
  {
    hide RefsTo, Cut, Overlay, PlaceEntries, Honest, Verified, Published, BlobName, ReadEntry;
    var m, store := Canonical(kind, g, image, hash), StoreOf(Cut(g, image), hash);
    StoreOfServes(Cut(g, image), hash);
    ReadsBack(kind, g, image, hash, store);
    forall i | 0 <= i < |m.chunks|
      ensures m.chunks[i].offset < g.total && Entry(m, m.chunks[i]).length == |store[m.chunks[i].hash]|
      ensures var h := m.chunks[i].hash;
              hash(store[h]) == h && BlobName(h) in registry && registry[BlobName(h)] == store[h]
    {
      EntryLength(kind, g, image, hash, store, m.chunks[i]);
      ListedMirrors(kind, g, image, hash, store, registry, m.chunks[i]);
    }
    hide Canonical, Entry, Serves;
    PlaceIsOverlay(m, BuildPerChunk(m).entries, m.chunks, store, registry, hash);
  }

  // ---- Fetching through the chunk index -----------------------------------------------------

  datatype Locator = Locator(blobDigest: string, length: nat)

  type ChunkIndex = map<Digest, Locator>

  /** `loc` is what the last entry with digest `h` says. */
  ghost predicate LastEntry(es: seq<BootstrapEntry>, h: Digest, loc: Locator) {
    exists i | 0 <= i < |es| ::
      && es[i].sha256 == h && es[i].blobDigest == Some(loc.blobDigest) && es[i].length == loc.length
      && forall j | i < j < |es| :: es[j].sha256 != h
  }

  /** The index of a document, by chunk digest; a document from before the per-chunk blobs is
      turned down. */
  method BuildIndex(doc: BootstrapDoc) returns (r: Option<ChunkIndex>)
    ensures r.Some? <==> IsPerChunk(doc)
    ensures r.Some? ==> forall h :: h in r.value <==> exists i | 0 <= i < |doc.entries| :: doc.entries[i].sha256 == h
    ensures r.Some? ==> forall h | h in r.value :: LastEntry(doc.entries, h, r.value[h])
  {
    if !IsPerChunk(doc) {
      return None;
    }
    var index: ChunkIndex := map[];
    for k := 0 to |doc.entries|
      invariant forall h :: h in index <==> exists i | 0 <= i < k :: doc.entries[i].sha256 == h
      invariant forall h | h in index :: LastEntry(doc.entries[..k], h, index[h])
    {
      var e := doc.entries[k];
      ghost var was := index;
      index := index[e.sha256 := Locator(e.blobDigest.value, e.length)];
      forall h | h in index
        ensures LastEntry(doc.entries[..k + 1], h, index[h])
      {
        LastEntrySnoc(doc.entries[..k], e, h, if h == e.sha256 then index[h] else was[h]);
        assert doc.entries[..k + 1] == doc.entries[..k] + [e];
      }
    }
    assert doc.entries[..|doc.entries|] == doc.entries;
    r := Some(index);
  }

  lemma LastEntrySnoc(es: seq<BootstrapEntry>, e: BootstrapEntry, h: Digest, loc: Locator)
    requires e.blobDigest.Some?
    requires if e.sha256 == h then loc == Locator(e.blobDigest.value, e.length) else LastEntry(es, h, loc)
    ensures LastEntry(es + [e], h, loc)
  {
    if e.sha256 == h {
      assert (es + [e])[|es|] == e;
    } else {
      var i :| 0 <= i < |es| && es[i].sha256 == h && es[i].blobDigest == Some(loc.blobDigest)
               && es[i].length == loc.length && forall j | i < j < |es| :: es[j].sha256 != h;
      assert (es + [e])[i] == es[i];
    }
  }

  /** One blob by name, checked against the digest that was asked for. */
  function FetchChunk(index: ChunkIndex, registry: Registry, hash: Bytes -> Digest, h: Digest): (r: FetchResult)
    ensures r.Fetched? ==> hash(r.bytes) == h
  {
    if h !in index then Unindexed
    else if index[h].blobDigest !in registry then PullFailed
    else
      var bytes := registry[index[h].blobDigest];
      if hash(bytes) == h then Fetched(bytes) else HashMismatch
  }

  /** Fetches every listed chunk into a local store. */
  method FetchAll(refs: seq<ChunkRef>, index: ChunkIndex, registry: Registry, hash: Bytes -> Digest)
    returns (failed: Option<Digest>, store: map<Digest, Bytes>)
    ensures failed.None? <==> forall i | 0 <= i < |refs| :: FetchChunk(index, registry, hash, refs[i].hash).Fetched?
    ensures failed.None? ==> InStore(refs, store)
    ensures forall h | h in store :: FetchChunk(index, registry, hash, h) == Fetched(store[h])
  {
    store := map[];
    for k := 0 to |refs|
      invariant forall i | 0 <= i < k :: FetchChunk(index, registry, hash, refs[i].hash).Fetched?
      invariant forall i | 0 <= i < k :: refs[i].hash in store
      invariant forall h | h in store :: FetchChunk(index, registry, hash, h) == Fetched(store[h])
    {
      var h := refs[k].hash;
      var got := FetchChunk(index, registry, hash, h);
      if !got.Fetched? {
        return Some(h), store;
      }
      store := store[h := got.bytes];
    }
    failed := None;
  }

  /** A host with nothing but the document and the registry: the manifest is synthesized from the
      document and its chunks are fetched through the index. */
  method RestoreFromRegistry(doc: BootstrapDoc, registry: Registry, hash: Bytes -> Digest)
    returns (r: ReadResult, perChunk: bool, ghost store: map<Digest, Bytes>)
    ensures perChunk == IsPerChunk(doc)
    ensures !perChunk ==> !r.File?
    ensures Honest(store, hash)
    ensures r.File? ==>
      && WellFormed(ToManifest(doc)) && InStore(ToManifest(doc).chunks, store)
      && Below(ToManifest(doc).chunks, doc.totalBytes)
      && r.bytes == Overlay(doc.totalBytes, ToManifest(doc).chunks, store)
    ensures r.File? <== perChunk && WellFormed(ToManifest(doc)) && Resolves(doc, registry, hash)
  {
    store := map[];
    var index := BuildIndex(doc);
    if index.None? {
      return MissingChunk([]), false, store;
    }
    var m := ToManifest(doc);
    if Resolves(doc, registry, hash) { ResolvesFetches(doc, index.value, registry, hash); }
    var failed, chunks := FetchAll(m.chunks, index.value, registry, hash);
    store := chunks;
    if failed.Some? {
      return MissingChunk(failed.value), true, store;
    }
    r := MaterializeToFile(m, chunks);
    perChunk := true;
  }

  /** Every entry's blob is there and hashes to the entry's digest. */
  ghost predicate Resolves(doc: BootstrapDoc, registry: Registry, hash: Bytes -> Digest) {
    forall i | 0 <= i < |doc.entries| ::
      && doc.entries[i].blobDigest.Some? && doc.entries[i].blobDigest.value in registry
      && hash(registry[doc.entries[i].blobDigest.value]) == doc.entries[i].sha256
  }

  lemma ResolvesFetches(doc: BootstrapDoc, index: ChunkIndex, registry: Registry, hash: Bytes -> Digest)
    requires Resolves(doc, registry, hash)
    requires forall h :: h in index <==> exists i | 0 <= i < |doc.entries| :: doc.entries[i].sha256 == h
    requires forall h | h in index :: LastEntry(doc.entries, h, index[h])
    ensures var refs := ToManifest(doc).chunks;
            forall i | 0 <= i < |refs| :: FetchChunk(index, registry, hash, refs[i].hash).Fetched?
  {
    var refs := ToManifest(doc).chunks;
    forall i | 0 <= i < |refs|
      ensures FetchChunk(index, registry, hash, refs[i].hash).Fetched?
    {
      assert refs[i].hash == doc.entries[i].sha256;
      assert LastEntry(doc.entries, refs[i].hash, index[refs[i].hash]);
    }
  }

  /** The bootstrap of a canonical manifest resolves in a registry that has its chunks' names. */
  lemma CanonicalResolves(kind: ManifestKind, g: Grid, image: Bytes, hash: Bytes -> Digest, registry: Registry)
    requires g.Valid() && |image| == g.total && Injective(hash) && Verified(registry, hash)
    requires var m := Canonical(kind, g, image, hash);
             forall i | 0 <= i < |m.chunks| :: BlobName(m.chunks[i].hash) in registry
    ensures Published(registry, hash, Cut(g, image))
    ensures var m := Canonical(kind, g, image, hash);
            && Below(m.chunks, m.totalBytes)
            && ToManifest(BuildPerChunk(m)) == m && IsPerChunk(BuildPerChunk(m)) && WellFormed(m)
            && Resolves(BuildPerChunk(m), registry, hash)
  {
    var m, chunks := Canonical(kind, g, image, hash), Cut(g, image);
    forall i | 0 <= i < |chunks| && !AllZero(chunks[i])
      ensures BlobName(hash(chunks[i])) in registry
    {
      ListedOf(g, image, hash, i);
    }
    hide RefsTo, Cut, BlobName, Verified, WellFormed, Overlay;
    CanonicalWellFormed(kind, g, image, hash);
    assert Below(m.chunks, m.totalBytes) by {
      StoreOfServes(chunks, hash);
      ReadsBack(kind, g, image, hash, StoreOf(chunks, hash));
    }
    RoundTrip(m);
    forall i | 0 <= i < |m.chunks|
      ensures hash(registry[BlobName(m.chunks[i].hash)]) == m.chunks[i].hash
    {
      StoreOfServes(chunks, hash);
      ListedMirrors(kind, g, image, hash, StoreOf(chunks, hash), registry, m.chunks[i]);
    }
  }

  /** Each non-zero chunk is listed. */
  lemma ListedOf(g: Grid, image: Bytes, hash: Bytes -> Digest, i: nat)
    requires g.Valid() && |image| == g.total && i < g.Count() && !AllZero(Cut(g, image)[i])
    ensures ChunkRef(i * g.size, hash(Cut(g, image)[i])) in RefsTo(g.size, Cut(g, image), hash, g.Count())
  {
    var chunks := Cut(g, image);
    var r := ChunkRef(i * g.size, hash(chunks[i]));
    assert IsRef(g.size, chunks, hash, i, r);
    RefsToMembers(g.size, chunks, hash, g.Count(), r);
  }

  /** A store that keeps chunks under their own digests and has every listed one serves the image. */
  lemma HonestListed(kind: ManifestKind, g: Grid, image: Bytes, hash: Bytes -> Digest, store: map<Digest, Bytes>)
    requires g.Valid() && |image| == g.total && Injective(hash) && Honest(store, hash)
    requires InStore(Canonical(kind, g, image, hash).chunks, store)
    ensures Serves(store, hash, Cut(g, image))
  {
    var chunks := Cut(g, image);
    forall i | 0 <= i < |chunks| && !AllZero(chunks[i])
      ensures hash(chunks[i]) in store && store[hash(chunks[i])] == chunks[i]
    {
      ListedOf(g, image, hash, i);
    }
  }

  /** Builds an image from its regions, pushes it, then gives it back three ways: through the
      manifest with gaps as zeros, through the bootstrap entries alone, and on a host that has
      only the bootstrap and the registry. */
  method BuildAndRestore(kind: ManifestKind, total: nat, calls: seq<Call>, hash: Bytes -> Digest,
                         lands: Bytes -> bool, store: map<Digest, Bytes>, registry: Registry, ghost image: Bytes)
    returns (built: BuildResult, file: ReadResult, doc: Option<BootstrapDoc>, pushed: Registry, restored: ReadResult)
    requires Honest(store, hash) && Injective(hash) && Verified(registry, hash)
    ensures var g := Grid(DefaultChunkSize(kind), total);
            Honoured(g, calls, image)
            && (forall i | 0 <= i < g.Count() && !AllZero(Cut(g, image)[i]) :: lands(Cut(g, image)[i])) ==>
              && built.ImageBuilt? && built.manifest == Canonical(kind, g, image, hash)
              && file == File(image) && restored == File(image)
              && doc.Some? && EntriesRead(doc.value.entries, pushed, hash, total)
              && PlaceEntries(doc.value.entries, pushed, hash, total) == image
  {
    hide RefsTo, Cut, Serves, Stocked, Honest, Overlay, PlaceEntries, EntriesRead, Resolves, Verified, Published;
    pushed, doc, restored := registry, None, MissingChunk([]);
    built := BuildFromRegions(kind, total, calls, hash, lands, store, image);
    if !built.ImageBuilt? {
      return built, MissingChunk([]), None, pushed, restored;
    }
    ghost var g := Grid(DefaultChunkSize(kind), total);
    if Honoured(g, calls, image) {
      HonestServes(built.store, hash, Cut(g, image));
      ReadsBack(kind, g, image, hash, built.store);
    }
    file := MaterializeToFile(built.manifest, built.store);
    if !file.File? {
      return built, file, None, pushed, restored;
    }
    doc := Some(BuildPerChunk(built.manifest));
    var ok;
    ok, pushed := Push(built.manifest, built.store, hash, registry);
    if !ok {
      return built, file, doc, pushed, restored;
    }
    ghost var fetched;
    var perChunk;
    if Honoured(g, calls, image) { CanonicalResolves(kind, g, image, hash, pushed); }
    restored, perChunk, fetched := RestoreFromRegistry(doc.value, pushed, hash);
    if Honoured(g, calls, image) {
      EntriesRebuild(kind, g, image, hash, pushed);
      HonestListed(kind, g, image, hash, fetched);
      ReadsBack(kind, g, image, hash, fetched);
    }
  }
}
