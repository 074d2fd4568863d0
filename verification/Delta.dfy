/** The difference between two manifests of one shape, and applying it. */
module Delta {
  import opened Bytes
  import opened Manifests
  import opened Wrappers

  datatype ManifestDelta = ManifestDelta(write: seq<ChunkRef>, zero: seq<nat>)

  datatype DeltaResult = Delta(delta: ManifestDelta) | ShapesDiffer

  /** The hash listed for an offset. */
  function At(refs: seq<ChunkRef>, offset: nat): (h: Option<Digest>) {
    if |refs| == 0 then None
    else if refs[|refs| - 1].offset == offset then Some(refs[|refs| - 1].hash)
    else At(refs[..|refs| - 1], offset)
  }

  lemma {:induction false} AtIffMember(refs: seq<ChunkRef>, r: ChunkRef)
    requires StrictlySorted(refs)
    ensures r in refs <==> At(refs, r.offset) == Some(r.hash)
    ensures At(refs, r.offset).None? <==> forall i | 0 <= i < |refs| :: refs[i].offset != r.offset
  {
    if |refs| > 0 {
      var init, last := refs[..|refs| - 1], refs[|refs| - 1];
      AtIffMember(init, r);
      assert refs == init + [last];
    }
  }

  /** A sorted list is determined by its lookups. */
  lemma SameLookups(a: seq<ChunkRef>, b: seq<ChunkRef>)
    requires StrictlySorted(a) && StrictlySorted(b)
    requires forall o :: At(a, o) == At(b, o)
    ensures a == b
  {
    forall r
      ensures r in a <==> r in b
    {
      AtIffMember(a, r);
      AtIffMember(b, r);
    }
    SortedUnique(a, b);
  }

  // ---- An ordered map of refs -------------------------------------------------------

  function TreeInsert(t: seq<ChunkRef>, r: ChunkRef): (s: seq<ChunkRef>) {
    if |t| == 0 || t[|t| - 1].offset < r.offset then t + [r]
    else if t[|t| - 1].offset == r.offset then t[..|t| - 1] + [r]
    else TreeInsert(t[..|t| - 1], r) + [t[|t| - 1]]
  }

  function TreeRemove(t: seq<ChunkRef>, offset: nat): (s: seq<ChunkRef>) {
    if |t| == 0 then []
    else if t[|t| - 1].offset == offset then t[..|t| - 1]
    else TreeRemove(t[..|t| - 1], offset) + [t[|t| - 1]]
  }

  lemma AtSnoc(t: seq<ChunkRef>, r: ChunkRef, o: nat)
    ensures At(t + [r], o) == if r.offset == o then Some(r.hash) else At(t, o)
  {
    assert (t + [r])[..|t|] == t;
  }

  lemma {:induction false} TreeInsertAt(t: seq<ChunkRef>, r: ChunkRef, o: nat)
    requires StrictlySorted(t)
    ensures At(TreeInsert(t, r), o) == if o == r.offset then Some(r.hash) else At(t, o)
  {
    if |t| == 0 {
      AtSnoc(t, r, o);
    } else {
      var init, last := t[..|t| - 1], t[|t| - 1];
      if last.offset < r.offset {
        AtSnoc(t, r, o);
      } else if last.offset == r.offset {
        AtSnoc(init, r, o);
      } else {
        TreeInsertAt(init, r, o);
        AtSnoc(TreeInsert(init, r), last, o);
      }
    }
  }

  lemma {:induction false} TreeInsertSorted(t: seq<ChunkRef>, r: ChunkRef, bound: nat)
    requires StrictlySorted(t) && r.offset < bound && forall i | 0 <= i < |t| :: t[i].offset < bound
    ensures StrictlySorted(TreeInsert(t, r))
    ensures forall i | 0 <= i < |TreeInsert(t, r)| :: TreeInsert(t, r)[i].offset < bound
  {
    if |t| > 0 && t[|t| - 1].offset > r.offset {
      TreeInsertSorted(t[..|t| - 1], r, t[|t| - 1].offset);
    }
  }

  lemma {:induction false} TreeRemoveAt(t: seq<ChunkRef>, offset: nat, o: nat)
    requires StrictlySorted(t)
    ensures At(TreeRemove(t, offset), o) == if o == offset then None else At(t, o)
  {
    if |t| > 0 {
      var init, last := t[..|t| - 1], t[|t| - 1];
      if last.offset == offset {
        AtIffMember(init, ChunkRef(offset, last.hash));
      } else {
        TreeRemoveAt(init, offset, o);
        AtSnoc(TreeRemove(init, offset), last, o);
      }
    }
  }

  lemma {:induction false} TreeRemoveSorted(t: seq<ChunkRef>, offset: nat, bound: nat)
    requires StrictlySorted(t) && forall i | 0 <= i < |t| :: t[i].offset < bound
    ensures StrictlySorted(TreeRemove(t, offset))
    ensures forall i | 0 <= i < |TreeRemove(t, offset)| :: TreeRemove(t, offset)[i].offset < bound
  {
    if |t| > 0 {
      TreeRemoveSorted(t[..|t| - 1], offset, t[|t| - 1].offset);
    }
  }

  // ---- The delta ----------------------------------------------------------------------

  /** Chunks of `refs` whose hash differs from the base at their offset. */
  function Changed(refs: seq<ChunkRef>, base: seq<ChunkRef>): (w: seq<ChunkRef>) {
    if |refs| == 0 then []
    else
      var init, last := Changed(refs[..|refs| - 1], base), refs[|refs| - 1];
      if At(base, last.offset) != Some(last.hash) then init + [last] else init
  }

  /** Offsets of `base` that `refs` does not list. */
  function Vanished(base: seq<ChunkRef>, refs: seq<ChunkRef>): (z: seq<nat>) {
    if |base| == 0 then []
    else
      var init, last := Vanished(base[..|base| - 1], refs), base[|base| - 1];
      if At(refs, last.offset).None? then init + [last.offset] else init
  }

  function DeltaFrom(next: Manifest, base: Manifest): (r: DeltaResult) {
    if next.chunkSize != base.chunkSize || next.totalBytes != base.totalBytes then ShapesDiffer
    else Delta(ManifestDelta(Changed(next.chunks, base.chunks), Vanished(base.chunks, next.chunks)))
  }

  function RemoveAll(t: seq<ChunkRef>, zero: seq<nat>): (s: seq<ChunkRef>) {
    if |zero| == 0 then t else TreeRemove(RemoveAll(t, zero[..|zero| - 1]), zero[|zero| - 1])
  }

  function InsertAll(t: seq<ChunkRef>, write: seq<ChunkRef>): (s: seq<ChunkRef>) {
    if |write| == 0 then t else TreeInsert(InsertAll(t, write[..|write| - 1]), write[|write| - 1])
  }

  function Apply(m: Manifest, d: ManifestDelta): (r: Manifest) {
    m.(chunks := InsertAll(RemoveAll(m.chunks, d.zero), d.write))
  }

  function MaxOffset(refs: seq<ChunkRef>, more: seq<ChunkRef>): (n: nat)
    requires StrictlySorted(refs) && StrictlySorted(more)
    ensures forall i | 0 <= i < |refs| :: refs[i].offset < n
    ensures forall i | 0 <= i < |more| :: more[i].offset < n
  {
    var a := if |refs| == 0 then 0 else refs[|refs| - 1].offset + 1;
    var b := if |more| == 0 then 0 else more[|more| - 1].offset + 1;
    if a < b then b else a
  }

  lemma {:induction false} RemoveAllAt(t: seq<ChunkRef>, zero: seq<nat>, bound: nat, o: nat)
    requires StrictlySorted(t) && forall i | 0 <= i < |t| :: t[i].offset < bound
    ensures var s := RemoveAll(t, zero);
            && StrictlySorted(s) && (forall i | 0 <= i < |s| :: s[i].offset < bound)
            && At(s, o) == if o in zero then None else At(t, o)
  {
    if |zero| > 0 {
      var init, last := zero[..|zero| - 1], zero[|zero| - 1];
      RemoveAllAt(t, init, bound, o);
      TreeRemoveAt(RemoveAll(t, init), last, o);
      TreeRemoveSorted(RemoveAll(t, init), last, bound);
      assert zero == init + [last];
    }
  }

  lemma {:induction false} InsertAllAt(t: seq<ChunkRef>, write: seq<ChunkRef>, bound: nat, o: nat)
    requires StrictlySorted(t) && forall i | 0 <= i < |t| :: t[i].offset < bound
    requires forall i | 0 <= i < |write| :: write[i].offset < bound
    ensures var s := InsertAll(t, write);
            && StrictlySorted(s) && (forall i | 0 <= i < |s| :: s[i].offset < bound)
            && At(s, o) == if At(write, o).Some? then At(write, o) else At(t, o)
  {
    if |write| > 0 {
      var init, last := write[..|write| - 1], write[|write| - 1];
      InsertAllAt(t, init, bound, o);
      TreeInsertAt(InsertAll(t, init), last, o);
      TreeInsertSorted(InsertAll(t, init), last, bound);
      hide TreeInsert, InsertAll;
    }
  }

  lemma {:induction false} ChangedIn(refs: seq<ChunkRef>, base: seq<ChunkRef>)
    ensures forall r | r in Changed(refs, base) :: r in refs
  {
    if |refs| > 0 {
      hide At;
      ChangedIn(refs[..|refs| - 1], base);
    }
  }

  /** The last ref of a sorted list is its only one at that offset. */
  lemma NoneBefore(refs: seq<ChunkRef>)
    requires StrictlySorted(refs) && |refs| > 0
    ensures At(refs[..|refs| - 1], refs[|refs| - 1].offset).None?
  {
    AtIffMember(refs[..|refs| - 1], refs[|refs| - 1]);
  }

  lemma {:induction false} ChangedAt(refs: seq<ChunkRef>, base: seq<ChunkRef>, o: nat)
    requires StrictlySorted(refs)
    ensures At(Changed(refs, base), o) == if At(refs, o) == At(base, o) then None else At(refs, o)
    ensures forall r | r in Changed(refs, base) :: r in refs
  {
    ChangedIn(refs, base);
    if |refs| > 0 {
      hide At;
      var init, last := refs[..|refs| - 1], refs[|refs| - 1];
      NoneBefore(refs);
      ChangedAt(init, base, o);
      AtSnoc(Changed(init, base), last, o);
      AtSnoc(init, last, o);
      assert refs == init + [last];
    }
  }

  lemma {:induction false} VanishedHas(base: seq<ChunkRef>, refs: seq<ChunkRef>, o: nat)
    ensures o in Vanished(base, refs) <==> At(base, o).Some? && At(refs, o).None?
  {
    if |base| > 0 { VanishedHas(base[..|base| - 1], refs, o); }
  }

  /** Two manifests have a delta exactly when they are of one shape, and applying it to the first
      gives the second's chunks. */
  lemma ApplyUndoesDelta(next: Manifest, base: Manifest)
    requires StrictlySorted(next.chunks) && StrictlySorted(base.chunks)
    ensures DeltaFrom(next, base).Delta? <==> next.chunkSize == base.chunkSize && next.totalBytes == base.totalBytes
    ensures DeltaFrom(next, base).Delta? ==> Apply(base, DeltaFrom(next, base).delta) == base.(chunks := next.chunks)
  {
    if DeltaFrom(next, base).Delta? { ApplyUndoes(next, base); }
  }

  lemma ApplyUndoes(next: Manifest, base: Manifest)
    requires StrictlySorted(next.chunks) && StrictlySorted(base.chunks)
    requires DeltaFrom(next, base).Delta?
    ensures Apply(base, DeltaFrom(next, base).delta).chunks == next.chunks
  {
    var d := DeltaFrom(next, base).delta;
    var bound := MaxOffset(base.chunks, next.chunks);
    ChangedAt(next.chunks, base.chunks, 0);
    forall i | 0 <= i < |d.write|
      ensures d.write[i].offset < bound
    {
      assert d.write[i] in d.write && d.write[i] in next.chunks;
    }
    var s := Apply(base, d).chunks;
    forall o
      ensures StrictlySorted(s) && At(s, o) == At(next.chunks, o)
    {
      RemoveAllAt(base.chunks, d.zero, bound, o);
      InsertAllAt(RemoveAll(base.chunks, d.zero), d.write, bound, o);
      ChangedAt(next.chunks, base.chunks, o);
      VanishedHas(base.chunks, next.chunks, o);
    }
    SameLookups(s, next.chunks);
  }

  /** A delta is empty exactly when there is nothing to change. */
  lemma EmptyDeltaIff(next: Manifest, base: Manifest)
    requires StrictlySorted(next.chunks) && StrictlySorted(base.chunks) && DeltaFrom(next, base).Delta?
    ensures DeltaFrom(next, base) == Delta(ManifestDelta([], [])) <==> next.chunks == base.chunks
  {
    var d := DeltaFrom(next, base).delta;
    if d == ManifestDelta([], []) {
      ApplyUndoesDelta(next, base);
    }
    if next.chunks == base.chunks {
      if d.write != [] {
        ChangedAt(next.chunks, base.chunks, d.write[0].offset);
        AtFirst(d.write);
      }
      if d.zero != [] { VanishedHas(base.chunks, next.chunks, d.zero[0]); }
    }
  }

  lemma {:induction false} AtFirst(w: seq<ChunkRef>)
    requires |w| > 0
    ensures At(w, w[0].offset).Some?
  {
    if |w| > 1 && w[|w| - 1].offset != w[0].offset { AtFirst(w[..|w| - 1]); }
  }
}
