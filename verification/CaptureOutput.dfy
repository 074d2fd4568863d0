/** Recording one output stream of a command: a capped file beside the live stream. */
module CaptureOutput {
  import opened Bytes

  const OUTPUT_CAP_BYTES: nat := 64 * 1024 * 1024

  const MARKER: Bytes := Ascii("\n[engram: output truncated at 64 MiB]\n")

  /** Room for the marker is always kept. */
  const DATA_CAP: nat := if |MARKER| <= OUTPUT_CAP_BYTES then OUTPUT_CAP_BYTES - |MARKER| else 0

  function Ascii(s: string): (b: Bytes)
    ensures |b| == |s| && forall i | 0 <= i < |s| && s[i] as int < 128 :: b[i] == s[i] as int
  {
    seq(|s|, i requires 0 <= i < |s| => s[i] as int % 256)
  }

  /** What the journal file holds in the end. */
  function Capped(stream: Bytes): (f: Bytes) {
    if |stream| <= DATA_CAP then stream else stream[..DATA_CAP] + MARKER
  }

  /** The file never passes 64 MiB, and a cut one fills them: it is the stream's first bytes and
      then the marker. It is the stream itself when that fits beside a marker, and also when
      the stream brings its own marker to the same place. */
  lemma CapFits(stream: Bytes)
    ensures DATA_CAP == 64 * 1024 * 1024 - 38
    ensures |Capped(stream)| == if |stream| <= DATA_CAP then |stream| else 64 * 1024 * 1024
    ensures |stream| > DATA_CAP ==>
              stream[..DATA_CAP] <= Capped(stream)
              && Capped(stream)[DATA_CAP..] == Ascii("\n[engram: output truncated at 64 MiB]\n")
    ensures Capped(stream) == stream <==> |stream| <= DATA_CAP || stream[DATA_CAP..] == MARKER
  {
    if |stream| > DATA_CAP {
      assert stream == stream[..DATA_CAP] + stream[DATA_CAP..];
      assert Capped(stream)[DATA_CAP..] == MARKER;
    }
  }

  /** The file after `seen` arrived: all of it while open, the capped form once truncated,
      and some prefix of what it should be if a write failed. */
  ghost predicate Recorded(file: Bytes, open: bool, degraded: bool, persisted: nat, seen: Bytes) {
    && (open ==> !degraded && file == seen && persisted == |seen| <= DATA_CAP)
    && (!open && !degraded ==> |seen| > DATA_CAP && file == seen[..DATA_CAP] + MARKER)
    && (degraded ==> (|file| <= DATA_CAP && file <= seen) || (|seen| > DATA_CAP && file <= seen[..DATA_CAP] + MARKER))
  }

  lemma RecordedIsCapped(file: Bytes, open: bool, degraded: bool, persisted: nat, seen: Bytes)
    requires Recorded(file, open, degraded, persisted, seen)
    ensures file <= Capped(seen) && (!degraded ==> file == Capped(seen))
  {
  }

  lemma ClosedStaysRecorded(file: Bytes, degraded: bool, persisted: nat, seen: Bytes, more: Bytes)
    requires Recorded(file, false, degraded, persisted, seen)
    ensures Recorded(file, false, degraded, persisted, seen + more)
  {
    if |seen| > DATA_CAP { assert (seen + more)[..DATA_CAP] == seen[..DATA_CAP]; }
  }

  /** One read's bytes go to the open file, the marker after them if they do not all fit. */
  method Persist(buffer: Bytes, file: Bytes, persisted: nat, writes: nat, fails: nat -> bool, partial: nat -> nat,
                 ghost seen: Bytes)
    returns (file': Bytes, open: bool, degraded: bool, persisted': nat, writes': nat)
    requires Recorded(file, true, false, persisted, seen) && buffer != []
    ensures Recorded(file', open, degraded, persisted', seen + buffer)
    ensures (forall k :: !fails(k)) ==> !degraded
    ensures (open ==> writes' == writes + 1) && (degraded ==> fails(writes'))
  {
    file', open, degraded, persisted', writes' := file, true, false, persisted, writes;
    var truncated := false;
    if persisted < DATA_CAP {
      var remaining := DATA_CAP - persisted;
      var keep := if remaining < |buffer| then remaining else |buffer|;
      if fails(writes) {
        var landed := if partial(writes) < keep then partial(writes) else keep;
        return file + buffer[..landed], false, true, persisted, writes;
      }
      file', persisted', writes' := file + buffer[..keep], persisted + keep, writes + 1;
      truncated := keep < |buffer|;
    } else {
      truncated := true;
    }
    if truncated {
      assert file' == (seen + buffer)[..DATA_CAP];
      open := false;
      if fails(writes') {
        var landed := if partial(writes') < |MARKER| then partial(writes') else |MARKER|;
        file', degraded := file' + MARKER[..landed], true;
      } else {
        file' := file' + MARKER;
      }
    }
  }

  /** Records the stream delivered by `chunks`. The k-th write to the file fails after
      `partial(k)` bytes when `fails(k)`; the k-th live write is refused when `refuses(k)`. */
  method Capture(chunks: seq<Bytes>, creates: bool, fails: nat -> bool, partial: nat -> nat, refuses: nat -> bool)
    returns (file: Bytes, live: Bytes, degraded: bool, writes: nat)
    requires forall i | 0 <= i < |chunks| :: chunks[i] != []
    ensures file <= Capped(Flatten(chunks))
    ensures !degraded ==> file == Capped(Flatten(chunks))
    ensures creates && (forall k :: !fails(k)) ==> !degraded
    ensures creates && degraded ==> fails(writes)
    ensures !degraded && |Flatten(chunks)| <= DATA_CAP ==> writes == |chunks|
    ensures live <= Flatten(chunks) && ((forall k :: !refuses(k)) ==> live == Flatten(chunks))
  {
    file, live, degraded, writes := [], [], !creates, 0;
    var open, persisted, liveOpen := creates, 0, true;
    assert chunks[..0] == [];
    for k := 0 to |chunks|
      invariant live <= Flatten(chunks[..k]) && (liveOpen ==> live == Flatten(chunks[..k]))
      invariant (forall j :: !refuses(j)) ==> liveOpen
      invariant creates && (forall j :: !fails(j)) ==> !degraded
      invariant (open ==> writes == k) && (creates && degraded ==> fails(writes))
      invariant Recorded(file, open, degraded, persisted, Flatten(chunks[..k]))
    {
      hide Recorded;
      ghost var seen := Flatten(chunks[..k]);
      assert chunks[..k + 1] == chunks[..k] + [chunks[k]];
      FlattenSnoc(chunks[..k], chunks[k]);
      if liveOpen {
        if refuses(k) { liveOpen := false; } else { live := live + chunks[k]; }
      }
      if open {
        OpenIsClean(file, degraded, persisted, seen);
        file, open, degraded, persisted, writes := Persist(chunks[k], file, persisted, writes, fails, partial, seen);
      } else {
        ClosedStaysRecorded(file, degraded, persisted, seen, chunks[k]);
      }
    }
    assert chunks[..|chunks|] == chunks;
    RecordedIsCapped(file, open, degraded, persisted, Flatten(chunks));
  }

  lemma OpenIsClean(file: Bytes, degraded: bool, persisted: nat, seen: Bytes)
    requires Recorded(file, true, degraded, persisted, seen)
    ensures !degraded
  {
  }
}
