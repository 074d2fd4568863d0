/** Moving one session file: the agent's streamed upload and download, and the host's driver
    for each. Nobody else writes the path meanwhile. */
module FileTransfer {
  import opened Wrappers
  import opened Bytes
  import opened UploadProtocol

  datatype Reply = UploadStreamOk(size: nat, sha256: Digest) | Rejected

  datatype Frame = Ready(size: nat, sha256: Digest) | Failure | Piece(bytes: Bytes)

  datatype WriteResult = Written | HostError | AgentError

  /** An item of the stream a reader is handed. */
  datatype Item = Data(bytes: Bytes) | Failed

  datatype ReadResult = Reading(size: nat, sha256: Digest, items: seq<Item>) | Refused

  /** How many frames it takes to reach `size` bytes, if they reach it without passing it. */
  ghost predicate Fills(frames: seq<Bytes>, n: nat, size: nat) {
    n <= |frames| && |Flatten(frames[..n])| == size && (n > 0 ==> |Flatten(frames[..n - 1])| < size)
  }

  /** The frames the host delivers hold the declared content. */
  ghost predicate Delivers(frames: seq<Bytes>, size: nat, sha256: Digest, hash: Bytes -> Digest) {
    exists n: nat :: Fills(frames, n, size) && hash(Flatten(frames[..n])) == sha256
  }

  lemma FlattenUpTo(frames: seq<Bytes>, n: nat)
    requires n < |frames|
    ensures Flatten(frames[..n + 1]) == Flatten(frames[..n]) + frames[n]
  {
    FlattenSnoc(frames[..n], frames[n]);
    assert frames[..n + 1] == frames[..n] + [frames[n]];
  }

  lemma {:induction false} FlattenMono(frames: seq<Bytes>, m: nat, n: nat)
    requires m <= n <= |frames|
    ensures Flatten(frames[..m]) <= Flatten(frames[..n])
    decreases n - m
  {
    if m < n {
      FlattenMono(frames, m, n - 1);
      FlattenUpTo(frames, n - 1);
    }
  }

  lemma FillsOnce(frames: seq<Bytes>, m: nat, n: nat, size: nat)
    requires Fills(frames, m, size) && Fills(frames, n, size)
    ensures m == n
  {
    if m < n { FlattenMono(frames, m, n - 1); }
    if n < m { FlattenMono(frames, n, m - 1); }
  }

  /** The frames received up to the declared size, or nothing if they run out or pass it. */
  method Receive(frames: seq<Bytes>, size: nat) returns (temporary: Option<Bytes>, ghost n: nat)
    ensures temporary.Some? ==> Fills(frames, n, size) && temporary.value == Flatten(frames[..n])
    ensures temporary.None? ==> forall m: nat :: !Fills(frames, m, size)
  {
    var received: Bytes := [];
    var k := 0;
    assert frames[..0] == [];
    while |received| < size
      invariant k <= |frames| && received == Flatten(frames[..k]) && |received| <= size
      invariant k > 0 ==> |Flatten(frames[..k - 1])| < size
      decreases |frames| - k, size - |received|
    {
      if k == |frames| {
        forall m: nat ensures !Fills(frames, m, size) {
          if Fills(frames, m, size) { FlattenMono(frames, m, k); }
        }
        return None, 0;
      }
      FlattenUpTo(frames, k);
      if |received| + |frames[k]| > size {
        forall m: nat ensures !Fills(frames, m, size) {
          if Fills(frames, m, size) {
            if m <= k { FlattenMono(frames, m, k); } else { FlattenMono(frames, k + 1, m); }
          }
        }
        return None, 0;
      }
      received := received + frames[k];
      k := k + 1;
    }
    temporary, n := Some(received), k;
  }

  /** The agent's side of an upload with the path to itself. */
  method UploadStream(path: Option<Bytes>, size: nat, sha256: Digest, frames: seq<Bytes>, hash: Bytes -> Digest)
    returns (reply: Reply, path': Option<Bytes>)
    ensures reply == UploadStreamOk(size, sha256) || reply == Rejected
    ensures reply.UploadStreamOk? <==>
              size <= MAX_SESSION_FILE_BYTES
              && (Matches(path, size, sha256, hash) || (path.None? && Delivers(frames, size, sha256, hash)))
    ensures reply.UploadStreamOk? ==> Matches(path', size, sha256, hash)
    ensures path.Some? || reply == Rejected ==> path' == path
    ensures path.None? && path'.Some? ==> exists n: nat :: Fills(frames, n, size) && path'.value == Flatten(frames[..n])
  {
    path' := path;
    if size > MAX_SESSION_FILE_BYTES {
      return Rejected, path;
    }
    if path.Some? {
      var there := |path.value| == size && hash(path.value) == sha256;
      return if there then UploadStreamOk(size, sha256) else Rejected, path;
    }
    var temporary, n := Receive(frames, size);
    if temporary.None? {
      return Rejected, path;
    }
    if hash(temporary.value) != sha256 {
      forall m: nat ensures !(Fills(frames, m, size) && hash(Flatten(frames[..m])) == sha256) {
        if Fills(frames, m, size) { FillsOnce(frames, m, n, size); }
      }
      return Rejected, path;
    }
    return UploadStreamOk(size, sha256), temporary;
  }

  // ---- The host's upload -------------------------------------------------------------------------

  predicate Clean(items: seq<Item>) {
    forall i | 0 <= i < |items| :: items[i].Data?
  }

  function Pieces(items: seq<Item>): (p: seq<Bytes>)
    requires Clean(items)
    ensures |p| == |items| && forall i | 0 <= i < |p| :: p[i] == items[i].bytes
  {
    if items == [] then [] else Pieces(items[..|items| - 1]) + [items[|items| - 1].bytes]
  }

  /** The connection takes the request and `n` frames. An agent that already has the file
      answers and leaves without reading them, so a later send may fail. */
  ghost predicate Sendable(sends: nat -> bool, n: nat) {
    forall k | 0 <= k <= n :: sends(k)
  }

  /** Drives an upload from a source that may fail part way, over a connection whose k-th
      message may fail to be sent and whose reply may not arrive. The agent acts on the frames
      that were sent, also when the host gives up. */
  method WriteFile(path: Option<Bytes>, size: nat, sha256: Digest, source: seq<Item>, sends: nat -> bool,
                   answered: bool, hash: Bytes -> Digest)
    returns (result: WriteResult, path': Option<Bytes>)
    ensures path.Some? ==> path' == path
    ensures result.Written? <==>
              && Sendable(sends, |source|) && answered
              && Clean(source) && |Flatten(Pieces(source))| == size <= MAX_SESSION_FILE_BYTES
              && (if path.Some? then Matches(path, size, sha256, hash) else hash(Flatten(Pieces(source))) == sha256)
    ensures result.Written? ==> Matches(path', size, sha256, hash)
  {
    if !sends(0) {
      return HostError, path;
    }
    var frames, ok := SendAll(source, size, sends);
    var reply;
    reply, path' := UploadStream(path, size, sha256, frames, hash);
    if !ok {
      return HostError, path';
    }
    DeliversAll(frames, size, sha256, hash);
    return if !answered then HostError else if reply.UploadStreamOk? then Written else AgentError, path';
  }

  /** Sends the source's chunks until it ends, fails, passes the declared size, or a send fails;
      `ok` if it ended at the declared size. What was sent is the source's first chunks. */
  method SendAll(source: seq<Item>, size: nat, sends: nat -> bool) returns (frames: seq<Bytes>, ok: bool)
    requires sends(0)
    ensures ok <==>
              Sendable(sends, |source|) && Clean(source) && |Flatten(Pieces(source))| == size <= MAX_SESSION_FILE_BYTES
    ensures |frames| <= |source| && forall j | 0 <= j < |frames| :: source[j] == Data(frames[j])
    ensures ok ==> frames == Pieces(source)
  {
    frames := [];
    var sent := 0;
    assert source[..0] == [];
    for k := 0 to |source|
      invariant |frames| == k && forall j | 0 <= j < k :: source[j] == Data(frames[j])
      invariant Clean(source[..k]) && frames == Pieces(source[..k]) && sent == |Flatten(frames)| <= size
      invariant (k > 0 ==> sent <= MAX_SESSION_FILE_BYTES) && Sendable(sends, k)
    {
      if source[k].Failed? {
        return frames, false;
      }
      PiecesUpTo(source, k);
      FlattenSnoc(frames, source[k].bytes);
      sent := sent + |source[k].bytes|;
      if sent > size || sent > MAX_SESSION_FILE_BYTES {
        if Clean(source) { PiecesPrefix(source, k + 1); }
        return frames, false;
      }
      if !sends(k + 1) {
        return frames, false;
      }
      frames := frames + [source[k].bytes];
    }
    assert source[..|source|] == source;
    ok := sent == size;
  }

  lemma PiecesUpTo(items: seq<Item>, k: nat)
    requires k < |items| && Clean(items[..k]) && items[k].Data?
    ensures Clean(items[..k + 1]) && Pieces(items[..k + 1]) == Pieces(items[..k]) + [items[k].bytes]
  {
    assert items[..k + 1][..k] == items[..k];
  }

  lemma {:induction false} PiecesPrefix(items: seq<Item>, k: nat)
    requires k <= |items| && Clean(items)
    ensures |Flatten(Pieces(items[..k]))| <= |Flatten(Pieces(items))|
  {
    assert Pieces(items)[..k] == Pieces(items[..k]);
    FlattenMono(Pieces(items), k, |items|);
    assert Pieces(items)[..|items|] == Pieces(items);
  }

  /** Frames of exactly the declared size in all are delivered, empty ones at the end or not. */
  lemma DeliversAll(frames: seq<Bytes>, size: nat, sha256: Digest, hash: Bytes -> Digest)
    requires |Flatten(frames)| == size
    ensures Delivers(frames, size, sha256, hash) <==> hash(Flatten(frames)) == sha256
  {
    var n := FillPoint(frames, size);
    FlattenMono(frames, n, |frames|);
    assert frames[..|frames|] == frames;
    assert Flatten(frames[..n]) == Flatten(frames);
    forall m: nat | Fills(frames, m, size)
      ensures m == n
    {
      FillsOnce(frames, m, n, size);
    }
  }

  lemma FillPoint(frames: seq<Bytes>, size: nat) returns (n: nat)
    requires |Flatten(frames)| == size
    ensures Fills(frames, n, size)
  {
    n := |frames|;
    assert frames[..n] == frames;
    while n > 0 && |Flatten(frames[..n - 1])| == size
      invariant n <= |frames| && |Flatten(frames[..n])| == size
    {
      n := n - 1;
    }
    if n > 0 { FlattenMono(frames, n - 1, n); }
  }

  // ---- Downloading -----------------------------------------------------------------------------------

  const DOWNLOAD_BUF_BYTES: nat := 64 * 1024

  function Wrap(pieces: seq<Bytes>): (f: seq<Frame>)
    ensures |f| == |pieces| && forall i | 0 <= i < |f| :: f[i] == Piece(pieces[i])
  {
    seq(|pieces|, i requires 0 <= i < |pieces| => Piece(pieces[i]))
  }

  /** The agent's side; the k-th read of the file returns up to `counts(k)` bytes. */
  method DownloadStream(path: Option<Bytes>, counts: nat -> nat, hash: Bytes -> Digest)
    returns (frames: seq<Frame>, ghost pieces: seq<Bytes>)
    ensures path.None? ==> frames == [Failure]
    ensures path.Some? ==>
              frames == [Ready(|path.value|, hash(path.value))] + Wrap(pieces) && Flatten(pieces) == path.value
    ensures path.Some? ==> |pieces| <= |path.value|
  {
    pieces := [];
    if path.None? {
      return [Failure], [];
    }
    var file := path.value;
    frames := [Ready(|file|, hash(file))];
    var at := 0;
    while at < |file|
      invariant |pieces| <= at <= |file| && Flatten(pieces) == file[..at]
      invariant frames == [Ready(|file|, hash(file))] + Wrap(pieces)
    {
      var left := |file| - at;
      var most := if left < DOWNLOAD_BUF_BYTES then left else DOWNLOAD_BUF_BYTES;
      var count := if counts(|frames|) == 0 then 1 else if counts(|frames|) < most then counts(|frames|) else most;
      var bytes := file[at..at + count];
      FlattenSnoc(pieces, bytes);
      assert file[..at] + bytes == file[..at + count];
      assert Wrap(pieces + [bytes]) == Wrap(pieces) + [Piece(bytes)];
      frames, pieces, at := frames + [Piece(bytes)], pieces + [bytes], at + count;
    }
    assert file[..at] == file;
  }

  /** The frames are a whole download of the file cut into `pieces`. */
  ghost predicate WholeDownload(frames: seq<Frame>, pieces: seq<Bytes>, hash: Bytes -> Digest) {
    && |Flatten(pieces)| <= MAX_SESSION_FILE_BYTES
    && frames == [Ready(|Flatten(pieces)|, hash(Flatten(pieces)))] + Wrap(pieces)
  }

  lemma WholeGoesOn(frames: seq<Frame>, pieces: seq<Bytes>, hash: Bytes -> Digest, received: Bytes, k: nat)
    requires WholeDownload(frames, pieces, hash) && 1 <= k <= |frames| && received == Flatten(pieces[..k - 1])
    ensures |received| < |Flatten(pieces)| ==>
              k < |frames| && frames[k].Piece? && |received| + |frames[k].bytes| <= |Flatten(pieces)|
              && received + frames[k].bytes == Flatten(pieces[..k])
    ensures |received| >= |Flatten(pieces)| ==> received == Flatten(pieces)
  {
    FlattenMono(pieces, k - 1, |pieces|);
    assert pieces[..|pieces|] == pieces;
    if |received| < |Flatten(pieces)| {
      FlattenUpTo(pieces, k - 1);
      FlattenMono(pieces, k, |pieces|);
    }
  }

  /** The host's side, over whatever arrives. */
  method ReadFile(frames: seq<Frame>, hash: Bytes -> Digest, ghost pieces: seq<Bytes>) returns (r: ReadResult)
    ensures r.Reading? && Clean(r.items) ==>
              |Flatten(Pieces(r.items))| == r.size && hash(Flatten(Pieces(r.items))) == r.sha256
    ensures r.Reading? ==> frames != [] && frames[0] == Ready(r.size, r.sha256)
    ensures WholeDownload(frames, pieces, hash) ==>
              r.Reading? && Clean(r.items) && Flatten(Pieces(r.items)) == Flatten(pieces)
  {
    if |frames| == 0 || !frames[0].Ready? || frames[0].size > MAX_SESSION_FILE_BYTES {
      return Refused;
    }
    var size, sha256 := frames[0].size, frames[0].sha256;
    var items: seq<Item>, received: Bytes, k := [], [], 1;
    ghost var whole := WholeDownload(frames, pieces, hash);
    assert whole ==> size == |Flatten(pieces)| && sha256 == hash(Flatten(pieces));
    assert pieces[..0] == [];
    hide WholeDownload;
    while |received| < size
      invariant 1 <= k <= |frames| && Clean(items) && Flatten(Pieces(items)) == received && |received| <= size
      invariant whole ==> k - 1 <= |pieces| && received == Flatten(pieces[..k - 1])
      decreases |frames| - k
    {
      if whole { WholeGoesOn(frames, pieces, hash, received, k); }
      if k == |frames| || !frames[k].Piece? || |received| + |frames[k].bytes| > size {
        return Reading(size, sha256, items + [Failed]);
      }
      var item := Data(frames[k].bytes);
      assert (items + [item])[..|items|] == items;
      FlattenSnoc(Pieces(items), item.bytes);
      items, received, k := items + [item], received + item.bytes, k + 1;
    }
    if whole { WholeGoesOn(frames, pieces, hash, received, k); }
    if hash(received) != sha256 {
      items := items + [Failed];
    }
    r := Reading(size, sha256, items);
  }

  /** Upload, then download over a connection that may break after `arrive` frames, any
      chunking on both sides. A stream without an error carried the file at the path; with a
      collision-free digest that is the source exactly when the source has the digest that
      was declared for it. */
  method WriteThenRead(path: Option<Bytes>, size: nat, sha256: Digest, source: seq<Item>, sends: nat -> bool,
                       answered: bool, counts: nat -> nat, arrive: nat, hash: Bytes -> Digest)
    returns (written: WriteResult, path': Option<Bytes>, read: ReadResult)
    requires Injective(hash)
    ensures written.Written? && read.Reading? && Clean(read.items) ==>
              && Clean(source) && path' == Some(Flatten(Pieces(read.items)))
              && read.size == size && read.sha256 == sha256
              && (Flatten(Pieces(read.items)) == Flatten(Pieces(source)) <==> hash(Flatten(Pieces(source))) == sha256)
    ensures written.Written? && arrive > size ==> read.Reading? && Clean(read.items)
  {
    written, path' := WriteFile(path, size, sha256, source, sends, answered, hash);
    var frames, pieces := DownloadStream(path', counts, hash);
    var arrived := if arrive < |frames| then frames[..arrive] else frames;
    read := ReadFile(arrived, hash, pieces);
  }

  /** Why the declared digest matters: with the declared file already at the path, a source of
      the right size is reported written whatever its bytes are. */
  method OtherBytesReported(there: Bytes, sent: Bytes, hash: Bytes -> Digest)
    returns (r: WriteResult, path: Option<Bytes>)
    requires |there| == |sent| <= MAX_SESSION_FILE_BYTES && there != sent
    ensures r == Written && path == Some(there) && path != Some(sent)
  {
    assert Pieces([Data(sent)])[0] == sent;
    assert Flatten(Pieces([Data(sent)])) == sent;
    r, path := WriteFile(Some(there), |there|, hash(there), [Data(sent)], _ => true, true, hash);
  }
}
