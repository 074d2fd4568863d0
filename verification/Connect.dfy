/** The response side of a Connect server-streaming call: envelopes are split off a body that
    arrives in chunks of any size. Decoding a message, and reading the error out of an
    end-of-stream envelope, are parameters of the caller's choosing. */
module Connect {
  import opened Wrappers
  import opened Bytes

  const WORD: nat := 0x1_0000_0000

  datatype Envelope = Envelope(flags: byte, payload: Bytes)

  /** One thing a call of `next` hands out: a message to decode, or why there are no more. */
  datatype Item = Message(payload: Bytes) | Compressed | EndError(payload: Bytes) | Unavailable | Transport

  datatype Chunk = Piece(bytes: Bytes) | Broken

  predicate IsCompressed(flags: byte) { flags % 2 == 1 }

  predicate IsEndStream(flags: byte) { (flags / 2) % 2 == 1 }

  // ---- Envelopes -----------------------------------------------------------------------------------

  /** Four bytes, most significant first; the length is cut to 32 bits. */
  function Be32(n: nat): (b: Bytes)
    ensures |b| == 4
  {
    [n / 256 / 256 / 256 % 256, n / 256 / 256 % 256, n / 256 % 256, n % 256]
  }

  function FromBe32(b: Bytes): (n: nat)
    requires |b| == 4
    ensures n < WORD
  {
    (((b[0] as int) * 256 + b[1]) * 256 + b[2]) * 256 + b[3]
  }

  lemma Be32RoundTrip(n: nat)
    ensures FromBe32(Be32(n)) == n % WORD
  {
    var a := n / 256;
    var b := a / 256;
    var c := b / 256;
    assert n == c / 256 * WORD + FromBe32(Be32(n));
  }

  function Encode(e: Envelope): Bytes {
    [e.flags] + Be32(|e.payload|) + e.payload
  }

  datatype Taken = Taken(envelope: Envelope, rest: Bytes)

  /** One complete envelope off the front, if there is one. */
  function TakeEnvelope(buf: Bytes): (t: Option<Taken>)
    ensures t.Some? ==> |t.value.rest| < |buf|
  {
    if |buf| < 5 then None
    else
      var len := FromBe32(buf[1..5]);
      if |buf| < 5 + len then None else Some(Taken(Envelope(buf[0], buf[5..5 + len]), buf[5 + len..]))
  }

  /** Taking undoes encoding exactly for payloads whose length fits the 32-bit field. */
  lemma TakeInvertsEncode(e: Envelope, rest: Bytes)
    ensures TakeEnvelope(Encode(e) + rest) == Some(Taken(e, rest)) <==> |e.payload| < WORD
  {
    var buf := Encode(e) + rest;
    assert buf[0] == e.flags && buf[1..5] == Be32(|e.payload|);
    Be32RoundTrip(|e.payload|);
    if |e.payload| < WORD {
      assert buf[5..5 + |e.payload|] == e.payload && buf[5 + |e.payload|..] == rest;
    }
  }

  /** A part of an envelope yields nothing. */
  lemma PartWaits(e: Envelope, part: Bytes)
    requires |e.payload| < WORD && part <= Encode(e) && part != Encode(e)
    ensures TakeEnvelope(part).None?
  {
    Be32RoundTrip(|e.payload|);
    if |part| >= 5 {
      assert Encode(e)[1..5] == Be32(|e.payload|);
      assert part[1..5] == Encode(e)[1..5];
    }
  }

  /** More bytes behind a complete envelope do not change it. */
  lemma MoreBehind(buf: Bytes, more: Bytes)
    requires TakeEnvelope(buf).Some?
    ensures TakeEnvelope(buf + more)
            == Some(Taken(TakeEnvelope(buf).value.envelope, TakeEnvelope(buf).value.rest + more))
  {
    assert (buf + more)[1..5] == buf[1..5];
    var len := FromBe32(buf[1..5]);
    assert (buf + more)[5..5 + len] == buf[5..5 + len];
    assert (buf + more)[5 + len..] == buf[5 + len..] + more;
  }

  // ---- What a stream hands out -----------------------------------------------------------------------

  /** The items of a body, by its bytes alone; `last` closes a body that stops too early. */
  function Items(bytes: Bytes, last: Item, isError: Bytes -> bool): seq<Item>
    decreases |bytes|
  {
    match TakeEnvelope(bytes)
    case None => [last]
    case Some(t) =>
      if IsCompressed(t.envelope.flags) then [Compressed]
      else if IsEndStream(t.envelope.flags) then
        if isError(t.envelope.payload) then [EndError(t.envelope.payload)] else []
      else [Message(t.envelope.payload)] + Items(t.rest, last, isError)
  }

  /** The items of a list of envelopes: messages up to the first end of stream or compressed
      envelope. */
  function Yield(es: seq<Envelope>, last: Item, isError: Bytes -> bool): seq<Item>
    decreases |es|
  {
    if es == [] then [last]
    else if IsCompressed(es[0].flags) then [Compressed]
    else if IsEndStream(es[0].flags) then if isError(es[0].payload) then [EndError(es[0].payload)] else []
    else [Message(es[0].payload)] + Yield(es[1..], last, isError)
  }

  function Messages(es: seq<Envelope>): seq<Item> {
    seq(|es|, i requires 0 <= i < |es| => Message(es[i].payload))
  }

  /** By the two low bits of the flags: 0 is a message, 2 ends the stream, with an error when
      its payload carries one, and 1 and 3 are turned down as compressed. */
  lemma {:induction false} YieldIs(es: seq<Envelope>, last: Item, isError: Bytes -> bool) returns (n: nat)
    ensures n <= |es| && (forall i | 0 <= i < n :: es[i].flags % 4 == 0) && (n < |es| ==> es[n].flags % 4 != 0)
    ensures Yield(es, last, isError) == Messages(es[..n]) +
              if n == |es| then [last]
              else if es[n].flags % 4 != 2 then [Compressed]
              else if isError(es[n].payload) then [EndError(es[n].payload)]
              else []
    decreases |es|
  {
    n := 0;
    if es != [] && es[0].flags % 4 == 0 {
      var k := YieldIs(es[1..], last, isError);
      n := k + 1;
      assert Messages(es[..n]) == [Message(es[0].payload)] + Messages(es[1..][..k]);
    }
  }

  function EncodeAll(es: seq<Envelope>): Bytes
    decreases |es|
  {
    if es == [] then [] else Encode(es[0]) + EncodeAll(es[1..])
  }

  ghost predicate Fit(es: seq<Envelope>) {
    forall i | 0 <= i < |es| :: |es[i].payload| < WORD
  }

  /** A body of whole envelopes and at most a part of the next one hands out exactly the
      items of the whole ones. */
  lemma {:induction false} BodyYields(es: seq<Envelope>, next: Envelope, part: Bytes, last: Item,
                                      isError: Bytes -> bool)
    requires Fit(es) && |next.payload| < WORD && part <= Encode(next) && part != Encode(next)
    ensures Items(EncodeAll(es) + part, last, isError) == Yield(es, last, isError)
    decreases |es|
  {
    if es == [] {
      assert EncodeAll(es) + part == part;
      PartWaits(next, part);
    } else {
      var rest := EncodeAll(es[1..]) + part;
      assert EncodeAll(es) + part == Encode(es[0]) + rest;
      TakeInvertsEncode(es[0], rest);
      BodyYields(es[1..], next, part, last, isError);
    }
  }

  function Carried(body: seq<Chunk>): Bytes {
    if body == [] || body[0].Broken? then [] else body[0].bytes + Carried(body[1..])
  }

  function LastItem(body: seq<Chunk>): Item {
    if body == [] then Unavailable else if body[0].Broken? then Transport else LastItem(body[1..])
  }

  /** However the envelopes' bytes are cut into chunks, and wherever the body stops, the
      stream hands out the whole messages in order and then says why it ended. */
  lemma AnyCutYields(chunks: seq<Chunk>, es: seq<Envelope>, next: Envelope, part: Bytes, isError: Bytes -> bool)
    requires (forall i | 0 <= i < |chunks| :: chunks[i].Piece?) && Carried(chunks) == EncodeAll(es) + part
    requires Fit(es) && |next.payload| < WORD && part <= Encode(next) && part != Encode(next)
    ensures Items(Carried(chunks), LastItem(chunks), isError) == Yield(es, Unavailable, isError)
  {
    PiecesEndUnavailable(chunks);
    BodyYields(es, next, part, Unavailable, isError);
  }

  lemma {:induction false} PiecesEndUnavailable(chunks: seq<Chunk>)
    requires forall i | 0 <= i < |chunks| :: chunks[i].Piece?
    ensures LastItem(chunks) == Unavailable
  {
    if chunks != [] { PiecesEndUnavailable(chunks[1..]); }
  }

  /** The items while an envelope is complete, whatever follows it. */
  lemma ItemsTaken(buf: Bytes, more: Bytes, last: Item, isError: Bytes -> bool)
    requires TakeEnvelope(buf).Some?
    ensures var t := TakeEnvelope(buf).value;
            Items(buf + more, last, isError) ==
              if IsCompressed(t.envelope.flags) then [Compressed]
              else if IsEndStream(t.envelope.flags) then
                if isError(t.envelope.payload) then [EndError(t.envelope.payload)] else []
              else [Message(t.envelope.payload)] + Items(t.rest + more, last, isError)
  {
    MoreBehind(buf, more);
  }

  lemma ItemsWaiting(buf: Bytes, last: Item, isError: Bytes -> bool)
    requires TakeEnvelope(buf).None?
    ensures Items(buf + [], last, isError) == [last]
  {
    assert buf + [] == buf;
  }

  lemma CarriedOn(buf: Bytes, body: seq<Chunk>)
    requires body != [] && body[0].Piece?
    ensures buf + Carried(body) == (buf + body[0].bytes) + Carried(body[1..])
  {
  }

  class ServerStream {
    var body: seq<Chunk>
    var buf: Bytes
    var done: bool
    const isError: Bytes -> bool

    constructor (chunks: seq<Chunk>, isError: Bytes -> bool)
      ensures body == chunks && buf == [] && !done && this.isError == isError
      ensures Remaining() == Items(Carried(chunks), LastItem(chunks), isError)
    {
      body, buf, done := chunks, [], false;
      this.isError := isError;
      new;
      assert buf + Carried(body) == Carried(chunks);
    }

    /** What is still to be handed out: it depends on the bytes, not on their chunks. */
    ghost function Remaining(): seq<Item>
      reads this
    {
      if done then [] else Items(buf + Carried(body), LastItem(body), isError)
    }

    /** The next item, and None for good once there are no more. */
    method Next() returns (item: Option<Item>)
      modifies this
      ensures old(Remaining()) == [] ==> item.None? && Remaining() == []
      ensures old(Remaining()) != [] ==> item == Some(old(Remaining())[0]) && Remaining() == old(Remaining())[1..]
    {
      if done {
        return None;
      }
      ghost var all := Remaining();
      hide Items, TakeEnvelope;
      while true
        invariant !done && Items(buf + Carried(body), LastItem(body), isError) == all
        decreases |body|
      {
        var taken := TakeEnvelope(buf);
        if taken.Some? {
          ItemsTaken(buf, Carried(body), LastItem(body), isError);
          var e := taken.value.envelope;
          buf := taken.value.rest;
          if IsCompressed(e.flags) {
            done := true;
            return Some(Compressed);
          }
          if IsEndStream(e.flags) {
            done := true;
            return if isError(e.payload) then Some(EndError(e.payload)) else None;
          }
          return Some(Message(e.payload));
        }
        if body == [] {
          ItemsWaiting(buf, Unavailable, isError);
          done := true;
          return Some(Unavailable);
        }
        if body[0].Broken? {
          ItemsWaiting(buf, Transport, isError);
          done := true;
          return Some(Transport);
        }
        CarriedOn(buf, body);
        buf, body := buf + body[0].bytes, body[1..];
      }
    }
  }

  /** Everything a stream hands out, up to its first None. */
  method DrainAll(chunks: seq<Chunk>, isError: Bytes -> bool) returns (items: seq<Item>)
    ensures items == Items(Carried(chunks), LastItem(chunks), isError)
  {
    hide Items, Carried, LastItem;
    var stream := new ServerStream(chunks, isError);
    items := [];
    ghost var all, left := stream.Remaining(), stream.Remaining();
    var item := stream.Next();
    while item.Some?
      invariant fresh(stream)
      invariant item.Some? ==>
                  left != [] && item.value == left[0] && stream.Remaining() == left[1..] && items + left == all
      invariant item.None? ==> items == all
      decreases |left|
    {
      items := items + [item.value];
      left := left[1..];
      assert items + left == all;
      item := stream.Next();
    }
  }
}
