/**
 * The outbound chunker (`countChunks`, `sendCommand`): a payload for the browser is cut into
 * pieces of at most 768 KiB, each sent as its own chunk document.
 */
module Outbound {
  import opened Messages
  import opened Wire

  /** `maxCommandSize`: 768 KiB, kept below the 1 MB the browser accepts per message. */
  const MaxCommandSize: nat := 768 * 1024

  /** `countChunks`: how many pieces a payload of `size` bytes needs (an integer ceiling). */
  function CountChunks(size: nat): (c: nat)
    ensures c * MaxCommandSize >= size
    ensures c >= 1 ==> (c - 1) * MaxCommandSize < size
  {
    (size + MaxCommandSize - 1) / MaxCommandSize
  }

  /** One chunk document as `sendCommand` fills it in: `c`, `type`, `colonyId`, `cmdId`, `n`, `msg`. */
  datatype Chunk = Chunk(c: nat, kind: string, colonyId: nat, cmdId: nat, n: nat, msg: string)

  /**
   * The JSON library, outside this model: how a chunk document and a flat string-to-string
   * object (`writeObj`) are serialised.
   */
  datatype Json = Json(chunk: Chunk -> string, obj: map<string, string> -> string)

  function Min(a: int, b: int): int
  {
    if a < b then a else b
  }

  /** The chunk `sendCommand` emits in iteration `i`. */
  function ChunkAt(colonyId: nat, cmdId: nat, payload: string, kind: string, i: nat): (ch: Chunk)
    requires i < CountChunks(|payload|)
    ensures 1 <= |ch.msg| <= MaxCommandSize
    ensures ch.msg == payload[MaxCommandSize * i .. Min(|payload|, MaxCommandSize * (i + 1))]
  {
    var start := MaxCommandSize * i;
    Chunk(CountChunks(|payload|), kind, colonyId, cmdId, i + 1,
          payload[start .. start + Min(MaxCommandSize, |payload| - start)])
  }

  /** All chunks of a payload, in emission order. */
  function Chunks(colonyId: nat, cmdId: nat, payload: string, kind: string): (cs: seq<Chunk>)
    ensures |cs| == CountChunks(|payload|)
  {
    seq(CountChunks(|payload|), i requires 0 <= i < CountChunks(|payload|) =>
      ChunkAt(colonyId, cmdId, payload, kind, i))
  }

  /** The `msg` members of a run of chunks. */
  function Msgs(cs: seq<Chunk>): (ms: seq<string>)
    ensures |ms| == |cs| && forall i :: 0 <= i < |cs| ==> ms[i] == cs[i].msg
  {
    seq(|cs|, i requires 0 <= i < |cs| => cs[i].msg)
  }

  /** The serialised chunks, as `sendCommand` hands them to `writeMessage`. */
  function Encoded(json: Json, cs: seq<Chunk>): (ts: seq<string>)
    ensures |ts| == |cs| && forall i :: 0 <= i < |cs| ==> ts[i] == json.chunk(cs[i])
  {
    seq(|cs|, i requires 0 <= i < |cs| => json.chunk(cs[i]))
  }

  /**
   * Every chunk of one payload carries the same `c`, `type`, `colonyId` and `cmdId`,
   * `c` is the number of chunks, and `n` runs 1..c in emission order.
   */
  lemma ChunkHeaders(colonyId: nat, cmdId: nat, payload: string, kind: string)
    ensures var cs := Chunks(colonyId, cmdId, payload, kind);
      forall i :: 0 <= i < |cs| ==>
        cs[i].c == |cs| && cs[i].kind == kind && cs[i].colonyId == colonyId
        && cs[i].cmdId == cmdId && cs[i].n == i + 1
  {
  }

  /** An empty payload produces no chunk at all, so `sendCommand` writes nothing. */
  lemma EmptyPayloadSendsNothing(colonyId: nat, cmdId: nat, kind: string)
    ensures Chunks(colonyId, cmdId, "", kind) == []
  {
  }

  /** A payload of 2 * 786432 + 1 bytes goes out as three chunks of 786432, 786432 and 1 bytes. */
  lemma OversizeSplit(colonyId: nat, cmdId: nat, payload: string, kind: string)
    requires |payload| == 2 * MaxCommandSize + 1
    ensures var cs := Chunks(colonyId, cmdId, payload, kind);
      |cs| == 3
      && |cs[0].msg| == MaxCommandSize && |cs[1].msg| == MaxCommandSize && |cs[2].msg| == 1
      && cs[0].n == 1 && cs[1].n == 2 && cs[2].n == 3
  {
  }

  /** Every chunk starts inside the payload. */
  lemma ChunkStart(size: nat, i: nat)
    requires i < CountChunks(size)
    ensures MaxCommandSize * i < size
  {
    var c := CountChunks(size);
    if i < c - 1 {
      MulMonotone(MaxCommandSize, i, c - 1);
    }
  }

  /** The chunk iteration i of the loop in `sendCommand` builds is chunk i of the payload. */
  lemma EmittedChunk(colonyId: nat, cmdId: nat, payload: string, kind: string, i: nat)
    requires i < CountChunks(|payload|)
    ensures MaxCommandSize * i < |payload|
    ensures var start := MaxCommandSize * i;
      Chunk(CountChunks(|payload|), kind, colonyId, cmdId, i + 1,
            payload[start .. start + Min(MaxCommandSize, |payload| - start)])
        == Chunks(colonyId, cmdId, payload, kind)[i]
  {
    ChunkStart(|payload|, i);
  }

  /** The first k chunks carry exactly the first k * 768 KiB of the payload (or all of it). */
  lemma {:induction false} ChunksPrefix(colonyId: nat, cmdId: nat, payload: string, kind: string, k: nat)
    requires k <= CountChunks(|payload|)
    ensures Concat(Msgs(Chunks(colonyId, cmdId, payload, kind))[..k])
              == payload[..Min(|payload|, MaxCommandSize * k)]
  {
    var ms := Msgs(Chunks(colonyId, cmdId, payload, kind));
    if k == 0 {
      assert ms[..0] == [];
    } else {
      ChunksPrefix(colonyId, cmdId, payload, kind, k - 1);
      ChunkStart(|payload|, k - 1);
      var lo := MaxCommandSize * (k - 1);
      var hi := Min(|payload|, MaxCommandSize * k);
      assert ms[k - 1] == payload[lo .. hi];
      ConcatExtend(ms, k, payload, lo, hi);
    }
  }

  /** Joining the `msg` members in emission order gives back the payload exactly. */
  lemma ChunksJoin(colonyId: nat, cmdId: nat, payload: string, kind: string)
    ensures Concat(Msgs(Chunks(colonyId, cmdId, payload, kind))) == payload
  {
    var ms := Msgs(Chunks(colonyId, cmdId, payload, kind));
    var c := CountChunks(|payload|);
    ChunksPrefix(colonyId, cmdId, payload, kind, c);
    assert ms[..c] == ms;
    assert payload[..Min(|payload|, MaxCommandSize * c)] == payload;
  }

  /**
   * End to end: a reader that splits the output stream into frames and parses each frame with a
   * left inverse of the serialiser gets the chunks back, and their `msg` members join to the payload.
   */
  lemma SentPayloadRecoverable(json: Json, parse: string -> Chunk,
                               colonyId: nat, cmdId: nat, payload: string, kind: string)
    requires var cs := Chunks(colonyId, cmdId, payload, kind);
      forall i :: 0 <= i < |cs| ==> parse(json.chunk(cs[i])) == cs[i] && |json.chunk(cs[i])| < PrefixLimit
    ensures var ts := Encoded(json, Chunks(colonyId, cmdId, payload, kind));
      Deframe(Frames(ts)) == Optional.Some(ts)
      && Concat(Msgs(seq(|ts|, i requires 0 <= i < |ts| => parse(ts[i])))) == payload
  {
    var cs := Chunks(colonyId, cmdId, payload, kind);
    var ts := Encoded(json, cs);
    DeframeFrames(ts);
    var back := seq(|ts|, i requires 0 <= i < |ts| => parse(ts[i]));
    assert back == cs;
    ChunksJoin(colonyId, cmdId, payload, kind);
  }
}
