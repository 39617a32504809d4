/**
 * Chunk reassembly as `parseWyrmholeMessage` evidently means it (MainLoop.cpp:103-107): the table
 * entry of the chunk's `cmdId`, declared with the chunk's count `c`, is updated where it is
 * stored. Over this reading, the chunks `sendCommand` produces reassemble into the original
 * payload in whatever order they arrive.
 */
module Reassembly {
  import opened Optional
  import opened Messages
  import opened Envelope
  import opened Outbound

  /** A chunk taken into the table, or refused (count mismatch, or a fragment index out of range). */
  datatype Receipt = Received(info: MessageInfo, table: map<nat, MessageInfo>) | Rejected

  /** The zero-based slot of a chunk: `n - 1` when `c > 1`, else `c - 1`; `None` where that wraps. */
  function Slot(ch: Chunk): Option<nat>
  {
    if ch.c > 1 then (if ch.n >= 1 then Some(ch.n - 1) else None)
    else if ch.c == 1 then Some(0)
    else None
  }

  /** Lines 103-107 with the arguments in order and the entry updated in the table. */
  function Receive(table: map<nat, MessageInfo>, ch: Chunk): (r: Receipt)
    ensures r.Received? ==> ch.cmdId in r.table && r.table[ch.cmdId] == r.info && r.info.c == ch.c
    ensures r.Received? ==> forall k :: k in table && k != ch.cmdId ==> k in r.table && r.table[k] == table[k]
    ensures ch.cmdId in table && table[ch.cmdId].c != ch.c ==> r.Rejected?
  {
    match Slot(ch)
    case None => Rejected
    case Some(n) =>
      match GetMessageInfo(table, ch.cmdId, ch.c)
      case SizeMismatch => Rejected
      case Found(entry, table') =>
        if n >= |entry.msgs| then Rejected
        else
          var info := entry.(colonyId := ch.colonyId, msgs := entry.msgs[n := ch.msg],
                             curC := entry.curC + 1,
                             kind := KindOf(ch.kind));
          Received(info, table'[ch.cmdId := info])
  }

  /** The table after a receipt, if the chunk was taken. */
  function After(r: Receipt): Option<map<nat, MessageInfo>>
  {
    match r
    case Rejected => None
    case Received(_, t) => Some(t)
  }

  /** Chunks taken one after the other; `None` as soon as one is refused. */
  function ReceiveAll(table: map<nat, MessageInfo>, chs: seq<Chunk>): Option<map<nat, MessageInfo>>
  {
    if chs == [] then Some(table)
    else
      match ReceiveAll(table, chs[..|chs| - 1])
      case None => None
      case Some(t) => After(Receive(t, chs[|chs| - 1]))
  }

  /** The chunks of `cs` in the delivery order `order`. */
  function InOrder(cs: seq<Chunk>, order: seq<nat>): (out: seq<Chunk>)
    requires forall j :: 0 <= j < |order| ==> order[j] < |cs|
    ensures |out| == |order| && forall j :: 0 <= j < |order| ==> out[j] == cs[order[j]]
  {
    seq(|order|, j requires 0 <= j < |order| => cs[order[j]])
  }

  /** The fragment slots after the chunks at `delivered` have arrived: their `msg`, or empty. */
  function Filled(cs: seq<Chunk>, delivered: seq<nat>): (ms: seq<string>)
    ensures |ms| == |cs|
  {
    seq(|cs|, i requires 0 <= i < |cs| => if i in delivered then cs[i].msg else "")
  }

  /** Taking the first k chunks is taking the first k - 1, then chunk k - 1. */
  lemma ReceiveAllStep(table: map<nat, MessageInfo>, chs: seq<Chunk>, k: nat)
    requires 1 <= k <= |chs|
    ensures ReceiveAll(table, chs[..k - 1]).Some? ==>
      ReceiveAll(table, chs[..k]) == After(Receive(ReceiveAll(table, chs[..k - 1]).value, chs[k - 1]))
  {
    assert chs[..k][..k - 1] == chs[..k - 1];
  }

  /** Filling one more slot. */
  lemma FilledAdd(cs: seq<Chunk>, delivered: seq<nat>, i: nat)
    requires i < |cs|
    ensures Filled(cs, delivered)[i := cs[i].msg] == Filled(cs, delivered + [i])
  {
    forall x | 0 <= x < |cs|
      ensures Filled(cs, delivered)[i := cs[i].msg][x] == Filled(cs, delivered + [i])[x]
    {
      assert x in delivered + [i] <==> x in delivered || x == i;
    }
  }

  /** Chunk i of a payload: its header, and the slot a receiver puts it in. */
  lemma ChunkSlot(colonyId: nat, cmdId: nat, payload: string, kind: string, i: nat)
    requires i < CountChunks(|payload|)
    ensures var cs := Chunks(colonyId, cmdId, payload, kind);
      && cs[i].c == |cs| && cs[i].cmdId == cmdId && cs[i].colonyId == colonyId
      && cs[i].kind == kind && Slot(cs[i]) == Some(i)
  {
    ChunkHeaders(colonyId, cmdId, payload, kind);
  }

  /**
   * An unfolding of `Receive` for the proofs below: a chunk whose lookup succeeds and whose
   * slot is in range is taken into its entry.
   */
  lemma ReceiveFound(t: map<nat, MessageInfo>, ch: Chunk, n: nat, entry: MessageInfo,
                     t': map<nat, MessageInfo>)
    requires Slot(ch) == Some(n) && GetMessageInfo(t, ch.cmdId, ch.c) == Found(entry, t')
    requires n < |entry.msgs|
    ensures var info := entry.(colonyId := ch.colonyId, msgs := entry.msgs[n := ch.msg],
                               curC := entry.curC + 1, kind := KindOf(ch.kind));
      Receive(t, ch) == Received(info, t'[ch.cmdId := info])
  {
  }

  /** The entry found for `cmdId` is `before`, whether it was stored or is created by the lookup. */
  lemma LookupBefore(t: map<nat, MessageInfo>, cmdId: nat, c: nat, before: MessageInfo,
                     info: MessageInfo)
    requires before.c == c
    requires (cmdId !in t && before == Sequence(c, cmdId)) || (cmdId in t && t[cmdId] == before)
    ensures var lookup := GetMessageInfo(t, cmdId, c);
      lookup.Found? && lookup.entry == before && lookup.table[cmdId := info] == t[cmdId := info]
  {
    if cmdId !in t {
      assert t[cmdId := before][cmdId := info] == t[cmdId := info];
    }
  }

  /** The step of the induction: one more chunk lands in its slot and is counted. */
  lemma ReceiveNext(t: map<nat, MessageInfo>, cs: seq<Chunk>, delivered: seq<nat>, i: nat,
                    colonyId: nat, cmdId: nat, kind: string, before: MessageInfo)
    requires i < |cs|
    requires cs[i].c == |cs| && cs[i].cmdId == cmdId && cs[i].colonyId == colonyId
    requires cs[i].kind == kind && Slot(cs[i]) == Some(i)
    requires before.c == |cs| && before.msgs == Filled(cs, delivered) && before.msgId == cmdId
    requires (cmdId !in t && before == Sequence(|cs|, cmdId)) || (cmdId in t && t[cmdId] == before)
    ensures var r := Receive(t, cs[i]);
      && r.Received?
      && r.table == t[cmdId := MessageInfo(colonyId, cmdId, |cs|, before.curC + 1,
                                           Filled(cs, delivered + [i]), KindOf(kind))]
  {
    var info := MessageInfo(colonyId, cmdId, |cs|, before.curC + 1,
                            Filled(cs, delivered + [i]), KindOf(kind));
    FilledAdd(cs, delivered, i);
    assert before.(colonyId := colonyId, msgs := before.msgs[i := cs[i].msg],
                   curC := before.curC + 1, kind := KindOf(kind)) == info;
    LookupBefore(t, cmdId, |cs|, before, info);
    var lookup := GetMessageInfo(t, cmdId, |cs|);
    ReceiveFound(t, cs[i], i, before, lookup.table);
  }

  /**
   * After the first k deliveries (k >= 1) of a payload's chunks, in any order, the entry for
   * `cmdId` holds exactly the fragments delivered so far and has counted k of them; no other
   * entry has changed.
   */
  lemma {:induction false} ReceivePrefix(table: map<nat, MessageInfo>, colonyId: nat, cmdId: nat,
                                         payload: string, kind: string, order: seq<nat>, k: nat)
    requires cmdId !in table
    requires forall j :: 0 <= j < |order| ==> order[j] < CountChunks(|payload|)
    requires 1 <= k <= |order|
    ensures var cs := Chunks(colonyId, cmdId, payload, kind);
      var r := ReceiveAll(table, InOrder(cs, order)[..k]);
      && r.Some? && cmdId in r.value
      && r.value[cmdId] == MessageInfo(colonyId, cmdId, |cs|, k, Filled(cs, order[..k]), KindOf(kind))
      && forall key :: key in table ==> key in r.value && r.value[key] == table[key]
  {
    var cs := Chunks(colonyId, cmdId, payload, kind);
    var chs := InOrder(cs, order);
    var i := order[k - 1];
    ChunkSlot(colonyId, cmdId, payload, kind, i);
    ReceiveAllStep(table, chs, k);
    assert order[..k] == order[..k - 1] + [i];
    if k == 1 {
      assert chs[..0] == [];
      assert Filled(cs, order[..0]) == Sequence(|cs|, cmdId).msgs by {
        assert order[..0] == [];
      }
      ReceiveNext(table, cs, order[..0], i, colonyId, cmdId, kind, Sequence(|cs|, cmdId));
    } else {
      ReceivePrefix(table, colonyId, cmdId, payload, kind, order, k - 1);
      var t := ReceiveAll(table, chs[..k - 1]).value;
      ReceiveNext(t, cs, order[..k - 1], i, colonyId, cmdId, kind, t[cmdId]);
    }
  }

  /** Once every slot has been delivered, the slots hold the chunks' `msg` members in order. */
  lemma FilledAll(cs: seq<Chunk>, order: seq<nat>)
    requires forall i :: 0 <= i < |cs| ==> i in order
    ensures Filled(cs, order) == Msgs(cs)
  {
  }

  /**
   * The chunk round trip: however the chunks of a non-empty payload are ordered in transit, once
   * each has arrived the message is complete and `getString()` returns the payload exactly.
   */
  lemma ReassemblyRoundTrip(table: map<nat, MessageInfo>, colonyId: nat, cmdId: nat,
                            payload: string, kind: string, order: seq<nat>)
    requires cmdId !in table && |payload| > 0
    requires |order| == CountChunks(|payload|)
    requires forall j :: 0 <= j < |order| ==> order[j] < |order|
    requires forall i :: 0 <= i < |order| ==> i in order
    ensures var cs := Chunks(colonyId, cmdId, payload, kind);
      var r := ReceiveAll(table, InOrder(cs, order));
      && r.Some? && cmdId in r.value
      && IsComplete(r.value[cmdId])
      && GetString(r.value[cmdId]) == payload
  {
    var cs := Chunks(colonyId, cmdId, payload, kind);
    var chs := InOrder(cs, order);
    ReceivePrefix(table, colonyId, cmdId, payload, kind, order, |order|);
    assert chs[..|order|] == chs;
    assert order[..|order|] == order;
    FilledAll(cs, order);
    ChunksJoin(colonyId, cmdId, payload, kind);
  }

  /** Before the last chunk has arrived, the reassembled entry is not complete: `curC < c`. */
  lemma IncompleteUntilLast(table: map<nat, MessageInfo>, colonyId: nat, cmdId: nat,
                            payload: string, kind: string, order: seq<nat>)
    requires cmdId !in table
    requires |order| == CountChunks(|payload|)
    requires forall j :: 0 <= j < |order| ==> order[j] < |order|
    ensures var cs := Chunks(colonyId, cmdId, payload, kind);
      forall k :: 1 <= k < |order| ==>
        var r := ReceiveAll(table, InOrder(cs, order)[..k]);
        r.Some? && cmdId in r.value && !IsComplete(r.value[cmdId])
  {
    var cs := Chunks(colonyId, cmdId, payload, kind);
    forall k | 1 <= k < |order|
      ensures var r := ReceiveAll(table, InOrder(cs, order)[..k]);
        r.Some? && cmdId in r.value && !IsComplete(r.value[cmdId])
    {
      ReceivePrefix(table, colonyId, cmdId, payload, kind, order, k);
    }
  }

  /** A payload of exactly two chunk lengths is sent as two chunks, the first a full one. */
  lemma TwoFullChunks(colonyId: nat, cmdId: nat, payload: string, kind: string)
    requires |payload| == 2 * MaxCommandSize
    ensures var cs := Chunks(colonyId, cmdId, payload, kind);
      |cs| == 2 && |cs[0].msg| == MaxCommandSize
  {
    assert CountChunks(|payload|) == 2;
    EmittedChunk(colonyId, cmdId, payload, kind, 0);
  }

  /** With chunk 0 delivered twice and chunk 1 never, the message joins to chunk 0's `msg` alone. */
  lemma FirstTwiceJoins(cs: seq<Chunk>)
    requires |cs| == 2
    ensures Concat(Filled(cs, [0, 0])) == cs[0].msg
  {
    var ms := Filled(cs, [0, 0]);
    assert ms == [cs[0].msg, ""];
    assert ms[1..] == [""];
    assert Concat([""]) == "" by {
      assert [""][1..] == [];
    }
  }

  /**
   * The received counter counts deliveries, not distinct slots: delivering the first chunk of a
   * two-chunk payload twice completes the message while the second slot is still empty.
   */
  lemma DuplicateCompletesEarly(table: map<nat, MessageInfo>, colonyId: nat, cmdId: nat,
                                payload: string, kind: string)
    requires cmdId !in table && |payload| == 2 * MaxCommandSize
    ensures var cs := Chunks(colonyId, cmdId, payload, kind);
      var r := ReceiveAll(table, [cs[0], cs[0]]);
      && r.Some? && cmdId in r.value
      && IsComplete(r.value[cmdId])
      && GetString(r.value[cmdId]) != payload
  {
    var cs := Chunks(colonyId, cmdId, payload, kind);
    TwoFullChunks(colonyId, cmdId, payload, kind);
    ReceivePrefix(table, colonyId, cmdId, payload, kind, [0, 0], 2);
    assert InOrder(cs, [0, 0])[..2] == [cs[0], cs[0]];
    assert [0, 0][..2] == [0, 0];
    FirstTwiceJoins(cs);
  }
}
