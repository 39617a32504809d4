/**
 * The inbound envelope parser (`parseIncomingMessage`, `parseCommandMessage`,
 * `parseWyrmholeMessage`) and the table of partly received messages (`msgMap`,
 * `getMessageInfo`), as written. The JSON decoder stays outside: a payload arrives already
 * decoded into a `Document`.
 */
module Envelope {
  import opened Optional
  import opened Messages

  /** An integer member as the JSON library reports it: absent, present but not integral, or integral. */
  datatype JNum = Missing | NonIntegral | Integral(value: int)

  /**
   * The members of a decoded JSON object that the parser reads. A string member holds what
   * `asString()` returns for it; `colonyId` holds the integer `asUInt()` would convert.
   */
  datatype Fields = Fields(
    cmd: Option<string>,
    mimetype: Option<string>,
    msg: Option<string>,
    c: JNum,
    cmdId: JNum,
    n: JNum,
    colonyId: Option<int>,
    kind: Option<string>)

  /** What the JSON reader makes of a payload: not JSON at all, JSON but not an object, or an object. */
  datatype Document = NotJson | NotObject | Object(root: Fields)

  /** The exceptions the parser throws, one per distinct cause. */
  datatype ParseError =
    | InvalidJson          // "Invalid json"
    | InvalidMessage       // "Invalid message": not an object, or `c`/`cmdId` missing or not integral
    | MissingMimetype      // "Missing Mimetype"
    | UnknownCommand       // "Unknown command"
    | MissingSequenceId    // "Missing sequence id in multi-part message"
    | InvalidSequenceSize  // "Invalid sequence size; sequence size already set"
    | UnknownMessage       // "Unknown message"
    | OutOfRange           // `asUInt()` on a value outside unsigned 32 bits

  /**
   * The outcome of parsing: a message, a thrown exception, or undefined behaviour (the write
   * `info.msgs[n]` with `n` past the end of the vector).
   */
  datatype Parse = Parsed(info: MessageInfo) | Thrown(error: ParseError) | Undefined

  /** A parse outcome together with the table afterwards. */
  datatype Parsing = Parsing(result: Parse, table: map<nat, MessageInfo>)

  const UIntLimit: int := 0x1_0000_0000

  /** `asUInt()` succeeds exactly on values that fit in an unsigned 32-bit integer. */
  predicate IsUInt(v: int)
  {
    0 <= v < UIntLimit
  }

  /** Unsigned 32-bit `v - 1`: zero wraps around to 2^32 - 1. */
  function Pred32(v: nat): (r: nat)
    requires v < UIntLimit
    ensures r < UIntLimit && (r + 1) % UIntLimit == v
  {
    if v == 0 then UIntLimit - 1 else v - 1
  }

  /** The result of `getMessageInfo`: the entry (the C++ returns a reference) and the table, or the exception. */
  datatype Lookup = Found(entry: MessageInfo, table: map<nat, MessageInfo>) | SizeMismatch

  /**
   * `getMessageInfo(msgId, c)`: the first lookup of a key stores a fresh entry with `c` slots;
   * later lookups must declare the same count.
   */
  function GetMessageInfo(table: map<nat, MessageInfo>, msgId: nat, c: nat): (r: Lookup)
    ensures r.SizeMismatch? <==> msgId in table && table[msgId].c != c
    ensures msgId !in table ==> r == Found(Sequence(c, msgId), table[msgId := Sequence(c, msgId)])
    ensures r.Found? ==> r.entry.c == c && msgId in r.table && r.table[msgId] == r.entry
    ensures r.Found? ==> r.table.Keys == table.Keys + {msgId}
    ensures r.Found? ==> forall k :: k in table ==> r.table[k] == table[k]
  {
    if msgId !in table then
      var created := Sequence(c, msgId);
      Found(created, table[msgId := created])
    else if table[msgId].c != c then
      SizeMismatch
    else
      Found(table[msgId], table)
  }

  /** A table entry nobody has written to: nothing received and one slot per declared chunk. */
  predicate Untouched(e: MessageInfo)
  {
    e.curC == 0 && |e.msgs| == e.c
  }

  /** Every entry of the table is untouched: what the as-written parser keeps true. */
  predicate TableUntouched(table: map<nat, MessageInfo>)
  {
    forall k :: k in table ==> Untouched(table[k])
  }

  /** Every entry sits under its own `msgId`, as `getMessageInfo` stores it. */
  predicate KeyedById(table: map<nat, MessageInfo>)
  {
    forall k :: k in table ==> table[k].msgId == k
  }

  /** `parseCommandMessage`: only `cmd == "create"` is understood, and it needs a `mimetype`. */
  function ParseCommandMessage(root: Fields, junk: Indeterminate): (r: Parse)
    ensures r.Parsed? <==> root.cmd.GetOr("") == "create" && root.mimetype.Some?
    ensures r.Parsed? ==> r.info.kind == Create && r.info.msgs == [root.mimetype.value]
    ensures r == Thrown(MissingMimetype) <==> root.cmd.GetOr("") == "create" && root.mimetype.None?
    ensures r == Thrown(UnknownCommand) <==> root.cmd.GetOr("") != "create"
  {
    if root.cmd.GetOr("") == "create" then
      if root.mimetype.None? then Thrown(MissingMimetype)
      else Parsed(MessageInfo(junk.colonyId, junk.msgId, junk.c, junk.curC, [root.mimetype.value], Create))
    else
      Thrown(UnknownCommand)
  }

  /** `c` and `cmdId` are integral, and `colonyId`, `cmdId` and `c` convert with `asUInt()`. */
  predicate HeaderInRange(root: Fields)
  {
    && root.c.Integral? && root.cmdId.Integral?
    && (root.colonyId.Some? ==> IsUInt(root.colonyId.value))
    && IsUInt(root.cmdId.value) && IsUInt(root.c.value)
  }

  /** All the checks of `parseWyrmholeMessage` before the table is consulted pass. */
  predicate WellFormedChunk(root: Fields)
  {
    && HeaderInRange(root)
    && (root.c.value > 1 ==> root.n.Integral? && IsUInt(root.n.value))
  }

  /** The zero-based fragment index `n` of a well-formed chunk, with its unsigned wrap-around. */
  function FragmentIndex(root: Fields): nat
    requires WellFormedChunk(root)
  {
    if root.c.value > 1 then Pred32(root.n.value) else Pred32(root.c.value)
  }

  /** The kind a receiver gives a chunk's message: `type == "resp"` is a response, anything else a command. */
  function KindOf(kind: string): MessageType
  {
    if kind == "resp" then Response else Command
  }

  /**
   * The number of fragment slots of the entry a well-formed chunk is looked up in, when the
   * lookup succeeds: the stored vector, or `cmdId` slots for an entry created by the lookup.
   */
  function SlotCount(table: map<nat, MessageInfo>, root: Fields): nat
    requires WellFormedChunk(root)
  {
    if root.c.value in table then |table[root.c.value].msgs| else root.cmdId.value
  }

  /** The lookup of a well-formed chunk finds no entry under `c` declaring another count. */
  predicate CountAgrees(table: map<nat, MessageInfo>, root: Fields)
    requires WellFormedChunk(root)
  {
    root.c.value !in table || table[root.c.value].c == root.cmdId.value
  }

  /**
   * `parseWyrmholeMessage`, as written: the table is looked up with `getMessageInfo(c, cmdId)`
   * although the parameters are `(msgId, c)`, and the entry is copied before it is updated, so
   * the stored entry never changes.
   */
  function ParseWyrmholeMessage(table: map<nat, MessageInfo>, root: Fields): (r: Parsing)
    ensures r.result.Parsed? ==> |r.result.info.msgs| >= 1
    ensures r.result.Parsed? ==> r.result.info.kind == Command || r.result.info.kind == Response
    ensures !WellFormedChunk(root) ==> r.table == table && r.result.Thrown?
    ensures !root.c.Integral? || !root.cmdId.Integral? ==> r == Parsing(Thrown(InvalidMessage), table)
    ensures root.c.Integral? && root.cmdId.Integral? && !WellFormedChunk(root) ==>
      r.table == table && (r.result == Thrown(MissingSequenceId) || r.result == Thrown(OutOfRange))
    ensures r.result == Thrown(MissingSequenceId) <==>
      HeaderInRange(root) && root.c.value > 1 && !root.n.Integral?
    ensures WellFormedChunk(root) && !CountAgrees(table, root) ==>
      r == Parsing(Thrown(InvalidSequenceSize), table)
    ensures WellFormedChunk(root) && CountAgrees(table, root) ==>
      (r.result.Parsed? <==> FragmentIndex(root) < SlotCount(table, root))
    ensures WellFormedChunk(root) && CountAgrees(table, root) ==>
      (r.result.Undefined? <==> FragmentIndex(root) >= SlotCount(table, root))
    ensures r.result.Parsed? && root.c.value > 1 ==> root.n.Integral?
    ensures r.result.Parsed? ==> (r.result.info.kind == Response <==> root.kind == Some("resp"))
    ensures r.result.Parsed? ==> r.result.info.colonyId == root.colonyId.GetOr(0)
    ensures r.result.Parsed? ==>
      && WellFormedChunk(root) && root.c.value in r.table
      && FragmentIndex(root) < |r.table[root.c.value].msgs|
      && r.result.info.msgs == r.table[root.c.value].msgs[FragmentIndex(root) := root.msg.GetOr("")]
      && r.result.info.curC == r.table[root.c.value].curC + 1
    ensures forall k :: k in table ==> k in r.table && r.table[k] == table[k]
    ensures WellFormedChunk(root) && CountAgrees(table, root) ==>
      r.table == (if root.c.value in table then table
                  else table[root.c.value := Sequence(root.cmdId.value, root.c.value)])
  {
    if !root.c.Integral? || !root.cmdId.Integral? then Parsing(Thrown(InvalidMessage), table)
    else if root.colonyId.Some? && !IsUInt(root.colonyId.value) then Parsing(Thrown(OutOfRange), table)
    else if !IsUInt(root.cmdId.value) || !IsUInt(root.c.value) then Parsing(Thrown(OutOfRange), table)
    else if root.c.value > 1 && !root.n.Integral? then Parsing(Thrown(MissingSequenceId), table)
    else if root.c.value > 1 && !IsUInt(root.n.value) then Parsing(Thrown(OutOfRange), table)
    else
      var colonyId := root.colonyId.GetOr(0);
      var cmdId := root.cmdId.value;
      var c := root.c.value;
      var n := FragmentIndex(root);
      var kind := KindOf(root.kind.GetOr(""));
      match GetMessageInfo(table, c, cmdId)
      case SizeMismatch => Parsing(Thrown(InvalidSequenceSize), table)
      case Found(entry, table') =>
        if n >= |entry.msgs| then Parsing(Undefined, table')
        else
          var info := entry.(colonyId := colonyId, msgs := entry.msgs[n := root.msg.GetOr("")],
                             curC := entry.curC + 1, kind := kind);
          Parsing(Parsed(info), table')
  }

  /**
   * `parseIncomingMessage`: non-JSON and non-object input is rejected, `cmd` takes priority over
   * `msg`, and an object with neither is an unknown message.
   */
  function ParseIncomingMessage(doc: Document, table: map<nat, MessageInfo>, junk: Indeterminate): (r: Parsing)
    ensures doc.NotJson? ==> r == Parsing(Thrown(InvalidJson), table)
    ensures doc.NotObject? ==> r == Parsing(Thrown(InvalidMessage), table)
    ensures doc.Object? && doc.root.cmd.Some? ==> r.table == table && r.result == ParseCommandMessage(doc.root, junk)
    ensures doc.Object? && doc.root.cmd.None? && doc.root.msg.Some? ==> r == ParseWyrmholeMessage(table, doc.root)
    ensures doc.Object? && doc.root.cmd.None? && doc.root.msg.None? ==> r == Parsing(Thrown(UnknownMessage), table)
    ensures r.result.Parsed? ==> |r.result.info.msgs| >= 1
    ensures r.result.Parsed? && r.result.info.kind == Create ==>
              doc.Object? && doc.root.cmd == Some("create") && r.result.info.msgs == [doc.root.mimetype.value]
  {
    match doc
    case NotJson => Parsing(Thrown(InvalidJson), table)
    case NotObject => Parsing(Thrown(InvalidMessage), table)
    case Object(root) =>
      if root.cmd.Some? then Parsing(ParseCommandMessage(root, junk), table)
      else if root.msg.Some? then ParseWyrmholeMessage(table, root)
      else Parsing(Thrown(UnknownMessage), table)
  }

  /**
   * Because of the swapped arguments the table is keyed by the chunk count `c`, the entry's
   * declared count is the `cmdId`, and the returned message's `msgId` is `c`.
   */
  lemma KeyedByChunkCount(table: map<nat, MessageInfo>, root: Fields)
    requires KeyedById(table)
    requires ParseWyrmholeMessage(table, root).result.Parsed?
    ensures var r := ParseWyrmholeMessage(table, root);
      WellFormedChunk(root)
      && root.c.value in r.table && r.table[root.c.value].c == root.cmdId.value
      && r.result.info.msgId == root.c.value
      && r.result.info.c == root.cmdId.value
  {
  }

  /** The parser keeps every entry under its own `msgId`. */
  lemma IncomingKeepsKeys(doc: Document, table: map<nat, MessageInfo>, junk: Indeterminate)
    requires KeyedById(table)
    ensures KeyedById(ParseIncomingMessage(doc, table, junk).table)
  {
  }

  /**
   * Over a table of untouched entries, a chunk that parses into a complete message carries
   * exactly its own `msg` as its one fragment: what the dispatcher then reads as a mimetype or
   * forwards as a payload.
   */
  lemma CompleteChunkCarriesMsg(table: map<nat, MessageInfo>, root: Fields)
    requires TableUntouched(table)
    requires ParseWyrmholeMessage(table, root).result.Parsed?
    requires IsComplete(ParseWyrmholeMessage(table, root).result.info)
    ensures ParseWyrmholeMessage(table, root).result.info.msgs == [root.msg.GetOr("")]
  {
    OnlyCommandIdOneCompletes(table, root);
    var r := ParseWyrmholeMessage(table, root);
    var entry := r.table[root.c.value];
    assert Untouched(entry) by {
      if root.c.value in table {
        assert entry == table[root.c.value];
      }
    }
    assert |entry.msgs| == 1;
  }

  /**
   * Two chunks with the same count `c` but different `cmdId`s: once the first has been seen,
   * the second is rejected as an invalid sequence size.
   */
  lemma SecondCommandRejected(table: map<nat, MessageInfo>, first: Fields, second: Fields)
    requires WellFormedChunk(first) && WellFormedChunk(second)
    requires first.c.value == second.c.value && first.cmdId.value != second.cmdId.value
    requires ParseWyrmholeMessage(table, first).result.Parsed?
    ensures ParseWyrmholeMessage(ParseWyrmholeMessage(table, first).table, second).result
              == Thrown(InvalidSequenceSize)
  {
    var r := ParseWyrmholeMessage(table, first);
    assert WellFormedChunk(first) && first.c.value in r.table && r.table[first.c.value].c == first.cmdId.value;
  }

  /** A table whose entries are untouched stays that way: the copy at line 103 is what is written to. */
  lemma WyrmholeKeepsUntouched(table: map<nat, MessageInfo>, root: Fields)
    requires TableUntouched(table)
    ensures TableUntouched(ParseWyrmholeMessage(table, root).table)
  {
  }

  /** The same for every payload the parser is given. */
  lemma IncomingKeepsUntouched(doc: Document, table: map<nat, MessageInfo>, junk: Indeterminate)
    requires TableUntouched(table)
    ensures TableUntouched(ParseIncomingMessage(doc, table, junk).table)
  {
    if doc.Object? && doc.root.cmd.None? && doc.root.msg.Some? {
      WyrmholeKeepsUntouched(table, doc.root);
    }
  }

  /**
   * Over a table of untouched entries (every table the host ever holds), a parsed chunk has
   * received count 1, and it is complete exactly when its `cmdId` is 1: any other command id
   * is never delivered, whatever its chunk count.
   */
  lemma {:induction false} OnlyCommandIdOneCompletes(table: map<nat, MessageInfo>, root: Fields)
    requires TableUntouched(table)
    requires ParseWyrmholeMessage(table, root).result.Parsed?
    ensures var m := ParseWyrmholeMessage(table, root).result.info;
      m.curC == 1 && (IsComplete(m) <==> root.cmdId.value == 1)
  {
    var c := root.c.value;
    var cmdId := root.cmdId.value;
    var lookup := GetMessageInfo(table, c, cmdId);
    assert lookup.Found?;
    assert Untouched(lookup.entry) by {
      if c in table {
        assert lookup.entry == table[c];
      }
    }
    assert |lookup.entry.msgs| == cmdId;
    assert FragmentIndex(root) < cmdId;
  }

  /**
   * The two chunks of one command, `{cmdId: 5, c: 2, n: 1}` and `{cmdId: 5, c: 2, n: 2}`, arriving
   * at a table with nothing under 2: each parses, into a copy of the entry under 2 that has 5
   * slots, with one fragment received, so neither is complete.
   */
  lemma SplitCommandNeverCompletes(table: map<nat, MessageInfo>, first: string, second: string)
    requires 2 !in table
    ensures var one := Fields(None, None, Some(first), Integral(2), Integral(5), Integral(1), None, None);
      var two := Fields(None, None, Some(second), Integral(2), Integral(5), Integral(2), None, None);
      var r1 := ParseWyrmholeMessage(table, one);
      var r2 := ParseWyrmholeMessage(r1.table, two);
      && r1.result.Parsed? && r2.result.Parsed?
      && r1.result.info.curC == 1 && |r1.result.info.msgs| == 5 && !IsComplete(r1.result.info)
      && r2.result.info.curC == 1 && |r2.result.info.msgs| == 5 && !IsComplete(r2.result.info)
  {
    var one := Fields(None, None, Some(first), Integral(2), Integral(5), Integral(1), None, None);
    var r1 := ParseWyrmholeMessage(table, one);
    assert r1.table[2] == Sequence(5, 2);
  }

  /**
   * A chunk count of 0 makes `n = c - 1` wrap to 2^32 - 1, past any vector the table holds:
   * such a chunk is never parsed into a message.
   */
  lemma ZeroCountNeverParsed(table: map<nat, MessageInfo>, root: Fields)
    requires TableUntouched(table)
    requires WellFormedChunk(root) && root.c.value == 0
    ensures !ParseWyrmholeMessage(table, root).result.Parsed?
  {
    var lookup := GetMessageInfo(table, 0, root.cmdId.value);
    if lookup.Found? {
      assert |lookup.entry.msgs| == root.cmdId.value by {
        if 0 in table {
          assert lookup.entry == table[0];
        }
      }
    }
  }
}
