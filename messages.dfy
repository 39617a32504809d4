/**
 * The `messageInfo` record and the `MessageType` enumeration of the native message host:
 * a message exchanged with the browser, possibly still being received chunk by chunk.
 */
module Messages {

  /** The kinds of message (MainLoop.h:32). */
  datatype MessageType = Unknown | Create | Destroy | Command | Response | Error

  /**
   * What the C++ code reads from members it never initialised: `messageInfo()` and
   * `messageInfo(type, msg)` leave `colonyId`, `msgId`, `c` and `curC` unset, yet
   * `isComplete()` reads `c` and `curC`. The values are whatever was in memory, so the
   * model takes them as a parameter instead of inventing them.
   */
  datatype Indeterminate = Indeterminate(colonyId: nat, msgId: nat, c: nat, curC: nat)

  /**
   * A message: `c` fragment slots (`msgs`), of which `curC` have been received.
   * The source's `type` member is called `kind` here.
   */
  datatype MessageInfo = MessageInfo(
    colonyId: nat,
    msgId: nat,
    c: nat,
    curC: nat,
    msgs: seq<string>,
    kind: MessageType)

  /** `isComplete()`: at least as many fragments received as declared. */
  predicate IsComplete(m: MessageInfo)
  {
    m.curC >= m.c
  }

  /**
   * Completeness follows the received count alone: a message is incomplete while fewer
   * fragments than declared have been counted, complete once the count reaches `c`, and
   * counting more never makes it incomplete again.
   */
  lemma CompleteOnceCounted(m: MessageInfo, more: nat)
    ensures m.curC < m.c ==> !IsComplete(m)
    ensures IsComplete(m.(curC := m.c))
    ensures IsComplete(m) ==> IsComplete(m.(curC := m.curC + more))
  {
  }

  /**
   * `messageInfo(c, msgId)`: a table entry with `c` empty fragment slots and nothing received.
   * The constructor leaves `type` unset; every reader overwrites it first, and the model
   * stores `Unknown`.
   */
  function Sequence(c: nat, msgId: nat): (m: MessageInfo)
    ensures m.c == c && m.msgId == msgId && m.colonyId == 0 && m.curC == 0
    ensures |m.msgs| == c && forall i :: 0 <= i < c ==> m.msgs[i] == ""
    ensures c >= 1 ==> !IsComplete(m)
    ensures c == 0 ==> IsComplete(m)
  {
    MessageInfo(0, msgId, c, 0, seq(c, _ => ""), Unknown)
  }

  /**
   * `messageInfo(type, msg)`: a message holding exactly the fragment `msg`. Whether it counts
   * as complete depends only on the indeterminate `c` and `curC`.
   */
  function Single(kind: MessageType, msg: string, junk: Indeterminate): (m: MessageInfo)
    ensures m.kind == kind && m.msgs == [msg]
    ensures GetString(m) == msg
    ensures IsComplete(m) <==> junk.curC >= junk.c
  {
    MessageInfo(junk.colonyId, junk.msgId, junk.c, junk.curC, [msg], kind)
  }

  /** The first loop of `getString()`: the total length of the fragments. */
  function TotalLength(msgs: seq<string>): nat
  {
    if msgs == [] then 0 else |msgs[0]| + TotalLength(msgs[1..])
  }

  /** The fragments joined in index order (the second loop of `getString()`). */
  function Concat(msgs: seq<string>): (s: string)
    ensures |s| == TotalLength(msgs)
  {
    if msgs == [] then "" else msgs[0] + Concat(msgs[1..])
  }

  /** `getString()`: the payload carried by all fragments, in index order. */
  function GetString(m: MessageInfo): (s: string)
    ensures |s| == TotalLength(m.msgs)
  {
    Concat(m.msgs)
  }

  /** Joining distributes over concatenation of fragment lists. */
  lemma {:induction false} ConcatAppend(a: seq<string>, b: seq<string>)
    ensures Concat(a + b) == Concat(a) + Concat(b)
  {
    if a == [] {
      assert a + b == b;
    } else {
      assert (a + b)[1..] == a[1..] + b;
      ConcatAppend(a[1..], b);
    }
  }

  /** If the first k - 1 fragments join to `text[..lo]` and fragment k - 1 is `text[lo..hi]`, the first k join to `text[..hi]`. */
  lemma ConcatExtend(msgs: seq<string>, k: nat, text: string, lo: nat, hi: nat)
    requires 1 <= k <= |msgs| && lo <= hi <= |text|
    requires Concat(msgs[..k - 1]) == text[..lo] && msgs[k - 1] == text[lo..hi]
    ensures Concat(msgs[..k]) == text[..hi]
  {
    assert msgs[..k] == msgs[..k - 1] + [msgs[k - 1]];
    ConcatAppend(msgs[..k - 1], [msgs[k - 1]]);
    assert Concat([msgs[k - 1]]) == msgs[k - 1] by {
      assert [msgs[k - 1]][1..] == [];
    }
    assert text[..hi] == text[..lo] + text[lo..hi];
  }

  /** Fragment `i` sits in the joined text right after the fragments before it. */
  lemma {:induction false} ConcatPlacesFragment(msgs: seq<string>, i: nat)
    requires i < |msgs|
    ensures TotalLength(msgs[..i]) + |msgs[i]| <= |Concat(msgs)|
    ensures Concat(msgs)[TotalLength(msgs[..i]) .. TotalLength(msgs[..i]) + |msgs[i]|] == msgs[i]
  {
    assert msgs == msgs[..i] + ([msgs[i]] + msgs[i + 1..]);
    ConcatAppend(msgs[..i], [msgs[i]] + msgs[i + 1..]);
    ConcatAppend([msgs[i]], msgs[i + 1..]);
    assert Concat([msgs[i]]) == msgs[i] by {
      assert [msgs[i]][1..] == [];
    }
  }

  /** Joining only empty fragments gives the empty text: a fresh entry carries nothing. */
  lemma {:induction false} ConcatOfEmpties(msgs: seq<string>)
    requires forall i :: 0 <= i < |msgs| ==> msgs[i] == ""
    ensures Concat(msgs) == ""
  {
    if msgs != [] {
      ConcatOfEmpties(msgs[1..]);
    }
  }
}
