/**
 * The stdio wire format of native messaging: every message is a 4-byte little-endian length
 * followed by that many bytes of text (`MainLoop::writeMessage`). A C++ `char` is one
 * character of a Dafny string; the four prefix characters are always below 256.
 */
module Wire {
  import opened Optional

  /** A length prefix holds the length modulo 2^32: `writeMessage` keeps the low four bytes of `size_t`. */
  const PrefixLimit: nat := 0x1_0000_0000

  /** The character whose code is the byte `b`. */
  function Byte(b: nat): (ch: char)
    requires b < 256
    ensures ch as int == b
  {
    b as char
  }

  /** The integer the four prefix characters encode, least significant first. */
  function DecodeLength(p: string): nat
    requires |p| >= 4
  {
    p[0] as int + 0x100 * (p[1] as int) + 0x1_0000 * (p[2] as int) + 0x100_0000 * (p[3] as int)
  }

  /** The four characters written before a text of length `a`: character k is `(a >> 8k) & 0xFF`. */
  function LengthPrefix(a: nat): (p: string)
    ensures |p| == 4
    ensures forall k :: 0 <= k < 4 ==> p[k] as int < 256
    ensures DecodeLength(p) == a % PrefixLimit
  {
    PrefixDecodes(a);
    [Byte(a % 256), Byte(a / 256 % 256), Byte(a / 256 / 256 % 256), Byte(a / 256 / 256 / 256 % 256)]
  }

  /** What `writeMessage(text)` puts on standard output. */
  function Frame(text: string): (f: string)
    ensures |f| == 4 + |text|
    ensures f[4..] == text
    ensures |text| < PrefixLimit ==> DecodeLength(f[..4]) == |text|
  {
    assert (LengthPrefix(|text|) + text)[..4] == LengthPrefix(|text|);
    LengthPrefix(|text|) + text
  }

  /** Several texts written one after the other. */
  function Frames(texts: seq<string>): string
  {
    if texts == [] then "" else Frame(texts[0]) + Frames(texts[1..])
  }

  /** A reader of the stream: split it back into texts, or fail on a truncated frame. */
  function Deframe(stream: string): Option<seq<string>>
    decreases |stream|
  {
    if stream == [] then Some([])
    else if |stream| < 4 then None
    else
      var len := DecodeLength(stream[..4]);
      if |stream| - 4 < len then None
      else
        match Deframe(stream[4 + len..])
        case None => None
        case Some(rest) => Some([stream[4..4 + len]] + rest)
  }

  /** Euclidean remainders are unique. */
  lemma ModUnique(x: nat, d: nat, k: nat, s: nat)
    requires d > 0 && s < d && x == d * k + s
    ensures x % d == s && x / d == k
  {
    if k < x / d {
      MulMonotone(d, k, x / d);
    } else if x / d < k {
      MulMonotone(d, x / d, k);
    }
  }
  /** Multiplying by a positive factor keeps a gap of at least one step. */
  lemma MulMonotone(d: nat, a: nat, b: nat)
    requires d > 0 && a < b
    ensures d * a + d <= d * b
  {
    var t: nat := b - a - 1;
    assert d * b == d * a + d * t + d;
    assert d * t >= 0;
  }

  /** Peeling off the low byte of a remainder. */
  lemma SplitLowByte(x: nat, m: nat)
    requires m > 0
    ensures x % (256 * m) == x % 256 + 256 * (x / 256 % m)
  {
    var q := x / 256;
    var r := x % 256;
    var s := 256 * (q % m) + r;
    assert x == 256 * q + r;
    assert q == m * (q / m) + q % m;
    assert x == (256 * m) * (q / m) + s;
    assert s < 256 * m by {
      assert q % m <= m - 1;
      assert 256 * (q % m) <= 256 * (m - 1);
    }
    ModUnique(x, 256 * m, q / m, s);
  }

  /** The four bytes of a length, read back least significant first, give its low 32 bits. */
  lemma PrefixDecodes(a: nat)
    ensures a % 256 + 0x100 * (a / 256 % 256) + 0x1_0000 * (a / 256 / 256 % 256)
              + 0x100_0000 * (a / 256 / 256 / 256 % 256) == a % PrefixLimit
  {
    var b := a / 256;
    var c := b / 256;
    SplitLowByte(a, 0x100_0000);
    SplitLowByte(b, 0x1_0000);
    SplitLowByte(c, 0x100);
  }

  /** Appending to a stream (or to any log) is associative. */
  lemma AppendAssoc<T>(a: seq<T>, b: seq<T>, c: seq<T>)
    ensures (a + b) + c == a + (b + c)
  {
  }

  /** Writing one more text extends the stream by its frame. */
  lemma {:induction false} FramesSnoc(texts: seq<string>, i: nat)
    requires i < |texts|
    ensures Frames(texts[..i + 1]) == Frames(texts[..i]) + Frame(texts[i])
  {
    if i == 0 {
      assert texts[..1][1..] == [];
    } else {
      assert texts[..i + 1][1..] == texts[1..][..i];
      assert texts[..i][1..] == texts[1..][..i - 1];
      FramesSnoc(texts[1..], i - 1);
    }
  }

  /** A reader recovers every text that was written, provided each is shorter than 2^32. */
  lemma {:induction false} DeframeFrames(texts: seq<string>)
    requires forall i :: 0 <= i < |texts| ==> |texts[i]| < PrefixLimit
    ensures Deframe(Frames(texts)) == Some(texts)
  {
    if texts != [] {
      var t := texts[0];
      var stream := Frames(texts);
      assert stream == Frame(t) + Frames(texts[1..]);
      assert stream[..4] == Frame(t)[..4];
      assert stream[4..4 + |t|] == t;
      assert stream[4 + |t|..] == Frames(texts[1..]);
      DeframeFrames(texts[1..]);
      assert [t] + texts[1..] == texts;
    }
  }
}
