/**
 The job encodings sent to miners: header-hash bytes and a timestamp as 64-bit words and as hex text.
 */
module JobCodec {
  import opened Wrappers

  type Byte = x: int | 0 <= x < 256

  type Bytes = seq<Byte>

  // ---- words ------------------------------------------------------------------------------------------

  function BeValue(bs: Bytes): nat {
    if bs == [] then 0 else 256 * BeValue(bs[..|bs| - 1]) + bs[|bs| - 1]
  }

  function LeValue(bs: Bytes): nat {
    if bs == [] then 0 else bs[0] + 256 * LeValue(bs[1..])
  }

  // The low n bytes of a value, least significant first, and most significant first.
  function LeBytes(v: nat, n: nat): (bs: Bytes)
    ensures |bs| == n
  {
    if n == 0 then [] else [v % 256] + LeBytes(v / 256, n - 1)
  }

  function BeBytes(v: nat, n: nat): (bs: Bytes)
    ensures |bs| == n
  {
    if n == 0 then [] else BeBytes(v / 256, n - 1) + [v % 256]
  }

  function Pow256(n: nat): nat {
    if n == 0 then 1 else 256 * Pow256(n - 1)
  }

  lemma {:induction false} LeRoundTrip(v: nat, n: nat)
    requires v < Pow256(n)
    ensures LeValue(LeBytes(v, n)) == v
    decreases n
  {
    if n > 0 {
      LeRoundTrip(v / 256, n - 1);
      assert LeBytes(v, n)[1..] == LeBytes(v / 256, n - 1);
    }
  }

  lemma {:induction false} LeBytesOfValue(bs: Bytes)
    ensures LeBytes(LeValue(bs), |bs|) == bs
    decreases |bs|
  {
    if bs != [] {
      LeBytesOfValue(bs[1..]);
      LeStep(bs[0], LeValue(bs[1..]), |bs| - 1);
    }
  }

  lemma LeStep(b: Byte, v: nat, n: nat)
    ensures LeBytes(b + 256 * v, n + 1) == [b] + LeBytes(v, n)
  {
    assert (b + 256 * v) % 256 == b && (b + 256 * v) / 256 == v;
  }

  // Reading big-endian bytes as a little-endian word swaps them.
  function Reversed(bs: Bytes): (r: Bytes)
    ensures |r| == |bs|
  {
    if bs == [] then [] else [bs[|bs| - 1]] + Reversed(bs[..|bs| - 1])
  }

  lemma {:induction false} SwappedValue(bs: Bytes)
    ensures BeValue(bs) == LeValue(Reversed(bs))
    decreases |bs|
  {
    if bs != [] {
      SwappedValue(bs[..|bs| - 1]);
      assert Reversed(bs)[1..] == Reversed(bs[..|bs| - 1]);
    }
  }

  lemma {:induction false} SwappedBytes(v: nat, n: nat)
    ensures Reversed(BeBytes(v, n)) == LeBytes(v, n)
    ensures Reversed(LeBytes(v, n)) == BeBytes(v, n)
    decreases n
  {
    if n > 0 {
      SwappedBytes(v / 256, n - 1);
      assert BeBytes(v, n)[..n - 1] == BeBytes(v / 256, n - 1);
      ReversedCons(v % 256, LeBytes(v / 256, n - 1));
    }
  }

  lemma {:induction false} ReversedCons(b: Byte, bs: Bytes)
    ensures Reversed([b] + bs) == Reversed(bs) + [b]
    decreases |bs|
  {
    var s := [b] + bs;
    if bs == [] {
      assert s == [b] && s[..0] == [];
      assert Reversed(s) == [b] + Reversed([]);
    } else {
      ReversedCons(b, bs[..|bs| - 1]);
      assert s[..|s| - 1] == [b] + bs[..|bs| - 1];
      assert s[|s| - 1] == bs[|bs| - 1];
    }
  }

  // ---- hex text ---------------------------------------------------------------------------------------

  function HexDigit(d: nat): char
    requires d < 16
  {
    if d < 10 then '0' + d as char else 'a' + (d - 10) as char
  }

  // The digits are those of lower-case hex, for printing and for reading.
  lemma HexDigits(d: nat, c: char)
    ensures d < 16 ==> HexDigit(d) == "0123456789abcdef"[d]
    ensures DigitValue(c) == Some(d) <==> d < 16 && c == "0123456789abcdef"[d]
  {
    if d < 16 {
      assert "0123456789abcdef"[d] == HexDigit(d);
    }
  }

  function HexByte(b: Byte): string {
    [HexDigit(b / 16), HexDigit(b % 16)]
  }

  function Hex(bs: Bytes): (s: string)
    ensures |s| == 2 * |bs|
  {
    if bs == [] then "" else Hex(bs[..|bs| - 1]) + HexByte(bs[|bs| - 1])
  }

  // A number in hex, zero-padded to a width it fits in.
  function PaddedHex(v: nat, width: nat): (s: string)
    ensures |s| == width
  {
    if width == 0 then "" else PaddedHex(v / 16, width - 1) + [HexDigit(v % 16)]
  }

  lemma {:induction false} HexConcat(a: Bytes, b: Bytes)
    ensures Hex(a + b) == Hex(a) + Hex(b)
    decreases |b|
  {
    if b == [] {
      assert a + b == a;
    } else {
      HexConcat(a, b[..|b| - 1]);
      assert (a + b)[..|a + b| - 1] == a + b[..|b| - 1];
      assert Hex(a) + (Hex(b[..|b| - 1]) + HexByte(b[|b| - 1])) == Hex(a) + Hex(b[..|b| - 1]) + HexByte(b[|b| - 1]);
    }
  }

  lemma TwoHexDigits(v: nat, b: Byte, width: nat)
    ensures PaddedHex(256 * v + b, width + 2) == PaddedHex(v, width) + HexByte(b)
  {
    var x := 256 * v + b;
    assert x % 16 == b % 16 && x / 16 == 16 * v + b / 16;
    assert (16 * v + b / 16) % 16 == b / 16 && (16 * v + b / 16) / 16 == v;
    assert PaddedHex(x, width + 2) == PaddedHex(x / 16, width + 1) + [HexDigit(x % 16)];
  }

  // A big-endian word printed in padded hex is the hex of its bytes.
  lemma {:induction false} HexOfWord(bs: Bytes)
    ensures PaddedHex(BeValue(bs), 2 * |bs|) == Hex(bs)
    decreases |bs|
  {
    if bs != [] {
      HexOfWord(bs[..|bs| - 1]);
      TwoHexDigits(BeValue(bs[..|bs| - 1]), bs[|bs| - 1], 2 * |bs| - 2);
    }
  }

  // ---- reading hex back -------------------------------------------------------------------------------

  function DigitValue(c: char): Option<nat> {
    if '0' <= c <= '9' then Some((c - '0') as nat)
    else if 'a' <= c <= 'f' then Some((c - 'a') as nat + 10)
    else None
  }

  lemma DigitValueInverts(d: nat)
    requires d < 16
    ensures DigitValue(HexDigit(d)) == Some(d)
  {
  }

  function Unhex(s: string): (r: Option<Bytes>)
    decreases |s|
  {
    if s == "" then Some([])
    else if |s| == 1 then None
    else
      var n := |s|;
      match (Unhex(s[..n - 2]), DigitValue(s[n - 2]), DigitValue(s[n - 1]))
      case (Some(bs), Some(hi), Some(lo)) => if hi < 16 && lo < 16 then Some(bs + [16 * hi + lo]) else None
      case _ => None
  }

  lemma UnhexSnoc(s: string, bs: Bytes, b: Byte)
    requires Unhex(s) == Some(bs)
    ensures Unhex(s + HexByte(b)) == Some(bs + [b])
  {
    var more := s + HexByte(b);
    DigitValueInverts(b / 16);
    DigitValueInverts(b % 16);
    assert more[..|more| - 2] == s;
  }

  lemma HexSnoc(bs: Bytes, b: Byte)
    ensures Hex(bs + [b]) == Hex(bs) + HexByte(b)
  {
    assert (bs + [b])[..|bs|] == bs;
  }

  lemma NextByteUnhexes(bs: Bytes, b: Byte)
    requires UnhexesBack(bs)
    ensures UnhexesBack(bs + [b])
  {
    HexSnoc(bs, b);
    UnhexSnoc(Hex(bs), bs, b);
  }

  ghost predicate UnhexesBack(bs: Bytes) {
    Unhex(Hex(bs)) == Some(bs)
  }

  lemma EmptyUnhexes(bs: Bytes)
    requires bs == []
    ensures UnhexesBack(bs)
  {
  }

  lemma {:induction false} UnhexInverts(bs: Bytes)
    ensures UnhexesBack(bs)
    decreases |bs|
  {
    if bs == [] {
      EmptyUnhexes(bs);
    } else {
      var init, b := bs[..|bs| - 1], bs[|bs| - 1];
      UnhexInverts(init);
      NextByteUnhexes(init, b);
      assert init + [b] == bs;
    }
  }

  // ---- the encoders -----------------------------------------------------------------------------------

  // The four words of the old header format, as many as the data holds.
  function LeWords(data: Bytes, n: nat): (ws: seq<nat>)
    requires 8 * n <= |data|
    ensures |ws| == n
  {
    seq(n, i requires 0 <= i < n => LeValue(data[8 * i..8 * i + 8]))
  }

  function WordCount(len: nat): nat {
    if len >= 32 then 4 else len / 8
  }

  method GenerateJobHeader(data: Bytes) returns (ids: seq<nat>)
    ensures ids == LeWords(data, WordCount(|data|))
  {
    ids := [];
    for i := 0 to 4
      invariant |ids| == if i <= WordCount(|data|) then i else WordCount(|data|)
      invariant forall k :: 0 <= k < |ids| ==> ids[k] == LeValue(data[8 * k..8 * k + 8])
    {
      var offset := i * 8;
      if offset + 8 <= |data| {
        ids := ids + [LeValue(data[offset..offset + 8])];
      }
    }
  }

  function WordBytes(ws: seq<nat>): Bytes {
    if ws == [] then [] else WordBytes(ws[..|ws| - 1]) + LeBytes(ws[|ws| - 1], 8)
  }

  lemma WordsSnoc(data: Bytes, n: nat)
    requires 8 * n + 8 <= |data|
    ensures LeWords(data, n + 1) == LeWords(data, n) + [LeValue(data[8 * n..8 * n + 8])]
  {
  }

  lemma WordBytesSnoc(ws: seq<nat>, w: nat)
    ensures WordBytes(ws + [w]) == WordBytes(ws) + LeBytes(w, 8)
  {
    assert (ws + [w])[..|ws|] == ws;
  }

  lemma NextWord(ws: seq<nat>, front: Bytes, word: Bytes)
    requires WordBytes(ws) == front && |word| == 8
    ensures WordBytes(ws + [LeValue(word)]) == front + word
  {
    WordBytesSnoc(ws, LeValue(word));
    LeBytesOfValue(word);
  }

  lemma NextSlice(data: Bytes, m: nat)
    requires m + 8 <= |data|
    ensures data[..m + 8] == data[..m] + data[m..m + 8]
  {
  }

  lemma NextWordGivesBytes(data: Bytes, n: nat, m: nat)
    requires m == 8 * n && m + 8 <= |data| && WordBytes(LeWords(data, n)) == data[..m]
    ensures WordBytes(LeWords(data, n + 1)) == data[..m + 8]
  {
    WordsSnoc(data, n);
    NextWord(LeWords(data, n), data[..m], data[m..m + 8]);
    NextSlice(data, m);
  }

  // The words give the header bytes back.
  lemma {:induction false} WordsGiveBytesBack(data: Bytes, n: nat)
    requires 8 * n <= |data|
    ensures WordBytes(LeWords(data, n)) == data[..8 * n]
  {
    var k, m := 0, 0;
    while k < n
      invariant k <= n && m == 8 * k && WordBytes(LeWords(data, k)) == data[..m]
    {
      NextWordGivesBytes(data, k, m);
      k, m := k + 1, m + 8;
    }
  }

  // Hash text followed by the little-endian timestamp.
  function IceRiverJobParams(hash: Bytes, timestamp: nat): string {
    Hex(hash) + Hex(LeBytes(timestamp, 8))
  }

  // Five words in hex: the hash read big-endian, then the byte-swapped timestamp. Without five words
  // the source aborts.
  method GenerateLargeJobParams(data: Bytes, timestamp: nat) returns (r: Option<string>)
    ensures r.Some? <==> |data| >= 32
    ensures r.Some? ==> r.value == IceRiverJobParams(data[..32], timestamp)
  {
    var ids: seq<nat> := [];
    for i := 0 to 4
      invariant |ids| == if i <= WordCount(|data|) then i else WordCount(|data|)
      invariant forall k :: 0 <= k < |ids| ==> ids[k] == BeValue(data[8 * k..8 * k + 8])
    {
      var offset := i * 8;
      if offset + 8 <= |data| {
        ids := ids + [BeValue(data[offset..offset + 8])];
      }
    }
    ids := ids + [LeValue(BeBytes(timestamp, 8))];
    if |ids| < 5 {
      return None;
    }
    LargeIsIceRiver(data, timestamp);
    r := Some(PaddedHex(ids[0], 16) + PaddedHex(ids[1], 16) + PaddedHex(ids[2], 16) + PaddedHex(ids[3], 16)
              + PaddedHex(ids[4], 16));
  }

  // Big-endian words and the swapped timestamp print as the hash text and the timestamp's own bytes.
  lemma LargeIsIceRiver(data: Bytes, timestamp: nat)
    requires |data| >= 32
    ensures PaddedHex(BeValue(data[0..8]), 16) + PaddedHex(BeValue(data[8..16]), 16)
            + PaddedHex(BeValue(data[16..24]), 16) + PaddedHex(BeValue(data[24..32]), 16)
            + PaddedHex(LeValue(BeBytes(timestamp, 8)), 16)
         == IceRiverJobParams(data[..32], timestamp)
  {
    HexOfWord(data[0..8]);
    HexOfWord(data[8..16]);
    HexOfWord(data[16..24]);
    HexOfWord(data[24..32]);
    SwappedTimestamp(timestamp);
    FourWords(data);
  }

  lemma SwappedTimestamp(timestamp: nat)
    ensures PaddedHex(LeValue(BeBytes(timestamp, 8)), 16) == Hex(LeBytes(timestamp, 8))
  {
    var le := LeBytes(timestamp, 8);
    SwappedBytes(timestamp, 8);
    SwappedValue(le);
    HexOfWord(le);
  }

  lemma FourWords(data: Bytes)
    requires |data| >= 32
    ensures Hex(data[..32]) == Hex(data[0..8]) + Hex(data[8..16]) + Hex(data[16..24]) + Hex(data[24..32])
  {
    HexConcat(data[0..8], data[8..16]);
    HexConcat(data[..16], data[16..24]);
    HexConcat(data[..24], data[24..32]);
    assert data[0..8] + data[8..16] == data[..16];
    assert data[..16] + data[16..24] == data[..24];
    assert data[..24] + data[24..32] == data[..32];
  }

  // ---- decoding ---------------------------------------------------------------------------------------

  function DecodeJob(s: string): Option<(Bytes, nat)> {
    match Unhex(s)
    case None => None
    case Some(bs) => if |bs| == 40 then Some((bs[..32], LeValue(bs[32..]))) else None
  }

  // The eighty characters determine the hash and the timestamp.
  lemma JobDecodes(hash: Bytes, timestamp: nat)
    requires |hash| == 32 && timestamp < Pow256(8)
    ensures |IceRiverJobParams(hash, timestamp)| == 80
    ensures DecodeJob(IceRiverJobParams(hash, timestamp)) == Some((hash, timestamp))
  {
    var ts := LeBytes(timestamp, 8);
    HexConcat(hash, ts);
    UnhexInverts(hash + ts);
    assert (hash + ts)[..32] == hash && (hash + ts)[32..] == ts;
    LeRoundTrip(timestamp, 8);
  }
}
