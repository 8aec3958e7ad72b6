/** Files of NumPy's "Format Version 1.0" (numpy.lib.format) as they are written (benchmarks/exl3_common.cc, WriteNpy),
    and the data found in them (benchmarks/alternate_paged.cc, NpyDataSha256). */
module Npy {
  import opened Divisors
  import opened Results

  newtype Byte = x: int | 0 <= x < 256

  const MAGIC: seq<Byte> := [0x93, 78, 85, 77, 80, 89]

  /** Spaces. */
  function Padding(n: nat): (s: seq<Byte>)
    ensures |s| == n && forall i | 0 <= i < n :: s[i] == 32
  {
    seq(n, i => 32)
  }

  /** The dictionary's text, padded so that the data is aligned to 64 bytes, and a newline. */
  function Header(text: seq<Byte>): (h: seq<Byte>)
    ensures 0 < |h| && h[|h| - 1] == 10 && text <= h
  {
    var total := 10 + |text| + 1;
    RoundLeast(total, 64);
    text + Padding(Round(total, 64) - total) + [10]
  }

  /** The file. The header's length is written as two bytes, its higher ones dropped. */
  function Written(text: seq<Byte>, data: seq<Byte>): seq<Byte> {
    var header := Header(text);
    var length := |header| % 0x1_0000;
    MAGIC + [1, 0] + [(length % 256) as Byte, (length / 256) as Byte] + header + data
  }

  /** The data of a file, of either version of the format. */
  function DataOf(bytes: seq<Byte>): Result<seq<Byte>> {
    if |bytes| < 12 || bytes[..6] != MAGIC then Err("not a .npy file")
    else
      var at := if bytes[6] == 1 then 10 + bytes[8] as nat + 256 * bytes[9] as nat
                else 12 + bytes[8] as nat + 256 * bytes[9] as nat + 0x1_0000 * bytes[10] as nat + 0x100_0000 * bytes[11] as nat;
      if |bytes| < at then Err("truncated") else Ok(bytes[at..])
  }

  /** The format's alignment: the data starts at a multiple of 64 bytes, the least that holds the text. */
  lemma Aligned(text: seq<Byte>)
    ensures (10 + |Header(text)|) % 64 == 0 && 10 + |text| + 1 <= 10 + |Header(text)| < 10 + |text| + 1 + 64
  {
    RoundLeast(10 + |text| + 1, 64);
  }

  lemma Laid(text: seq<Byte>, data: seq<Byte>)
    ensures var w, h := Written(text, data), Header(text);
            && |w| == 10 + |h| + |data| && w[..6] == MAGIC && w[6] == 1
            && w[8] as nat + 256 * w[9] as nat == |h| % 0x1_0000
            && w[10 + |h|..] == data
  {
    var w, h := Written(text, data), Header(text);
    var length := |h| % 0x1_0000;
    var head := MAGIC + [1, 0] + [(length % 256) as Byte, (length / 256) as Byte];
    assert w == head + h + data;
    assert forall i | 0 <= i < 10 :: w[i] == head[i];
    assert w[..6] == MAGIC;
  }

  /** What is written is read back, if and only if the header's length fits its two bytes. */
  lemma RoundTrip(text: seq<Byte>, data: seq<Byte>)
    ensures DataOf(Written(text, data)) == Ok(data) <==> |Header(text)| < 0x1_0000
  {
    Aligned(text);
    Laid(text, data);
    hide Header, Written;
    var w, h := Written(text, data), Header(text);
    var at := 10 + |h| % 0x1_0000;
    assert 12 <= |w|;
    assert DataOf(w) == Ok(w[at..]);
    if 0x1_0000 <= |h| { assert |w[at..]| > |data|; }
  }

  /** Of a file of version 2.0, whose header's length has four bytes, the data is found too. */
  lemma VersionTwo(minor: Byte, header: seq<Byte>, data: seq<Byte>)
    requires |header| < 0x1_0000_0000
    ensures var n := |header|;
            var length := [(n % 256) as Byte, (n / 256 % 256) as Byte, (n / 0x1_0000 % 256) as Byte, (n / 0x100_0000) as Byte];
            DataOf(MAGIC + [2, minor] + length + header + data) == Ok(data)
  {
    var n := |header|;
    var length := [(n % 256) as Byte, (n / 256 % 256) as Byte, (n / 0x1_0000 % 256) as Byte, (n / 0x100_0000) as Byte];
    var head := MAGIC + [2, minor] + length;
    var w := head + header + data;
    FourBytes(n);
    assert forall i | 0 <= i < 12 :: w[i] == head[i];
    assert w[..6] == MAGIC && w[6] == 2;
    assert w[12 + n..] == data;
    assert w[8..12] == length;
    FoundAt(w, n);
  }

  lemma FourBytes(n: nat)
    ensures n % 256 + 256 * (n / 256 % 256) + 0x1_0000 * (n / 0x1_0000 % 256) + 0x100_0000 * (n / 0x100_0000) == n
  {
    assert n / 0x1_0000 == n / 256 / 256 && n / 0x100_0000 == n / 256 / 256 / 256;
  }

  lemma FoundAt(w: seq<Byte>, n: nat)
    requires 12 + n <= |w| && w[..6] == MAGIC && w[6] == 2
    requires w[8] as nat + 256 * w[9] as nat + 0x1_0000 * w[10] as nat + 0x100_0000 * w[11] as nat == n
    ensures DataOf(w) == Ok(w[12 + n..])
  {
  }

  /** A dictionary so long that its data is not found again. */
  lemma Lost(data: seq<Byte>)
    ensures DataOf(Written(Padding(0x1_0000), data)) != Ok(data)
  {
    Aligned(Padding(0x1_0000));
    RoundTrip(Padding(0x1_0000), data);
  }
}
