/**
  Endpoints as the redirector stores and reads them: network byte order and dotted quads,
  proxy_agent/src/redirector.rs, on a little-endian machine.
 */
module Redirector {
  import opened Prelude
  import opened Text

  // ---------- byte order ----------

  type U16 = n: int | 0 <= n < 0x1_0000
  type U32 = n: int | 0 <= n < 0x1_0000_0000

  /** `u16::to_be` and `u16::from_be` on a little-endian machine. */
  function SwapBytes(n: U16): U16 { n % 256 * 256 + n / 256 }

  lemma SwapBytesInvolution(n: U16)
    ensures SwapBytes(SwapBytes(n)) == n
  {
    var low, high := n % 256, n / 256;
    assert SwapBytes(n) == low * 256 + high && 0 <= high < 256;
    assert (low * 256 + high) % 256 == high && (low * 256 + high) / 256 == low;
  }

  /** The two bytes change places. */
  lemma SwapBytesExchanges(high: nat, low: nat)
    requires high < 256 && low < 256
    ensures SwapBytes(high * 256 + low) == low * 256 + high
  {
    assert (high * 256 + low) / 256 == high && (high * 256 + low) % 256 == low;
  }

  // ---------- dotted quads ----------

  /** `ip_to_string`: the first segment is the lowest byte. */
  function IpToString(ip: U32): string {
    JoinDots([Decimal(ip % 256), Decimal(ip / 256 % 256), Decimal(ip / 256 / 256 % 256),
              Decimal(ip / 256 / 256 / 256 % 256)])
  }

  function JoinDots(segments: seq<string>): string
    requires segments != []
  {
    if |segments| == 1 then segments[0] else segments[0] + "." + JoinDots(segments[1..])
  }

  /** `split('.')` */
  function SplitDots(s: string): (segments: seq<string>)
    ensures segments != []
    decreases |s|
  {
    var at := FirstChar(s, '.');
    if at == |s| then [s] else [s[..at]] + SplitDots(s[at + 1..])
  }

  /** The bytes of a dotted quad, when it is one. */
  function QuadBytes(s: string): Option<seq<nat>> {
    var segments := SplitDots(s);
    if |segments| == 4 && forall i | 0 <= i < 4 :: ParseUnsigned(segments[i], 255).Some?
    then Some(seq(4, i requires 0 <= i < 4 => ParseUnsigned(segments[i], 255).value))
    else None
  }

  /** Bytes from the lowest up. */
  function LittleEndian(bytes: seq<nat>): nat {
    if bytes == [] then 0 else bytes[0] + 256 * LittleEndian(bytes[1..])
  }

  /** The number a quad stands for, 0 for anything that is not a quad. */
  function QuadValue(s: string): nat {
    match QuadBytes(s) case None => 0 case Some(bytes) => LittleEndian(bytes)
  }

  method StringToIp(s: string) returns (ip: U32)
    ensures ip == QuadValue(s)
  {
    var segments := SplitDots(s);
    if |segments| != 4 { return 0; }
    ip := 0;
    var seg := 1;
    ghost var bytes: seq<nat> := [];
    var i := 0;
    while i < 4
      invariant 0 <= i <= 4 && |bytes| == i
      invariant forall j | 0 <= j < i :: ParseUnsigned(segments[j], 255) == Some(bytes[j])
      invariant i < 4 ==> seg == Power256(i)
      invariant ip == LittleEndian(bytes) < Power256(i)
    {
      match ParseUnsigned(segments[i], 255) {
        case Some(n) =>
          AppendByte(bytes, n);
          ByteFits(ip, n, i);
          ip := ip + n * seg;
          bytes := bytes + [n];
        case None => return 0;
      }
      if seg < 16777216 {
        seg := seg * 256;
      }
      i := i + 1;
    }
    QuadFromSegments(s, bytes);
  }

  lemma QuadFromSegments(s: string, bytes: seq<nat>)
    requires |SplitDots(s)| == |bytes| == 4
    requires forall i | 0 <= i < 4 :: ParseUnsigned(SplitDots(s)[i], 255) == Some(bytes[i])
    ensures QuadBytes(s) == Some(bytes)
  {
    assert QuadBytes(s).value == bytes;
  }

  function Power256(n: nat): nat { if n == 0 then 1 else 256 * Power256(n - 1) }

  lemma Power256Values()
    ensures Power256(0) == 1 && Power256(1) == 256 && Power256(2) == 65536
    ensures Power256(3) == 16777216 && Power256(4) == 0x1_0000_0000
  {
    assert Power256(1) == 256 * Power256(0);
    assert Power256(2) == 256 * Power256(1);
    assert Power256(3) == 256 * Power256(2);
    assert Power256(4) == 256 * Power256(3);
  }

  lemma ByteFits(ip: nat, n: nat, i: nat)
    requires i < 4 && ip < Power256(i) && n < 256
    ensures ip + n * Power256(i) < Power256(i + 1) <= 0x1_0000_0000
    ensures i < 3 <==> Power256(i) < 16777216
  {
    Power256Values();
    var p := Power256(i);
    assert n * p <= 255 * p;
  }

  lemma {:induction false} AppendByte(bytes: seq<nat>, n: nat)
    ensures LittleEndian(bytes + [n]) == LittleEndian(bytes) + n * Power256(|bytes|)
  {
    if bytes == [] {
      assert [n][1..] == [];
    } else {
      assert (bytes + [n])[1..] == bytes[1..] + [n];
      AppendByte(bytes[1..], n);
      assert 256 * (n * Power256(|bytes| - 1)) == n * Power256(|bytes|);
    }
  }

  lemma FourBytes(b: seq<nat>)
    requires |b| == 4
    ensures LittleEndian(b) == b[0] + 256 * b[1] + 65536 * b[2] + 16777216 * b[3]
  {
    assert b[1..][1..] == b[2..] && b[2..][1..] == b[3..] && b[3..][1..] == [];
    assert LittleEndian(b[3..]) == b[3];
    assert LittleEndian(b[2..]) == b[2] + 256 * b[3];
    assert LittleEndian(b[1..]) == b[1] + 256 * (b[2] + 256 * b[3]);
  }

  lemma FirstDot(a: string, rest: string)
    requires '.' !in a
    ensures FirstChar(a + "." + rest, '.') == |a| && FirstChar(a, '.') == |a|
  {
    var s := a + "." + rest;
    assert s[|a|] == '.';
    assert forall i | 0 <= i < |a| :: s[i] == a[i];
  }

  lemma SplitAfterDot(a: string, rest: string)
    requires '.' !in a
    ensures SplitDots(a + "." + rest) == [a] + SplitDots(rest)
  {
    var s := a + "." + rest;
    FirstDot(a, rest);
    assert s[..|a|] == a;
    assert s[|a| + 1..] == rest;
  }

  /** Splitting undoes joining when no segment holds a dot. */
  lemma {:induction false} SplitJoined(segments: seq<string>)
    requires segments != [] && forall i | 0 <= i < |segments| :: '.' !in segments[i]
    ensures SplitDots(JoinDots(segments)) == segments
  {
    if |segments| == 1 {
      FirstDot(segments[0], "");
    } else {
      SplitJoined(segments[1..]);
      SplitAfterDot(segments[0], JoinDots(segments[1..]));
    }
  }

  lemma QuadOfWords(words: seq<string>, bytes: seq<nat>)
    requires |words| == |bytes| == 4
    requires forall i | 0 <= i < 4 :: '.' !in words[i] && ParseUnsigned(words[i], 255) == Some(bytes[i])
    ensures QuadBytes(JoinDots(words)) == Some(bytes)
  {
    SplitJoined(words);
    QuadFromSegments(JoinDots(words), bytes);
  }

  lemma ByteWord(n: nat)
    requires n < 256
    ensures '.' !in Decimal(n) && ParseUnsigned(Decimal(n), 255) == Some(n)
  {
    ParseDecimal(n, 255);
    assert forall i | 0 <= i < |Decimal(n)| :: IsDigit(Decimal(n)[i]);
  }

  lemma QuadOfBytes(a: nat, b: nat, c: nat, d: nat)
    requires a < 256 && b < 256 && c < 256 && d < 256
    ensures QuadBytes(JoinDots([Decimal(a), Decimal(b), Decimal(c), Decimal(d)])) == Some([a, b, c, d])
  {
    ByteWord(a);
    ByteWord(b);
    ByteWord(c);
    ByteWord(d);
    QuadOfWords([Decimal(a), Decimal(b), Decimal(c), Decimal(d)], [a, b, c, d]);
  }

  /** Anything but four numbers up to 255 between dots reads as 0. */
  lemma NotAQuad(s: string)
    requires |SplitDots(s)| != 4 || exists i | 0 <= i < 4 :: ParseUnsigned(SplitDots(s)[i], 255).None?
    ensures QuadValue(s) == 0
  {
  }

  lemma BytesOf(ip: U32)
    ensures ip == ip % 256 + 256 * (ip / 256 % 256) + 65536 * (ip / 256 / 256 % 256)
                  + 16777216 * (ip / 256 / 256 / 256 % 256)
  {
    var q := ip / 256;
    var r := q / 256;
    assert ip == ip % 256 + 256 * q && q == q % 256 + 256 * r && r == r % 256 + 256 * (r / 256);
    assert 0 <= r / 256 < 256;
  }

  /** Printing an address and reading it back gives the same address, for every 32-bit value. */
  lemma QuadRoundTrip(ip: U32)
    ensures QuadValue(IpToString(ip)) == ip
  {
    var a, b, c, d := ip % 256, ip / 256 % 256, ip / 256 / 256 % 256, ip / 256 / 256 / 256 % 256;
    QuadOfBytes(a, b, c, d);
    FourBytes([a, b, c, d]);
    BytesOf(ip);
  }

  /** Different addresses print differently. */
  lemma IpToStringInjective(a: U32, b: U32)
    requires IpToString(a) == IpToString(b)
    ensures a == b
  {
    QuadRoundTrip(a);
    QuadRoundTrip(b);
  }
}
