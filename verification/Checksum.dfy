// Internet checksums rewritten in place (src/split_tunnel/interceptor.rs), as defined by
// sections 1 and 2 of RFC 1071, section 3.1 of RFC 791, section 3.1 of RFC 793 and RFC 768.
module Checksum {
  import opened Basics

  // ----- Ones' complement sums -----

  // The 16-bit big-endian words of `s`, an odd last byte padded with zero.
  function WordSum(s: seq<Byte>): nat {
    if s == [] then 0
    else if |s| == 1 then s[0] * 0x100
    else BE16(s[0], s[1]) + WordSum(s[2..])
  }

  lemma WordSumStep(s: seq<Byte>, i: nat)
    requires i + 1 < |s|
    ensures WordSum(s[i..]) == BE16(s[i], s[i + 1]) + WordSum(s[i + 2..])
  {
    assert s[i..][2..] == s[i + 2..];
  }

  lemma WordSumTail(s: seq<Byte>, i: nat)
    requires i <= |s| <= i + 1
    ensures WordSum(s[i..]) == if i < |s| then BE16(s[i], 0) else 0
  {
  }

  // The value of `sum` after every carry has been added back: 0 only for 0, otherwise the
  // representative of `sum` modulo 65535 in 1..65535.
  function OnesSum(sum: nat): U16 {
    if sum == 0 then 0 else (sum - 1) % 0xFFFF + 1
  }

  function Complement(sum: nat): U16 {
    0xFFFF - OnesSum(sum)
  }

  lemma {:induction false} WordSumBound(s: seq<Byte>)
    ensures WordSum(s) <= 0xFFFF * ((|s| + 1) / 2)
  {
    if |s| > 1 {
      WordSumBound(s[2..]);
    }
  }

  lemma {:induction false} WordSumSplit(s: seq<Byte>, k: nat)
    requires k <= |s| && k % 2 == 0
    ensures WordSum(s) == WordSum(s[..k]) + WordSum(s[k..])
  {
    if k == 0 {
      assert s[0..] == s;
    } else {
      WordSumSplit(s[2..], k - 2);
      assert s[2..][..k - 2] == s[..k][2..];
      assert s[2..][k - 2..] == s[k..];
    }
  }

  // `header[at..at + 2] = w`
  function SetWord(p: seq<Byte>, at: nat, w: U16): seq<Byte>
    requires at + 1 < |p|
  {
    p[at := w / 0x100][at + 1 := w % 0x100]
  }

  lemma SetWordElsewhere(p: seq<Byte>, at: nat)
    requires at + 1 < |p| && at % 2 == 0
    ensures |SetWord(p, at, 0)| == |p|
    ensures SetWord(p, at, 0)[at] == SetWord(p, at, 0)[at + 1] == 0
    ensures forall j {:trigger SetWord(p, at, 0)[j]} ::
      0 <= j < |p| && j != at && j != at + 1 ==> SetWord(p, at, 0)[j] == p[j]
  {
  }

  // Writing `w` over a zero word at an even position adds exactly `w` to the sum.
  lemma WordSumSet(s: seq<Byte>, at: nat, w: U16)
    requires at + 1 < |s| && at % 2 == 0
    ensures WordSum(SetWord(s, at, w)) == WordSum(SetWord(s, at, 0)) + w
  {
    BE16Put16(w);
    var t, z := SetWord(s, at, w), SetWord(s, at, 0);
    WordSumSplit(t, at);
    WordSumSplit(z, at);
    assert t[..at] == z[..at] && t[at..][2..] == z[at..][2..];
  }

  // A sum and its complement are congruent to zero modulo 65535, and not both zero.
  lemma ComplementCancels(sum: nat)
    ensures OnesSum(sum + Complement(sum)) == 0xFFFF
    ensures OnesSum(sum + 0xFFFF) == 0xFFFF <==> OnesSum(sum) == 0xFFFF || sum == 0
  {
  }

  // ----- What a checked packet is -----

  function Ihl(p: seq<Byte>): nat
    requires |p| > 0
  {
    p[0] % 0x10 * 4
  }

  predicate Fixable(p: seq<Byte>) {
    |p| >= 20 && |p| >= Ihl(p)
  }

  // Where the transport checksum goes, when there is one to fix.
  function FieldOffset(p: seq<Byte>): Option<nat>
    requires Fixable(p)
  {
    if p[9] == 6 && |p| >= Ihl(p) + 20 then Some(Ihl(p) + 16)
    else if p[9] == 17 && |p| >= Ihl(p) + 8 then Some(Ihl(p) + 6)
    else None
  }

  function PseudoSum(p: seq<Byte>): nat
    requires Fixable(p)
  {
    WordSum(p[12..20]) + p[9] + (|p| - Ihl(p))
  }

  // Pseudo-header plus segment, checksum field included.
  function TransportSum(p: seq<Byte>): nat
    requires Fixable(p)
  {
    PseudoSum(p) + WordSum(p[Ihl(p)..])
  }

  predicate HeaderChecks(p: seq<Byte>)
    requires Fixable(p)
  {
    OnesSum(WordSum(p[..Ihl(p)])) == 0xFFFF
  }

  predicate TransportChecks(p: seq<Byte>)
    requires Fixable(p)
  {
    OnesSum(TransportSum(p)) == 0xFFFF
  }

  // ----- Specification of the rewrite -----

  function HeaderChecksum(p: seq<Byte>): U16
    requires Fixable(p)
  {
    Complement(WordSum(SetWord(p, 10, 0)[..Ihl(p)]))
  }

  function TransportChecksum(p: seq<Byte>): U16
    requires Fixable(p) && FieldOffset(p).Some?
  {
    var c := Complement(TransportSum(SetWord(p, FieldOffset(p).value, 0)));
    if p[9] == 17 && c == 0 then 0xFFFF else c
  }

  function FixHeader(p: seq<Byte>): seq<Byte>
    requires Fixable(p)
  {
    SetWord(p, 10, HeaderChecksum(p))
  }

  function FixTransport(p: seq<Byte>): seq<Byte>
    requires Fixable(p)
  {
    match FieldOffset(p)
    case None => p
    case Some(at) => SetWord(p, at, TransportChecksum(p))
  }

  function Fixed(p: seq<Byte>): seq<Byte> {
    if Fixable(p) then FixTransport(FixHeader(p)) else p
  }

  // ----- The code: accumulators of 32 bits -----

  lemma FoldStep(sum: nat)
    requires sum >= 0x1_0000
    ensures sum % 0x1_0000 + sum / 0x1_0000 < sum
    ensures OnesSum(sum % 0x1_0000 + sum / 0x1_0000) == OnesSum(sum)
  {
    var q, r := sum / 0x1_0000, sum % 0x1_0000;
    assert sum - 1 == (q + r - 1) + 0xFFFF * q;
  }

  // `while (sum >> 16) != 0 { sum = (sum & 0xFFFF) + (sum >> 16) }`
  method FoldCarries(start: U32) returns (folded: U16)
    ensures folded == OnesSum(start)
  {
    assert forall n: nat {:trigger OnesSum(n)} :: n < 0x1_0000 ==> OnesSum(n) == n;
    hide OnesSum;
    var sum: U32 := start;
    while sum / 0x1_0000 != 0
      invariant OnesSum(sum) == OnesSum(start)
      decreases sum
    {
      FoldStep(sum);
      sum := sum % 0x1_0000 + sum / 0x1_0000;
    }
    folded := sum;
  }

  method CalculateIpChecksum(header: seq<Byte>) returns (checksum: U16)
    requires |header| <= 0xFFFF
    ensures checksum == Complement(WordSum(header))
  {
    WordSumBound(header);
    var sum: U32 := 0;
    var i := 0;
    while i + 1 < |header|
      invariant 0 <= i <= |header|
      invariant sum + WordSum(header[i..]) == WordSum(header)
    {
      WordSumStep(header, i);
      sum := sum + BE16(header[i], header[i + 1]);
      i := i + 2;
    }
    if i < |header| {
      sum := sum + BE16(header[i], 0);
    }
    var folded := FoldCarries(sum);
    checksum := 0xFFFF - folded;
  }

  // The word loop shared by the two transport checksums: `skip` is the checksum field.
  method SumSegment(start: U32, segment: seq<Byte>, skip: nat) returns (sum: U32)
    requires skip + 1 < |segment| <= 0xFFFF && skip % 2 == 0 && start <= 0x8_0000
    ensures sum == start + WordSum(SetWord(segment, skip, 0))
  {
    ghost var zeroed := SetWord(segment, skip, 0);
    ghost var word := 0;
    WordSumBound(zeroed);
    SetWordElsewhere(segment, skip);
    hide SetWord, WordSum;
    sum := start;
    var i := 0;
    while i + 1 < |segment|
      invariant 0 <= i <= |segment| && i == 2 * word
      invariant sum + WordSum(zeroed[i..]) == start + WordSum(zeroed)
    {
      WordSumStep(zeroed, i);
      word := word + 1;
      if i == skip {
        i := i + 2;
        continue;
      }
      sum := sum + BE16(segment[i], segment[i + 1]);
      i := i + 2;
    }
    WordSumTail(zeroed, i);
    if i < |segment| {
      sum := sum + BE16(segment[i], 0);
    }
  }

  method SumPseudoHeader(packet: seq<Byte>, protocol: Byte, length: U16) returns (sum: U32)
    requires |packet| >= 20
    ensures sum == WordSum(packet[12..20]) + protocol + length <= 0x8_0000
  {
    var words := packet[12..20];
    assert words[2..][2..] == words[4..] && words[4..][2..] == words[6..] && words[6..][2..] == [];
    assert WordSum(words[6..]) == BE16(words[6], words[7]) + WordSum([]);
    assert WordSum(words[4..]) == BE16(words[4], words[5]) + BE16(words[6], words[7]);
    assert WordSum(words) == BE16(words[0], words[1]) + BE16(words[2], words[3]) + WordSum(words[4..]);
    sum := BE16(packet[12], packet[13]);
    sum := sum + BE16(packet[14], packet[15]);
    sum := sum + BE16(packet[16], packet[17]);
    sum := sum + BE16(packet[18], packet[19]);
    sum := sum + protocol;
    sum := sum + length;
  }

  // The field at `at` is not counted by the pseudo-header either: it is zero, or lies outside the
  // addresses (as it does for every legal IHL).
  predicate FieldSettled(p: seq<Byte>, at: nat)
    requires at + 1 < |p|
  {
    p[at] == p[at + 1] == 0 || !(12 <= at < 20)
  }

  // What the code sums, whatever the packet says of its protocol: the addresses as they are, the
  // protocol and length asked for, and the segment with the field skipped.
  function SkippingSum(packet: seq<Byte>, protocol: Byte, skip: nat): nat
    requires |packet| >= 20 && Ihl(packet) + skip + 1 < |packet|
  {
    WordSum(packet[12..20]) + protocol + (|packet| - Ihl(packet)) + WordSum(SetWord(packet[Ihl(packet)..], skip, 0))
  }

  // Skipping the field in the segment is then the same as zeroing it in the packet.
  lemma FieldSkipped(p: seq<Byte>)
    requires Fixable(p) && FieldOffset(p).Some? && FieldSettled(p, FieldOffset(p).value)
    ensures var at, ihl := FieldOffset(p).value, Ihl(p);
            var z := SetWord(p, at, 0);
            Fixable(z) && PseudoSum(z) == PseudoSum(p) && z[ihl..] == SetWord(p[ihl..], at - ihl, 0)
  {
    var z := SetWord(p, FieldOffset(p).value, 0);
    assert z[12..20] == p[12..20];
  }

  method CalculateTcpChecksum(packet: seq<Byte>, ihl: nat) returns (checksum: U16)
    requires 20 <= |packet| <= 0xFFFF && ihl == Ihl(packet)
    ensures checksum == if |packet| < ihl + 20 then 0 else Complement(SkippingSum(packet, 6, 16))
    ensures |packet| >= ihl + 20 && packet[9] == 6 && FieldSettled(packet, ihl + 16) ==>
              checksum == TransportChecksum(packet)
  {
    if |packet| < ihl + 20 {
      return 0;
    }
    var sum := SumPseudoHeader(packet, 6, |packet| - ihl);
    sum := SumSegment(sum, packet[ihl..], 16);
    var folded := FoldCarries(sum);
    checksum := 0xFFFF - folded;
    if packet[9] == 6 && FieldSettled(packet, ihl + 16) {
      FieldSkipped(packet);
    }
  }

  method CalculateUdpChecksum(packet: seq<Byte>, ihl: nat) returns (checksum: U16)
    requires 20 <= |packet| <= 0xFFFF && ihl == Ihl(packet)
    ensures |packet| < ihl + 8 ==> checksum == 0
    ensures |packet| >= ihl + 8 ==>
              var c := Complement(SkippingSum(packet, 17, 6)); checksum == if c == 0 then 0xFFFF else c
    ensures |packet| >= ihl + 8 && packet[9] == 17 && FieldSettled(packet, ihl + 6) ==>
              checksum == TransportChecksum(packet)
  {
    if |packet| < ihl + 8 {
      return 0;
    }
    var sum := SumPseudoHeader(packet, 17, |packet| - ihl);
    sum := SumSegment(sum, packet[ihl..], 6);
    var folded := FoldCarries(sum);
    checksum := 0xFFFF - folded;
    if packet[9] == 17 && FieldSettled(packet, ihl + 6) {
      FieldSkipped(packet);
    }
    if checksum == 0 {
      checksum := 0xFFFF;
    }
  }

  method WriteWord(packet: array<Byte>, at: nat, w: U16)
    requires at + 1 < packet.Length
    modifies packet
    ensures packet[..] == SetWord(old(packet[..]), at, w)
  {
    packet[at] := w / 0x100;
    packet[at + 1] := w % 0x100;
  }

  method RewriteHeaderChecksum(packet: array<Byte>, ihl: nat)
    requires packet.Length <= 0xFFFF && Fixable(packet[..]) && ihl == Ihl(packet[..])
    modifies packet
    ensures packet[..] == FixHeader(old(packet[..]))
  {
    ghost var p := packet[..];
    WriteWord(packet, 10, 0);
    var ipChecksum := CalculateIpChecksum(packet[..ihl]);
    assert packet[..ihl] == SetWord(p, 10, 0)[..ihl];
    WriteWord(packet, 10, ipChecksum);
    assert SetWord(SetWord(p, 10, 0), 10, ipChecksum) == SetWord(p, 10, ipChecksum);
  }

  method RewriteTransportChecksum(packet: array<Byte>, ihl: nat)
    requires packet.Length <= 0xFFFF && Fixable(packet[..]) && ihl == Ihl(packet[..])
    modifies packet
    ensures packet[..] == FixTransport(old(packet[..]))
  {
    ghost var p := packet[..];
    var protocol := packet[9];
    if protocol == 6 && packet.Length >= ihl + 20 {
      WriteWord(packet, ihl + 16, 0);
      ZeroedChecksum(p);
      var tcpChecksum := CalculateTcpChecksum(packet[..], ihl);
      WriteWord(packet, ihl + 16, tcpChecksum);
      SetWordTwice(p, ihl + 16, 0, tcpChecksum);
    } else if protocol == 17 && packet.Length >= ihl + 8 {
      WriteWord(packet, ihl + 6, 0);
      ZeroedChecksum(p);
      var udpChecksum := CalculateUdpChecksum(packet[..], ihl);
      WriteWord(packet, ihl + 6, udpChecksum);
      SetWordTwice(p, ihl + 6, 0, udpChecksum);
    }
  }

  method FixPacketChecksums(packet: array<Byte>) returns (fixed: bool)
    requires packet.Length <= 0xFFFF
    modifies packet
    ensures fixed == Fixable(old(packet[..]))
    ensures packet[..] == Fixed(old(packet[..]))
  {
    if packet.Length < 20 {
      return false;
    }
    var ihl := packet[0] % 0x10 * 4;
    if packet.Length < ihl {
      return false;
    }
    FixHeaderKeeps(packet[..]);
    RewriteHeaderChecksum(packet, ihl);
    RewriteTransportChecksum(packet, ihl);
    return true;
  }

  // ----- Proofs -----

  // Zeroing the field first does not change what is computed or written.
  lemma ZeroedChecksum(p: seq<Byte>)
    requires Fixable(p) && FieldOffset(p).Some?
    ensures var z := SetWord(p, FieldOffset(p).value, 0);
            Fixable(z) && FieldOffset(z) == FieldOffset(p) && z[9] == p[9] && Ihl(z) == Ihl(p) &&
            TransportChecksum(z) == TransportChecksum(p)
  {
    var at := FieldOffset(p).value;
    assert SetWord(SetWord(p, at, 0), at, 0) == SetWord(p, at, 0);
  }

  lemma FixHeaderKeeps(p: seq<Byte>)
    requires Fixable(p)
    ensures var q := FixHeader(p);
            Fixable(q) && Ihl(q) == Ihl(p) && q[9] == p[9] && FieldOffset(q) == FieldOffset(p)
  {
  }

  // The header checks after the rewrite exactly when the header holds its own checksum field
  // (IHL of at least 3, so in particular every legal IHL) or checked already.
  lemma HeaderChecksIff(p: seq<Byte>)
    requires Fixable(p)
    ensures Fixable(Fixed(p)) && Ihl(Fixed(p)) == Ihl(p)
    ensures HeaderChecks(Fixed(p)) <==> Ihl(p) >= 12 || HeaderChecks(p)
  {
    var q, r, ihl := FixHeader(p), Fixed(p), Ihl(p);
    if ihl >= 12 {
      var z := p[..ihl];
      var sum := WordSum(SetWord(z, 10, 0));
      assert SetWord(p, 10, 0)[..ihl] == SetWord(z, 10, 0);
      assert r[..ihl] == q[..ihl] == SetWord(z, 10, Complement(sum));
      WordSumSet(z, 10, Complement(sum));
      ComplementCancels(sum);
    } else {
      assert r[..ihl] == p[..ihl];
    }
  }

  // A header length of zero is such a packet.
  lemma EmptyHeaderNeverChecks(p: seq<Byte>)
    requires |p| >= 20 && p[0] % 0x10 == 0
    ensures Fixable(Fixed(p)) && !HeaderChecks(Fixed(p))
  {
    HeaderChecksIff(p);
    assert p[..Ihl(p)] == [];
  }

  // The sum of a packet whose field holds `w`: `w` counts once, or twice when the field lies
  // inside the addresses of the pseudo-header (possible only for an illegal IHL).
  lemma TransportSumSet(p: seq<Byte>, w: U16)
    requires Fixable(p) && FieldOffset(p).Some?
    ensures var at := FieldOffset(p).value;
            var t, z := SetWord(p, at, w), SetWord(p, at, 0);
            Fixable(t) && Fixable(z) &&
            TransportSum(t) == TransportSum(z) + (if 12 <= at < 20 then 2 * w else w)
  {
    var at, ihl := FieldOffset(p).value, Ihl(p);
    var t, z := SetWord(p, at, w), SetWord(p, at, 0);
    var field := at - ihl;
    assert t[ihl..] == SetWord(p[ihl..], field, w) && z[ihl..] == SetWord(p[ihl..], field, 0);
    WordSumSet(p[ihl..], field, w);
    if 12 <= at < 20 {
      assert t[12..20] == SetWord(p[12..20], at - 12, w) && z[12..20] == SetWord(p[12..20], at - 12, 0);
      WordSumSet(p[12..20], at - 12, w);
    } else {
      assert t[12..20] == z[12..20];
    }
  }

  // What the transport sum is with an empty checksum field, after the header rewrite.
  function BareSum(p: seq<Byte>): nat
    requires Fixable(p) && FieldOffset(p).Some?
  {
    FixHeaderKeeps(p);
    TransportSum(SetWord(FixHeader(p), FieldOffset(p).value, 0))
  }

  lemma DoubledCancels(sum: nat, c: U16)
    requires sum > 0 && (c == Complement(sum) || (Complement(sum) == 0 && c == 0xFFFF))
    ensures OnesSum(sum + c) == 0xFFFF
    ensures OnesSum(sum + 2 * c) == 0xFFFF <==> sum % 0xFFFF == 0
  {
    var q, m := (sum - 1) / 0xFFFF, (sum - 1) % 0xFFFF;
    assert sum == 0xFFFF * q + m + 1 && OnesSum(sum) == m + 1;
    if c == Complement(sum) {
      assert c == 0xFFFF - (m + 1);
      assert sum + c == 0xFFFF * (q + 1);
      assert sum + 2 * c == 0xFFFF * (q + 1) + c;
    } else {
      assert m == 0xFFFE && sum + c == 0xFFFF * (q + 2) && sum + 2 * c == 0xFFFF * (q + 3);
    }
  }

  // The TCP or UDP checksum checks after the rewrite exactly when the field is clear of the
  // pseudo-header addresses, or the bare sum is already zero in ones' complement.
  lemma TransportChecksIff(p: seq<Byte>)
    requires Fixable(p) && FieldOffset(p).Some?
    ensures Fixable(Fixed(p))
    ensures TransportChecks(Fixed(p)) <==> !(12 <= FieldOffset(p).value < 20) || BareSum(p) % 0xFFFF == 0
  {
    FixHeaderKeeps(p);
    var q := FixHeader(p);
    var c := TransportChecksum(q);
    TransportSumSet(q, c);
    DoubledCancels(BareSum(p), c);
  }

  // Main result: with a legal IHL both checksums hold, and a UDP checksum field is never zero.
  lemma FixedPacketChecks(p: seq<Byte>)
    requires Fixable(p) && Ihl(p) >= 20
    ensures var r := Fixed(p);
            Fixable(r) && HeaderChecks(r) && FieldOffset(r) == FieldOffset(p) &&
            (FieldOffset(p).Some? ==> TransportChecks(r)) &&
            (FieldOffset(p).Some? && p[9] == 17 ==>
               BE16(r[FieldOffset(p).value], r[FieldOffset(p).value + 1]) != 0)
  {
    HeaderChecksIff(p);
    FixHeaderKeeps(p);
    if FieldOffset(p).Some? {
      TransportChecksIff(p);
      BE16Put16(TransportChecksum(FixHeader(p)));
    }
  }

  // Only the checksum bytes change.
  lemma OnlyChecksumsChange(p: seq<Byte>, i: nat)
    requires i < |p|
    ensures |Fixed(p)| == |p|
    ensures Fixed(p)[i] != p[i] ==>
      Fixable(p) && (i == 10 || i == 11 ||
        (FieldOffset(p).Some? && (i == FieldOffset(p).value || i == FieldOffset(p).value + 1)))
  {
    if Fixable(p) {
      FixHeaderKeeps(p);
    }
  }

  lemma SetWordTwice(p: seq<Byte>, at: nat, v: U16, w: U16)
    requires at + 1 < |p|
    ensures SetWord(SetWord(p, at, v), at, w) == SetWord(p, at, w)
  {
  }

  lemma SetWordSame(p: seq<Byte>, at: nat, w: U16)
    requires at + 1 < |p| && p[at] == w / 0x100 && p[at + 1] == w % 0x100
    ensures SetWord(p, at, w) == p
  {
  }

  lemma FixTransportTwice(q: seq<Byte>)
    requires Fixable(q)
    ensures var r := FixTransport(q); Fixable(r) && FixTransport(r) == r
  {
    if FieldOffset(q).Some? {
      var at := FieldOffset(q).value;
      SetWordTwice(q, at, TransportChecksum(q), 0);
      SetWordTwice(q, at, TransportChecksum(q), TransportChecksum(q));
    }
  }

  // A second call changes nothing, whatever the packet.
  lemma FixedTwice(p: seq<Byte>)
    ensures Fixed(Fixed(p)) == Fixed(p)
  {
    if Fixable(p) {
      FixHeaderKeeps(p);
      var q, r := FixHeader(p), Fixed(p);
      var sum := HeaderChecksum(p);
      assert HeaderChecksum(r) == sum by {
        assert SetWord(r, 10, 0)[..Ihl(p)] == SetWord(p, 10, 0)[..Ihl(p)];
      }
      if FieldOffset(p) == Some(10) {
        SetWordTwice(q, 10, TransportChecksum(q), sum);
        SetWordTwice(p, 10, sum, sum);
        assert FixHeader(r) == q;
      } else {
        assert r[10] == q[10] && r[11] == q[11];
        SetWordSame(r, 10, sum);
        FixTransportTwice(q);
      }
    }
  }

  // ----- The sums themselves -----

  // Bytes at even positions count 256, those at odd positions 1.
  function ByteSum(s: seq<Byte>): nat {
    if s == [] then 0
    else
      var n := |s| - 1;
      var last: int := s[n];
      ByteSum(s[..n]) + (if n % 2 == 0 then 256 * last else last)
  }

  lemma {:induction false} WordSumIsByteSum(s: seq<Byte>)
    ensures WordSum(s) == ByteSum(s)
  {
    if |s| % 2 == 1 {
      var n := |s| - 1;
      WordSumIsByteSum(s[..n]);
      WordSumSplit(s, n);
    } else if |s| > 0 {
      var n := |s| - 2;
      WordSumIsByteSum(s[..n]);
      WordSumSplit(s, n);
      assert s[..n + 1][..n] == s[..n] && s[n..][2..] == [];
      assert WordSum(s[n..]) == BE16(s[n], s[n + 1]) + WordSum([]);
    }
  }

  // Folding keeps the value modulo 65535, and gives 0 only for 0.
  lemma OnesSumMeaning(sum: nat)
    ensures OnesSum(sum) % 65535 == sum % 65535 && (OnesSum(sum) == 0 <==> sum == 0)
  {
  }

  // Main results in header positions. A rewritten packet with a header of 20 to 60 bytes has both
  // sums, of the header and of addresses, protocol, length and segment, fold to 65535.
  lemma RewrittenHeaderSum(p: seq<Byte>, ihl: nat)
    requires |p| >= 20 && ihl == p[0] % 16 * 4 && 20 <= ihl <= |p|
    ensures |Fixed(p)| == |p| && OnesSum(ByteSum(Fixed(p)[..ihl])) == 65535
  {
    FixedPacketChecks(p);
    OnlyChecksumsChange(p, 0);
    hide Fixed, WordSum, ByteSum, OnesSum;
    WordSumIsByteSum(Fixed(p)[..ihl]);
  }

  lemma RewrittenSegmentSum(p: seq<Byte>, ihl: nat)
    requires |p| >= 20 && ihl == p[0] % 16 * 4 && 20 <= ihl <= |p|
    requires (p[9] == 6 && |p| >= ihl + 20) || (p[9] == 17 && |p| >= ihl + 8)
    ensures var r := Fixed(p);
            |r| == |p| && OnesSum(ByteSum(r[12..20]) + p[9] + (|p| - ihl) + ByteSum(r[ihl..])) == 65535 &&
            (p[9] == 17 ==> r[ihl + 6] != 0 || r[ihl + 7] != 0)
  {
    hide Fixed, WordSum, ByteSum, OnesSum, HeaderChecks;
    var r := Fixed(p);
    FixedPacketChecks(p);
    OnlyChecksumsChange(p, 9);
    OnlyChecksumsChange(p, 0);
    assert Ihl(r) == ihl && FieldOffset(r) == Some(if p[9] == 6 then ihl + 16 else ihl + 6);
    WordSumIsByteSum(r[12..20]);
    WordSumIsByteSum(r[ihl..]);
  }

  // It differs from the old one at most at bytes 10 and 11 and at bytes 16 and 17 of its TCP, or 6
  // and 7 of its UDP segment.
  lemma RewrittenBytes(p: seq<Byte>, ihl: nat, i: nat)
    requires |p| >= 20 && ihl == p[0] % 16 * 4 && ihl <= |p| && i < |p|
    ensures |Fixed(p)| == |p|
    ensures Fixed(p)[i] != p[i] ==>
              i == 10 || i == 11 ||
              (p[9] == 6 && |p| >= ihl + 20 && ihl + 16 <= i <= ihl + 17) ||
              (p[9] == 17 && |p| >= ihl + 8 && ihl + 6 <= i <= ihl + 7)
  {
    OnlyChecksumsChange(p, i);
    hide Fixed;
  }
}
