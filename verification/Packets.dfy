/** UDP packets written back to the TUN device, and the extraction of UDP payloads from IP packets. */
module Packets {
  import opened Common
  import opened Checksums
  import opened BigEndian

  const UDP := 17
  const TCP := 6

  /** An address of four or sixteen bytes, any other length standing for an invalid one, and a port. An IPv6
      address may carry a zone, which no packet has room for. */
  datatype Endpoint = Endpoint(addr: Bytes, port: nat, zone: string) {
    function Bare(): Endpoint {
      this.(zone := "")
    }
  }

  predicate IsV4(e: Endpoint) {
    |e.addr| == 4 && e.port <= ONES && e.zone == ""
  }

  predicate IsV6(e: Endpoint) {
    |e.addr| == 16 && e.port <= ONES
  }

  // ----- what the bytes are -----

  function HeaderV4(src: Endpoint, dst: Endpoint, total: nat, checksum: nat): (b: Bytes)
    requires IsV4(src) && IsV4(dst) && total <= ONES && checksum <= ONES
    ensures |b| == 20
  {
    HeadV4(total) + U16(checksum) + (src.addr + dst.addr)
  }

  function HeadV4(total: nat): (b: Bytes)
    requires total <= ONES
    ensures |b| == 10
  {
    [0x45, 0] + U16(total) + [0, 0, 0, 0, 64, UDP]
  }

  function HeaderV6(src: Endpoint, dst: Endpoint, length: nat): (b: Bytes)
    requires IsV6(src) && IsV6(dst) && length <= ONES
    ensures |b| == 40
  {
    [0x60, 0, 0, 0] + U16(length) + [UDP, 64] + (src.addr + dst.addr)
  }

  function Segment(sport: nat, dport: nat, payload: Bytes, checksum: nat): (b: Bytes)
    requires sport <= ONES && dport <= ONES && 8 + |payload| <= ONES && checksum <= ONES
    ensures |b| == 8 + |payload|
  {
    (U16(sport) + U16(dport) + U16(8 + |payload|)) + U16(checksum) + payload
  }

  /** The pseudo header's words. */
  function Pseudo(src: Endpoint, dst: Endpoint, length: nat): nat {
    Sum(src.addr) + Sum(dst.addr) + UDP + length
  }

  /** The pseudo header as bytes: both addresses, and then zero, protocol and length for IPv4 (RFC 768), a length
      of four bytes, three zeros and the protocol for IPv6 (section 8.1 of RFC 8200). */
  ghost function PseudoHeader(src: Bytes, dst: Bytes, length: nat): Bytes
    requires length <= ONES
  {
    src + dst + if |src| == 4 then [0, 17, length / 256, length % 256]
                else [0, 0, length / 256, length % 256, 0, 0, 0, 17]
  }

  lemma PseudoIsItsSum(src: Endpoint, dst: Endpoint, segment: Bytes)
    requires |src.addr| == |dst.addr| && |src.addr| % 2 == 0 && |segment| <= ONES
    ensures var n := |segment|; Sum(PseudoHeader(src.addr, dst.addr, n) + segment) == Pseudo(src, dst, n) + Sum(segment)
  {
    var n := |segment|;
    var v4: Bytes, v6: Bytes := [0, 17, n / 256, n % 256], [0, 0, n / 256, n % 256, 0, 0, 0, 17];
    SumAppend(PseudoHeader(src.addr, dst.addr, n), segment);
    SumAppend(src.addr + dst.addr, if |src.addr| == 4 then v4 else v6);
    SumAppend(src.addr, dst.addr);
    WordsAreBigEndian([], 0, 17);
    WordsAreBigEndian([], 0, 0);
    WordsAreBigEndian([], n / 256, n % 256);
    SumAppend([0, 17], [n / 256, n % 256]);
    assert [0, 17] + [n / 256, n % 256] == v4;
    SumAppend([0, 0], [n / 256, n % 256]);
    SumAppend([0, 0] + [n / 256, n % 256], [0, 0]);
    SumAppend([0, 0] + [n / 256, n % 256] + [0, 0], [0, 17]);
    assert [0, 0] + [n / 256, n % 256] + [0, 0] + [0, 17] == v6;
  }

  /** All ones stands for a checksum of zero. */
  function Sent(checksum: nat): nat {
    if checksum == 0 then ONES else checksum
  }

  lemma HeaderV4Sum(src: Endpoint, dst: Endpoint, total: nat, checksum: nat)
    requires IsV4(src) && IsV4(dst) && total <= ONES && checksum <= ONES
    ensures Sum(HeaderV4(src, dst, total, checksum)) == Sum(HeaderV4(src, dst, total, 0)) + checksum
    ensures 0 < Sum(HeaderV4(src, dst, total, 0)) < WRAP - ONES
  {
    var head, tail := HeadV4(total), src.addr + dst.addr;
    U16IsItsSum(checksum);
    U16IsItsSum(0);
    SumAppend(head, U16(checksum));
    SumAppend(head, U16(0));
    SumAppend(head + U16(checksum), tail);
    SumAppend(head + U16(0), tail);
    WordSumBound(HeaderV4(src, dst, total, 0), 0);
    assert Sum(head) > 0 by {
      assert head[0] == 0x45;
    }
  }

  lemma SegmentSum(sport: nat, dport: nat, payload: Bytes, checksum: nat)
    requires sport <= ONES && dport <= ONES && 8 + |payload| <= ONES && checksum <= ONES
    ensures Sum(Segment(sport, dport, payload, checksum)) == Sum(Segment(sport, dport, payload, 0)) + checksum
    ensures Sum(Segment(sport, dport, payload, 0)) <= ONES * 32768
  {
    var head := U16(sport) + U16(dport) + U16(8 + |payload|);
    U16IsItsSum(checksum);
    U16IsItsSum(0);
    SumAppend(head, U16(checksum));
    SumAppend(head, U16(0));
    SumAppend(head + U16(checksum), payload);
    SumAppend(head + U16(0), payload);
    WordSumBound(Segment(sport, dport, payload, 0), 0);
  }

  // ----- building packets in place -----

  method WriteAt(a: array<Byte>, at: nat, b: Bytes)
    requires at + |b| <= a.Length
    modifies a
    ensures forall i :: 0 <= i < |b| ==> a[at + i] == b[i]
    ensures forall i :: 0 <= i < a.Length && !(at <= i < at + |b|) ==> a[i] == old(a[i])
  {
    for n := 0 to |b|
      invariant forall i :: 0 <= i < n ==> a[at + i] == b[i]
      invariant forall i :: 0 <= i < a.Length && !(at <= i < at + n) ==> a[i] == old(a[i])
    {
      a[at + n] := b[n];
    }
  }

  method WriteU16(a: array<Byte>, at: nat, n: nat)
    requires at + 2 <= a.Length && n <= ONES
    modifies a
    ensures a[at] == U16(n)[0] && a[at + 1] == U16(n)[1]
    ensures forall i :: 0 <= i < a.Length && i != at && i != at + 1 ==> a[i] == old(a[i])
  {
    a[at], a[at + 1] := n / 256, n % 256;
  }

  method FillHeaderV4(a: array<Byte>, src: Endpoint, dst: Endpoint)
    requires IsV4(src) && IsV4(dst) && 20 <= a.Length <= ONES
    requires forall i :: 0 <= i < 20 ==> a[i] == 0
    modifies a
    ensures a[..20] == HeaderV4(src, dst, a.Length, 0)
    ensures forall i :: 20 <= i < a.Length ==> a[i] == old(a[i])
  {
    a[0] := 0x45;
    WriteU16(a, 2, a.Length);
    a[8] := 64;
    a[9] := UDP;
    assert a[..10] == HeadV4(a.Length);
    WriteAt(a, 12, src.addr);
    WriteAt(a, 16, dst.addr);
    assert a[..10] == HeadV4(a.Length);
    assert a[10..12] == U16(0);
    assert a[12..20] == src.addr + dst.addr;
    assert a[..20] == a[..10] + a[10..12] + a[12..20];
  }

  method FillHeaderV6(a: array<Byte>, src: Endpoint, dst: Endpoint)
    requires IsV6(src) && IsV6(dst) && 40 <= a.Length <= 40 + ONES
    requires forall i :: 0 <= i < 40 ==> a[i] == 0
    modifies a
    ensures a[..40] == HeaderV6(src, dst, a.Length - 40)
    ensures forall i :: 40 <= i < a.Length ==> a[i] == old(a[i])
  {
    a[0] := 0x60;
    WriteU16(a, 4, a.Length - 40);
    a[6] := UDP;
    a[7] := 64;
    assert a[..8] == [0x60, 0, 0, 0] + U16(a.Length - 40) + [UDP, 64];
    WriteAt(a, 8, src.addr);
    WriteAt(a, 24, dst.addr);
    assert a[..8] == [0x60, 0, 0, 0] + U16(a.Length - 40) + [UDP, 64];
    assert a[8..40] == src.addr + dst.addr;
    assert a[..40] == a[..8] + a[8..40];
  }

  /** The UDP header, its checksum still zero, and the payload. */
  method FillSegment(a: array<Byte>, at: nat, sport: nat, dport: nat, payload: Bytes)
    requires at + 8 + |payload| == a.Length && 8 + |payload| <= ONES && sport <= ONES && dport <= ONES
    requires forall i :: at <= i < a.Length ==> a[i] == 0
    modifies a
    ensures a[at..] == Segment(sport, dport, payload, 0)
    ensures forall i :: 0 <= i < at ==> a[i] == old(a[i])
  {
    WriteU16(a, at, sport);
    WriteU16(a, at + 2, dport);
    WriteU16(a, at + 4, a.Length - at);
    WriteAt(a, at + 8, payload);
    assert a[at..at + 6] == U16(sport) + U16(dport) + U16(8 + |payload|);
    assert a[at + 6..at + 8] == U16(0);
    assert a[at + 8..] == payload;
    assert a[at..] == a[at..at + 6] + a[at + 6..at + 8] + a[at + 8..];
  }

  /** The checksum over pseudo header and segment, which is what their number lacks of a multiple of 65535; the
      32-bit sum does not overflow. */
  method SegmentChecksum(src: Endpoint, dst: Endpoint, segment: Bytes) returns (checksum: nat)
    requires |src.addr| == |dst.addr| && |src.addr| in {4, 16} && |segment| <= ONES
    ensures checksum < ONES
    ensures (Number(PseudoHeader(src.addr, dst.addr, |segment|) + segment) + checksum) % ONES == 0
    ensures Pseudo(src, dst, |segment|) + Sum(segment) < WRAP - ONES
    ensures checksum == ONES - Fold(Pseudo(src, dst, |segment|) + Sum(segment)) && checksum <= ONES
  {
    NoOverflow(src, dst, segment);
    var sum := AddWithin(0, src.addr);
    sum := AddWithin(sum, dst.addr);
    assert |segment| / 65536 + |segment| % 65536 == |segment|;
    sum := sum + |segment| / 65536 + |segment| % 65536 + UDP;
    sum := AddWithin(sum, segment);
    checksum := Finish(sum);
    PseudoIsItsSum(src, dst, segment);
    ComplementCompletes(PseudoHeader(src.addr, dst.addr, |segment|) + segment);
    FoldKeepsResidue(sum);
  }

  lemma NoOverflow(src: Endpoint, dst: Endpoint, segment: Bytes)
    requires |src.addr| == |dst.addr| <= 16 && |segment| <= ONES
    ensures Pseudo(src, dst, |segment|) + Sum(segment) < WRAP - ONES
  {
    ShortSum(src.addr, 8);
    ShortSum(dst.addr, 8);
    ShortSum(segment, 32768);
  }

  lemma ShortSum(data: Bytes, words: nat)
    requires |data| <= 2 * words
    ensures Sum(data) <= ONES * words
  {
    WordSumBound(data, 0);
    var n := (|data| + 1) / 2;
    assert n <= words;
    assert ONES * n <= ONES * words;
  }

  /** Sums that stay below the width are exact. */
  method AddWithin(start: nat, data: Bytes) returns (sum: nat)
    requires start + Sum(data) < WRAP
    ensures sum == start + Sum(data)
  {
    sum := AddWords(start, data);
  }

  method HeaderChecksum(header: Bytes) returns (checksum: nat)
    requires |header| == 20
    ensures checksum == ONES - Fold(Sum(header)) && checksum <= ONES
  {
    ShortSum(header, 10);
    var sum := AddWithin(0, header);
    checksum := Finish(sum);
  }

  /** The segment at `at` gets its checksum. */
  method SealSegment(a: array<Byte>, at: nat, src: Endpoint, dst: Endpoint, payload: Bytes)
    requires src.port <= ONES && dst.port <= ONES && |src.addr| == |dst.addr| && |src.addr| in {4, 16}
    requires at + 8 + |payload| == a.Length && 8 + |payload| <= ONES
    requires a[at..] == Segment(src.port, dst.port, payload, 0)
    modifies a
    ensures forall i :: 0 <= i < at ==> a[i] == old(a[i])
    ensures SegmentSealed(a[at..], src, dst, payload)
  {
    var checksum := SegmentChecksum(src, dst, a[at..]);
    ghost var sum := Pseudo(src, dst, 8 + |payload|) + Sum(Segment(src.port, dst.port, payload, 0));
    ComplementVerifies(sum);
    SegmentSum(src.port, dst.port, payload, Sent(checksum));
    WriteU16(a, at + 6, Sent(checksum));
    Resealed(old(a[at..]), a[at..], src.port, dst.port, payload, Sent(checksum));
    SegmentLayout(a[at..], src.port, dst.port, payload, Sent(checksum));
    PseudoIsItsSum(src, dst, a[at..]);
    VerifiesMeansBalanced(PseudoHeader(src.addr, dst.addr, |a[at..]|) + a[at..]);
  }

  lemma Resealed(before: Bytes, after: Bytes, sport: nat, dport: nat, payload: Bytes, checksum: nat)
    requires sport <= ONES && dport <= ONES && 8 + |payload| <= ONES && checksum <= ONES
    requires before == Segment(sport, dport, payload, 0) && |after| == |before|
    requires after[6] == U16(checksum)[0] && after[7] == U16(checksum)[1]
    requires forall i :: 0 <= i < |after| && i != 6 && i != 7 ==> after[i] == before[i]
    ensures after == Segment(sport, dport, payload, checksum)
  {
    var head := U16(sport) + U16(dport) + U16(8 + |payload|);
    assert before == head + U16(0) + payload;
    assert after[..6] == head by { assert before[..6] == head; }
    assert after[6..8] == U16(checksum);
    assert after[8..] == payload by { assert before[8..] == payload; }
    assert after == after[..6] + after[6..8] + after[8..];
  }

  /** A UDP segment as its header describes it. */
  ghost predicate IsSegment(udp: Bytes, sport: nat, dport: nat, payload: Bytes) {
    && |udp| >= 8 && Get(udp[..2]) == sport && Get(udp[2..4]) == dport
    && Get(udp[4..6]) == |udp| && udp[8..] == payload
  }

  /** A UDP segment with a checksum that is never zero and balances it together with the pseudo header. */
  ghost predicate SegmentSealed(segment: Bytes, src: Endpoint, dst: Endpoint, payload: Bytes) {
    && |segment| <= ONES && IsSegment(segment, src.port, dst.port, payload) && Get(segment[6..8]) > 0
    && Balanced(PseudoHeader(src.addr, dst.addr, |segment|) + segment)
  }

  lemma WordIsRead(b: Bytes, at: nat)
    requires at + 2 <= |b|
    ensures Get(b[at..at + 2]) == FromU16(b[at], b[at + 1])
  {
    GetTwo(b[at], b[at + 1]);
    assert b[at..at + 2] == [b[at], b[at + 1]];
  }

  lemma SegmentLayout(segment: Bytes, sport: nat, dport: nat, payload: Bytes, checksum: nat)
    requires sport <= ONES && dport <= ONES && 8 + |payload| <= ONES && checksum <= ONES
    requires segment == Segment(sport, dport, payload, checksum)
    ensures Get(segment[..2]) == sport && Get(segment[2..4]) == dport
    ensures Get(segment[4..6]) == |segment| && Get(segment[6..8]) == checksum && segment[8..] == payload
  {
    WordIsRead(segment, 0);
    WordIsRead(segment, 2);
    WordIsRead(segment, 4);
    WordIsRead(segment, 6);
  }

  method SealHeaderV4(a: array<Byte>, src: Endpoint, dst: Endpoint)
    requires IsV4(src) && IsV4(dst) && 20 <= a.Length <= ONES && a[..20] == HeaderV4(src, dst, a.Length, 0)
    modifies a
    ensures forall i :: 20 <= i < a.Length ==> a[i] == old(a[i])
    ensures HeaderSealed(a[..20], src, dst, a.Length)
  {
    var checksum := HeaderChecksum(a[..20]);
    HeaderV4Sum(src, dst, a.Length, checksum);
    ComplementVerifies(Sum(a[..20]));
    WriteU16(a, 10, checksum);
    ghost var was, now := old(a[..20]), a[..20];
    assert was == HeadV4(a.Length) + U16(0) + (src.addr + dst.addr);
    assert now[..10] == HeadV4(a.Length) by { assert was[..10] == HeadV4(a.Length); }
    assert now[10..12] == U16(checksum);
    assert now[12..] == src.addr + dst.addr by { assert was[12..] == src.addr + dst.addr; }
    assert now == now[..10] + now[10..12] + now[12..];
    WordIsRead(now, 2);
    VerifiesMeansBalanced(now);
  }

  /** An IPv4 header without options, of a packet of `total` bytes, that its checksum balances. */
  ghost predicate HeaderSealed(header: Bytes, src: Endpoint, dst: Endpoint, total: nat) {
    && |header| == 20 && header[..2] == [0x45, 0]
    && Get(header[2..4]) == total
    && header[4..10] == [0, 0, 0, 0, 64, 17]
    && header[12..16] == src.addr && header[16..20] == dst.addr
    && Balanced(header)
  }

  /** An IPv6 header in front of a segment of `length` bytes. */
  ghost predicate HeadedV6(header: Bytes, src: Endpoint, dst: Endpoint, length: nat) {
    && |header| == 40 && header[..4] == [0x60, 0, 0, 0]
    && Get(header[4..6]) == length
    && header[6..8] == [17, 64]
    && header[8..24] == src.addr && header[24..40] == dst.addr
  }

  // ----- extraction -----

  datatype PacketError = TooShort | UnsupportedIP | UnsupportedProtocol

  datatype Flow = Flow(protocol: Byte, local: Endpoint, remote: Endpoint)

  function ParseV4(packet: Bytes): Result<Flow, PacketError> {
    if |packet| < 20 then Err(TooShort)
    else
      var ihl: nat := packet[0] % 16 * 4;
      if ihl < 20 || |packet| < ihl + 4 then Err(TooShort)
      else if packet[9] != TCP && packet[9] != UDP then Err(UnsupportedProtocol)
      else Ok(Flow(packet[9], Endpoint(packet[12..16], FromU16(packet[ihl], packet[ihl + 1]), ""),
                   Endpoint(packet[16..20], FromU16(packet[ihl + 2], packet[ihl + 3]), "")))
  }

  function ParseV6(packet: Bytes): Result<Flow, PacketError> {
    if |packet| < 44 then Err(TooShort)
    else if packet[6] != TCP && packet[6] != UDP then Err(UnsupportedProtocol)
    else Ok(Flow(packet[6], Endpoint(packet[8..24], FromU16(packet[40], packet[41]), ""),
                 Endpoint(packet[24..40], FromU16(packet[42], packet[43]), "")))
  }

  /** The UDP payload behind an IP header of the given length. */
  function PayloadAfter(packet: Bytes, header: nat): Result<Bytes, PacketError> {
    if |packet| < header + 8 then Err(TooShort)
    else
      var length := FromU16(packet[header + 4], packet[header + 5]);
      if length < 8 || |packet| < header + length then Err(TooShort) else Ok(packet[header + 8..header + length])
  }

  function ExtractFrom(packet: Bytes, flow: Result<Flow, PacketError>, header: nat)
    : Result<(Flow, Bytes), PacketError>
  {
    match flow
    case Err(e) => Err(e)
    case Ok(f) =>
      if f.protocol != UDP then Err(UnsupportedProtocol)
      else match PayloadAfter(packet, header)
        case Err(e) => Err(e)
        case Ok(payload) => Ok((f, payload))
  }

  function Extract(packet: Bytes): Result<(Flow, Bytes), PacketError> {
    if packet == [] then Err(TooShort)
    else if packet[0] / 16 == 4 then ExtractFrom(packet, ParseV4(packet), packet[0] % 16 * 4)
    else if packet[0] / 16 == 6 then ExtractFrom(packet, ParseV6(packet), 40)
    else Err(UnsupportedIP)
  }

  /** How much of a packet its payload can be. */
  lemma PayloadFits(packet: Bytes)
    requires Extract(packet).Ok?
    ensures var (flow, payload) := Extract(packet).value;
            || (IsV4(flow.local) && IsV4(flow.remote) && |payload| + 28 <= |packet|)
            || (IsV6(flow.local) && IsV6(flow.remote) && |payload| + 48 <= |packet|)
  {
  }

  /** A packet carries a payload: an IP header, of any length the version allows, then a UDP segment as long as it
      says, then anything. */
  ghost predicate Carries(packet: Bytes, local: Endpoint, remote: Endpoint, payload: Bytes) {
    exists n: nat, m: nat :: n <= m <= |packet| && Heads(packet[..n], local, remote)
                             && IsSegment(packet[n..m], local.port, remote.port, payload)
  }

  ghost predicate Heads(header: Bytes, local: Endpoint, remote: Endpoint) {
    local.zone == "" && remote.zone == ""
    && (|| (&& |header| in {20, 24, 28, 32, 36, 40, 44, 48, 52, 56, 60}
            && header[0] == 0x40 + |header| / 4 && header[9] == 17
            && header[12..16] == local.addr && header[16..20] == remote.addr)
        || (&& |header| == 40 && 0x60 <= header[0] < 0x70 && header[6] == 17
            && header[8..24] == local.addr && header[24..40] == remote.addr))
  }

  lemma SegmentIsPayload(packet: Bytes, n: nat, m: nat, sport: nat, dport: nat, payload: Bytes)
    requires n + 8 <= m <= |packet|
    ensures IsSegment(packet[n..m], sport, dport, payload) <==>
              && FromU16(packet[n + 4], packet[n + 5]) == m - n
              && FromU16(packet[n], packet[n + 1]) == sport && FromU16(packet[n + 2], packet[n + 3]) == dport
              && PayloadAfter(packet, n) == Ok(payload)
  {
    var udp := packet[n..m];
    WordIsRead(udp, 0);
    WordIsRead(udp, 2);
    WordIsRead(udp, 4);
    assert packet[n + 8..m] == udp[8..];
  }

  /** Extraction succeeds exactly on the packets that carry a payload, and gives it with its endpoints. */
  lemma ExtractedIsCarried(packet: Bytes, local: Endpoint, remote: Endpoint, payload: Bytes)
    ensures Extract(packet) == Ok((Flow(UDP, local, remote), payload)) <==> Carries(packet, local, remote, payload)
  {
    if Extract(packet) == Ok((Flow(UDP, local, remote), payload)) {
      var n: nat := if packet[0] / 16 == 4 then packet[0] % 16 * 4 else 40;
      var m := n + FromU16(packet[n + 4], packet[n + 5]);
      SegmentIsPayload(packet, n, m, local.port, remote.port, payload);
      HeadIsRead(packet, n, local, remote);
    }
    if Carries(packet, local, remote, payload) {
      var n: nat, m: nat :| n <= m <= |packet| && Heads(packet[..n], local, remote)
                            && IsSegment(packet[n..m], local.port, remote.port, payload);
      SegmentIsPayload(packet, n, m, local.port, remote.port, payload);
      HeadIsRead(packet, n, local, remote);
    }
  }

  lemma HeadIsRead(packet: Bytes, n: nat, local: Endpoint, remote: Endpoint)
    requires 20 <= n && n + 4 <= |packet|
    ensures Heads(packet[..n], local, remote) ==>
              n == if packet[0] / 16 == 4 then packet[0] % 16 * 4 else 40
    ensures packet[0] / 16 == 4 && n == packet[0] % 16 * 4 ==>
              (Heads(packet[..n], local, remote) && FromU16(packet[n], packet[n + 1]) == local.port
               && FromU16(packet[n + 2], packet[n + 3]) == remote.port
               <==> ParseV4(packet) == Ok(Flow(UDP, local, remote)))
    ensures packet[0] / 16 == 6 && n == 40 ==>
              (Heads(packet[..n], local, remote) && FromU16(packet[n], packet[n + 1]) == local.port
               && FromU16(packet[n + 2], packet[n + 3]) == remote.port
               <==> ParseV6(packet) == Ok(Flow(UDP, local, remote)))
  {
    var header := packet[..n];
    assert header[12..16] == packet[12..16] && header[16..20] == packet[16..20];
    if n == 40 {
      assert header[8..24] == packet[8..24] && header[24..40] == packet[24..40];
    }
  }

  lemma SegmentPayload(packet: Bytes, header: nat, src: Endpoint, dst: Endpoint, payload: Bytes)
    requires header <= |packet| && SegmentSealed(packet[header..], src, dst, payload)
    ensures PayloadAfter(packet, header) == Ok(payload)
    ensures FromU16(packet[header], packet[header + 1]) == src.port
    ensures FromU16(packet[header + 2], packet[header + 3]) == dst.port
  {
    var segment := packet[header..];
    WordIsRead(segment, 0);
    WordIsRead(segment, 2);
    WordIsRead(segment, 4);
    assert packet[header + 8..header + |segment|] == segment[8..];
  }

  /** Extraction inverts the layout. */
  lemma ExtractV4(packet: Bytes, src: Endpoint, dst: Endpoint, payload: Bytes)
    requires IsV4(src) && IsV4(dst) && |packet| >= 20
    requires HeaderSealed(packet[..20], src, dst, |packet|) && SegmentSealed(packet[20..], src, dst, payload)
    ensures Extract(packet) == Ok((Flow(UDP, src, dst), payload))
  {
    SegmentPayload(packet, 20, src, dst, payload);
    var header := packet[..20];
    assert packet[12..16] == header[12..16] && packet[16..20] == header[16..20];
    assert packet[0] == header[..2][0] && packet[9] == header[4..10][5];
  }

  lemma ExtractV6(packet: Bytes, src: Endpoint, dst: Endpoint, payload: Bytes)
    requires IsV6(src) && IsV6(dst) && |packet| >= 40
    requires HeadedV6(packet[..40], src, dst, |packet| - 40) && SegmentSealed(packet[40..], src, dst, payload)
    ensures Extract(packet) == Ok((Flow(UDP, src.Bare(), dst.Bare()), payload))
  {
    SegmentPayload(packet, 40, src, dst, payload);
    var header := packet[..40];
    assert packet[8..24] == header[8..24] && packet[24..40] == header[24..40];
    assert packet[0] == header[..4][0] && packet[6] == header[6..8][0];
  }

  lemma HeaderLayoutV6(header: Bytes, src: Endpoint, dst: Endpoint, length: nat)
    requires IsV6(src) && IsV6(dst) && length <= ONES && header == HeaderV6(src, dst, length)
    ensures HeadedV6(header, src, dst, length)
  {
    WordIsRead(header, 4);
  }

  /** An IPv4 packet: both checksums verify, the UDP checksum is not zero, and extraction gives back the
      endpoints and the payload. */
  method BuildV4(src: Endpoint, dst: Endpoint, payload: Bytes) returns (r: Option<Bytes>)
    requires IsV4(src) && IsV4(dst)
    ensures r.Some? <==> 28 + |payload| <= ONES
    ensures r.Some? ==>
              && |r.value| == 28 + |payload|
              && HeaderSealed(r.value[..20], src, dst, |r.value|)
              && SegmentSealed(r.value[20..], src, dst, payload)
              && Extract(r.value) == Ok((Flow(UDP, src, dst), payload))
  {
    var total := 20 + 8 + |payload|;
    if total > ONES {
      return None;
    }
    var packet := new Byte[total](_ => 0);
    FillHeaderV4(packet, src, dst);
    SealHeaderV4(packet, src, dst);
    ghost var header := packet[..20];
    FillSegment(packet, 20, src.port, dst.port, payload);
    SealSegment(packet, 20, src, dst, payload);
    assert packet[..20] == header;
    ghost var segment := packet[20..];
    assert packet[..] == header + segment;
    r := Some(packet[..]);
    assert r.value[..20] == header && r.value[20..] == segment;
    ExtractV4(r.value, src, dst, payload);
  }

  /** An IPv6 packet, with the same guarantees; zones are dropped. */
  method BuildV6(src: Endpoint, dst: Endpoint, payload: Bytes) returns (r: Option<Bytes>)
    requires IsV6(src) && IsV6(dst)
    ensures r.Some? <==> 8 + |payload| <= ONES
    ensures r.Some? ==>
              && |r.value| == 48 + |payload|
              && HeadedV6(r.value[..40], src, dst, 8 + |payload|)
              && SegmentSealed(r.value[40..], src, dst, payload)
              && Extract(r.value) == Ok((Flow(UDP, src.Bare(), dst.Bare()), payload))
  {
    var length := 8 + |payload|;
    if length > ONES {
      return None;
    }
    var packet := new Byte[40 + length](_ => 0);
    FillHeaderV6(packet, src, dst);
    ghost var header := packet[..40];
    FillSegment(packet, 40, src.port, dst.port, payload);
    SealSegment(packet, 40, src, dst, payload);
    assert packet[..40] == header;
    ghost var segment := packet[40..];
    assert packet[..] == header + segment;
    r := Some(packet[..]);
    assert r.value[..40] == header && r.value[40..] == segment;
    HeaderLayoutV6(header, src, dst, length);
    ExtractV6(r.value, src, dst, payload);
  }

  predicate Usable(e: Endpoint) {
    IsV4(e) || IsV6(e)
  }

  /** Whatever the family, a packet that is built extracts to what it was built from, if and only if neither
      endpoint had a zone. Endpoints of two families, or invalid ones, are refused. */
  method Build(src: Endpoint, dst: Endpoint, payload: Bytes) returns (r: Option<Bytes>)
    requires src.port <= ONES && dst.port <= ONES && (|src.addr| == 4 ==> src.zone == "") && (|dst.addr| == 4 ==>
             dst.zone == "")
    ensures r.Some? <==> && |src.addr| == |dst.addr| && (|src.addr| == 4 || |src.addr| == 16)
                         && (if |src.addr| == 4 then 28 else 8) + |payload| <= ONES
    ensures r.Some? && |src.addr| == 4 ==>
              && |r.value| == 28 + |payload|
              && HeaderSealed(r.value[..20], src, dst, |r.value|)
              && SegmentSealed(r.value[20..], src, dst, payload)
    ensures r.Some? && |src.addr| == 16 ==>
              && |r.value| == 48 + |payload|
              && HeadedV6(r.value[..40], src, dst, 8 + |payload|)
              && SegmentSealed(r.value[40..], src, dst, payload)
    ensures r.Some? ==> Extract(r.value) == Ok((Flow(UDP, src.Bare(), dst.Bare()), payload))
    ensures r.Some? ==> (Extract(r.value) == Ok((Flow(UDP, src, dst), payload)) <==> src.zone == "" && dst.zone == "")
  {
    if IsV4(src) && IsV4(dst) {
      r := BuildV4(src, dst, payload);
    } else if IsV6(src) && IsV6(dst) {
      r := BuildV6(src, dst, payload);
    } else {
      r := None;
    }
  }
}
