/** Cutting a packet into fragments and putting it together again. */
module Fragments {
  import opened Numbers

  const MAXIMUM_FRAGMENT_COUNT := 0x10_0000

  /** A packet and the most bytes one command may carry. */
  datatype Packet = Packet(data: seq<Byte>, cut: nat)

  /** Where fragment `j` starts. */
  function Offset(cut: nat, j: nat): nat { if j == 0 then 0 else Offset(cut, j - 1) + cut }

  predicate Fragmented(p: Packet) { |p.data| > p.cut }

  /** How many commands the packet takes. */
  function Count(p: Packet): nat
    requires p.cut > 0
  {
    if Fragmented(p) then (|p.data| + p.cut - 1) / p.cut else 1
  }

  function Length(p: Packet, j: nat): nat
    requires Offset(p.cut, j) <= |p.data|
  {
    if |p.data| - Offset(p.cut, j) < p.cut then |p.data| - Offset(p.cut, j) else p.cut
  }

  lemma {:induction false} OffsetIs(cut: nat, j: nat)
    ensures Offset(cut, j) == j * cut
  {
    if j > 0 {
      OffsetIs(cut, j - 1);
      assert j * cut == (j - 1) * cut + cut;
    }
  }

  lemma {:induction false} OffsetMonotone(cut: nat, i: nat, j: nat)
    requires i <= j
    ensures Offset(cut, i) <= Offset(cut, j)
    ensures i < j ==> Offset(cut, i) + cut <= Offset(cut, j)
    decreases j - i
  {
    if i < j {
      OffsetMonotone(cut, i, j - 1);
    }
  }

  /** The count is exactly what covers the packet. */
  lemma CountCovers(p: Packet)
    requires p.cut > 0 && Fragmented(p)
    ensures Count(p) >= 2 && Offset(p.cut, Count(p) - 1) < |p.data| <= Offset(p.cut, Count(p))
  {
    var n, len, cut := Count(p), |p.data|, p.cut;
    OffsetIs(cut, n);
    OffsetIs(cut, n - 1);
    CeilingDivision(len, cut, n);
  }

  lemma CeilingDivision(len: nat, cut: nat, n: nat)
    requires cut > 0 && len > cut && n == (len + cut - 1) / cut
    ensures n >= 2 && (n - 1) * cut < len <= n * cut
  {
    var r := (len + cut - 1) % cut;
    assert len + cut - 1 == cut * n + r;
    assert (n - 1) * cut == cut * n - cut;
    assert n <= 1 ==> cut * n <= cut;
  }

  /** Fragment `j` starts inside the packet and carries at least one byte. */
  lemma FragmentInside(p: Packet, j: nat)
    requires p.cut > 0 && Fragmented(p) && j < Count(p)
    ensures Offset(p.cut, j) < |p.data| && 0 < Length(p, j) <= p.cut
    ensures Offset(p.cut, j) + Length(p, j) == if j == Count(p) - 1 then |p.data| else Offset(p.cut, j + 1)
  {
    hide Count;
    CountCovers(p);
    OffsetMonotone(p.cut, j, Count(p) - 1);
    if j < Count(p) - 1 {
      OffsetMonotone(p.cut, j + 1, Count(p) - 1);
    }
  }

  /** The fragments tile the packet: every byte lies in exactly one. */
  lemma {:induction false} FragmentOf(p: Packet, n: nat, b: nat) returns (j: nat)
    requires p.cut > 0 && Fragmented(p) && n <= Count(p) && b < |p.data| && b < Offset(p.cut, n)
    ensures j < n && Offset(p.cut, j) <= b < Offset(p.cut, j) + Length(p, j)
  {
    hide Count;
    FragmentInside(p, n - 1);
    if b >= Offset(p.cut, n - 1) {
      j := n - 1;
    } else {
      j := FragmentOf(p, n - 1, b);
    }
  }

  // ---- Sending ----

  /** The fields of a fragment command. */
  datatype Fragment = Fragment(number: nat, offset: nat, length: nat, count: nat, total: nat)

  predicate IsFragment(f: Fragment, p: Packet, j: nat)
    requires p.cut > 0
  {
    && Fragmented(p) && j < Count(p) && Offset(p.cut, j) <= |p.data|
    && f == Fragment(j, Offset(p.cut, j), Length(p, j), Count(p), |p.data|)
  }

  /** Cut the packet up; refuses packets that need too many fragments. */
  method Split(p: Packet) returns (refused: bool, fragments: seq<Fragment>)
    requires p.cut > 0 && Fragmented(p)
    ensures refused <==> Count(p) > MAXIMUM_FRAGMENT_COUNT
    ensures refused <==> Count(p) > 1024 * 1024
    ensures !refused ==> |fragments| == Count(p) && forall j :: 0 <= j < |fragments| ==> IsFragment(fragments[j], p, j)
  {
    hide IsFragment, Offset, Length;
    var fragmentLength := p.cut;
    var fragmentCount := (|p.data| + fragmentLength - 1) / fragmentLength;
    fragments := [];
    if fragmentCount > MAXIMUM_FRAGMENT_COUNT {
      return true, fragments;
    }
    refused := false;
    assert fragmentCount == Count(p);
    hide Count;
    CountCovers(p);
    var fragmentNumber, fragmentOffset := 0, 0;
    OffsetZero(p.cut);
    while fragmentOffset < |p.data|
      invariant fragmentNumber <= Count(p) == fragmentCount && |fragments| == fragmentNumber
      invariant fragmentNumber < Count(p) ==> fragmentOffset == Offset(p.cut, fragmentNumber) && fragmentLength == p.cut
      invariant fragmentNumber == Count(p) ==> fragmentOffset == |p.data|
      invariant forall j :: 0 <= j < |fragments| ==> IsFragment(fragments[j], p, j)
      decreases |p.data| - fragmentOffset
    {
      FragmentInside(p, fragmentNumber);
      LengthIs(p, fragmentNumber);
      if |p.data| - fragmentOffset < fragmentLength {
        fragmentLength := |p.data| - fragmentOffset;
      }
      var f := Fragment(fragmentNumber, fragmentOffset, fragmentLength, fragmentCount, |p.data|);
      assert IsFragment(f, p, fragmentNumber) by { FragmentWhen(f, p, fragmentNumber); }
      fragments := fragments + [f];
      fragmentNumber := fragmentNumber + 1;
      fragmentOffset := fragmentOffset + fragmentLength;
      if fragmentNumber < Count(p) {
        FragmentInside(p, fragmentNumber);
      }
    }
    if fragmentNumber < Count(p) {
      FragmentInside(p, fragmentNumber);
    }
  }

  lemma OffsetZero(cut: nat)
    ensures Offset(cut, 0) == 0
  {
  }

  lemma LengthIs(p: Packet, j: nat)
    requires Offset(p.cut, j) <= |p.data|
    ensures Length(p, j) == if |p.data| - Offset(p.cut, j) < p.cut then |p.data| - Offset(p.cut, j) else p.cut
  {
  }

  lemma FragmentWhen(f: Fragment, p: Packet, j: nat)
    requires p.cut > 0 && Fragmented(p) && j < Count(p) && Offset(p.cut, j) <= |p.data|
    requires f == Fragment(j, Offset(p.cut, j), Length(p, j), Count(p), |p.data|)
    ensures IsFragment(f, p, j)
  {
  }

  // ---- Receiving ----

  /** The receiver's own checks on a fragment's fields. */
  predicate FieldsAccepted(f: Fragment, maximumPacketSize: nat) {
    && 0 < f.length <= maximumPacketSize
    && !(f.count > MAXIMUM_FRAGMENT_COUNT || f.number >= f.count || f.total > maximumPacketSize || f.total < f.count
         || f.offset >= f.total || f.length > f.total - f.offset)
  }

  /** What they come to: the copy stays inside a packet of allowed size, cut into no more parts than it has bytes. */
  lemma FieldsMean(f: Fragment, maximumPacketSize: nat)
    ensures FieldsAccepted(f, maximumPacketSize) <==>
      && 0 < f.length && f.offset + f.length <= f.total <= maximumPacketSize
      && f.number < f.count <= f.total && f.count <= 1024 * 1024
  {
  }

  /** Every fragment the sender makes passes them. */
  lemma FragmentsAccepted(p: Packet, f: Fragment, j: nat, maximumPacketSize: nat)
    requires p.cut > 0 && IsFragment(f, p, j) && Count(p) <= MAXIMUM_FRAGMENT_COUNT && |p.data| <= maximumPacketSize
    ensures FieldsAccepted(f, maximumPacketSize)
  {
    hide Count, Offset, Length;
    FragmentInside(p, j);
    LengthIs(p, j);
    CountCovers(p);
    CountAtMost(p, Count(p) - 1);
  }

  lemma {:induction false} CountAtMost(p: Packet, n: nat)
    requires p.cut > 0 && n < Count(p)
    ensures Offset(p.cut, n) >= n
  {
    if n > 0 {
      CountAtMost(p, n - 1);
    }
  }

  function ClearBits(bits: seq<bool>): nat { if bits == [] then 0 else ClearBits(bits[1..]) + if bits[0] then 0 else 1 }

  lemma {:induction false} ClearBitsSet(bits: seq<bool>, j: nat)
    requires j < |bits|
    ensures ClearBits(bits[j := true]) == ClearBits(bits) - (if bits[j] then 0 else 1)
  {
    if j > 0 {
      assert bits[j := true][1..] == bits[1..][j - 1 := true];
      ClearBitsSet(bits[1..], j - 1);
    } else {
      assert bits[0 := true][1..] == bits[1..];
    }
  }

  lemma {:induction false} ClearBitsZero(bits: seq<bool>)
    ensures ClearBits(bits) == 0 <==> forall j :: 0 <= j < |bits| ==> bits[j]
  {
    if bits != [] {
      ClearBitsZero(bits[1..]);
      assert forall j :: 1 <= j < |bits| ==> bits[j] == bits[1..][j - 1];
      assert forall j :: 0 <= j < |bits| - 1 ==> bits[1..][j] == bits[j + 1];
    }
  }

  lemma {:induction false} ClearBitsNone(n: nat)
    ensures ClearBits(seq(n, _ => false)) == n
  {
    if n > 0 {
      assert seq(n, _ => false)[1..] == seq(n - 1, _ => false);
      ClearBitsNone(n - 1);
    }
  }

  /** Bytes copied into a buffer. */
  function Copied(buffer: seq<Byte>, offset: nat, piece: seq<Byte>): (b: seq<Byte>)
    requires offset + |piece| <= |buffer|
    ensures |b| == |buffer|
  {
    buffer[..offset] + piece + buffer[offset + |piece|..]
  }

  /** The fragments marked in `bits` are in the buffer. */
  ghost predicate Holding(p: Packet, bits: seq<bool>, buffer: seq<Byte>)
    requires p.cut > 0 && Fragmented(p)
  {
    && |bits| == Count(p) && |buffer| == |p.data|
    && forall b :: 0 <= b < |p.data| ==> ByteHeld(p, bits, buffer, b)
  }

  predicate InFragment(p: Packet, j: nat, b: nat) {
    Offset(p.cut, j) <= |p.data| && Offset(p.cut, j) <= b < Offset(p.cut, j) + Length(p, j)
  }

  ghost predicate ByteHeld(p: Packet, bits: seq<bool>, buffer: seq<Byte>, b: nat) {
    b < |p.data| && b < |buffer| && forall j :: 0 <= j < |bits| && bits[j] && InFragment(p, j, b) ==>
      buffer[b] == p.data[b]
  }

  lemma HoldingNothing(p: Packet, buffer: seq<Byte>)
    requires p.cut > 0 && Fragmented(p) && |buffer| == |p.data|
    ensures Holding(p, seq(Count(p), _ => false), buffer)
  {
  }

  /** Copying a fragment in, whatever is there already. */
  lemma HoldingMore(p: Packet, bits: seq<bool>, buffer: seq<Byte>, j: nat)
    requires p.cut > 0 && Fragmented(p) && Holding(p, bits, buffer) && j < Count(p)
    ensures Offset(p.cut, j) <= |p.data| && Offset(p.cut, j) + Length(p, j) <= |p.data|
    ensures Holding(p, bits[j := true],
      Copied(buffer, Offset(p.cut, j), p.data[Offset(p.cut, j)..Offset(p.cut, j) + Length(p, j)]))
  {
    hide Count, Offset, Length;
    FragmentInside(p, j);
    if j < Count(p) - 1 {
      FragmentInside(p, j + 1);
    }
    var piece := p.data[Offset(p.cut, j)..Offset(p.cut, j) + Length(p, j)];
    var after, marked := Copied(buffer, Offset(p.cut, j), piece), bits[j := true];
    forall b | 0 <= b < |p.data|
      ensures ByteHeld(p, marked, after, b)
    {
      assert ByteHeld(p, bits, buffer, b);
    }
  }

  /** All fragments in: the buffer is the packet. */
  lemma Reassembled(p: Packet, bits: seq<bool>, buffer: seq<Byte>)
    requires p.cut > 0 && Fragmented(p) && Holding(p, bits, buffer) && ClearBits(bits) == 0
    ensures buffer == p.data
  {
    hide Count, Offset, Length, ClearBits;
    ClearBitsZero(bits);
    CountCovers(p);
    forall b | 0 <= b < |p.data|
      ensures buffer[b] == p.data[b]
    {
      var j := FragmentOf(p, Count(p), b);
      assert ByteHeld(p, bits, buffer, b);
      assert InFragment(p, j, b);
    }
  }
}
