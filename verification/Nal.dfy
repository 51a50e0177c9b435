/** Emulation prevention: turning a payload into NAL bytes that hold no start code, and back. */
module Nal {
  import opened Numbers
  import opened BitStream
  import opened Options

  /** Zeros in a row after one more byte. */
  function NextCount(count: nat, b: Byte): nat { if b == 0 then count + 1 else 0 }

  /** After two zeros a byte below four is preceded by a three. */
  function Escape(r: seq<Byte>, count: nat): (n: seq<Byte>)
    decreases |r|, count
  {
    if r == [] then []
    else if count == 2 && r[0] <= 3 then [3] + Escape(r, 0)
    else [r[0]] + Escape(r[1..], NextCount(count, r[0]))
  }

  /** Taking the threes out again; byte sequences that cannot occur are refused. */
  function Unescape(n: seq<Byte>, count: nat): Option<seq<Byte>>
    decreases |n|
  {
    if n == [] then Some([])
    else if count == 2 && n[0] < 3 then None
    else if count == 2 && n[0] == 3 then
      if |n| > 1 && n[1] > 3 then None
      else if |n| == 1 then Some([])
      else
        match Unescape(n[2..], NextCount(0, n[1]))
        case None => None
        case Some(r) => Some([n[1]] + r)
    else
      match Unescape(n[1..], NextCount(count, n[0]))
      case None => None
      case Some(r) => Some([n[0]] + r)
  }

  /** Escaping loses nothing. */
  lemma {:induction false} UnescapeEscape(r: seq<Byte>, count: nat)
    requires count <= 2
    ensures Unescape(Escape(r, count), count) == Some(r)
    decreases |r|
  {
    if r != [] {
      var count' := if count == 2 && r[0] <= 3 then 0 else count;
      UnescapeEscape(r[1..], NextCount(count', r[0]));
      var rest := Escape(r[1..], NextCount(count', r[0]));
      assert [r[0]] + r[1..] == r;
      if count == 2 && r[0] <= 3 {
        var e := Escape(r, count);
        assert Escape(r, 0) == [r[0]] + rest;
        assert e == [3, r[0]] + rest;
        assert e[2..] == rest && e[0] == 3 && e[1] == r[0];
      } else {
        var e := Escape(r, count);
        assert e == [r[0]] + rest;
        assert e[1..] == rest;
      }
    }
  }

  /** Two zeros and a byte below three, as in a start code, starting at `i`. */
  predicate StartAt(n: seq<Byte>, i: nat) { i + 2 < |n| && n[i] == 0 && n[i + 1] == 0 && n[i + 2] < 3 }

  ghost predicate Clean(n: seq<Byte>) { forall i :: 0 <= i < |n| ==> !StartAt(n, i) }

  function Run(count: nat): (s: seq<Byte>)
    ensures |s| == count && forall i :: 0 <= i < count ==> s[i] == 0
  {
    seq(count, _ => 0)
  }

  /** A byte that ends a run of zeros separates what is before it from what is after. */
  lemma Separated(count: nat, b: Byte, rest: seq<Byte>)
    requires count <= 2 && b != 0 && (count == 2 ==> b >= 3) && Clean(rest)
    ensures Clean(Run(count) + [b] + rest)
  {
    var n := Run(count) + [b] + rest;
    forall i | 0 <= i < |n|
      ensures !StartAt(n, i)
    {
      if i > count {
        assert !StartAt(rest, i - count - 1);
        assert n[i] == rest[i - count - 1];
      }
    }
  }

  /** Runs of zeros in front of more bytes. */
  lemma RunFront(count: nat, b: Byte, rest: seq<Byte>)
    ensures Run(0) + rest == rest
    ensures Run(count) + ([0] + rest) == Run(count + 1) + rest
    ensures Run(count) + ([b] + rest) == Run(count) + [b] + rest
  {
  }

  lemma RunClean(count: nat)
    requires count <= 2
    ensures Clean(Run(count) + [])
  {
  }

  /** With `count` zeros in front, the escaped bytes hold no such sequence. */
  lemma {:induction false} EscapeSafe(r: seq<Byte>, count: nat)
    requires count <= 2
    ensures Clean(Run(count) + Escape(r, count))
    decreases |r|, count
  {
    hide Clean, StartAt, Run;
    if r == [] {
      RunClean(count);
    } else if count == 2 && r[0] <= 3 {
      var rest := Escape(r, 0);
      EscapeSafe(r, 0);
      RunFront(count, 3, rest);
      Separated(2, 3, rest);
    } else {
      var next := NextCount(count, r[0]);
      var rest := Escape(r[1..], next);
      EscapeSafe(r[1..], next);
      RunFront(count, r[0], rest);
      if r[0] != 0 {
        Separated(count, r[0], rest);
      }
    }
  }

  /** Two zeros and a byte up to three, starting at `i`: what a payload cannot be sent with as it is. */
  predicate TripleAt(s: seq<Byte>, i: nat) { i + 2 < |s| && s[i] == 0 && s[i + 1] == 0 && s[i + 2] <= 3 }

  /** A payload without such a triple, and no other, is sent as it is. */
  lemma {:induction false} EscapeChanges(r: seq<Byte>, count: nat)
    requires count <= 2
    ensures |Escape(r, count)| >= |r|
    ensures (Escape(r, count) == r) == (|Escape(r, count)| == |r|)
    ensures Escape(r, count) == r <==> forall i :: 0 <= i < |Run(count) + r| ==> !TripleAt(Run(count) + r, i)
    decreases |r|, count
  {
    hide TripleAt;
    if r == [] {
      forall i | 0 <= i < count
        ensures !TripleAt(Run(count) + r, i)
      {
        NoTriple(Run(count) + r, i);
      }
    } else if count == 2 && r[0] <= 3 {
      EscapeChanges(r, 0);
      FirstTriple(r);
    } else {
      var next := NextCount(count, r[0]);
      EscapeChanges(r[1..], next);
      assert r == [r[0]] + r[1..];
      assert Escape(r, count)[1..] == Escape(r[1..], next);
      TriplesMove(r, count);
    }
  }

  lemma NoTriple(s: seq<Byte>, i: nat)
    requires |s| <= 2
    ensures !TripleAt(s, i)
  {
  }

  lemma FirstTriple(r: seq<Byte>)
    requires r != [] && r[0] <= 3
    ensures TripleAt(Run(2) + r, 0)
  {
  }

  lemma TriplesMove(r: seq<Byte>, count: nat)
    requires r != [] && count <= 2 && !(count == 2 && r[0] <= 3)
    ensures var s, t := Run(count) + r, Run(NextCount(count, r[0])) + r[1..];
      (forall i :: 0 <= i < |s| ==> !TripleAt(s, i)) <==> (forall i :: 0 <= i < |t| ==> !TripleAt(t, i))
  {
    var s, t := Run(count) + r, Run(NextCount(count, r[0])) + r[1..];
    if r[0] == 0 {
      assert s == t;
    } else {
      forall i | 0 <= i < |t|
        ensures TripleAt(t, i) == TripleAt(s, i + count + 1)
      {
      }
      forall i | 0 <= i < |s|
        ensures TripleAt(s, i) ==> i > count && TripleAt(t, i - count - 1)
      {
      }
    }
  }

  /** What is sent instead. */
  lemma EscapeTriple(b: Byte)
    requires b <= 3
    ensures Escape([0, 0, b], 0) == [0, 0, 3, b]
  {
    assert [0, 0, b][1..] == [0, b] && [0, b][1..] == [b];
    assert Escape([b], 2) == [3] + Escape([b], 0);
    assert [b][1..] == [];
    assert Escape([b], 0) == [b] + [];
    assert Escape([0, b], 1) == [0] + Escape([b], 2);
  }

  /** At most one byte is added for every two. */
  lemma {:induction false} EscapeSize(r: seq<Byte>, count: nat)
    requires count <= 2 && r != []
    ensures 2 * |Escape(r, count)| + 1 <= 3 * |r| + count
    decreases |r|, count
  {
    if count == 2 && r[0] <= 3 {
      EscapeSize(r, 0);
    } else if |r| > 1 {
      EscapeSize(r[1..], NextCount(count, r[0]));
    }
  }

  /** The whole output, its leading zero byte included, is never more than half as long again, rounded up. */
  lemma OutputSize(r: seq<Byte>)
    requires r != []
    ensures 1 + |Escape(r, 0)| <= (3 * |r| + 1) / 2
  {
    EscapeSize(r, 0);
  }

  lemma EscapeSplit(r: seq<Byte>, i: nat, count: nat)
    requires i < |r|
    ensures Escape(r[i..], count) ==
            if count == 2 && r[i] <= 3 then [3] + Escape(r[i..], 0)
              else [r[i]] + Escape(r[i + 1..], NextCount(count, r[i]))
  {
    assert r[i..][1..] == r[i + 1..];
  }

  /** A zero byte and `written` lie in the buffer from `off` on. */
  ghost predicate Holds(buf: seq<Byte>, off: nat, written: seq<Byte>) {
    off + 1 + |written| <= |buf| && buf[off..off + 1 + |written|] == [0] + written
  }

  method Put(nal: array<Byte>, off: nat, j: nat, b: Byte, ghost written: seq<Byte>)
    requires Holds(nal[..], off, written) && j == 1 + |written| && off + j < nal.Length
    modifies nal
    ensures Holds(nal[..], off, written + [b]) && nal[..off] == old(nal[..off])
  {
    nal[off + j] := b;
    assert nal[..][off..off + j + 1] == nal[..][off..off + j] + [b];
  }

  lemma PutMore(written: seq<Byte>, b: Byte, rest: seq<Byte>)
    ensures (written + [b]) + rest == written + ([b] + rest)
  {
  }

  lemma HoldsAll(buf: seq<Byte>, off: nat, written: seq<Byte>)
    requires Holds(buf, off, written)
    ensures off + 1 + |written| <= |buf| && buf[off..off + 1 + |written|] == [0] + written
  {
  }

  /** rbsp_to_nal, into the part of a buffer from `off` on: a zero byte, then the escaped payload. */
  method RbspToNal(rbsp: seq<Byte>, nal: array<Byte>, off: nat) returns (rc: int)
    requires off <= nal.Length
    modifies nal
    ensures rc == -1 <==> rbsp != [] && off + 1 + |Escape(rbsp, 0)| > nal.Length
    ensures rc != -1 ==> rc == 1 + |Escape(rbsp, 0)|
    ensures rc != -1 && rbsp != [] ==> nal[off..off + rc] == [0] + Escape(rbsp, 0)
    ensures nal[..off] == old(nal[..off])
  {
    hide Escape, Holds;
    var i, j, count := 0, 1, 0;
    ghost var written: seq<Byte> := [];
    if off < nal.Length {
      nal[off] := 0;
      HoldsZero(nal[..], off);
    }
    assert rbsp[0..] == rbsp && [] + Escape(rbsp, 0) == Escape(rbsp, 0);
    while i < |rbsp|
      invariant i <= |rbsp| && count <= 2 && j == 1 + |written|
      invariant Escape(rbsp, 0) == written + Escape(rbsp[i..], count)
      invariant i > 0 || written != [] ==> off < nal.Length
      invariant off < nal.Length ==> Holds(nal[..], off, written) && off + j <= nal.Length
      invariant nal[..off] == old(nal[..off])
      decreases |rbsp| - i, count
    {
      EscapeSplit(rbsp, i, count);
      if off + j >= nal.Length {
        EscapeNotEmpty(rbsp[i..], count);
        return -1;
      }
      if count == 2 && rbsp[i] <= 3 {
        Put(nal, off, j, 3, written);
        j, count := j + 1, 0;
        PutMore(written, 3, Escape(rbsp[i..], 0));
        written := written + [3];
        continue;
      }
      Put(nal, off, j, rbsp[i], written);
      count := if rbsp[i] == 0 then count + 1 else 0;
      PutMore(written, rbsp[i], Escape(rbsp[i + 1..], count));
      written := written + [rbsp[i]];
      i, j := i + 1, j + 1;
    }
    EscapeNothing(rbsp[i..], count);
    rc := j;
    if rbsp != [] {
      HoldsAll(nal[..], off, written);
    }
  }

  lemma HoldsZero(buf: seq<Byte>, off: nat)
    requires off < |buf| && buf[off] == 0
    ensures Holds(buf, off, [])
  {
  }

  lemma EscapeNotEmpty(r: seq<Byte>, count: nat)
    requires r != []
    ensures Escape(r, count) != []
  {
  }

  lemma EscapeNothing(r: seq<Byte>, count: nat)
    requires r == []
    ensures Escape(r, count) == []
  {
  }

  /** What has been read, in front of what the rest gives. */
  function Front(read: seq<Byte>, rest: Option<seq<Byte>>): Option<seq<Byte>> {
    match rest
    case None => None
    case Some(r) => Some(read + r)
  }

  lemma UnescapeSplit(n: seq<Byte>, i: nat, count: nat, read: seq<Byte>)
    requires i < |n|
    ensures var rest := Front(read, Unescape(n[i..], count));
      if count == 2 && n[i] < 3 then rest == None
      else if count == 2 && n[i] == 3 then
        if i + 1 < |n| && n[i + 1] > 3 then rest == None
        else if i + 1 == |n| then rest == Some(read)
        else rest == Front(read + [n[i + 1]], Unescape(n[i + 2..], NextCount(0, n[i + 1])))
      else rest == Front(read + [n[i]], Unescape(n[i + 1..], NextCount(count, n[i])))
  {
    assert n[i..][1..] == n[i + 1..];
    if i + 1 < |n| {
      assert n[i..][2..] == n[i + 2..];
      match Unescape(n[i + 2..], NextCount(0, n[i + 1])) {
        case None =>
        case Some(r) => assert read + ([n[i + 1]] + r) == (read + [n[i + 1]]) + r;
      }
    }
    match Unescape(n[i + 1..], NextCount(count, n[i])) {
      case None =>
      case Some(r) => assert read + ([n[i]] + r) == (read + [n[i]]) + r;
    }
    assert read + [] == read;
  }

  /** nal_to_rbsp */
  method NalToRbsp(nal: seq<Byte>, rbsp: array<Byte>) returns (rc: int)
    modifies rbsp
    ensures rc == -1 <==> (Unescape(nal, 0) == None || |Unescape(nal, 0).value| > rbsp.Length)
    ensures rc != -1 ==> 0 <= rc <= rbsp.Length && Unescape(nal, 0) == Some(rbsp[..rc])
  {
    hide Unescape;
    var i, j, count := 0, 0, 0;
    assert nal[0..] == nal && Front([], Unescape(nal, 0)) == Unescape(nal, 0) by { FrontNothing(Unescape(nal, 0)); }
    while i < |nal|
      invariant i <= |nal| && j <= rbsp.Length && count <= 2
      invariant Unescape(nal, 0) == Front(rbsp[..j], Unescape(nal[i..], count))
      decreases |nal| - i
    {
      UnescapeSplit(nal, i, count, rbsp[..j]);
      if count == 2 && nal[i] < 3 {
        return -1;
      }
      if count == 2 && nal[i] == 3 {
        if i < |nal| - 1 && nal[i + 1] > 3 {
          return -1;
        }
        if i == |nal| - 1 {
          return j;
        }
        i, count := i + 1, 0;
      }
      if j >= rbsp.Length {
        return -1;
      }
      ghost var before := rbsp[..j];
      rbsp[j] := nal[i];
      count := if nal[i] == 0 then count + 1 else 0;
      assert rbsp[..j + 1] == before + [nal[i]];
      i, j := i + 1, j + 1;
    }
    UnescapeNothing(nal[i..], count, rbsp[..j]);
    rc := j;
  }

  lemma FrontNothing(rest: Option<seq<Byte>>)
    ensures Front([], rest) == rest
  {
    match rest {
      case None =>
      case Some(r) => assert [] + r == r;
    }
  }

  lemma UnescapeNothing(n: seq<Byte>, count: nat, read: seq<Byte>)
    requires n == []
    ensures Front(read, Unescape(n, count)) == Some(read)
  {
    assert read + [] == read;
  }
}
