/** Bytes and byte streams as the socket, file and pipe code sees them. */
module Bytes {

  type byte = b: int | 0 <= b < 256

  // -------------------------------------------------------------- whole numbers

  /** 256 to the n. */
  function Pow256(n: nat): (r: nat)
    ensures r > 0
  {
    if n == 0 then 1 else 256 * Pow256(n - 1)
  }

  /** Least significant byte first. */
  function LittleEndian(p: seq<byte>): (v: nat) {
    if p == [] then 0 else p[0] as int + 256 * LittleEndian(p[1..])
  }

  function ToLittleEndian(v: nat, n: nat): (p: seq<byte>)
    ensures |p| == n
  {
    if n == 0 then [] else [v % 256] + ToLittleEndian(v / 256, n - 1)
  }

  /** Most significant byte first. */
  function BigEndian(p: seq<byte>): (v: nat) {
    if p == [] then 0 else 256 * BigEndian(p[..|p| - 1]) + p[|p| - 1] as int
  }

  function ToBigEndian(v: nat, n: nat): (p: seq<byte>)
    ensures |p| == n
  {
    if n == 0 then [] else ToBigEndian(v / 256, n - 1) + [v % 256]
  }

  lemma {:induction false} LittleEndianWrites(v: nat, n: nat)
    requires v < Pow256(n)
    ensures LittleEndian(ToLittleEndian(v, n)) == v
  {
    if n > 0 {
      LittleEndianWrites(v / 256, n - 1);
    }
  }

  lemma {:induction false} LittleEndianReads(p: seq<byte>)
    ensures LittleEndian(p) < Pow256(|p|) && ToLittleEndian(LittleEndian(p), |p|) == p
  {
    if p != [] {
      var rest := LittleEndian(p[1..]);
      LittleEndianReads(p[1..]);
      assert LittleEndian(p) == p[0] as int + 256 * rest;
      assert LittleEndian(p) % 256 == p[0] as int && LittleEndian(p) / 256 == rest;
      assert p == [p[0]] + p[1..];
    }
  }

  lemma {:induction false} BigEndianWrites(v: nat, n: nat)
    requires v < Pow256(n)
    ensures BigEndian(ToBigEndian(v, n)) == v
  {
    if n > 0 {
      BigEndianWrites(v / 256, n - 1);
      assert ToBigEndian(v, n)[..n - 1] == ToBigEndian(v / 256, n - 1);
    }
  }

  lemma {:induction false} BigEndianReads(p: seq<byte>)
    ensures BigEndian(p) < Pow256(|p|) && ToBigEndian(BigEndian(p), |p|) == p
  {
    if p != [] {
      BigEndianReads(p[..|p| - 1]);
    }
  }

  /** Reading on: the part at i, and what follows it. */
  lemma {:induction false} PartAt(p: seq<byte>, i: nat, part: seq<byte>, rest: seq<byte>)
    requires i <= |p| && p[i..] == part + rest
    ensures i + |part| <= |p| && p[i..i + |part|] == part && p[i + |part|..] == rest
  {
    assert p[i..i + |part|] == p[i..][..|part|];
    assert p[i + |part|..] == p[i..][|part|..];
  }

  lemma {:induction false} Regroup<T>(a: seq<T>, b: seq<T>, c: seq<T>)
    ensures (a + b) + c == a + (b + c)
  {
  }

  lemma {:induction false} ShapeOfEight(a: seq<byte>, b: seq<byte>, c: seq<byte>, d: seq<byte>,
                                        e: seq<byte>, f: seq<byte>, g: seq<byte>, h: seq<byte>, rest: seq<byte>)
    ensures var p := a + b + c + d + e + f + g + h + rest;
            p[0..] == p && p == a + (b + (c + (d + (e + (f + (g + (h + rest)))))))
  {
    Regroup(a + b + c + d + e + f + g, h, rest);
    Regroup(a + b + c + d + e + f, g, h + rest);
    Regroup(a + b + c + d + e, f, g + (h + rest));
    Regroup(a + b + c + d, e, f + (g + (h + rest)));
    Regroup(a + b + c, d, e + (f + (g + (h + rest))));
    Regroup(a + b, c, d + (e + (f + (g + (h + rest)))));
    Regroup(a, b, c + (d + (e + (f + (g + (h + rest))))));
  }

  lemma {:induction false} Adjacent(p: seq<byte>, i: nat, j: nat)
    requires i <= j <= |p|
    ensures p[..i] + p[i..j] == p[..j]
  {
  }

  lemma Powers()
    ensures Pow256(1) == 0x100 && Pow256(2) == 0x1_0000 && Pow256(4) == 0x1_0000_0000
    ensures Pow256(8) == 0x1_0000_0000_0000_0000
  {
    assert Pow256(3) == 256 * Pow256(2);
    assert Pow256(5) == 256 * Pow256(4) && Pow256(6) == 256 * Pow256(5) && Pow256(7) == 256 * Pow256(6);
  }

  lemma {:induction false} DivideTwice(v: nat, a: nat, b: nat)
    requires a > 0 && b > 0
    ensures a * b > 0 && v / a / b == v / (a * b)
  {
    var q, r := v / a / b, v / a % b;
    assert v == a * (v / a) + v % a && v / a == b * q + r;
    assert v == (a * b) * q + (a * r + v % a) by {
      assert a * (b * q + r) == a * (b * q) + a * r;
      assert a * (b * q) == (a * b) * q;
    }
    assert 0 <= a * r + v % a < a * b by {
      assert a * r <= a * (b - 1);
    }
    QuotientIsUnique(v, a * b, q, a * r + v % a);
  }

  lemma {:induction false} QuotientIsUnique(v: nat, d: nat, q: nat, r: nat)
    requires 0 <= r < d && v == d * q + r
    ensures v / d == q
  {
    var p := v / d;
    assert p < q ==> d * (p + 1) <= d * q;
    assert p > q ==> d * (q + 1) <= d * p;
  }

  // ---------------------------------------------------------------- byte streams

  /** `whole` with the bytes from `at` on replaced by `part`. */
  function Splice(whole: seq<byte>, at: nat, part: seq<byte>): (r: seq<byte>)
    requires at + |part| <= |whole|
    ensures |r| == |whole|
  {
    whole[..at] + part + whole[at + |part|..]
  }

  lemma {:induction false} SpliceTwice(whole: seq<byte>, at: nat, first: seq<byte>, second: seq<byte>)
    requires at + |first| + |second| <= |whole|
    ensures Splice(Splice(whole, at, first), at + |first|, second) == Splice(whole, at, first + second)
  {
  }

  /** The copy the kernel makes into the caller's buffer. */
  method Store(destination: array<byte>, at: nat, part: seq<byte>)
    requires at + |part| <= destination.Length
    modifies destination
    ensures destination[..] == Splice(old(destination[..]), at, part)
  {
    forall i | 0 <= i < |part| {
      destination[at + i] := part[i];
    }
  }

  /** A readable file descriptor: `data` is everything it will ever deliver. */
  class Source {
    const data: seq<byte>
    var position: nat

    ghost predicate Valid()
      reads this
    {
      position <= |data|
    }

    constructor (data: seq<byte>)
      ensures Valid() && this.data == data && position == 0
    {
      this.data, position := data, 0;
    }

    /** One read or recv call: any non-empty part of what was asked for and is
        still there, nothing only at the end; a retried EINTR is not visible. */
    method Receive(want: nat) returns (got: seq<byte>)
      requires Valid() && want > 0
      modifies this`position
      ensures Valid() && |got| <= want
      ensures old(position) + |got| == position && got == data[old(position)..position]
      ensures got == [] <==> old(position) == |data|
    {
      if position == |data| {
        return [];
      }
      var count :| 1 <= count <= want && position + count <= |data|;
      got := data[position..position + count];
      position := position + count;
    }

    /** read_exact and read_all: fills `destination` from `at`, however the input
        is fragmented; on a short input it has stored what there was. */
    method ReadExact(destination: array<byte>, at: nat, count: nat) returns (ok: bool)
      requires Valid() && at + count <= destination.Length
      modifies this`position, destination
      ensures Valid()
      ensures ok <==> old(position) + count <= |data|
      ensures position == if ok then old(position) + count else |data|
      ensures old(position) <= position <= old(position) + count
      ensures destination[..] == Splice(old(destination[..]), at, data[old(position)..position])
    {
      ghost var whole, start, taken := destination[..], position, [];
      var offset := 0;
      assert destination[..] == Splice(whole, at, taken);
      hide Splice;
      while offset < count
        invariant Valid() && offset <= count && position == start + offset
        invariant taken == data[start..position]
        invariant destination[..] == Splice(whole, at, taken)
      {
        var got := Receive(count - offset);
        if got == [] {
          return false;
        }
        assert data[start..position] == taken + got;
        Store(destination, at + offset, got);
        SpliceTwice(whole, at, taken, got);
        taken := taken + got;
        offset := offset + |got|;
      }
      return true;
    }
  }

  /** What gets through when there is room for so many bytes. */
  function Took(bytes: seq<byte>, room: nat): (r: seq<byte>)
    ensures |r| <= room && |r| <= |bytes| && (|bytes| <= room ==> r == bytes)
  {
    if room < |bytes| then bytes[..room] else bytes
  }

  lemma {:induction false} TookTwo(a: seq<byte>, b: seq<byte>, room: nat)
    ensures |a| <= room ==> Took(a + b, room) == a + Took(b, room - |a|)
    ensures |a| > room ==> Took(a + b, room) == Took(a, room)
  {
  }

  /** A writable file descriptor that may accept any part of what it is given; it
      fails for good after `room` more bytes. */
  class Sink {
    var accepted: seq<byte>
    var room: nat

    constructor (room: nat)
      ensures accepted == [] && this.room == room
    {
      accepted, this.room := [], room;
    }

    /** One write or send call; 0 stands for the failure. */
    method Send(bytes: seq<byte>) returns (count: nat)
      requires bytes != []
      modifies this
      ensures count <= |bytes| && count <= old(room) && (count == 0 <==> old(room) == 0)
      ensures accepted == old(accepted) + bytes[..count] && room == old(room) - count
    {
      if room == 0 {
        assert accepted + bytes[..0] == accepted;
        return 0;
      }
      count :| 1 <= count <= |bytes| && count <= room;
      accepted := accepted + bytes[..count];
      room := room - count;
    }

    /** write_all: everything gets through, however often it is cut, or the descriptor
        fails and what there was room for has got through. */
    method WriteAll(bytes: seq<byte>) returns (ok: bool)
      modifies this
      ensures ok <==> |bytes| <= old(room)
      ensures accepted == old(accepted) + Took(bytes, old(room))
      ensures room == old(room) - |Took(bytes, old(room))|
    {
      var rest := bytes;
      assert accepted + bytes[..0] == accepted;
      while rest != []
        invariant |rest| <= |bytes| && rest == bytes[|bytes| - |rest|..]
        invariant accepted == old(accepted) + bytes[..|bytes| - |rest|]
        invariant |bytes| - |rest| <= old(room) && room == old(room) - (|bytes| - |rest|)
        decreases |rest|
      {
        var count := Send(rest);
        assert bytes[..|bytes| - |rest| + count] == bytes[..|bytes| - |rest|] + rest[..count];
        if count == 0 {
          return false;
        }
        rest := rest[count..];
      }
      return true;
    }
  }
}
