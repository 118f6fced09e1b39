/** Channel masks and row-parallel plane unpacking of plank-probe-x11-native10. */
module Planes {
  import opened Bytes

  // -------------------------------------------------------- bits of unsigned numbers

  function Pow2(n: nat): (r: nat)
    ensures r > 0
  {
    if n == 0 then 1 else 2 * Pow2(n - 1)
  }

  predicate Bit(a: nat, i: nat) {
    if i == 0 then a % 2 == 1 else Bit(a / 2, i - 1)
  }

  /** The operators &, |, << and >>, and truncation to n bits. */
  function And(a: nat, b: nat): nat {
    if a == 0 || b == 0 then 0 else 2 * And(a / 2, b / 2) + (if a % 2 == 1 && b % 2 == 1 then 1 else 0)
  }

  function Or(a: nat, b: nat): nat
    decreases a + b
  {
    if a == 0 then b else if b == 0 then a
    else 2 * Or(a / 2, b / 2) + (if a % 2 == 1 || b % 2 == 1 then 1 else 0)
  }

  function ShiftLeft(a: nat, n: nat): nat {
    if n == 0 then a else 2 * ShiftLeft(a, n - 1)
  }

  function ShiftRight(a: nat, n: nat): nat {
    if n == 0 then a else ShiftRight(a / 2, n - 1)
  }

  function Truncate(a: nat, n: nat): nat {
    if n == 0 then 0 else 2 * Truncate(a / 2, n - 1) + a % 2
  }

  lemma {:induction false} ZeroBits(i: nat)
    ensures !Bit(0, i)
  {
    if i > 0 {
      ZeroBits(i - 1);
    }
  }

  lemma {:induction false} AndBit(a: nat, b: nat, i: nat)
    ensures Bit(And(a, b), i) <==> Bit(a, i) && Bit(b, i)
  {
    ZeroBits(i);
    if a != 0 && b != 0 && i > 0 {
      AndBit(a / 2, b / 2, i - 1);
    }
  }

  lemma {:induction false} OrBit(a: nat, b: nat, i: nat)
    ensures Bit(Or(a, b), i) <==> Bit(a, i) || Bit(b, i)
  {
    ZeroBits(i);
    if a != 0 && b != 0 && i > 0 {
      OrBit(a / 2, b / 2, i - 1);
    }
  }

  lemma {:induction false} LeftBit(a: nat, n: nat, i: nat)
    ensures Bit(ShiftLeft(a, n), i) <==> i >= n && Bit(a, i - n)
  {
    if n > 0 && i > 0 {
      LeftBit(a, n - 1, i - 1);
    }
  }

  lemma {:induction false} RightBit(a: nat, n: nat, i: nat)
    ensures Bit(ShiftRight(a, n), i) <==> Bit(a, i + n)
  {
    if n > 0 {
      RightBit(a / 2, n - 1, i);
    }
  }

  lemma {:induction false} TruncatedBit(a: nat, n: nat, i: nat)
    ensures Bit(Truncate(a, n), i) <==> i < n && Bit(a, i)
  {
    if n == 0 {
      ZeroBits(i);
    } else if i > 0 {
      TruncatedBit(a / 2, n - 1, i - 1);
    }
  }

  lemma {:induction false} SameBits(a: nat, b: nat)
    requires forall i: nat :: Bit(a, i) == Bit(b, i)
    ensures a == b
    decreases a + b
  {
    if a != 0 || b != 0 {
      forall i: nat ensures Bit(a / 2, i) == Bit(b / 2, i) {
        assert Bit(a, i + 1) == Bit(b, i + 1);
      }
      assert Bit(a, 0) == Bit(b, 0);
      SameBits(a / 2, b / 2);
    }
  }

  // ------------------------------------------------------------------------ channels

  datatype Channel = Channel(mask: nat, shift: nat, bits: nat)

  function Zeroes(value: nat): (n: nat) {
    if value == 0 || value % 2 == 1 then 0 else 1 + Zeroes(value / 2)
  }

  function Ones(value: nat): (n: nat) {
    if value == 0 then 0 else value % 2 + Ones(value / 2)
  }

  method TrailingZeroes(mask: nat) returns (count: nat)
    ensures count == Zeroes(mask)
  {
    count := 0;
    if mask == 0 {
      return;
    }
    var value := mask;
    while value % 2 == 0
      invariant value > 0 && count + Zeroes(value) == Zeroes(mask)
      decreases value
    {
      value := value / 2;
      count := count + 1;
    }
  }

  method BitCount(mask: nat) returns (count: nat)
    ensures count == Ones(mask)
  {
    count := 0;
    var value := mask;
    while value != 0
      invariant count + Ones(value) == Ones(mask)
      decreases value
    {
      count := count + value % 2;
      value := value / 2;
    }
  }

  /** The trailing zeros end at the lowest set bit. */
  lemma {:induction false} ZeroesEnd(mask: nat, i: nat)
    requires mask != 0
    ensures Bit(mask, Zeroes(mask)) && (i < Zeroes(mask) ==> !Bit(mask, i))
  {
    if mask % 2 == 0 {
      ZeroesEnd(mask / 2, if i > 0 then i - 1 else 0);
    }
  }

  /** How many of the lowest n bits are set. */
  ghost function SetBits(mask: nat, n: nat): nat {
    if n == 0 then 0 else SetBits(mask, n - 1) + (if Bit(mask, n - 1) then 1 else 0)
  }

  lemma {:induction false} SetBitsHalf(mask: nat, n: nat)
    ensures SetBits(mask, n + 1) == mask % 2 + SetBits(mask / 2, n)
  {
    if n > 0 {
      SetBitsHalf(mask, n - 1);
    }
  }

  lemma {:induction false} OnesAreSetBits(mask: nat, n: nat)
    requires mask < Pow2(n)
    ensures Ones(mask) == SetBits(mask, n)
  {
    if n > 0 {
      OnesAreSetBits(mask / 2, n - 1);
      SetBitsHalf(mask, n - 1);
    }
  }

  function MakeChannel(mask: nat): Channel {
    Channel(mask, Zeroes(mask), Ones(mask))
  }

  /** An unsigned long has 64 bits, a code (unsigned int) 32. */
  function PackCode(c: Channel, code: nat): nat {
    And(Truncate(ShiftLeft(code, c.shift), 64), c.mask)
  }

  function UnpackCode(c: Channel, pixel: nat): nat {
    Truncate(ShiftRight(And(pixel, c.mask), c.shift), 32)
  }

  lemma {:induction false} PackBit(c: Channel, code: nat, i: nat)
    ensures Bit(PackCode(c, code), i) <==> c.shift <= i < 64 && Bit(code, i - c.shift) && Bit(c.mask, i)
  {
    hide And, Bit, Truncate, ShiftLeft;
    AndBit(Truncate(ShiftLeft(code, c.shift), 64), c.mask, i);
    TruncatedBit(ShiftLeft(code, c.shift), 64, i);
    LeftBit(code, c.shift, i);
  }

  lemma {:induction false} UnpackBit(c: Channel, pixel: nat, i: nat)
    ensures Bit(UnpackCode(c, pixel), i) <==> i < 32 && Bit(pixel, i + c.shift) && Bit(c.mask, i + c.shift)
  {
    hide And, Bit, Truncate, ShiftRight;
    TruncatedBit(ShiftRight(And(pixel, c.mask), c.shift), 32, i);
    RightBit(And(pixel, c.mask), c.shift, i);
    AndBit(pixel, c.mask, i + c.shift);
  }

  ghost predicate Disjoint(a: nat, b: nat) {
    forall i: nat :: !(Bit(a, i) && Bit(b, i))
  }

  /** Every bit of the code has its place in the mask. */
  ghost predicate FitsMask(c: Channel, code: nat) {
    forall i: nat :: Bit(code, i) ==> i < 32 && i + c.shift < 64 && Bit(c.mask, i + c.shift)
  }

  /** A pixel built up from zero by or-ing in one packed code per channel. */
  function PackPixel(cs: seq<Channel>, codes: seq<nat>): nat
    requires |cs| == |codes|
  {
    if cs == [] then 0
    else Or(PackPixel(cs[..|cs| - 1], codes[..|cs| - 1]), PackCode(cs[|cs| - 1], codes[|cs| - 1]))
  }

  ghost predicate PairwiseDisjoint(cs: seq<Channel>) {
    forall i, j :: 0 <= i < j < |cs| ==> Disjoint(cs[i].mask, cs[j].mask)
  }

  lemma {:induction false} PixelBit(cs: seq<Channel>, codes: seq<nat>, i: nat)
    requires |cs| == |codes|
    ensures Bit(PackPixel(cs, codes), i) <==> exists k :: 0 <= k < |cs| && Bit(PackCode(cs[k], codes[k]), i)
  {
    hide Bit, Or, PackCode;
    if cs == [] {
      ZeroBits(i);
    } else {
      var n := |cs| - 1;
      PixelBit(cs[..n], codes[..n], i);
      OrBit(PackPixel(cs[..n], codes[..n]), PackCode(cs[n], codes[n]), i);
    }
  }

  /** However many disjoint channels are packed into a pixel, unpacking channel k
      returns its code exactly when every bit of that code has a place in its mask. */
  lemma {:induction false} UnpackInvertsPack(cs: seq<Channel>, codes: seq<nat>, k: nat)
    requires |cs| == |codes| && k < |cs| && PairwiseDisjoint(cs)
    ensures UnpackCode(cs[k], PackPixel(cs, codes)) == codes[k] <==> FitsMask(cs[k], codes[k])
  {
    hide Bit, PackPixel, UnpackCode;
    var p := UnpackCode(cs[k], PackPixel(cs, codes));
    forall i: nat
      ensures Bit(p, i) <==> i < 32 && i + cs[k].shift < 64 && Bit(codes[k], i) && Bit(cs[k].mask, i + cs[k].shift) {
      UnpackedBit(cs, codes, k, i);
    }
    if FitsMask(cs[k], codes[k]) {
      SameBits(p, codes[k]);
    }
  }

  lemma {:induction false} UnpackedBit(cs: seq<Channel>, codes: seq<nat>, k: nat, i: nat)
    requires |cs| == |codes| && k < |cs| && PairwiseDisjoint(cs)
    ensures Bit(UnpackCode(cs[k], PackPixel(cs, codes)), i)
       <==> i < 32 && i + cs[k].shift < 64 && Bit(codes[k], i) && Bit(cs[k].mask, i + cs[k].shift)
  {
    hide Bit, PackPixel, UnpackCode, PackCode;
    var j := i + cs[k].shift;
    UnpackBit(cs[k], PackPixel(cs, codes), i);
    PixelBit(cs, codes, j);
    PackBit(cs[k], codes[k], j);
    if m :| 0 <= m < |cs| && m != k && Bit(PackCode(cs[m], codes[m]), j) && Bit(cs[k].mask, j) {
      PackBit(cs[m], codes[m], j);
      assert false;
    }
  }

  /** One run of set bits. */
  ghost predicate Contiguous(mask: nat) {
    ShiftRight(mask, Zeroes(mask)) == Pow2(Ones(mask)) - 1
  }

  lemma {:induction false} AllOnes(n: nat, i: nat)
    ensures Bit(Pow2(n) - 1, i) <==> i < n
  {
    if n == 0 {
      ZeroBits(i);
    } else if i > 0 {
      assert (Pow2(n) - 1) / 2 == Pow2(n - 1) - 1;
      AllOnes(n - 1, i - 1);
    }
  }

  lemma {:induction false} BitsBelow(code: nat, n: nat, i: nat)
    requires code < Pow2(n) && Bit(code, i)
    ensures i < n
  {
    if n == 0 {
      ZeroBits(i);
    } else if i > 0 {
      BitsBelow(code / 2, n - 1, i - 1);
    }
  }

  /** A number whose n set bits are its lowest n bits. */
  lemma {:induction false} LowestOnes(m: nat, n: nat)
    requires Ones(m) == n && forall i: nat | i < n :: Bit(m, i)
    ensures m == Pow2(n) - 1
  {
    if n == 0 {
      NoOnes(m);
    } else {
      assert Bit(m, 0);
      forall i: nat | i < n - 1 ensures Bit(m / 2, i) {
        assert Bit(m, i + 1);
      }
      LowestOnes(m / 2, n - 1);
    }
  }

  lemma {:induction false} NoOnes(m: nat)
    requires Ones(m) == 0
    ensures m == 0
  {
    if m != 0 {
      NoOnes(m / 2);
    }
  }

  lemma {:induction false} OnesSurviveShift(m: nat)
    ensures Ones(ShiftRight(m, Zeroes(m))) == Ones(m)
  {
    if m != 0 && m % 2 == 0 {
      OnesSurviveShift(m / 2);
    }
  }

  /** The masks (of an unsigned long, with at most 32 set bits) that keep every code of
      their width are exactly those with one run of bits. */
  lemma {:induction false} ContiguousKeepsAllCodes(mask: nat)
    requires Truncate(mask, 64) == mask && Ones(mask) <= 32
    ensures (forall code: nat | code < Pow2(Ones(mask)) :: FitsMask(MakeChannel(mask), code)) <==> Contiguous(mask)
  {
    hide Bit, Pow2, Ones, Zeroes, ShiftRight, Truncate;
    var c := MakeChannel(mask);
    if Contiguous(mask) {
      forall code: nat, i: nat | code < Pow2(c.bits) && Bit(code, i)
        ensures i < 32 && i + c.shift < 64 && Bit(mask, i + c.shift)
      {
        BitsBelow(code, c.bits, i);
        AllOnes(c.bits, i);
        RightBit(mask, c.shift, i);
        TruncatedBit(mask, 64, i + c.shift);
      }
    }
    if forall code: nat | code < Pow2(c.bits) :: FitsMask(c, code) {
      assert FitsMask(c, Pow2(c.bits) - 1);
      forall i: nat | i < c.bits ensures Bit(ShiftRight(mask, c.shift), i) {
        AllOnes(c.bits, i);
        RightBit(mask, c.shift, i);
      }
      OnesSurviveShift(mask);
      LowestOnes(ShiftRight(mask, c.shift), c.bits);
    }
  }

  /** A mask as the visuals have it: one run of at most 32 bits of an unsigned long. */
  ghost predicate Usable(mask: nat) {
    Truncate(mask, 64) == mask && Ones(mask) <= 32 && Contiguous(mask)
  }

  /** With usable, pairwise disjoint masks every channel returns every code of its
      width from the or of all packed codes. */
  lemma {:induction false} CodesSurvive(masks: seq<nat>, codes: seq<nat>, k: nat)
    requires |masks| == |codes| && k < |masks|
    requires forall i | 0 <= i < |masks| :: Usable(masks[i])
    requires forall i, j | 0 <= i < j < |masks| :: Disjoint(masks[i], masks[j])
    requires codes[k] < Pow2(Ones(masks[k]))
    ensures var cs := Channels(masks); UnpackCode(cs[k], PackPixel(cs, codes)) == codes[k]
  {
    hide Truncate, Pow2, Ones, Contiguous, UnpackCode, PackPixel, FitsMask;
    assert Usable(masks[k]);
    ContiguousKeepsAllCodes(masks[k]);
    UnpackInvertsPack(Channels(masks), codes, k);
  }

  function Channels(masks: seq<nat>): (cs: seq<Channel>)
    ensures |cs| == |masks| && forall k | 0 <= k < |masks| :: cs[k] == MakeChannel(masks[k])
  {
    seq(|masks|, k requires 0 <= k < |masks| => MakeChannel(masks[k]))
  }

  // --------------------------------------------------------------- unpacking planes

  /** A captured image: little-endian 32-bit pixels, `pitch` bytes from row to row. */
  datatype Image = Image(bytes: seq<byte>, width: nat, height: nat, pitch: nat) {
    ghost predicate Readable() {
      forall y: nat | y < height :: y * pitch + 4 * width <= |bytes|
    }

    function Count(): nat {
      width * height
    }

    function Pixel(y: nat, x: nat): nat
      requires Readable() && y < height && x < width
    {
      var at := y * pitch + 4 * x;
      assert y * pitch + 4 * width <= |bytes|;
      LittleEndian(bytes[at..at + 4])
    }
  }

  lemma {:induction false} RowsFit(w: nat, h: nat, y: nat)
    requires y < h
    ensures 0 <= y * w <= y * w + w <= w * h
  {
    assert (y + 1) * w <= h * w;
  }

  lemma {:induction false} PixelAt(w: nat, h: nat, o: nat)
    requires o < w * h
    ensures w > 0 && o / w < h && o % w < w && o == o / w * w + o % w
  {
    if w != 0 {
      var y := o / w;
      assert y >= h ==> y * w >= h * w;
    }
  }

  lemma {:induction false} OffsetOf(w: nat, y: nat, x: nat)
    requires x < w
    ensures (y * w + x) / w == y && (y * w + x) % w == x
  {
    var q := (y * w + x) / w;
    assert q < y ==> (q + 1) * w <= y * w;
    assert q > y ==> (y + 1) * w <= q * w;
  }

  /** The sample that channel c has at linear offset o. */
  function Sample(g: Image, c: Channel, o: nat): nat
    requires g.Readable() && o < g.Count()
  {
    PixelAt(g.width, g.height, o);
    UnpackCode(c, g.Pixel(o / g.width, o % g.width)) % 0x1_0000
  }

  function Plane(g: Image, c: Channel): (p: seq<nat>)
    requires g.Readable()
    ensures |p| == g.Count()
  {
    seq(g.Count(), o requires 0 <= o < g.Count() => Sample(g, c, o))
  }

  /** The destination vector: the planes of green, blue and red, one after the other.
      The channels come in the order red, green, blue. */
  function Planar(g: Image, cs: seq<Channel>): (planes: seq<nat>)
    requires g.Readable() && |cs| == 3
    ensures |planes| == 3 * g.Count()
  {
    Plane(g, cs[1]) + Plane(g, cs[2]) + Plane(g, cs[0])
  }

  lemma {:induction false} PowersGrow(m: nat, n: nat)
    requires m <= n
    ensures Pow2(m) <= Pow2(n)
  {
    if m < n {
      PowersGrow(m, n - 1);
    }
  }

  /** From codes to samples: where an image's pixel is the or of packed codes, as a server
      with such masks makes it, the planes hold the codes at that pixel's place, green
      first, then blue, then red. The pixel starts at byte `at` and is the o-th. */
  lemma {:induction false} PixelsSurvive(g: Image, masks: seq<nat>, y: nat, x: nat, at: nat, o: nat,
                                         red: nat, green: nat, blue: nat)
    requires g.Readable() && y < g.height && x < g.width && |masks| == 3
    requires at == y * g.pitch + 4 * x && o == y * g.width + x
    requires forall i | 0 <= i < 3 :: Usable(masks[i]) && Ones(masks[i]) <= 16
    requires forall i, j | 0 <= i < j < 3 :: Disjoint(masks[i], masks[j])
    requires red < Pow2(Ones(masks[0])) && green < Pow2(Ones(masks[1])) && blue < Pow2(Ones(masks[2]))
    requires var pixel := PackPixel(Channels(masks), [red, green, blue]);
             pixel < 0x1_0000_0000 && at + 4 <= |g.bytes| && g.bytes[at..at + 4] == ToLittleEndian(pixel, 4)
    ensures var planes, n := Planar(g, Channels(masks)), g.Count();
            o < n && |planes| == 3 * n && planes[o] == green && planes[n + o] == blue && planes[2 * n + o] == red
  {
    var codes := [red, green, blue];
    RowsFit(g.width, g.height, y);
    hide *;
    SampleIsCode(g, masks, codes, 0, y, x, o, at);
    SampleIsCode(g, masks, codes, 1, y, x, o, at);
    SampleIsCode(g, masks, codes, 2, y, x, o, at);
    PlanarAt(g, Channels(masks), o);
  }

  lemma {:induction false} PlanarAt(g: Image, cs: seq<Channel>, o: nat)
    requires g.Readable() && |cs| == 3 && o < g.Count()
    ensures var planes, n := Planar(g, cs), g.Count();
            && |planes| == 3 * n && o < n
            && planes[o] == Sample(g, cs[1], o)
            && planes[n + o] == Sample(g, cs[2], o)
            && planes[2 * n + o] == Sample(g, cs[0], o)
  {
    hide Sample;
  }

  lemma {:induction false} SampleIsCode(g: Image, masks: seq<nat>, codes: seq<nat>, k: nat, y: nat, x: nat,
                                        o: nat, at: nat)
    requires g.Readable() && y < g.height && x < g.width && o < g.Count()
    requires o == y * g.width + x && at == y * g.pitch + 4 * x
    requires |masks| == |codes| && k < |masks| && codes[k] < Pow2(Ones(masks[k])) && Ones(masks[k]) <= 16
    requires forall i | 0 <= i < |masks| :: Usable(masks[i])
    requires forall i, j | 0 <= i < j < |masks| :: Disjoint(masks[i], masks[j])
    requires var pixel := PackPixel(Channels(masks), codes);
             pixel < 0x1_0000_0000 && at + 4 <= |g.bytes| && g.bytes[at..at + 4] == ToLittleEndian(pixel, 4)
    ensures Sample(g, Channels(masks)[k], o) == codes[k]
  {
    hide *;
    PixelIs(g, y, x, PackPixel(Channels(masks), codes));
    SixteenBits();
    CodesSurvive(masks, codes, k);
    PowersGrow(Ones(masks[k]), 16);
    SampleAt(g, Channels(masks)[k], y, x);
  }

  lemma {:induction false} PixelIs(g: Image, y: nat, x: nat, pixel: nat)
    requires g.Readable() && y < g.height && x < g.width && pixel < 0x1_0000_0000
    requires var at := y * g.pitch + 4 * x; at + 4 <= |g.bytes| && g.bytes[at..at + 4] == ToLittleEndian(pixel, 4)
    ensures g.Pixel(y, x) == pixel
  {
    Powers();
    LittleEndianWrites(pixel, 4);
    hide LittleEndian, ToLittleEndian, Pow256;
  }

  lemma {:induction false} SampleAt(g: Image, c: Channel, y: nat, x: nat)
    requires g.Readable() && y < g.height && x < g.width && y * g.width + x < g.Count()
    ensures Sample(g, c, y * g.width + x) == UnpackCode(c, g.Pixel(y, x)) % 0x1_0000
  {
    OffsetOf(g.width, y, x);
    hide UnpackCode, Image.Pixel;
  }

  lemma SixteenBits()
    ensures Pow2(16) == 0x1_0000
  {
    assert Pow2(4) == 16;
    assert Pow2(8) == 16 * Pow2(4);
    assert Pow2(12) == 16 * Pow2(8);
    assert Pow2(16) == 16 * Pow2(12);
  }

  /** The pixel at linear offset o is stored in three steps, red, green and blue,
      numbered 3o, 3o + 1 and 3o + 2: every step below t is done. */
  ghost predicate Stored(g: Image, cs: seq<Channel>, planes: seq<nat>, o: nat, t: nat)
    requires g.Readable() && |cs| == 3 && |planes| == 3 * g.Count() && o < g.Count()
  {
    && (3 * o < t ==> planes[2 * g.Count() + o] == Sample(g, cs[0], o))
    && (3 * o + 1 < t ==> planes[o] == Sample(g, cs[1], o))
    && (3 * o + 2 < t ==> planes[g.Count() + o] == Sample(g, cs[2], o))
  }

  /** The effect of step t. */
  function Store(g: Image, cs: seq<Channel>, planes: seq<nat>, t: nat): (after: seq<nat>)
    requires g.Readable() && |cs| == 3 && |planes| == 3 * g.Count() && t < 3 * g.Count()
    ensures |after| == |planes|
  {
    var o := t / 3;
    if t % 3 == 0 then planes[2 * g.Count() + o := Sample(g, cs[0], o)]
    else if t % 3 == 1 then planes[o := Sample(g, cs[1], o)]
    else planes[g.Count() + o := Sample(g, cs[2], o)]
  }

  ghost predicate Whole(g: Image, cs: seq<Channel>, planes: seq<nat>, o: nat)
    requires g.Readable() && |cs| == 3 && |planes| == 3 * g.Count() && o < g.Count()
  {
    Stored(g, cs, planes, o, 3 * o + 3)
  }

  ghost predicate SamePixel(n: nat, before: seq<nat>, after: seq<nat>, o: nat)
    requires |before| == |after| == 3 * n && o < n
  {
    after[o] == before[o] && after[n + o] == before[n + o] && after[2 * n + o] == before[2 * n + o]
  }

  /** The pixels outside [lo, hi) are kept. */
  ghost predicate Kept(n: nat, before: seq<nat>, after: seq<nat>, lo: nat, hi: nat)
    requires |before| == |after| == 3 * n
  {
    forall o: nat | o < n && !(lo <= o < hi) :: SamePixel(n, before, after, o)
  }

  ghost predicate Done(g: Image, cs: seq<Channel>, planes: seq<nat>, lo: nat, hi: nat)
    requires g.Readable() && |cs| == 3 && |planes| == 3 * g.Count()
  {
    forall o: nat | lo <= o < hi && o < g.Count() :: Whole(g, cs, planes, o)
  }

  lemma {:induction false} StoreStep(g: Image, cs: seq<Channel>, planes: seq<nat>, t: nat, o: nat, done: nat)
    requires g.Readable() && |cs| == 3 && |planes| == 3 * g.Count() && t < 3 * g.Count() && o < g.Count()
    requires Stored(g, cs, planes, o, done)
    ensures done == t ==> Stored(g, cs, Store(g, cs, planes, t), o, t + 1)
    ensures o != t / 3 ==> Stored(g, cs, Store(g, cs, planes, t), o, done)
  {
    hide Sample;
  }

  lemma {:induction false} AllDone(g: Image, cs: seq<Channel>, planes: seq<nat>)
    requires g.Readable() && |cs| == 3 && |planes| == 3 * g.Count()
    requires forall o: nat | o < g.Count() :: Whole(g, cs, planes, o)
    ensures planes == Planar(g, cs)
  {
    hide Sample;
    var n := g.Count();
    assert planes[..n] == Plane(g, cs[1]) by {
      forall o: nat | o < n ensures planes[..n][o] == Plane(g, cs[1])[o] {
        assert Whole(g, cs, planes, o);
      }
    }
    assert planes[n..2 * n] == Plane(g, cs[2]) by {
      forall o: nat | o < n ensures planes[n..2 * n][o] == Plane(g, cs[2])[o] {
        assert Whole(g, cs, planes, o);
      }
    }
    assert planes[2 * n..] == Plane(g, cs[0]) by {
      forall o: nat | o < n ensures planes[2 * n..][o] == Plane(g, cs[0])[o] {
        assert Whole(g, cs, planes, o);
      }
    }
    assert planes == planes[..n] + planes[n..2 * n] + planes[2 * n..];
  }

  /** The three stores of the inner loop. */
  method StorePixel(g: Image, cs: seq<Channel>, y: nat, x: nat, planes: array<nat>)
    requires g.Readable() && |cs| == 3 && planes.Length == 3 * g.Count()
    requires y < g.height && x < g.width && y * g.width + x < g.Count()
    modifies planes
    ensures Done(g, cs, planes[..], y * g.width + x, y * g.width + x + 1)
    ensures Kept(g.Count(), old(planes[..]), planes[..], y * g.width + x, y * g.width + x + 1)
  {
    var n, o := g.Count(), y * g.width + x;
    var pixel := g.Pixel(y, x);
    PixelSamples(g, cs, y, x);
    hide UnpackCode, Image.Pixel, Sample, Done, Kept;
    ghost var before := planes[..];
    planes[2 * n + o] := UnpackCode(cs[0], pixel) % 0x1_0000;
    planes[o] := UnpackCode(cs[1], pixel) % 0x1_0000;
    planes[n + o] := UnpackCode(cs[2], pixel) % 0x1_0000;
    PixelStored(g, cs, before, o);
    assert planes[..] == StoreAll(g, cs, before, o);
  }

  ghost function StoreAll(g: Image, cs: seq<Channel>, planes: seq<nat>, o: nat): (after: seq<nat>)
    requires g.Readable() && |cs| == 3 && |planes| == 3 * g.Count() && o < g.Count()
    ensures |after| == |planes|
  {
    planes[2 * g.Count() + o := Sample(g, cs[0], o)][o := Sample(g, cs[1], o)][g.Count() + o := Sample(g, cs[2], o)]
  }

  lemma {:induction false} PixelStored(g: Image, cs: seq<Channel>, planes: seq<nat>, o: nat)
    requires g.Readable() && |cs| == 3 && |planes| == 3 * g.Count() && o < g.Count()
    ensures Done(g, cs, StoreAll(g, cs, planes, o), o, o + 1)
    ensures Kept(g.Count(), planes, StoreAll(g, cs, planes, o), o, o + 1)
  {
    hide Sample, Image.Count;
    assert Whole(g, cs, StoreAll(g, cs, planes, o), o);
  }

  lemma {:induction false} PixelSamples(g: Image, cs: seq<Channel>, y: nat, x: nat)
    requires g.Readable() && |cs| == 3 && y < g.height && x < g.width && y * g.width + x < g.Count()
    ensures forall k | 0 <= k < 3 :: Sample(g, cs[k], y * g.width + x) == UnpackCode(cs[k], g.Pixel(y, x)) % 0x1_0000
  {
    OffsetOf(g.width, y, x);
    hide UnpackCode, Image.Pixel;
  }

  lemma {:induction false} Further(g: Image, cs: seq<Channel>, start: seq<nat>, before: seq<nat>, after: seq<nat>,
                                   lo: nat, o: nat)
    requires g.Readable() && |cs| == 3 && |start| == |before| == |after| == 3 * g.Count() && lo <= o
    requires Done(g, cs, before, lo, o) && Kept(g.Count(), start, before, lo, o)
    requires Done(g, cs, after, o, o + 1) && Kept(g.Count(), before, after, o, o + 1)
    ensures Done(g, cs, after, lo, o + 1) && Kept(g.Count(), start, after, lo, o + 1)
  {
    hide Sample;
    var n := g.Count();
    forall p: nat | p < n && !(lo <= p < o + 1) ensures SamePixel(n, start, after, p) {
      assert SamePixel(n, start, before, p) && SamePixel(n, before, after, p);
    }
    forall p: nat | lo <= p < o + 1 && p < g.Count() ensures Whole(g, cs, after, p) {
      if p < o {
        assert SamePixel(n, before, after, p);
        assert Whole(g, cs, before, p);
      }
    }
  }

  lemma {:induction false} NothingDone(g: Image, cs: seq<Channel>, planes: seq<nat>, lo: nat)
    requires g.Readable() && |cs| == 3 && |planes| == 3 * g.Count()
    ensures Done(g, cs, planes, lo, lo) && Kept(g.Count(), planes, planes, lo, lo)
  {
  }

  /** Unpacks rows [first, end) into the planes. */
  method UnpackRows(g: Image, cs: seq<Channel>, first: nat, end: nat, planes: array<nat>)
    requires g.Readable() && |cs| == 3 && planes.Length == 3 * g.Count()
    requires first <= end <= g.height
    modifies planes
    ensures Done(g, cs, planes[..], first * g.width, end * g.width)
    ensures Kept(g.Count(), old(planes[..]), planes[..], first * g.width, end * g.width)
  {
    hide Whole, SamePixel;
    ghost var lo := first * g.width;
    ghost var start := planes[..];
    NothingDone(g, cs, start, lo);
    hide Done, Kept;
    for y := first to end
      invariant lo <= y * g.width
      invariant Done(g, cs, planes[..], lo, y * g.width)
      invariant Kept(g.Count(), start, planes[..], lo, y * g.width)
    {
      RowsFit(g.width, g.height, y);
      Times(first, y, g.width);
      ghost var row := y * g.width;
      assert row + g.width == (y + 1) * g.width;
      for x := 0 to g.width
        invariant Done(g, cs, planes[..], lo, row + x)
        invariant Kept(g.Count(), start, planes[..], lo, row + x)
      {
        ghost var before := planes[..];
        StorePixel(g, cs, y, x, planes);
        Further(g, cs, start, before, planes[..], lo, row + x);
      }
    }
  }

  method UnpackSingle(g: Image, cs: seq<Channel>, planes: array<nat>)
    requires g.Readable() && |cs| == 3 && planes.Length == 3 * g.Count()
    modifies planes
    ensures planes[..] == Planar(g, cs)
  {
    hide Whole;
    UnpackRows(g, cs, 0, g.height, planes);
    AllDone(g, cs, planes[..]);
  }

  // ------------------------------------------------------------- the worker threads

  /** Worker i of `threads` unpacks rows [First(i), First(i + 1)). */
  function First(height: nat, threads: nat, i: nat): nat
    requires threads > 0
  {
    height * i / threads
  }

  lemma {:induction false} Monotone(a: nat, b: nat, d: nat)
    requires a <= b && d > 0
    ensures a / d <= b / d
  {
    var p, q := a / d, b / d;
    assert p > q ==> d * (q + 1) <= d * p;
  }

  lemma {:induction false} FirstOrder(height: nat, threads: nat, i: nat, j: nat)
    requires i <= j <= threads && threads > 0
    ensures First(height, threads, i) <= First(height, threads, j)
  {
    assert height * i <= height * j;
    Monotone(height * i, height * j, threads);
  }

  lemma {:induction false} FirstEnds(height: nat, threads: nat)
    requires threads > 0
    ensures First(height, threads, 0) == 0 && First(height, threads, threads) == height
  {
    var q := height * threads / threads;
    assert q < height ==> (q + 1) * threads <= height * threads;
    assert q > height ==> (height + 1) * threads <= q * threads;
  }

  ghost predicate Owns(height: nat, threads: nat, i: nat, y: nat)
    requires i < threads
  {
    First(height, threads, i) <= y < First(height, threads, i + 1)
  }

  lemma {:induction false} Owner(height: nat, threads: nat, y: nat, i: nat) returns (worker: nat)
    requires i <= threads && threads > 0 && y < First(height, threads, i)
    ensures worker < i && Owns(height, threads, worker, y)
  {
    FirstEnds(height, threads);
    assert i > 0;
    if First(height, threads, i - 1) <= y {
      worker := i - 1;
    } else {
      worker := Owner(height, threads, y, i - 1);
    }
  }

  /** The row ranges of the workers partition the rows: every row has exactly one
      worker, whatever the height and the number of threads. */
  lemma {:induction false} RowsHaveOneWorker(height: nat, threads: nat, y: nat)
    requires threads > 0
    ensures y < height <==> exists i: nat :: i < threads && Owns(height, threads, i, y)
    ensures forall i: nat, j: nat | i < threads && j < threads
              && Owns(height, threads, i, y) && Owns(height, threads, j, y) :: i == j
  {
    hide First;
    FirstEnds(height, threads);
    if y < height {
      var i := Owner(height, threads, y, threads);
    }
    forall i: nat | i < threads && Owns(height, threads, i, y) ensures y < height {
      FirstOrder(height, threads, i + 1, threads);
    }
    forall i: nat, j: nat | i < j < threads && Owns(height, threads, i, y) && Owns(height, threads, j, y)
      ensures false
    {
      FirstOrder(height, threads, i + 1, j);
    }
  }

  // The workers may interleave in any way: a step is one store by any worker that has
  // not finished.  Worker i does the stores Begin(g, threads, i) up to its End.

  function Begin(g: Image, threads: nat, i: nat): nat
    requires threads > 0
  {
    3 * (First(g.height, threads, i) * g.width)
  }

  predicate Unfinished(g: Image, threads: nat, next: seq<nat>, i: nat)
    requires threads > 0
  {
    i < |next| && next[i] < Begin(g, threads, i + 1)
  }

  lemma {:induction false} RangesApart(g: Image, threads: nat, i: nat, j: nat)
    requires i <= j <= threads && threads > 0
    ensures Begin(g, threads, i) <= Begin(g, threads, j) && Begin(g, threads, j) % 3 == 0
    ensures Begin(g, threads, 0) == 0 && Begin(g, threads, threads) == 3 * g.Count()
  {
    FirstOrder(g.height, threads, i, j);
    FirstEnds(g.height, threads);
    hide First;
    Times(First(g.height, threads, i), First(g.height, threads, j), g.width);
    assert 0 * g.width == 0;
  }

  /** Every store below next[i] of worker i has happened, and no other. */
  ghost predicate Progress(g: Image, cs: seq<Channel>, threads: nat, planes: seq<nat>, next: seq<nat>)
    requires g.Readable() && |cs| == 3 && |planes| == 3 * g.Count() && threads > 0
  {
    && |next| == threads
    && (forall i: nat | i < threads :: Begin(g, threads, i) <= next[i] <= Begin(g, threads, i + 1))
    && (forall i: nat, o: nat | i < threads && Begin(g, threads, i) <= 3 * o < Begin(g, threads, i + 1)
        && o < g.Count() ::
          Stored(g, cs, planes, o, next[i]))
  }

  lemma {:induction false} WorkerStep(g: Image, cs: seq<Channel>, threads: nat, planes: seq<nat>, next: seq<nat>,
                                      w: nat)
    requires g.Readable() && |cs| == 3 && |planes| == 3 * g.Count() && threads > 0
    requires Progress(g, cs, threads, planes, next) && Unfinished(g, threads, next, w)
    ensures next[w] < 3 * g.Count()
    ensures Progress(g, cs, threads, Store(g, cs, planes, next[w]), next[w := next[w] + 1])
  {
    hide Stored, Store, Begin;
    RangesApart(g, threads, w + 1, threads);
    var t, after := next[w], next[w := next[w] + 1];
    forall i: nat, o: nat | i < threads && Begin(g, threads, i) <= 3 * o < Begin(g, threads, i + 1) && o < g.Count()
      ensures Stored(g, cs, Store(g, cs, planes, t), o, after[i])
    {
      if i < w {
        RangesApart(g, threads, i + 1, w);
      } else if i > w {
        RangesApart(g, threads, w + 1, i);
      }
      StoreStep(g, cs, planes, t, o, next[i]);
    }
  }

  /** When no worker has a step left, the planes are complete. */
  lemma {:induction false} AllFinished(g: Image, cs: seq<Channel>, threads: nat, planes: seq<nat>, next: seq<nat>)
    requires g.Readable() && |cs| == 3 && |planes| == 3 * g.Count() && threads > 0
    requires Progress(g, cs, threads, planes, next) && forall i: nat :: !Unfinished(g, threads, next, i)
    ensures planes == Planar(g, cs)
  {
    hide Stored;
    forall o: nat | o < g.Count() ensures Whole(g, cs, planes, o) {
      PixelAt(g.width, g.height, o);
      var y := o / g.width;
      RowsHaveOneWorker(g.height, threads, y);
      var i: nat :| i < threads && Owns(g.height, threads, i, y);
      OwnerStores(g, threads, i, o);
      assert !Unfinished(g, threads, next, i);
      StoredFurther(g, cs, planes, o, next[i]);
    }
    AllDone(g, cs, planes);
  }

  lemma {:induction false} OwnerStores(g: Image, threads: nat, i: nat, o: nat)
    requires threads > 0 && i < threads && g.width > 0 && Owns(g.height, threads, i, o / g.width)
    ensures Begin(g, threads, i) <= 3 * o && 3 * o + 3 <= Begin(g, threads, i + 1)
  {
    hide First;
    RowHolds(g.width, o, o / g.width, First(g.height, threads, i), First(g.height, threads, i + 1));
  }

  lemma {:induction false} RowHolds(w: nat, o: nat, y: nat, lo: nat, hi: nat)
    requires w > 0 && y == o / w && lo <= y < hi
    ensures lo * w <= o && o + 1 <= hi * w
  {
    var x := o % w;
    assert o == y * w + x;
    Times(lo, y, w);
    Times(y + 1, hi, w);
    assert (y + 1) * w == y * w + w;
  }

  lemma {:induction false} Times(a: nat, b: nat, w: nat)
    requires a <= b
    ensures a * w <= b * w
  {
    assert (b - a) * w >= 0;
    assert b * w == a * w + (b - a) * w;
  }

  lemma {:induction false} StoredFurther(g: Image, cs: seq<Channel>, planes: seq<nat>, o: nat, t: nat)
    requires g.Readable() && |cs| == 3 && |planes| == 3 * g.Count() && o < g.Count()
    requires Stored(g, cs, planes, o, t) && t >= 3 * o + 3
    ensures Whole(g, cs, planes, o)
  {
  }

  lemma {:induction false} Launched(g: Image, cs: seq<Channel>, threads: nat, planes: seq<nat>, next: seq<nat>)
    requires g.Readable() && |cs| == 3 && |planes| == 3 * g.Count() && threads > 0
    requires |next| == threads && forall i | 0 <= i < threads :: next[i] == Begin(g, threads, i)
    ensures Progress(g, cs, threads, planes, next)
  {
    hide Begin;
    forall i: nat | i < threads ensures Begin(g, threads, i) <= Begin(g, threads, i + 1) {
      RangesApart(g, threads, i, i + 1);
    }
  }

  ghost function Upto(n: nat): (s: set<nat>)
    ensures forall t: nat :: t in s <==> t < n
  {
    if n == 0 then {} else Upto(n - 1) + {n - 1}
  }

  /** Store t is still to be done by worker i. */
  ghost predicate Pending(g: Image, threads: nat, next: seq<nat>, i: nat, t: nat)
    requires threads > 0 && i < |next|
  {
    next[i] <= t < Begin(g, threads, i + 1)
  }

  lemma {:induction false} NextIsOwn(g: Image, cs: seq<Channel>, threads: nat, planes: seq<nat>, next: seq<nat>,
                                     w: nat, i: nat)
    requires g.Readable() && |cs| == 3 && |planes| == 3 * g.Count() && threads > 0
    requires Progress(g, cs, threads, planes, next) && Unfinished(g, threads, next, w) && i < threads
    ensures Pending(g, threads, next, i, next[w]) ==> i == w
  {
    hide Begin, Stored;
    if i < w {
      RangesApart(g, threads, i + 1, w);
    } else if i > w {
      RangesApart(g, threads, w + 1, i);
    }
  }

  method DoStore(g: Image, cs: seq<Channel>, t: nat, planes: array<nat>)
    requires g.Readable() && |cs| == 3 && planes.Length == 3 * g.Count() && t < 3 * g.Count()
    modifies planes
    ensures planes[..] == Store(g, cs, old(planes[..]), t)
  {
    hide UnpackCode, Image.Pixel;
    var n, o := g.Count(), t / 3;
    PixelAt(g.width, g.height, o);
    var pixel := g.Pixel(o / g.width, o % g.width);
    if t % 3 == 0 {
      planes[2 * n + o] := UnpackCode(cs[0], pixel) % 0x1_0000;
    } else if t % 3 == 1 {
      planes[o] := UnpackCode(cs[1], pixel) % 0x1_0000;
    } else {
      planes[n + o] := UnpackCode(cs[2], pixel) % 0x1_0000;
    }
  }

  lemma {:induction false} LessPending(g: Image, cs: seq<Channel>, threads: nat, planes: seq<nat>, next: seq<nat>,
                                       w: nat, after: seq<nat>, todo: set<nat>)
    requires g.Readable() && |cs| == 3 && |planes| == 3 * g.Count() && threads > 0
    requires Progress(g, cs, threads, planes, next) && Unfinished(g, threads, next, w)
    requires after == next[w := next[w] + 1]
    requires forall i: nat, t: nat | i < threads && Pending(g, threads, next, i, t) :: t in todo
    ensures forall i: nat, u: nat | i < threads && Pending(g, threads, after, i, u) :: u in todo - {next[w]}
  {
    hide Stored, Begin;
    forall i: nat, u: nat | i < threads && Pending(g, threads, after, i, u)
      ensures u in todo && u != next[w]
    {
      assert Pending(g, threads, next, i, u);
      NextIsOwn(g, cs, threads, planes, next, w, i);
    }
  }

  /** The threads leave in the planes what the serial loop leaves there, whatever the
      order in which their stores happen. */
  method UnpackParallel(g: Image, cs: seq<Channel>, threads: nat, planes: array<nat>)
    requires g.Readable() && |cs| == 3 && planes.Length == 3 * g.Count()
    modifies planes
    ensures threads > 0 ==> planes[..] == Planar(g, cs)
    ensures threads == 0 ==> planes[..] == old(planes[..])
  {
    hide Stored, Store, Begin, Planar;
    if threads == 0 {
      return;
    }
    var next: seq<nat> := seq(threads, i requires 0 <= i < threads => Begin(g, threads, i));
    ghost var todo := Upto(3 * g.Count());
    Launched(g, cs, threads, planes[..], next);
    forall i: nat, t: nat | i < threads && Pending(g, threads, next, i, t) ensures t in todo {
      RangesApart(g, threads, i + 1, threads);
    }
    while exists w: nat :: w < threads && Unfinished(g, threads, next, w)
      invariant Progress(g, cs, threads, planes[..], next)
      invariant forall i: nat, t: nat | i < threads && Pending(g, threads, next, i, t) :: t in todo
      decreases |todo|
    {
      var w: nat :| w < threads && Unfinished(g, threads, next, w);
      var t := next[w];
      assert Pending(g, threads, next, w, t);
      WorkerStep(g, cs, threads, planes[..], next, w);
      LessPending(g, cs, threads, planes[..], next, w, next[w := t + 1], todo);
      DoStore(g, cs, t, planes);
      next := next[w := t + 1];
      todo := todo - {t};
    }
    AllFinished(g, cs, threads, planes[..], next);
  }
}
