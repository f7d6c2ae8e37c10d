/**
 Plane sizes of camera frames.  The macros round up with bit masks; the sizes
 sent to the application are rounded with divisions.
 */
module PlaneSizes {

  // ----- bit masks -----------------------------------------------------------------

  /** Bitwise and of two non-negative numbers. */
  function And(x: nat, m: nat): nat {
    if x == 0 || m == 0 then 0 else 2 * And(x / 2, m / 2) + (x % 2) * (m % 2)
  }

  function Pow2(n: nat): nat { if n == 0 then 1 else 2 * Pow2(n - 1) }

  /** The mask with bits k to n - 1 set. */
  function Mask(n: nat, k: nat): nat
    requires k <= n
  {
    if n == 0 then 0 else if k == 0 then 2 * Mask(n - 1, 0) + 1 else 2 * Mask(n - 1, k - 1)
  }

  /** The n lowest bits of a number. */
  function Low(x: nat, n: nat): nat { if n == 0 then 0 else 2 * Low(x / 2, n - 1) + x % 2 }

  lemma {:induction false} LowQuotient(x: nat, n: nat) returns (q: nat)
    ensures x == Pow2(n) * q + Low(x, n) && Low(x, n) < Pow2(n)
  {
    if n == 0 {
      q := x;
    } else {
      q := LowQuotient(x / 2, n - 1);
      assert Pow2(n) * q == 2 * (Pow2(n - 1) * q);
    }
  }

  /** Masking keeps the bits from k to n - 1. */
  lemma {:induction false} Masked(x: nat, n: nat, k: nat)
    requires k <= n
    ensures And(x, Mask(n, k)) == Low(x, n) - Low(x, k)
  {
    if n > 0 {
      var m := Mask(n, k);
      AndHalves(x, m);
      if k == 0 {
        assert m / 2 == Mask(n - 1, 0) && m % 2 == 1;
        Masked(x / 2, n - 1, 0);
      } else {
        assert m / 2 == Mask(n - 1, k - 1) && m % 2 == 0;
        Masked(x / 2, n - 1, k - 1);
      }
    }
  }

  lemma AndHalves(x: nat, m: nat)
    ensures And(x, m) == 2 * And(x / 2, m / 2) + (x % 2) * (m % 2)
  {
  }

  // ----- the macros ------------------------------------------------------------------

  function PadToWord(a: nat): nat { And(a + 3, 0xFFFF_FFFC) }

  function PadTo2K(a: nat): nat { And(a + 2047, 0xFFFF_F800) }

  /** The mask has sixteen bits, although the dimension has thirty-two. */
  function Ceiling16(x: nat): nat { And(x + 15, 0xFFF0) }

  /** The smallest multiples of 4, 2048 and 16 that are not below a number. */
  function Up4(a: nat): nat { (a + 3) / 4 * 4 }
  function Up2K(a: nat): nat { (a + 2047) / 2048 * 2048 }
  function Up16(a: nat): nat { (a + 15) / 16 * 16 }

  lemma Powers()
    ensures Pow2(2) == 4 && Pow2(4) == 16 && Pow2(11) == 2048 && Pow2(16) == 0x1_0000 && Pow2(32) == 0x1_0000_0000
  {
    assert Pow2(8) == 256 && Pow2(21) == 1024 * Pow2(11) && Pow2(26) == 1024 * Pow2(16);
  }

  lemma Masks()
    ensures Mask(32, 2) == 0xFFFF_FFFC && Mask(32, 11) == 0xFFFF_F800 && Mask(16, 4) == 0xFFF0
  {
    assert Mask(5, 0) == 31 && Mask(12, 0) == 0xFFF && Mask(21, 0) == 0x1F_FFFF && Mask(30, 0) == 0x3FFF_FFFF;
    assert Mask(26, 5) == 0x3FF_FFE0;
  }

  // Remainders from quotients, one power at a time.

  lemma By4(x: nat, q: nat, r: nat)
    requires x == 4 * q + r && r < 4
    ensures x % 4 == r
  {
  }

  lemma By16(x: nat, q: nat, r: nat)
    requires x == 16 * q + r && r < 16
    ensures x % 16 == r
  {
  }

  lemma By2048(x: nat, q: nat, r: nat)
    requires x == 2048 * q + r && r < 2048
    ensures x % 2048 == r
  {
  }

  lemma By16Bits(x: nat, q: nat, r: nat)
    requires x == 0x1_0000 * q + r && r < 0x1_0000
    ensures x % 0x1_0000 == r
  {
  }

  lemma By32Bits(x: nat, q: nat, r: nat)
    requires x == 0x1_0000_0000 * q + r && r < 0x1_0000_0000
    ensures x % 0x1_0000_0000 == r
  {
  }

  lemma Low4(x: nat)
    ensures Low(x, 2) == x % 4
  {
    Powers();
    var q := LowQuotient(x, 2);
    hide Low, Pow2;
    By4(x, q, Low(x, 2));
  }

  lemma Low16(x: nat)
    ensures Low(x, 4) == x % 16
  {
    Powers();
    var q := LowQuotient(x, 4);
    hide Low, Pow2;
    By16(x, q, Low(x, 4));
  }

  lemma Low2048(x: nat)
    ensures Low(x, 11) == x % 2048
  {
    Powers();
    var q := LowQuotient(x, 11);
    hide Low, Pow2;
    By2048(x, q, Low(x, 11));
  }

  lemma Low16Bits(x: nat)
    ensures Low(x, 16) == x % 0x1_0000
  {
    Powers();
    var q := LowQuotient(x, 16);
    hide Low, Pow2;
    By16Bits(x, q, Low(x, 16));
  }

  lemma Low32Bits(x: nat)
    ensures Low(x, 32) == x % 0x1_0000_0000
  {
    Powers();
    var q := LowQuotient(x, 32);
    hide Low, Pow2;
    By32Bits(x, q, Low(x, 32));
  }

  lemma UpRemainders(a: nat)
    ensures Up4(a) == (a + 3) - (a + 3) % 4
    ensures Up2K(a) == (a + 2047) - (a + 2047) % 2048
    ensures Up16(a) == (a + 15) - (a + 15) % 16
  {
  }

  /** Each macro keeps the bits of its mask. */
  lemma MacroRemainders(a: nat)
    ensures PadToWord(a) == (a + 3) % 0x1_0000_0000 - (a + 3) % 4
    ensures PadTo2K(a) == (a + 2047) % 0x1_0000_0000 - (a + 2047) % 2048
    ensures Ceiling16(a) == (a + 15) % 0x1_0000 - (a + 15) % 16
  {
    Masks();
    Masked(a + 3, 32, 2);
    Masked(a + 2047, 32, 11);
    Masked(a + 15, 16, 4);
    Low4(a + 3);
    Low32Bits(a + 3);
    Low2048(a + 2047);
    Low32Bits(a + 2047);
    Low16(a + 15);
    Low16Bits(a + 15);
    hide And, Low, Mask;
  }

  lemma Wrapped(x: nat, p: nat)
    requires p > 0
    ensures if x < p then x % p == x else x % p <= x - p
    ensures x % p < p
  {
    if x >= p {
      var q := x / p;
      assert x == p * q + x % p;
      assert q >= 1;
      assert p * q >= p;
    }
  }

  /** The padding macros round up to a word and to 2K exactly while the sum fits into 32 bits. */
  lemma PaddingRounds(a: nat)
    ensures PadToWord(a) == Up4(a) <==> a + 3 < 0x1_0000_0000
    ensures PadTo2K(a) == Up2K(a) <==> a + 2047 < 0x1_0000_0000
  {
    MacroRemainders(a);
    UpRemainders(a);
    Wrapped(a + 3, 0x1_0000_0000);
    Wrapped(a + 2047, 0x1_0000_0000);
    hide PadToWord, PadTo2K, Up4, Up2K;
  }

  /** CEILING16 rounds up to a multiple of sixteen exactly up to 65520; past that it loses at least 65536. */
  lemma CeilingRounds(x: nat)
    ensures Ceiling16(x) == Up16(x) <==> x <= 65520
    ensures Ceiling16(x) <= Up16(x) && (x > 65520 ==> Ceiling16(x) + 0x1_0000 <= Up16(x))
  {
    MacroRemainders(x);
    UpRemainders(x);
    Wrapped(x + 15, 0x1_0000);
    hide Ceiling16, Up16;
  }

  lemma PadBounds(a: nat)
    ensures PadTo2K(a) <= a + 2047
    ensures a + 2047 < 0x1_0000_0000 ==> a <= PadTo2K(a)
  {
    MacroRemainders(a);
    Wrapped(a + 2047, 0x1_0000_0000);
    Wrapped(a + 2047, 2048);
    hide PadTo2K;
  }

  lemma CeilingEven(x: nat) returns (half: nat)
    ensures Ceiling16(x) == 2 * half
  {
    AndHalves(x + 15, 0xFFF0);
    half := And((x + 15) / 2, 0x7FF8);
    hide And;
  }

  // ----- frame sizes -----------------------------------------------------------------

  datatype Format = NV12 | NV21 | YV12 | SBGGR10 | YUYV | NV16 | NV61 | OtherFormat

  /** The stream a frame is for: video, preview, snapshot or another one. */
  datatype Output = Video | Preview | Snapshot | OtherOutput

  function Area(w: nat, h: nat): nat { w * h }

  /** The planes of a two-dimensional frame. */
  function Planes(fmt: Format, out: Output, w: nat, h: nat): seq<nat> {
    match fmt
    case NV12 | NV21 =>
      (match out
       case Video => [PadTo2K(Area(w, h)), PadTo2K(Area(w, h) / 2)]
       case Preview => [PadToWord(Area(w, h)), PadToWord(Area(w, h) / 2)]
       case _ => [PadToWord(Area(w, Ceiling16(h))), PadToWord(Area(w, Ceiling16(h)) / 2)])
    case YV12 =>
      var chroma := PadTo2K(Area(Ceiling16(w / 2), h) / 2);
      [PadTo2K(Area(Ceiling16(w), h)), chroma, chroma]
    case SBGGR10 | YUYV => [PadToWord(Area(w, h))]
    case NV16 | NV61 => [PadToWord(Area(w, h)), PadToWord(Area(w, h))]
    case OtherFormat => []
  }

  function Sum(ns: seq<nat>): nat { if ns == [] then 0 else ns[0] + Sum(ns[1..]) }

  lemma Sums(a: nat, b: nat, c: nat)
    ensures Sum([]) == 0 && Sum([a]) == a && Sum([a, b]) == a + b && Sum([a, b, c]) == a + b + c
  {
    assert Sum([a]) == a + Sum([a][1..]) && [a][1..] == [];
    assert Sum([b]) == b + Sum([b][1..]) && [b][1..] == [];
    assert Sum([c]) == c + Sum([c][1..]) && [c][1..] == [];
    assert Sum([b, c]) == b + Sum([b, c][1..]) && [b, c][1..] == [c];
    assert Sum([a, b]) == a + Sum([a, b][1..]) && [a, b][1..] == [b];
    assert Sum([a, b, c]) == a + Sum([a, b, c][1..]) && [a, b, c][1..] == [b, c];
  }

  predicate HasThreeD(fmt: Format) { fmt == NV12 || fmt == NV21 || fmt == YV12 }

  /**
   mm_camera_get_msm_frame_len: in two dimensions the planes are those of the
   format and the length is their sum; in 3D mode only the first plane is set,
   and the length is the padded image and a half.
   */
  method FrameLen(fmt: Format, threeD: bool, w: nat, h: nat, out: Output, plane: array<nat>)
    returns (size: nat, num: nat)
    requires plane.Length >= 3
    modifies plane
    ensures !(threeD && HasThreeD(fmt)) ==>
              num == |Planes(fmt, out, w, h)| <= 3 && plane[..num] == Planes(fmt, out, w, h)
    ensures !(threeD && HasThreeD(fmt)) ==> size == Sum(Planes(fmt, out, w, h))
    ensures threeD && HasThreeD(fmt) ==> size == PadTo2K(Area(w, h)) * 3 / 2 && num == (if fmt == YV12 then 1 else 2)
    ensures threeD && HasThreeD(fmt) ==> plane[0] == PadToWord(Area(w, h))
    ensures forall i | 0 <= i < plane.Length && i >= num :: plane[i] == old(plane[i])
  {
    hide PadTo2K, PadToWord, Ceiling16, Area;
    num := 0;
    match fmt {
      case NV12 | NV21 =>
        num := 2;
        if threeD {
          size := PadTo2K(Area(w, h)) * 3 / 2;
          plane[0] := PadToWord(Area(w, h));
        } else {
          if out == Video {
            plane[0] := PadTo2K(Area(w, h));
            plane[1] := PadTo2K(Area(w, h) / 2);
          } else if out == Preview {
            plane[0] := PadToWord(Area(w, h));
            plane[1] := PadToWord(Area(w, h) / 2);
          } else {
            plane[0] := PadToWord(Area(w, Ceiling16(h)));
            plane[1] := PadToWord(Area(w, Ceiling16(h)) / 2);
          }
          size := plane[0] + plane[1];
        }
      case YV12 =>
        if threeD {
          num := 1;
          size := PadTo2K(Area(w, h)) * 3 / 2;
          plane[0] := PadToWord(Area(w, h));
        } else {
          num := 3;
          plane[0] := PadTo2K(Area(Ceiling16(w), h));
          plane[1] := PadTo2K(Area(Ceiling16(w / 2), h) / 2);
          plane[2] := PadTo2K(Area(Ceiling16(w / 2), h) / 2);
          size := plane[0] + plane[1] + plane[2];
        }
      case SBGGR10 | YUYV =>
        num := 1;
        plane[0] := PadToWord(Area(w, h));
        size := plane[0];
      case NV16 | NV61 =>
        num := 2;
        plane[0] := PadToWord(Area(w, h));
        plane[1] := PadToWord(Area(w, h));
        size := plane[0] + plane[1];
      case OtherFormat =>
        size := 0;
    }
    Sums(plane[0], plane[1], plane[2]);
    assert !(threeD && HasThreeD(fmt)) ==> plane[..num] == Planes(fmt, out, w, h);
  }

  /** The least multiple of the unit that has room for n bytes. */
  predicate Padded(size: nat, n: nat, unit: nat)
    requires unit > 0
  {
    n <= size < n + unit && size % unit == 0
  }

  lemma PaddedWhile(a: nat)
    ensures a + 3 < 0x1_0000_0000 ==> Padded(PadToWord(a), a, 4)
    ensures a + 2047 < 0x1_0000_0000 ==> Padded(PadTo2K(a), a, 2048)
  {
    hide Padded, PadToWord, PadTo2K, Up4, Up2K;
    PaddingRounds(a);
    UpPadded(a);
  }

  lemma UpPadded(a: nat)
    ensures Padded(Up4(a), a, 4) && Padded(Up2K(a), a, 2048)
  {
    By4(Up4(a), (a + 3) / 4, 0);
    By2048(Up2K(a), (a + 2047) / 2048, 0);
  }

  /** The lines of an NV12 or NV21 frame in memory: preview and video have no extra ones. */
  function Lines(out: Output, h: nat): nat { if out.Video? || out.Preview? then h else Up16(h) }

  /**
   While the sizes fit into 32 bits and the masked dimension into sixteen: what
   each plane of each format has room for, without a unit to spare.  Video and
   YV12 planes are in units of 2K, all others of a word; the chroma plane of NV12
   and NV21 is half the luma plane, that of NV16 and NV61 all of it.
   */
  lemma PlanesPadded(fmt: Format, out: Output, w: nat, h: nat)
    requires w <= 65520 && h <= 65520
    requires Area(w, Up16(h)) + 2047 < 0x1_0000_0000 && Area(Up16(w), h) + 2047 < 0x1_0000_0000
    ensures var p := Planes(fmt, out, w, h);
            match fmt
            case NV12 | NV21 =>
              var unit, area := if out.Video? then 2048 else 4, Area(w, Lines(out, h));
              |p| == 2 && Padded(p[0], area, unit) && Padded(p[1], area / 2, unit)
            case YV12 =>
              && |p| == 3 && Padded(p[0], Area(Up16(w), h), 2048)
              && p[1] == p[2] && Padded(p[1], Area(Up16(w / 2), h) / 2, 2048)
            case SBGGR10 | YUYV => |p| == 1 && Padded(p[0], Area(w, h), 4)
            case NV16 | NV61 => |p| == 2 && Padded(p[0], Area(w, h), 4) && Padded(p[1], Area(w, h), 4)
            case OtherFormat => p == []
  {
    AreasFit(w, h);
    CeilingRounds(w);
    CeilingRounds(w / 2);
    CeilingRounds(h);
    hide Padded, PadToWord, PadTo2K, Ceiling16, Up16, Area;
    PaddedWhile(Area(w, h));
    PaddedWhile(Area(w, h) / 2);
    PaddedWhile(Area(w, Up16(h)));
    PaddedWhile(Area(w, Up16(h)) / 2);
    PaddedWhile(Area(Up16(w), h));
    PaddedWhile(Area(Up16(w / 2), h) / 2);
  }

  lemma AreasFit(w: nat, h: nat)
    ensures Area(w, h) <= Area(w, Up16(h)) && Area(Up16(w / 2), h) <= Area(Up16(w), h)
  {
    assert h <= Up16(h) && Up16(w / 2) <= Up16(w);
    hide Up16;
    Products(h, Up16(h), 0, w);
    Products(Up16(w / 2), Up16(w), 0, h);
  }

  // ----- the size sent to the application ----------------------------------------------

  /** The size of a YV12 preview callback, rounded with divisions. */
  function Callback(w: nat, h: nat): nat { Up16(w) * h + Up16(w / 2) * h }

  lemma Products(a: nat, b: nat, gap: nat, h: nat)
    requires a + gap <= b
    ensures a * h + gap * h <= b * h
  {
    assert (b - a - gap) * h >= 0;
  }

  lemma EvenProduct(a: nat, half: nat, h: nat)
    requires a == 2 * half
    ensures a * h / 2 == half * h && a * h == 2 * (half * h)
  {
    assert a * h == 2 * (half * h);
  }

  lemma YV12Length(w: nat, h: nat)
    ensures Sum(Planes(YV12, Preview, w, h)) == PadTo2K(Ceiling16(w) * h) + 2 * PadTo2K(Ceiling16(w / 2) * h / 2)
  {
    hide Ceiling16, PadTo2K, Sum;
    var chroma := PadTo2K(Ceiling16(w / 2) * h / 2);
    Sums(PadTo2K(Ceiling16(w) * h), chroma, chroma);
  }

  /** The length of a YV12 frame exceeds its unpadded planes by less than three paddings. */
  lemma FrameBounds(w: nat, h: nat)
    requires Ceiling16(w) * h + Ceiling16(w / 2) * h + 2047 < 0x1_0000_0000
    ensures var n := Ceiling16(w) * h + Ceiling16(w / 2) * h;
            n <= Sum(Planes(YV12, Preview, w, h)) <= n + 3 * 2047
  {
    hide Ceiling16, PadTo2K, Sum, Planes;
    var half := CeilingEven(w / 2);
    EvenProduct(Ceiling16(w / 2), half, h);
    YV12Length(w, h);
    PadBounds(Ceiling16(w) * h);
    PadBounds(half * h);
  }

  /**
   A YV12 frame is long enough for its callback exactly when it has no lines or
   at most 65520 pixels in each, as long as the sizes fit into 32 bits; it is
   then longer by at most three paddings.
   */
  lemma CallbackFitsExactly(w: nat, h: nat)
    requires Callback(w, h) + 3 * 2047 < 0x1_0000_0000
    ensures Callback(w, h) <= Sum(Planes(YV12, Preview, w, h)) <==> w <= 65520 || h == 0
    ensures Sum(Planes(YV12, Preview, w, h)) <= Callback(w, h) + 3 * 2047
  {
    hide Up16, Ceiling16, Sum, Planes;
    CeilingRounds(w);
    CeilingRounds(w / 2);
    Products(Ceiling16(w), Up16(w), 0, h);
    Products(Ceiling16(w / 2), Up16(w / 2), 0, h);
    FrameBounds(w, h);
    if w > 65520 && h > 0 {
      Products(Ceiling16(w), Up16(w), 0x1_0000, h);
    }
  }
}
