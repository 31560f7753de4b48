/**
  Decoding of the "caught signals" field of a process status record
  (`SigCgt` in /proc/<pid>/status): a fixed-width hexadecimal bit mask,
  most significant digit first, where bit p set means signal p + 1 has a
  handler installed.

  The decoder itself is not part of this model's source; its behaviour is
  the one fixed by the table test `Test_decodeMask`: the mask is parsed as
  an unsigned 64-bit number and only its low 32 bits produce signals, in
  ascending order.
 */
module ProcStatus {
  import opened Wrappers

  /** 2^64: one more than the largest value an unsigned 64-bit parse accepts. */
  const Uint64Limit: nat := 0x1_0000_0000_0000_0000
  /** Number of low-order mask bits that yield signals. */
  const ConsideredBits: nat := 32

  function Pow2(k: nat): (r: nat)
    ensures r >= 1
  {
    if k == 0 then 1 else 2 * Pow2(k - 1)
  }

  function Pow16(k: nat): (r: nat)
    ensures r >= 1
  {
    if k == 0 then 1 else 16 * Pow16(k - 1)
  }

  /** Value of one hexadecimal digit, either case, as Go's strconv accepts it. */
  function HexDigit(ch: char): (d: Option<nat>)
    ensures d.Some? ==> d.value < 16
  {
    if '0' <= ch <= '9' then Some(ch as nat - '0' as nat)
    else if 'a' <= ch <= 'f' then Some(ch as nat - 'a' as nat + 10)
    else if 'A' <= ch <= 'F' then Some(ch as nat - 'A' as nat + 10)
    else None
  }

  predicate IsHex(s: string)
  {
    forall k :: 0 <= k < |s| ==> HexDigit(s[k]).Some?
  }

  /** Big-endian value of a string of hexadecimal digits; None on any other character. */
  function ParseHex(s: string): (r: Option<nat>)
    ensures r.Some? <==> IsHex(s)
    ensures r.Some? ==> r.value < Pow16(|s|)
  {
    if |s| == 0 then Some(0)
    else
      var init := s[..|s| - 1];
      assert forall k :: 0 <= k < |init| ==> init[k] == s[k];
      var high, low := ParseHex(init), HexDigit(s[|s| - 1]);
      if high.Some? && low.Some? then Some(high.value * 16 + low.value) else None
  }

  /** Bit `i` of `v` (bit 0 is the least significant). */
  predicate Bit(v: nat, i: nat)
  {
    if i == 0 then v % 2 == 1 else Bit(v / 2, i - 1)
  }

  predicate StrictlyAscending(s: seq<int>)
  {
    forall i, j :: 0 <= i < j < |s| ==> s[i] < s[j]
  }

  /** Signals base+1 .. base+k for the set bits among the `k` low bits of `v`, ascending. */
  function SignalsOf(v: nat, k: nat, base: nat): seq<int>
    decreases k
  {
    if k == 0 then []
    else
      var rest := SignalsOf(v / 2, k - 1, base + 1);
      if v % 2 == 1 then [base + 1] + rest else rest
  }

  /** The signals listed lie in the window base+1 .. base+k and ascend strictly. */
  lemma {:induction false} SignalsOfAscending(v: nat, k: nat, base: nat)
    ensures forall x :: x in SignalsOf(v, k, base) ==> base < x <= base + k
    ensures StrictlyAscending(SignalsOf(v, k, base))
    decreases k
  {
    if k > 0 {
      SignalsOfAscending(v / 2, k - 1, base + 1);
      var rest := SignalsOf(v / 2, k - 1, base + 1);
      assert forall j :: 0 <= j < |rest| ==> rest[j] in rest;
    }
  }

  /** `v` shifted right by `k` bits. */
  function Shr(v: nat, k: nat): nat
  {
    if k == 0 then v else Shr(v / 2, k - 1)
  }

  /** `decodeMask`: hexadecimal mask to the ascending list of caught signal numbers. */
  function DecodeMask(mask: string): (r: Result<seq<int>>)
    ensures r.Ok? <==> |mask| > 0 && IsHex(mask) && ParseHex(mask).value < Uint64Limit
    ensures r.Ok? ==> StrictlyAscending(r.value)
    ensures r.Ok? ==> forall n :: n in r.value ==> 1 <= n <= ConsideredBits
  {
    if |mask| == 0 then Err("strconv.ParseUint: parsing \"\": invalid syntax")
    else match ParseHex(mask)
      case None => Err("strconv.ParseUint: invalid syntax")
      case Some(v) =>
        if v >= Uint64Limit then Err("strconv.ParseUint: value out of range")
        else
          SignalsOfAscending(v, ConsideredBits, 0);
          Ok(SignalsOf(v, ConsideredBits, 0))
  }

  /** Signal n is listed exactly when it lies in the window and its bit is set. */
  lemma {:induction false} SignalsOfMember(v: nat, k: nat, base: nat, n: int)
    ensures n in SignalsOf(v, k, base) <==> base < n <= base + k && Bit(v, n - base - 1)
    decreases k
  {
    if k > 0 {
      SignalsOfMember(v / 2, k - 1, base + 1, n);
      if n == base + 1 {
        assert n !in SignalsOf(v / 2, k - 1, base + 1);
      } else if base + 1 < n {
        assert Bit(v, n - base - 1) == Bit(v / 2, n - (base + 1) - 1);
      }
    }
  }

  /** Bits above the low `k` never contribute. */
  lemma {:induction false} HighBitsIgnored(hi: nat, lo: nat, k: nat, base: nat)
    requires lo < Pow2(k)
    ensures SignalsOf(hi * Pow2(k) + lo, k, base) == SignalsOf(lo, k, base)
    decreases k
  {
    if k > 0 {
      var p := Pow2(k - 1);
      var m := hi * p;
      assert hi * Pow2(k) == 2 * m;
      var v := hi * Pow2(k) + lo;
      assert v == 2 * m + lo;
      assert v % 2 == lo % 2;
      assert v / 2 == m + lo / 2;
      HighBitsIgnored(hi, lo / 2, k - 1, base + 1);
    }
  }

  /** The caught-signal set a mask value describes: n is caught iff bit n-1 is set. */
  ghost function CaughtSet(v: nat): set<int>
  {
    set i | 0 <= i < ConsideredBits && Bit(v, i) :: i + 1
  }

  /** A strictly ascending list has as many entries as distinct elements. */
  lemma {:induction false} AscendingCard(s: seq<int>)
    requires StrictlyAscending(s)
    ensures |set x | x in s| == |s|
  {
    if |s| > 0 {
      var t := s[1..];
      assert StrictlyAscending(t);
      AscendingCard(t);
      assert (set x | x in s) == {s[0]} + (set x | x in t);
      assert s[0] !in (set x | x in t);
    }
  }

  /**
    The decoded list holds exactly the caught set, so its length is the
    number of set bits among the 32 considered ones, and the upper 32 bits
    of the mask never matter.
   */
  lemma DecodeMaskMeaning(mask: string)
    requires DecodeMask(mask).Ok?
    ensures var v := ParseHex(mask).value;
      && (set x | x in DecodeMask(mask).value) == CaughtSet(v)
      && |DecodeMask(mask).value| == |CaughtSet(v)|
      && DecodeMask(mask).value == SignalsOf(v % Pow2(ConsideredBits), ConsideredBits, 0)
  {
    var v := ParseHex(mask).value;
    var r := DecodeMask(mask).value;
    assert r == SignalsOf(v, ConsideredBits, 0);
    forall n | n in r ensures n in CaughtSet(v) {
      SignalsOfMember(v, ConsideredBits, 0, n);
    }
    forall n | n in CaughtSet(v) ensures n in r {
      SignalsOfMember(v, ConsideredBits, 0, n);
    }
    AscendingCard(r);
    LowBitsOnly(v, ConsideredBits, 0);
  }

  lemma LowBitsOnly(v: nat, k: nat, base: nat)
    ensures SignalsOf(v, k, base) == SignalsOf(v % Pow2(k), k, base)
  {
    var w := Pow2(k);
    EuclidDivMod(v, w);
    var q: nat, r: nat := v / w, v % w;
    HighBitsIgnored(q, r, k, base);
  }

  lemma EuclidDivMod(v: nat, w: nat)
    requires w > 0
    ensures 0 <= v / w && 0 <= v % w < w && v == (v / w) * w + v % w
  {
  }

  lemma {:induction false} Pow16Add(a: nat, b: nat)
    ensures Pow16(a + b) == Pow16(a) * Pow16(b)
    decreases a
  {
    if a > 0 {
      Pow16Add(a - 1, b);
      assert Pow16(a + b) == 16 * Pow16(a - 1 + b);
      assert 16 * (Pow16(a - 1) * Pow16(b)) == (16 * Pow16(a - 1)) * Pow16(b);
    }
  }

  /** Every 16-digit hexadecimal mask (the width the kernel prints) decodes. */
  lemma WellFormedMaskDecodes(mask: string)
    requires |mask| == 16 && IsHex(mask)
    ensures DecodeMask(mask).Ok?
  {
    assert Pow16(8) == 0x1_0000_0000;
    Pow16Add(8, 8);
  }

  lemma IsHexConcat(a: string, b: string)
    requires IsHex(a) && IsHex(b)
    ensures IsHex(a + b)
  {
    var s := a + b;
    forall k | 0 <= k < |s| ensures HexDigit(s[k]).Some? {
      if k < |a| { assert s[k] == a[k]; } else { assert s[k] == b[k - |a|]; }
    }
  }

  lemma IsHexPrefix(b: string, n: nat)
    requires IsHex(b) && n <= |b|
    ensures IsHex(b[..n])
  {
    var init := b[..n];
    forall k | 0 <= k < |init| ensures HexDigit(init[k]).Some? { assert init[k] == b[k]; }
  }

  /** Parsing a concatenation combines the two values positionally. */
  lemma {:induction false} ParseHexConcat(a: string, b: string)
    requires IsHex(a) && IsHex(b)
    ensures IsHex(a + b)
    ensures ParseHex(a + b) == Some(ParseHex(a).value * Pow16(|b|) + ParseHex(b).value)
    decreases |b|
  {
    var s := a + b;
    IsHexConcat(a, b);
    if |b| > 0 {
      var init := b[..|b| - 1];
      IsHexPrefix(b, |b| - 1);
      ParseHexConcat(a, init);
      assert s[..|s| - 1] == a + init;
      assert s[|s| - 1] == b[|b| - 1];
      var va, vi, d := ParseHex(a).value, ParseHex(init).value, HexDigit(b[|b| - 1]).value;
      var p := Pow16(|init|);
      assert Pow16(|b|) == 16 * p;
      ParseHexSnoc(b);
      ParseHexSnoc(s);
      ShiftDigit(va, p, vi, d);
    } else {
      assert s == a;
    }
  }

  lemma ParseHexSnoc(s: string)
    requires |s| > 0 && IsHex(s)
    ensures ParseHex(s).value == ParseHex(s[..|s| - 1]).value * 16 + HexDigit(s[|s| - 1]).value
  {
  }

  lemma ShiftDigit(va: nat, p: nat, vi: nat, d: nat)
    ensures (va * p + vi) * 16 + d == va * (16 * p) + (vi * 16 + d)
  {
  }

  /** Decoding `k1 + k2` bits is decoding the low `k1`, then the rest shifted down. */
  lemma {:induction false} SignalsOfConcat(v: nat, k1: nat, k2: nat, base: nat)
    ensures SignalsOf(v, k1 + k2, base) == SignalsOf(v, k1, base) + SignalsOf(Shr(v, k1), k2, base + k1)
    decreases k1
  {
    if k1 > 0 {
      SignalsOfConcat(v / 2, k1 - 1, k2, base + 1);
    }
  }

  /** The four 8-digit halves that occur in the table test. */
  lemma ParseWordFffffffe()
    ensures ParseHex("fffffffe") == Some(0xfffffffe)
  {
    assert Pow16(2) == 0x100 && Pow16(4) == 0x1_0000;
    assert ParseHex("ff") == Some(0xff) && ParseHex("fe") == Some(0xfe);
    ParseHexConcat("ff", "ff");
    ParseHexConcat("ff", "fe");
    assert "ff" + "ff" == "ffff" && "ff" + "fe" == "fffe";
    ParseHexConcat("ffff", "fffe");
    assert "ffff" + "fffe" == "fffffffe";
  }

  lemma ParseWord7ffbfeff()
    ensures ParseHex("7ffbfeff") == Some(0x7ffbfeff)
  {
    ParseHalf("7f", "fb", 0x7f, 0xfb);
    ParseHalf("fe", "ff", 0xfe, 0xff);
    assert "7f" + "fb" == "7ffb" && "fe" + "ff" == "feff";
    assert Pow16(4) == 0x1_0000;
    ParseHexConcat("7ffb", "feff");
    assert "7ffb" + "feff" == "7ffbfeff";
  }

  /** Two bytes of hexadecimal digits parse to the high byte times 256 plus the low one. */
  lemma ParseHalf(a: string, b: string, x: nat, y: nat)
    requires |a| == 2 && |b| == 2 && ParseHex(a) == Some(x) && ParseHex(b) == Some(y)
    ensures ParseHex(a + b) == Some(x * 0x100 + y)
  {
    assert Pow16(2) == 0x100;
    ParseHexConcat(a, b);
  }

  lemma ParseWordZero()
    ensures ParseHex("00000000") == Some(0)
  {
    assert Pow16(2) == 0x100 && Pow16(4) == 0x1_0000;
    assert ParseHex("00") == Some(0);
    ParseHexConcat("00", "00");
    assert "00" + "00" == "0000";
    ParseHexConcat("0000", "0000");
    assert "0000" + "0000" == "00000000";
  }

  lemma ParseWord280b2603()
    ensures ParseHex("280b2603") == Some(0x280b2603)
  {
    ParseHalf("28", "0b", 0x28, 0x0b);
    ParseHalf("26", "03", 0x26, 0x03);
    assert "28" + "0b" == "280b" && "26" + "03" == "2603";
    assert Pow16(4) == 0x1_0000;
    ParseHexConcat("280b", "2603");
    assert "280b" + "2603" == "280b2603";
  }

  /** Parsing the masks of the table test. */
  lemma ParseVector1()
    ensures ParseHex("fffffffe7ffbfeff") == Some(0xfffffffe7ffbfeff)
  {
    assert Pow16(8) == 0x1_0000_0000;
    ParseWordFffffffe();
    ParseWord7ffbfeff();
    ParseHexConcat("fffffffe", "7ffbfeff");
    assert "fffffffe" + "7ffbfeff" == "fffffffe7ffbfeff";
  }

  lemma ParseVector2()
    ensures ParseHex("00000000280b2603") == Some(0x280b2603)
  {
    assert Pow16(8) == 0x1_0000_0000;
    ParseWordZero();
    ParseWord280b2603();
    ParseHexConcat("00000000", "280b2603");
    assert "00000000" + "280b2603" == "00000000280b2603";
  }

  lemma ParseVector3()
    ensures ParseHex("0000000000000000") == Some(0)
  {
    assert Pow16(8) == 0x1_0000_0000;
    ParseWordZero();
    ParseWordZero();
    ParseHexConcat("00000000", "00000000");
    assert "00000000" + "00000000" == "0000000000000000";
  }

  /** `Shr` is division by a power of two. */
  lemma {:induction false} ShrDiv(v: nat, k: nat)
    ensures Shr(v, k) == v / Pow2(k)
    decreases k
  {
    if k > 0 {
      ShrDiv(v / 2, k - 1);
      HalveDiv(v, Pow2(k - 1));
    }
  }

  lemma HalveDiv(v: nat, b: nat)
    requires b > 0
    ensures v / 2 / b == v / (2 * b)
  {
    var q, r := v / 2, v % 2;
    var q2, r2 := q / b, q % b;
    assert q == b * q2 + r2;
    assert v == (2 * b) * q2 + (2 * r2 + r);
    DivUnique(v, 2 * b, q2, 2 * r2 + r);
  }

  lemma DivUnique(v: nat, d: nat, q: nat, r: nat)
    requires d > 0 && v == d * q + r && r < d
    ensures v / d == q
  {
    var q', r' := v / d, v % d;
    assert d * q' + r' == d * q + r;
    assert d * (q' - q) == r - r';
    if q' < q {
      MulAtLeast(d, q - q');
    } else if q' > q {
      MulAtLeast(d, q' - q);
    }
  }

  lemma MulAtLeast(d: nat, n: int)
    requires n >= 1
    ensures d * n >= d
  {
  }

  /** Decoding `4 + k` bits is decoding the lowest hexadecimal digit, then the rest. */
  lemma Nibble(v: nat, k: nat, base: nat)
    ensures SignalsOf(v, 4 + k, base) == SignalsOf(v % 16, 4, base) + SignalsOf(v / 16, k, base + 4)
  {
    SignalsOfConcat(v, 4, k, base);
    ShrDiv(v, 4);
    LowBitsOnly(v, 4, base);
    assert Pow2(4) == 16;
  }

  lemma SignalsVector1Digit28()
    ensures SignalsOf(0x7, 4, 28) == [29, 30, 31]
  {
  }

  lemma SignalsVector1From28(v: nat)
    requires v % 16 == 0x7
    ensures SignalsOf(v, 4, 28) == [29, 30, 31]
  {
    SignalsVector1Digit28();
    Nibble(v, 0, 28);
  }

  lemma SignalsVector1Digit24()
    ensures SignalsOf(0xf, 4, 24) == [25, 26, 27, 28]
  {
  }

  lemma SignalsVector1From24(v: nat)
    requires v % 16 == 0xf
    requires v / 16 % 16 == 0x7
    ensures SignalsOf(v, 8, 24) == [25, 26, 27, 28] + [29, 30, 31]
  {
    SignalsVector1From28(v / 16);
    SignalsVector1Digit24();
    Nibble(v, 4, 24);
  }

  lemma SignalsVector1Digit20()
    ensures SignalsOf(0xf, 4, 20) == [21, 22, 23, 24]
  {
  }

  lemma SignalsVector1From20(v: nat)
    requires v % 16 == 0xf
    requires v / 16 % 16 == 0xf
    requires v / 16 / 16 % 16 == 0x7
    ensures SignalsOf(v, 12, 20) == [21, 22, 23, 24] + ([25, 26, 27, 28] + [29, 30, 31])
  {
    SignalsVector1From24(v / 16);
    SignalsVector1Digit20();
    Nibble(v, 8, 20);
  }

  lemma SignalsVector1Digit16()
    ensures SignalsOf(0xb, 4, 16) == [17, 18, 20]
  {
  }

  lemma SignalsVector1From16(v: nat)
    requires v % 16 == 0xb
    requires v / 16 % 16 == 0xf
    requires v / 16 / 16 % 16 == 0xf
    requires v / 16 / 16 / 16 % 16 == 0x7
    ensures SignalsOf(v, 16, 16) == [17, 18, 20] + ([21, 22, 23, 24] + ([25, 26, 27, 28] + [29, 30, 31]))
  {
    SignalsVector1From20(v / 16);
    SignalsVector1Digit16();
    Nibble(v, 12, 16);
  }

  lemma SignalsVector1Digit12()
    ensures SignalsOf(0xf, 4, 12) == [13, 14, 15, 16]
  {
  }

  lemma SignalsVector1From12(v: nat)
    requires v % 16 == 0xf
    requires v / 16 % 16 == 0xb
    requires v / 16 / 16 % 16 == 0xf
    requires v / 16 / 16 / 16 % 16 == 0xf
    requires v / 16 / 16 / 16 / 16 % 16 == 0x7
    ensures SignalsOf(v, 20, 12) == [13, 14, 15, 16] + ([17, 18, 20] + ([21, 22, 23, 24] + ([25, 26, 27, 28] + [29, 30, 31])))
  {
    SignalsVector1From16(v / 16);
    SignalsVector1Digit12();
    Nibble(v, 16, 12);
  }

  lemma SignalsVector1Digit8()
    ensures SignalsOf(0xe, 4, 8) == [10, 11, 12]
  {
  }

  lemma SignalsVector1From8(v: nat)
    requires v % 16 == 0xe
    requires v / 16 % 16 == 0xf
    requires v / 16 / 16 % 16 == 0xb
    requires v / 16 / 16 / 16 % 16 == 0xf
    requires v / 16 / 16 / 16 / 16 % 16 == 0xf
    requires v / 16 / 16 / 16 / 16 / 16 % 16 == 0x7
    ensures SignalsOf(v, 24, 8) == [10, 11, 12] + ([13, 14, 15, 16] + ([17, 18, 20] + ([21, 22, 23, 24] + ([25, 26, 27, 28] + [29, 30, 31]))))
  {
    SignalsVector1From12(v / 16);
    SignalsVector1Digit8();
    Nibble(v, 20, 8);
  }

  lemma SignalsVector1Digit4()
    ensures SignalsOf(0xf, 4, 4) == [5, 6, 7, 8]
  {
  }

  lemma SignalsVector1From4(v: nat)
    requires v % 16 == 0xf
    requires v / 16 % 16 == 0xe
    requires v / 16 / 16 % 16 == 0xf
    requires v / 16 / 16 / 16 % 16 == 0xb
    requires v / 16 / 16 / 16 / 16 % 16 == 0xf
    requires v / 16 / 16 / 16 / 16 / 16 % 16 == 0xf
    requires v / 16 / 16 / 16 / 16 / 16 / 16 % 16 == 0x7
    ensures SignalsOf(v, 28, 4) == [5, 6, 7, 8] + ([10, 11, 12] + ([13, 14, 15, 16] + ([17, 18, 20] + ([21, 22, 23, 24] + ([25, 26, 27, 28] + [29, 30, 31])))))
  {
    SignalsVector1From8(v / 16);
    SignalsVector1Digit4();
    Nibble(v, 24, 4);
  }

  lemma SignalsVector1Digit0()
    ensures SignalsOf(0xf, 4, 0) == [1, 2, 3, 4]
  {
  }

  /** The low 32 bits of the first vector, one hexadecimal digit at a time. */
  lemma SignalsVector1(v: nat)
    requires v % 16 == 0xf
    requires v / 16 % 16 == 0xf
    requires v / 16 / 16 % 16 == 0xe
    requires v / 16 / 16 / 16 % 16 == 0xf
    requires v / 16 / 16 / 16 / 16 % 16 == 0xb
    requires v / 16 / 16 / 16 / 16 / 16 % 16 == 0xf
    requires v / 16 / 16 / 16 / 16 / 16 / 16 % 16 == 0xf
    requires v / 16 / 16 / 16 / 16 / 16 / 16 / 16 % 16 == 0x7
    ensures SignalsOf(v, 32, 0) == [1, 2, 3, 4] + ([5, 6, 7, 8] + ([10, 11, 12] + ([13, 14, 15, 16] + ([17, 18, 20] + ([21, 22, 23, 24] + ([25, 26, 27, 28] + [29, 30, 31]))))))
  {
    SignalsVector1From4(v / 16);
    SignalsVector1Digit0();
    Nibble(v, 28, 0);
  }

  /** The digit-by-digit lists of the vector, joined. */
  lemma Vector1Joined()
    ensures [1, 2, 3, 4] + ([5, 6, 7, 8] + ([10, 11, 12] + ([13, 14, 15, 16] + ([17, 18, 20] + ([21, 22, 23, 24] + ([25, 26, 27, 28] + [29, 30, 31])))))) ==
      [1, 2, 3, 4, 5, 6, 7, 8, 10, 11, 12, 13, 14, 15, 16, 17, 18, 20, 21, 22, 23, 24, 25, 26, 27, 28, 29, 30, 31]
  {
  }

  /** First vector of the table test: nothing above signal 31 although the upper half is 0xfffffffe. */
  lemma DecodeMaskVector1()
    ensures DecodeMask("fffffffe7ffbfeff") == Ok([1, 2, 3, 4, 5, 6, 7, 8, 10, 11, 12, 13, 14, 15, 16, 17, 18,
                                                  20, 21, 22, 23, 24, 25, 26, 27, 28, 29, 30, 31])
  {
    ParseVector1();
    DecodeMaskOf("fffffffe7ffbfeff", 0xfffffffe7ffbfeff);
    Vector1Digits();
    SignalsVector1(0xfffffffe7ffbfeff);
    Vector1Joined();
  }

  /** A mask that parses to a 64-bit value decodes to the signals of its low 32 bits. */
  lemma DecodeMaskOf(mask: string, v: nat)
    requires |mask| > 0 && ParseHex(mask) == Some(v) && v < Uint64Limit
    ensures DecodeMask(mask) == Ok(SignalsOf(v, ConsideredBits, 0))
  {
  }

  lemma Vector1Digits()
    ensures var v := 0xfffffffe7ffbfeff;
      && v % 16 == 0xf
      && v / 16 % 16 == 0xf
      && v / 16 / 16 % 16 == 0xe
      && v / 16 / 16 / 16 % 16 == 0xf
      && v / 16 / 16 / 16 / 16 % 16 == 0xb
      && v / 16 / 16 / 16 / 16 / 16 % 16 == 0xf
      && v / 16 / 16 / 16 / 16 / 16 / 16 % 16 == 0xf
      && v / 16 / 16 / 16 / 16 / 16 / 16 / 16 % 16 == 0x7
  {
  }

  lemma SignalsVector2Digit28()
    ensures SignalsOf(0x2, 4, 28) == [30]
  {
  }

  lemma SignalsVector2From28(v: nat)
    requires v % 16 == 0x2
    ensures SignalsOf(v, 4, 28) == [30]
  {
    SignalsVector2Digit28();
    Nibble(v, 0, 28);
  }

  lemma SignalsVector2Digit24()
    ensures SignalsOf(0x8, 4, 24) == [28]
  {
  }

  lemma SignalsVector2From24(v: nat)
    requires v % 16 == 0x8
    requires v / 16 % 16 == 0x2
    ensures SignalsOf(v, 8, 24) == [28] + [30]
  {
    SignalsVector2From28(v / 16);
    SignalsVector2Digit24();
    Nibble(v, 4, 24);
  }

  lemma SignalsVector2Digit20()
    ensures SignalsOf(0x0, 4, 20) == []
  {
  }

  lemma SignalsVector2From20(v: nat)
    requires v % 16 == 0x0
    requires v / 16 % 16 == 0x8
    requires v / 16 / 16 % 16 == 0x2
    ensures SignalsOf(v, 12, 20) == [] + ([28] + [30])
  {
    SignalsVector2From24(v / 16);
    SignalsVector2Digit20();
    Nibble(v, 8, 20);
  }

  lemma SignalsVector2Digit16()
    ensures SignalsOf(0xb, 4, 16) == [17, 18, 20]
  {
  }

  lemma SignalsVector2From16(v: nat)
    requires v % 16 == 0xb
    requires v / 16 % 16 == 0x0
    requires v / 16 / 16 % 16 == 0x8
    requires v / 16 / 16 / 16 % 16 == 0x2
    ensures SignalsOf(v, 16, 16) == [17, 18, 20] + ([] + ([28] + [30]))
  {
    SignalsVector2From20(v / 16);
    SignalsVector2Digit16();
    Nibble(v, 12, 16);
  }

  lemma SignalsVector2Digit12()
    ensures SignalsOf(0x2, 4, 12) == [14]
  {
  }

  lemma SignalsVector2From12(v: nat)
    requires v % 16 == 0x2
    requires v / 16 % 16 == 0xb
    requires v / 16 / 16 % 16 == 0x0
    requires v / 16 / 16 / 16 % 16 == 0x8
    requires v / 16 / 16 / 16 / 16 % 16 == 0x2
    ensures SignalsOf(v, 20, 12) == [14] + ([17, 18, 20] + ([] + ([28] + [30])))
  {
    SignalsVector2From16(v / 16);
    SignalsVector2Digit12();
    Nibble(v, 16, 12);
  }

  lemma SignalsVector2Digit8()
    ensures SignalsOf(0x6, 4, 8) == [10, 11]
  {
  }

  lemma SignalsVector2From8(v: nat)
    requires v % 16 == 0x6
    requires v / 16 % 16 == 0x2
    requires v / 16 / 16 % 16 == 0xb
    requires v / 16 / 16 / 16 % 16 == 0x0
    requires v / 16 / 16 / 16 / 16 % 16 == 0x8
    requires v / 16 / 16 / 16 / 16 / 16 % 16 == 0x2
    ensures SignalsOf(v, 24, 8) == [10, 11] + ([14] + ([17, 18, 20] + ([] + ([28] + [30]))))
  {
    SignalsVector2From12(v / 16);
    SignalsVector2Digit8();
    Nibble(v, 20, 8);
  }

  lemma SignalsVector2Digit4()
    ensures SignalsOf(0x0, 4, 4) == []
  {
  }

  lemma SignalsVector2From4(v: nat)
    requires v % 16 == 0x0
    requires v / 16 % 16 == 0x6
    requires v / 16 / 16 % 16 == 0x2
    requires v / 16 / 16 / 16 % 16 == 0xb
    requires v / 16 / 16 / 16 / 16 % 16 == 0x0
    requires v / 16 / 16 / 16 / 16 / 16 % 16 == 0x8
    requires v / 16 / 16 / 16 / 16 / 16 / 16 % 16 == 0x2
    ensures SignalsOf(v, 28, 4) == [] + ([10, 11] + ([14] + ([17, 18, 20] + ([] + ([28] + [30])))))
  {
    SignalsVector2From8(v / 16);
    SignalsVector2Digit4();
    Nibble(v, 24, 4);
  }

  lemma SignalsVector2Digit0()
    ensures SignalsOf(0x3, 4, 0) == [1, 2]
  {
  }

  /** The low 32 bits of the second vector, one hexadecimal digit at a time. */
  lemma SignalsVector2(v: nat)
    requires v % 16 == 0x3
    requires v / 16 % 16 == 0x0
    requires v / 16 / 16 % 16 == 0x6
    requires v / 16 / 16 / 16 % 16 == 0x2
    requires v / 16 / 16 / 16 / 16 % 16 == 0xb
    requires v / 16 / 16 / 16 / 16 / 16 % 16 == 0x0
    requires v / 16 / 16 / 16 / 16 / 16 / 16 % 16 == 0x8
    requires v / 16 / 16 / 16 / 16 / 16 / 16 / 16 % 16 == 0x2
    ensures SignalsOf(v, 32, 0) == [1, 2] + ([] + ([10, 11] + ([14] + ([17, 18, 20] + ([] + ([28] + [30]))))))
  {
    SignalsVector2From4(v / 16);
    SignalsVector2Digit0();
    Nibble(v, 28, 0);
  }

  /** The digit-by-digit lists of the vector, joined. */
  lemma Vector2Joined()
    ensures [1, 2] + ([] + ([10, 11] + ([14] + ([17, 18, 20] + ([] + ([28] + [30])))))) ==
      [1, 2, 10, 11, 14, 17, 18, 20, 28, 30]
  {
  }

  /** Second vector of the table test. */
  lemma DecodeMaskVector2()
    ensures DecodeMask("00000000280b2603") == Ok([1, 2, 10, 11, 14, 17, 18, 20, 28, 30])
  {
    ParseVector2();
    DecodeMaskOf("00000000280b2603", 0x280b2603);
    Vector2Digits();
    SignalsVector2(0x280b2603);
    Vector2Joined();
  }

  lemma Vector2Digits()
    ensures var v := 0x280b2603;
      && v % 16 == 0x3
      && v / 16 % 16 == 0x0
      && v / 16 / 16 % 16 == 0x6
      && v / 16 / 16 / 16 % 16 == 0x2
      && v / 16 / 16 / 16 / 16 % 16 == 0xb
      && v / 16 / 16 / 16 / 16 / 16 % 16 == 0x0
      && v / 16 / 16 / 16 / 16 / 16 / 16 % 16 == 0x8
      && v / 16 / 16 / 16 / 16 / 16 / 16 / 16 % 16 == 0x2
  {
  }

  /** A zero mask yields no signals, whatever the window. */
  lemma {:induction false} SignalsOfZero(k: nat, base: nat)
    ensures SignalsOf(0, k, base) == []
    decreases k
  {
    if k > 0 {
      SignalsOfZero(k - 1, base + 1);
    }
  }

  /** Third vector of the table test: an all-zero mask catches nothing. */
  lemma DecodeMaskVector3()
    ensures DecodeMask("0000000000000000") == Ok([])
  {
    ParseVector3();
    DecodeMaskOf("0000000000000000", 0);
    SignalsOfZero(32, 0);
  }
}
