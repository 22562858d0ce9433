/** The NTP timestamp codec of src/net/ntp.rs, lines 219-240 (the 64-bit format of
    section 6 of RFC 5905): seconds since 1900 and a binary fraction, both big-endian. */
module NtpCodec {
  import opened Wrappers

  newtype Byte = x: int | 0 <= x < 256

  const NTP_UNIX_TO_1900 := 2_208_988_800
  const NS_PER_SEC := 1_000_000_000
  const TWO_32 := 0x1_0000_0000
  const U32_MAX := 0xffff_ffff
  const FIVE_9 := 1_953_125

  // ----- big-endian words

  function ToBe(n: nat): (r: seq<Byte>)
    requires n < TWO_32
    ensures |r| == 4
  {
    [(n / 0x100_0000) as Byte, (n / 0x1_0000 % 0x100) as Byte, (n / 0x100 % 0x100) as Byte, (n % 0x100) as Byte]
  }

  function FromBe(b: seq<Byte>): (n: nat)
    requires |b| == 4
    ensures n < TWO_32
  {
    b[0] as int * 0x100_0000 + b[1] as int * 0x1_0000 + b[2] as int * 0x100 + b[3] as int
  }

  lemma BeRoundTrip(n: nat)
    requires n < TWO_32
    ensures FromBe(ToBe(n)) == n
  {
    var q := n / 0x100;
    var p := q / 0x100;
    assert n / 0x1_0000 == p && n / 0x100_0000 == p / 0x100;
    assert n == q * 0x100 + n % 0x100 && q == p * 0x100 + q % 0x100 && p == p / 0x100 * 0x100 + p % 0x100;
  }

  lemma BeRoundTripBytes(b: seq<Byte>)
    requires |b| == 4
    ensures ToBe(FromBe(b)) == b
  {
    var n := FromBe(b);
    assert n / 0x100_0000 == b[0] as int;
    assert n / 0x1_0000 == b[0] as int * 0x100 + b[1] as int;
    assert n / 0x100 == b[0] as int * 0x1_0000 + b[1] as int * 0x100 + b[2] as int;
  }

  // ----- fractions of a second

  /** Nanoseconds within a second to a 32-bit binary fraction, rounding down. */
  function NsToFrac(x: nat): (f: nat)
    requires x < NS_PER_SEC
    ensures f < TWO_32
  {
    x * TWO_32 / NS_PER_SEC
  }

  /** The other direction, also rounding down. */
  function FracToNs(f: nat): (x: nat)
    requires f < TWO_32
    ensures x < NS_PER_SEC
  {
    f * NS_PER_SEC / TWO_32
  }

  /** 2^23 and 5^9 are coprime: 3054701 * 5^9 - 711228 * 2^23 = 1. */
  lemma CoprimeFactor(x: int, f: int)
    requires f * FIVE_9 == x * 0x80_0000
    ensures x % FIVE_9 == 0
  {
    var k := 3_054_701 * x - 711_228 * f;
    assert x == k * FIVE_9;
    assert x / FIVE_9 == k;
  }

  lemma ExactQuotient(q: nat)
    ensures q * NS_PER_SEC / NS_PER_SEC == q
  {
  }

  lemma MultipleExact(x: nat)
    requires x < NS_PER_SEC && x % FIVE_9 == 0
    ensures NsToFrac(x) * NS_PER_SEC == x * TWO_32
  {
    var q := x / FIVE_9 * 0x80_0000;
    assert x == x / FIVE_9 * FIVE_9;
    assert x * TWO_32 == q * NS_PER_SEC;
    ExactQuotient(q);
  }

  /** The fraction is exact for the multiples of 5^9 nanoseconds and only for them. */
  lemma FracExact(x: nat)
    requires x < NS_PER_SEC
    ensures NsToFrac(x) * NS_PER_SEC == x * TWO_32 <==> x % FIVE_9 == 0
  {
    hide NsToFrac;
    if NsToFrac(x) * NS_PER_SEC == x * TWO_32 {
      CoprimeFactor(x, NsToFrac(x));
    }
    if x % FIVE_9 == 0 {
      MultipleExact(x);
    }
  }

  /** What a nanosecond count loses on its way through the fraction: nothing or one. */
  function Loss(x: nat): nat {
    if x % FIVE_9 == 0 then 0 else 1
  }

  lemma FracRoundTrip(x: nat)
    requires x < NS_PER_SEC
    ensures FracToNs(NsToFrac(x)) == x - Loss(x)
  {
    FracExact(x);
    var f := NsToFrac(x);
    assert 0 <= x * TWO_32 - f * NS_PER_SEC < NS_PER_SEC;
  }

  /** In the other direction the fraction drops by between zero and five units. */
  lemma FracReverse(f: nat)
    requires f < TWO_32
    ensures f - 5 <= NsToFrac(FracToNs(f)) <= f
  {
    var x := FracToNs(f);
    assert 0 <= f * NS_PER_SEC - x * TWO_32 < TWO_32;
  }

  lemma FracIncreasing(x: nat, y: nat)
    requires x < y < NS_PER_SEC
    ensures NsToFrac(x) < NsToFrac(y)
  {
  }

  // ----- timestamps

  /** The wire seconds, saturating at the end of the 32-bit era. */
  function WireSeconds(ns: nat): (s: nat)
    ensures s < TWO_32
  {
    var ntpSec := ns / NS_PER_SEC + NTP_UNIX_TO_1900;
    if ntpSec < TWO_32 then ntpSec else U32_MAX
  }

  predicate InEra(ns: nat) {
    ns / NS_PER_SEC + NTP_UNIX_TO_1900 < TWO_32
  }

  function Encode(ns: nat): (b: seq<Byte>)
    ensures |b| == 8
  {
    ToBe(WireSeconds(ns)) + ToBe(NsToFrac(ns % NS_PER_SEC))
  }

  /** Unix nanoseconds of a wire timestamp; all zeros stands for "not set". */
  function FromWire(secs: nat, frac: nat): int
    requires frac < TWO_32
  {
    if secs == 0 && frac == 0 then 0
    else (secs - NTP_UNIX_TO_1900) * NS_PER_SEC + FracToNs(frac)
  }

  function Decode(b: seq<Byte>): (r: Option<int>)
    ensures r.Some? <==> |b| >= 8
  {
    if |b| < 8 then None
    else Some(FromWire(FromBe(b[0..4]), FromBe(b[4..8])))
  }

  method EncodeNtpTimestamp(buf: array<Byte>, start: nat, ns: nat)
    requires start + 8 <= buf.Length
    modifies buf
    ensures buf[start..start + 8] == Encode(ns)
    ensures buf[..start] == old(buf[..start]) && buf[start + 8..] == old(buf[start + 8..])
  {
    var secs, frac := ToBe(WireSeconds(ns)), ToBe(NsToFrac(ns % NS_PER_SEC));
    for i := 0 to 4
      invariant buf[start..start + i] == secs[..i]
      invariant buf[..start] == old(buf[..start]) && buf[start + 8..] == old(buf[start + 8..])
    {
      buf[start + i] := secs[i];
    }
    for i := 0 to 4
      invariant buf[start..start + 4] == secs && buf[start + 4..start + 4 + i] == frac[..i]
      invariant buf[..start] == old(buf[..start]) && buf[start + 8..] == old(buf[start + 8..])
    {
      buf[start + 4 + i] := frac[i];
    }
    assert buf[start..start + 8] == buf[start..start + 4] + buf[start + 4..start + 8];
  }

  lemma DecodeEncode(ns: nat)
    ensures Decode(Encode(ns)) == Some(FromWire(WireSeconds(ns), NsToFrac(ns % NS_PER_SEC)))
  {
    hide ToBe, FromBe, FromWire;
    var b := Encode(ns);
    assert b[0..4] == ToBe(WireSeconds(ns)) && b[4..8] == ToBe(NsToFrac(ns % NS_PER_SEC));
    BeRoundTrip(WireSeconds(ns));
    BeRoundTrip(NsToFrac(ns % NS_PER_SEC));
  }

  /** The exact round trip of every in-era time. */
  lemma RoundTrip(ns: nat)
    requires InEra(ns)
    ensures Decode(Encode(ns)) == Some(ns - Loss(ns % NS_PER_SEC))
  {
    hide ToBe, FromBe, Decode, Encode, NsToFrac, FracToNs, Loss;
    DecodeEncode(ns);
    FracRoundTrip(ns % NS_PER_SEC);
  }

  /** Outside the era the wire seconds saturate and the round trip loses at least a second,
      so the one-nanosecond bound holds exactly in the era. */
  lemma RoundTripExactlyInEra(ns: nat)
    ensures ns - 1 <= Decode(Encode(ns)).value <= ns <==> InEra(ns)
  {
    hide ToBe, FromBe, Decode, Encode, NsToFrac, FracToNs;
    DecodeEncode(ns);
    FracRoundTrip(ns % NS_PER_SEC);
    if InEra(ns) {
      RoundTrip(ns);
    }
  }

  /** The eight bytes read as one big-endian number. */
  function WireValue(b: seq<Byte>): nat
    requires |b| == 8
  {
    FromBe(b[0..4]) * TWO_32 + FromBe(b[4..8])
  }

  lemma EncodeIncreasing(ns: nat, ns': nat)
    requires ns < ns' && InEra(ns')
    ensures WireValue(Encode(ns)) < WireValue(Encode(ns'))
  {
    WireValueOf(ns);
    WireValueOf(ns');
    if ns / NS_PER_SEC == ns' / NS_PER_SEC {
      FracIncreasing(ns % NS_PER_SEC, ns' % NS_PER_SEC);
    } else {
      assert ns / NS_PER_SEC < ns' / NS_PER_SEC;
    }
  }

  lemma WireValueOf(ns: nat)
    ensures WireValue(Encode(ns)) == WireSeconds(ns) * TWO_32 + NsToFrac(ns % NS_PER_SEC)
  {
    hide ToBe, FromBe;
    var b := Encode(ns);
    assert b[0..4] == ToBe(WireSeconds(ns)) && b[4..8] == ToBe(NsToFrac(ns % NS_PER_SEC));
    BeRoundTrip(WireSeconds(ns));
    BeRoundTrip(NsToFrac(ns % NS_PER_SEC));
  }

  /** A byte string as a big-endian number. */
  ghost function BigEndian(b: seq<Byte>): nat {
    if |b| == 0 then 0 else BigEndian(b[..|b| - 1]) * 256 + b[|b| - 1] as nat
  }

  lemma BigEndianPush(b: seq<Byte>, x: Byte)
    ensures BigEndian(b + [x]) == BigEndian(b) * 256 + x as nat
  {
  }

  lemma BigEndianFour(b: seq<Byte>)
    requires |b| == 4
    ensures BigEndian(b) == FromBe(b)
  {
    BigEndianPush([], b[0]);
    BigEndianPush([b[0]], b[1]);
    BigEndianPush([b[0], b[1]], b[2]);
    BigEndianPush([b[0], b[1], b[2]], b[3]);
    hide BigEndian;
    assert [] + [b[0]] == [b[0]] && [b[0]] + [b[1]] == [b[0], b[1]];
    assert [b[0], b[1]] + [b[2]] == [b[0], b[1], b[2]] && [b[0], b[1], b[2]] + [b[3]] == b;
    BigEndianNone();
  }

  lemma BigEndianNone()
    ensures BigEndian([]) == 0
  {
  }

  /** The wire value is the big-endian number of the eight bytes, seconds first. */
  lemma WireIsBigEndian(b: seq<Byte>)
    requires |b| == 8
    ensures BigEndian(b) == WireValue(b)
  {
    var h := b[0..4];
    BigEndianFour(h);
    BigEndianFour(b[4..8]);
    BigEndianPush(h, b[4]);
    BigEndianPush(h + [b[4]], b[5]);
    BigEndianPush(h + [b[4], b[5]], b[6]);
    BigEndianPush(h + [b[4], b[5], b[6]], b[7]);
    hide BigEndian;
    assert h + [b[4]] + [b[5]] == h + [b[4], b[5]] && h + [b[4], b[5]] + [b[6]] == h + [b[4], b[5], b[6]];
    assert h + [b[4], b[5], b[6]] + [b[7]] == b;
  }

  lemma FracFloor(x: nat)
    requires x < NS_PER_SEC
    ensures 0 <= x * TWO_32 - NsToFrac(x) * NS_PER_SEC < NS_PER_SEC
  {
  }

  lemma NsFloor(f: nat)
    requires f < TWO_32
    ensures 0 <= f * NS_PER_SEC - FracToNs(f) * TWO_32 < TWO_32
  {
  }

  /** The wire value, counted from the Unix epoch, is the time rounded down to 2^-32 seconds. */
  lemma EncodeRoundsDown(ns: nat)
    requires ns / 1_000_000_000 + 2_208_988_800 < 0x1_0000_0000
    ensures 0 <= ns * 0x1_0000_0000 - (BigEndian(Encode(ns)) - 2_208_988_800 * 0x1_0000_0000) * 1_000_000_000
              < 1_000_000_000
  {
    hide NsToFrac, Encode, WireValue, BigEndian;
    WireIsBigEndian(Encode(ns));
    WireValueOf(ns);
    FracFloor(ns % NS_PER_SEC);
    assert ns == ns / NS_PER_SEC * NS_PER_SEC + ns % NS_PER_SEC;
  }

  /** Past the era the wire seconds stay at their greatest value and the fraction goes on. */
  lemma EncodeSaturates(ns: nat)
    requires ns / 1_000_000_000 + 2_208_988_800 >= 0x1_0000_0000
    ensures BigEndian(Encode(ns)) / 0x1_0000_0000 == 0xffff_ffff
    ensures 0 <= ns % 1_000_000_000 * 0x1_0000_0000 - BigEndian(Encode(ns)) % 0x1_0000_0000 * 1_000_000_000
              < 1_000_000_000
  {
    hide NsToFrac, Encode, WireValue, BigEndian;
    WireIsBigEndian(Encode(ns));
    WireValueOf(ns);
    FracFloor(ns % NS_PER_SEC);
  }

  /** The decoded time is the wire value, counted from the Unix epoch, rounded down to
      nanoseconds, also before the epoch; eight zero bytes mean zero. */
  lemma DecodeRoundsDown(b: seq<Byte>)
    requires |b| == 8
    ensures if BigEndian(b) == 0 then Decode(b).value == 0
            else 0 <= (BigEndian(b) - 2_208_988_800 * 0x1_0000_0000) * 1_000_000_000 - Decode(b).value * 0x1_0000_0000
                   < 0x1_0000_0000
  {
    hide FracToNs, FromBe, BigEndian;
    WireIsBigEndian(b);
    NsFloor(FromBe(b[4..8]));
  }

  /** Re-encoding a decoded time at or after the Unix epoch keeps the seconds and lowers the
      fraction by at most five units. */
  lemma ReverseRoundTrip(b: seq<Byte>)
    requires |b| == 8 && FromBe(b[0..4]) >= NTP_UNIX_TO_1900
    ensures Decode(b).value >= 0
    ensures WireValue(b) - 5 <= WireValue(Encode(Decode(b).value)) <= WireValue(b)
    ensures Encode(Decode(b).value)[0..4] == b[0..4]
  {
    hide ToBe, FromBe, NsToFrac, FracToNs;
    var secs, frac := FromBe(b[0..4]), FromBe(b[4..8]);
    var ns := Decode(b).value;
    assert ns == (secs - NTP_UNIX_TO_1900) * NS_PER_SEC + FracToNs(frac);
    assert ns / NS_PER_SEC == secs - NTP_UNIX_TO_1900 && ns % NS_PER_SEC == FracToNs(frac);
    FracReverse(frac);
    WireValueOf(ns);
    assert WireSeconds(ns) == secs;
    BeRoundTripBytes(b[0..4]);
    assert Encode(ns)[0..4] == ToBe(secs);
  }
}
