/**
 * The Google Encoded Polyline format as the route decoder reads it, over
 * coordinates in units of 1e-5 degree.
 *
 * Each coordinate is the previous one plus a delta; a delta is zig-zag
 * encoded into a natural number whose 5-bit groups are written least
 * significant first, each as the character with code 63 + group, plus 0x20
 * while more groups follow. A read past the end of the text gives NaN in the
 * decoder, which contributes nothing and ends the group.
 *
 * Group values are accumulated as unbounded integers: the decoder's 32-bit
 * `|=` and `<<` agree with this for groups of up to six characters.
 */
module Polyline {
  import opened Domain

  /** `x << n` without a word size: `x` doubled `n` times. */
  function Shl(x: int, n: nat): int
  {
    if n == 0 then x else 2 * Shl(x, n - 1)
  }

  /** Shifting distributes over addition. */
  lemma {:induction false} ShlAdd(a: int, b: int, n: nat)
    ensures Shl(a, n) + Shl(b, n) == Shl(a + b, n)
  {
    if n > 0 {
      ShlAdd(a, b, n - 1);
    }
  }

  /** Five more places of shift are a factor of 32. */
  lemma {:induction false} ShlAdd5(x: int, n: nat)
    ensures Shl(x, n + 5) == Shl(32 * x, n)
  {
    if n == 0 {
      assert Shl(x, 5) == 2 * Shl(x, 4) == 4 * Shl(x, 3) == 8 * Shl(x, 2) == 16 * Shl(x, 1) == 32 * x;
    } else {
      ShlAdd5(x, n - 1);
    }
  }

  /**
   * The value of the group starting at `i`, added to `result` with the current
   * `shift`, and the position after it. One character is consumed even when
   * `i` is past the end.
   */
  function ReadGroup(s: string, i: nat, result: int, shift: nat): (r: (int, nat))
    ensures r.1 > i
    ensures i < |s| ==> r.1 <= |s| + 1
    ensures i >= |s| ==> r == (result, i + 1)
    decreases |s| - i
  {
    if i >= |s| then (result, i + 1)
    else
      var b := s[i] as int - 63;
      var acc := result + Shl(b % 32, shift);
      if b >= 32 then ReadGroup(s, i + 1, acc, shift + 5) else (acc, i + 1)
  }

  /** `(result & 1) ? ~(result >> 1) : (result >> 1)` for a non-negative `result`. */
  function ZigZagDecode(u: int): int
  {
    if u % 2 == 1 then -(u / 2) - 1 else u / 2
  }

  /** The points decoded from position `i` on, starting from the running coordinates. */
  function DecodeFrom(s: string, i: nat, lat: int, lng: int): seq<Position>
    decreases |s| - i
  {
    if i >= |s| then []
    else
      var (r1, j) := ReadGroup(s, i, 0, 0);
      var (r2, k) := ReadGroup(s, j, 0, 0);
      var lat' := lat + ZigZagDecode(r1);
      var lng' := lng + ZigZagDecode(r2);
      [Position(lat', lng')] + DecodeFrom(s, k, lat', lng')
  }

  function Decode(s: string): seq<Position>
  {
    DecodeFrom(s, 0, 0, 0)
  }

  /** One do-while loop of `decodePolyline`: the groups of one value, from `start`. */
  method ReadValue(encoded: string, start: nat) returns (result: int, index: nat)
    ensures (result, index) == ReadGroup(encoded, start, 0, 0)
  {
    index := start;
    var shift := 0;
    result := 0;
    var more := true;
    while more
      invariant more ==> (index <= |encoded| || index == start) && ReadGroup(encoded, index, result, shift) == ReadGroup(encoded, start, 0, 0)
      invariant !more ==> (result, index) == ReadGroup(encoded, start, 0, 0)
      decreases more, |encoded| - index
    {
      if index < |encoded| {
        var b := encoded[index] as int - 63;
        result := result + Shl(b % 32, shift);
        more := b >= 32;
      } else {
        more := false;
      }
      index := index + 1;
      shift := shift + 5;
    }
  }

  /** `decodePolyline`: two values per point, each added to the running coordinate. */
  method DecodePolyline(encoded: string) returns (points: seq<Position>)
    ensures points == Decode(encoded)
  {
    points := [];
    var index := 0;
    var lat := 0;
    var lng := 0;
    while index < |encoded|
      invariant points + DecodeFrom(encoded, index, lat, lng) == Decode(encoded)
      decreases |encoded| - index
    {
      var r1, j := ReadValue(encoded, index);
      var r2, k := ReadValue(encoded, j);
      ghost var rest := DecodeFrom(encoded, k, lat + ZigZagDecode(r1), lng + ZigZagDecode(r2));
      assert DecodeFrom(encoded, index, lat, lng) == [Position(lat + ZigZagDecode(r1), lng + ZigZagDecode(r2))] + rest;
      lat := lat + ZigZagDecode(r1);
      lng := lng + ZigZagDecode(r2);
      index := k;
      points := points + [Position(lat, lng)];
    }
  }

  /** The encoder's zig-zag step: non-negative deltas to even numbers, negative ones to odd. */
  function ZigZagEncode(v: int): nat
  {
    if v >= 0 then 2 * v else -2 * v - 1
  }

  /** The decoder's zig-zag step undoes the encoder's. */
  lemma ZigZagRoundTrip(v: int)
    ensures ZigZagDecode(ZigZagEncode(v)) == v
  {
  }

  /** The characters of one group, least significant five bits first. */
  function EncodeNat(u: nat): (e: string)
    ensures |e| >= 1
    decreases u
  {
    if u < 32 then [(u + 63) as char] else [(u % 32 + 32 + 63) as char] + EncodeNat(u / 32)
  }

  /** The two groups of one point, relative to the previous coordinates. */
  function PointCode(p: Position, lat: int, lng: int): string
  {
    EncodeNat(ZigZagEncode(p.lat - lat)) + EncodeNat(ZigZagEncode(p.lng - lng))
  }

  /** The encoding of a list of points, each relative to the previous one. */
  function EncodeFrom(points: seq<Position>, lat: int, lng: int): string
  {
    if points == [] then []
    else PointCode(points[0], lat, lng) + EncodeFrom(points[1..], points[0].lat, points[0].lng)
  }

  function Encode(points: seq<Position>): string
  {
    EncodeFrom(points, 0, 0)
  }

  /** A group's low five bits and the bits above them, shifted into place, make up the group. */
  lemma GroupSum(u: nat, result: int, shift: nat)
    ensures result + Shl(u % 32, shift) + Shl(u / 32, shift + 5) == result + Shl(u, shift)
  {
    ShlAdd5(u / 32, shift);
    ShlAdd(u % 32, 32 * (u / 32), shift);
  }

  /** The first character of a group carries the low five bits and says whether more follow. */
  lemma FirstGroup(u: nat)
    ensures var b := EncodeNat(u)[0] as int - 63; b % 32 == u % 32 && (b >= 32 <==> u >= 32)
  {
  }

  /** From position `i` on, `s` spells out `c`. */
  ghost predicate HasAt(s: string, i: nat, c: string)
    decreases |c|
  {
    |c| == 0 || (i < |s| && s[i] == c[0] && HasAt(s, i + 1, c[1..]))
  }

  /** Every text spells out its own suffixes. */
  lemma {:induction false} HasSuffix(s: string, i: nat)
    requires i <= |s|
    ensures HasAt(s, i, s[i..])
    decreases |s| - i
  {
    if i < |s| {
      assert s[i..][1..] == s[i + 1..];
      HasSuffix(s, i + 1);
    }
  }

  /** Spelling out `a + b` is spelling out `a` and then `b`. */
  lemma {:induction false} HasAtAppend(s: string, i: nat, a: string, b: string)
    requires HasAt(s, i, a + b)
    ensures HasAt(s, i, a) && HasAt(s, i + |a|, b)
    decreases |a|
  {
    if |a| == 0 {
      assert a + b == b;
    } else {
      assert (a + b)[1..] == a[1..] + b;
      HasAtAppend(s, i + 1, a[1..], b);
    }
  }

  /** Reading an encoded group gives back its value and ends right after it. */
  lemma {:induction false} ReadEncoded(s: string, i: nat, u: nat, result: int, shift: nat)
    requires HasAt(s, i, EncodeNat(u))
    ensures ReadGroup(s, i, result, shift) == (result + Shl(u, shift), i + |EncodeNat(u)|)
    decreases u
  {
    var e := EncodeNat(u);
    FirstGroup(u);
    var acc := result + Shl(u % 32, shift);
    if u >= 32 {
      assert ReadGroup(s, i, result, shift) == ReadGroup(s, i + 1, acc, shift + 5);
      var tail := EncodeNat(u / 32);
      assert e[1..] == tail;
      ReadEncoded(s, i + 1, u / 32, acc, shift + 5);
      GroupSum(u, result, shift);
    } else {
      assert ReadGroup(s, i, result, shift) == (acc, i + 1);
      assert u % 32 == u;
    }
  }

  /** One iteration of the outer loop: two values read, one point produced. */
  lemma DecodeStep(s: string, i: nat, lat: int, lng: int, r1: int, j: nat, r2: int, k: nat)
    requires i < |s| && ReadGroup(s, i, 0, 0) == (r1, j) && ReadGroup(s, j, 0, 0) == (r2, k)
    ensures DecodeFrom(s, i, lat, lng)
      == [Position(lat + ZigZagDecode(r1), lng + ZigZagDecode(r2))] + DecodeFrom(s, k, lat + ZigZagDecode(r1), lng + ZigZagDecode(r2))
  {
  }

  /** Two encoded values in a row decode to one point `q`, offset from the running coordinates; reading goes on at `k`. */
  lemma DecodeValues(s: string, i: nat, lat: int, lng: int, u1: nat, u2: nat, q: Position, k: nat)
    requires HasAt(s, i, EncodeNat(u1)) && HasAt(s, i + |EncodeNat(u1)|, EncodeNat(u2))
    requires q == Position(lat + ZigZagDecode(u1), lng + ZigZagDecode(u2))
    requires k == i + |EncodeNat(u1)| + |EncodeNat(u2)|
    ensures DecodeFrom(s, i, lat, lng) == [q] + DecodeFrom(s, k, q.lat, q.lng)
  {
    var j := i + |EncodeNat(u1)|;
    ReadEncoded(s, i, u1, 0, 0);
    ReadEncoded(s, j, u2, 0, 0);
    DecodeStep(s, i, lat, lng, u1, j, u2, k);
  }

  /** The code of a point decodes to that point. */
  lemma DecodeHead(s: string, i: nat, lat: int, lng: int, p: Position)
    requires HasAt(s, i, PointCode(p, lat, lng))
    ensures DecodeFrom(s, i, lat, lng) == [p] + DecodeFrom(s, i + |PointCode(p, lat, lng)|, p.lat, p.lng)
  {
    var u1 := ZigZagEncode(p.lat - lat);
    var u2 := ZigZagEncode(p.lng - lng);
    ZigZagRoundTrip(p.lat - lat);
    ZigZagRoundTrip(p.lng - lng);
    HasAtAppend(s, i, EncodeNat(u1), EncodeNat(u2));
    DecodeValues(s, i, lat, lng, u1, u2, p, i + |PointCode(p, lat, lng)|);
  }

  /** From position `i` on, `s` holds the codes of `points` one after another, and nothing more. */
  ghost predicate EncodedAt(s: string, i: nat, points: seq<Position>, lat: int, lng: int)
    decreases |points|
  {
    if |points| == 0 then i == |s|
    else
      var c := PointCode(points[0], lat, lng);
      HasAt(s, i, c) && EncodedAt(s, i + |c|, points[1..], points[0].lat, points[0].lng)
  }

  /** A text ending in the encoding of a list holds that list's codes in turn. */
  lemma {:induction false} EncodedAtSuffix(s: string, i: nat, points: seq<Position>, lat: int, lng: int)
    requires i + |EncodeFrom(points, lat, lng)| == |s| && HasAt(s, i, EncodeFrom(points, lat, lng))
    ensures EncodedAt(s, i, points, lat, lng)
    decreases |points|
  {
    if |points| > 0 {
      var c := PointCode(points[0], lat, lng);
      var rest := EncodeFrom(points[1..], points[0].lat, points[0].lng);
      assert EncodeFrom(points, lat, lng) == c + rest;
      HasAtAppend(s, i, c, rest);
      EncodedAtSuffix(s, i + |c|, points[1..], points[0].lat, points[0].lng);
    }
  }

  /** Decoding a text that holds the codes of a point list, from where they start, gives the list back. */
  lemma {:induction false} DecodeEncodedAt(s: string, i: nat, points: seq<Position>, lat: int, lng: int)
    requires EncodedAt(s, i, points, lat, lng)
    ensures DecodeFrom(s, i, lat, lng) == points
    decreases |points|
  {
    if |points| > 0 {
      DecodeEncodedAt(s, i + |PointCode(points[0], lat, lng)|, points[1..], points[0].lat, points[0].lng);
      DecodeHead(s, i, lat, lng, points[0]);
      assert points == [points[0]] + points[1..];
    }
  }

  /** The decoder inverts the encoder. */
  lemma DecodeEncode(points: seq<Position>)
    ensures Decode(Encode(points)) == points
  {
    var s := Encode(points);
    HasSuffix(s, 0);
    assert s[0..] == s;
    EncodedAtSuffix(s, 0, points, 0, 0);
    DecodeEncodedAt(s, 0, points, 0, 0);
  }

  /** The empty text has no points. */
  lemma DecodeEmpty()
    ensures Decode("") == []
  {
  }
}
