/**
 Counting the characters of a UTF-8 string, OpcUa_String_StrLen in Stack/core/opcua_string.c, against
 the encoding of section 3 of RFC 3629.
 */
module Utf8Lengths {
  import opened Basics

  // ----- the count as a value -----

  /** How many bytes the character that starts with this byte is taken to have. A byte that cannot start
      one counts as a character of its own. */
  function Octets(b: Byte): (n: nat)
    ensures 1 <= n <= 6
  {
    if b < 0xC0 then 1
    else if b < 0xE0 then 2
    else if b < 0xF0 then 3
    else if b < 0xF8 then 4
    else if b < 0xFC then 5
    else 6
  }

  /** The count is the number of leading ones, up to six: at least `n` exactly when the `n` highest bits are set. */
  lemma OctetsAreLeadingOnes(b: Byte, n: nat)
    requires 2 <= n <= 6
    ensures Octets(b) >= n <==> b >> (8 - n) == (0xFF as Byte) >> (8 - n)
  {
    if n == 2 {
      assert b >> 6 == 0x03 <==> b >= 0xC0;
    } else if n == 3 {
      assert b >> 5 == 0x07 <==> b >= 0xE0;
    } else if n == 4 {
      assert b >> 4 == 0x0F <==> b >= 0xF0;
    } else if n == 5 {
      assert b >> 3 == 0x1F <==> b >= 0xF8;
    } else {
      assert b >> 2 == 0x3F <==> b >= 0xFC;
    }
  }

  /** Characters from position `i` on. The last one may reach past the end. */
  function Characters(s: seq<Byte>, i: nat): nat
    decreases if i < |s| then |s| - i else 0
  {
    if i >= |s| then 0 else 1 + Characters(s, i + Octets(s[i]))
  }

  /** For arbitrary bytes the count is at most the number of bytes. */
  lemma {:induction false} CountAtMostSize(s: seq<Byte>, i: nat)
    requires i <= |s|
    ensures Characters(s, i) <= |s| - i
    decreases |s| - i
  {
    if i < |s| {
      var next := i + Octets(s[i]);
      if next <= |s| { CountAtMostSize(s, next); }
    }
  }

  // ----- encoded strings -----

  type CodePoint = bv32

  /** Unicode scalar values: no surrogates, nothing above U+10FFFF. */
  predicate Scalar(c: CodePoint) {
    c < 0xD800 || (0xDFFF < c && c <= 0x10FFFF)
  }

  /** The code point without its lowest 6, 12 and 18 bits, and its six lowest bits. */
  function High6(c: CodePoint): CodePoint {
    c >> 6
  }

  function High12(c: CodePoint): CodePoint {
    c >> 12
  }

  function High18(c: CodePoint): CodePoint {
    c >> 18
  }

  function Low(c: CodePoint): CodePoint {
    c & 0x3F
  }

  function Continuation(c: CodePoint): Byte {
    (0x80 | Low(c)) as Byte
  }

  /** The first byte of an encoding of two, three and four bytes. */
  function Lead2(c: CodePoint): Byte
    requires c < 0x800
  {
    (0xC0 | High6(c)) as Byte
  }

  function Lead3(c: CodePoint): Byte
    requires c < 0x1_0000
  {
    (0xE0 | High12(c)) as Byte
  }

  function Lead4(c: CodePoint): Byte
    requires c <= 0x10FFFF
  {
    (0xF0 | High18(c)) as Byte
  }

  function Encoded(c: CodePoint): (bytes: seq<Byte>)
    requires Scalar(c)
  {
    if c < 0x80 then [c as Byte]
    else if c < 0x800 then [Lead2(c), Continuation(c)]
    else if c < 0x1_0000 then [Lead3(c), Continuation(High6(c)), Continuation(c)]
    else [Lead4(c), Continuation(High12(c)), Continuation(High6(c)), Continuation(c)]
  }

  /** The low bits of a byte. */
  function Payload(b: Byte, mask: Byte): CodePoint {
    (b & mask) as CodePoint
  }

  /** Two to four payloads side by side. */
  function Join2(p0: CodePoint, p1: CodePoint): CodePoint {
    (p0 << 6) | p1
  }

  function Join3(p0: CodePoint, p1: CodePoint, p2: CodePoint): CodePoint {
    (p0 << 12) | (p1 << 6) | p2
  }

  function Join4(p0: CodePoint, p1: CodePoint, p2: CodePoint, p3: CodePoint): CodePoint {
    (p0 << 18) | (p1 << 12) | (p2 << 6) | p3
  }

  /** The code point that an encoding of up to four bytes stands for. */
  function Decoded(bytes: seq<Byte>): CodePoint
    requires 1 <= |bytes| <= 4
  {
    if |bytes| == 1 then Payload(bytes[0], 0x7F)
    else if |bytes| == 2 then Join2(Payload(bytes[0], 0x1F), Payload(bytes[1], 0x3F))
    else if |bytes| == 3 then Join3(Payload(bytes[0], 0x0F), Payload(bytes[1], 0x3F), Payload(bytes[2], 0x3F))
    else Join4(Payload(bytes[0], 0x07), Payload(bytes[1], 0x3F), Payload(bytes[2], 0x3F), Payload(bytes[3], 0x3F))
  }

  lemma ContinuationPayload(c: CodePoint)
    ensures Payload(Continuation(c), 0x3F) == Low(c)
  {
  }

  lemma FirstPayload(c: CodePoint)
    ensures c < 0x80 ==> Payload(c as Byte, 0x7F) == c
    ensures 0x80 <= c < 0x800 ==> Payload(Lead2(c), 0x1F) == High6(c)
    ensures 0x800 <= c < 0x1_0000 ==> Payload(Lead3(c), 0x0F) == High12(c)
    ensures 0x1_0000 <= c <= 0x10FFFF ==> Payload(Lead4(c), 0x07) == High18(c)
  {
  }

  lemma PartsJoin2(c: CodePoint)
    ensures Join2(c >> 6, c & 0x3F) == c
  {
  }

  lemma PartsJoin3(c: CodePoint)
    ensures Join3(c >> 12, (c >> 6) & 0x3F, c & 0x3F) == c
  {
    assert ((c >> 12) << 12) | (((c >> 6) & 0x3F) << 6) | (c & 0x3F) == c;
  }

  lemma PartsJoin4(c: CodePoint)
    ensures Join4(c >> 18, (c >> 12) & 0x3F, (c >> 6) & 0x3F, c & 0x3F) == c
  {
    assert ((c >> 18) << 18) | (((c >> 12) & 0x3F) << 12) | (((c >> 6) & 0x3F) << 6) | (c & 0x3F) == c;
  }

  lemma Joins(c: CodePoint)
    ensures Join2(High6(c), Low(c)) == c
    ensures Join3(High12(c), Low(High6(c)), Low(c)) == c
    ensures Join4(High18(c), Low(High12(c)), Low(High6(c)), Low(c)) == c
  {
    hide Join2, Join3, Join4;
    PartsJoin2(c);
    PartsJoin3(c);
    PartsJoin4(c);
  }

  /** Decoding undoes encoding, for every scalar value. */
  lemma DecodedEncoded(c: CodePoint)
    requires Scalar(c)
    ensures 1 <= |Encoded(c)| <= 4 && Decoded(Encoded(c)) == c
  {
    hide High6, High12, High18, Low, Payload, Continuation, Lead2, Lead3, Lead4, Join2, Join3, Join4;
    FirstPayload(c);
    ContinuationPayload(c);
    ContinuationPayload(High6(c));
    ContinuationPayload(High12(c));
    Joins(c);
  }

  function EncodedAll(cs: seq<CodePoint>): seq<Byte>
    requires forall i :: 0 <= i < |cs| ==> Scalar(cs[i])
  {
    if cs == [] then [] else Encoded(cs[0]) + EncodedAll(cs[1..])
  }

  /** The first byte tells how many bytes the code point takes. */
  lemma FirstByteTellsLength(c: CodePoint)
    requires Scalar(c)
    ensures Octets(Encoded(c)[0]) == |Encoded(c)|
  {
    if c < 0x80 {
    } else if c < 0x800 {
      assert (c >> 6) < 0x20;
      assert 0xC0 <= (0xC0 | (c >> 6)) < 0xE0;
    } else if c < 0x1_0000 {
      assert (c >> 12) < 0x10;
      assert 0xE0 <= (0xE0 | (c >> 12)) < 0xF0;
    } else {
      assert (c >> 18) < 0x8;
      assert 0xF0 <= (0xF0 | (c >> 18)) < 0xF8;
    }
  }

  lemma {:induction false} CountSkips(p: seq<Byte>, s: seq<Byte>, i: nat)
    ensures Characters(p + s, |p| + i) == Characters(s, i)
    decreases if i < |s| then |s| - i else 0
  {
    if i < |s| {
      CountSkips(p, s, i + Octets(s[i]));
    }
  }

  /** The count of an encoded string is the number of its code points. */
  lemma {:induction false} CountOfEncoded(cs: seq<CodePoint>)
    requires forall i :: 0 <= i < |cs| ==> Scalar(cs[i])
    ensures Characters(EncodedAll(cs), 0) == |cs|
  {
    if cs == [] {
    } else {
      var first, rest := Encoded(cs[0]), EncodedAll(cs[1..]);
      CountOfEncoded(cs[1..]);
      FirstByteTellsLength(cs[0]);
      CountSkips(first, rest, 0);
    }
  }

  // ----- the loops -----

  /** The mask with the `n` highest bits set, and the table it is compared with. */
  function HighBits(n: nat): Byte
    requires 1 <= n <= 6
  {
    var all: Byte := 0xFF;
    (all >> (8 - n)) << (8 - n)
  }

  const UTF8_MASK: seq<Byte> := [0x00, 0xC0, 0xE0, 0xF0, 0xF8, 0xFC]

  predicate Matches(b: Byte, n: nat)
    requires 1 <= n <= 6
  {
    b & HighBits(n) == UTF8_MASK[n - 1]
  }

  /** A byte matches the mask of `n` bits when it has at least `n` leading ones. */
  lemma MatchesExactly(b: Byte)
    ensures Matches(b, 6) <==> b >= 0xFC
    ensures Matches(b, 5) <==> b >= 0xF8
    ensures Matches(b, 4) <==> b >= 0xF0
    ensures Matches(b, 3) <==> b >= 0xE0
    ensures Matches(b, 2) <==> b >= 0xC0
  {
    assert HighBits(6) == 0xFC && HighBits(5) == 0xF8 && HighBits(4) == 0xF0 && HighBits(3) == 0xE0 && HighBits(2) == 0xC0;
  }

  /** Searches the length from the longest one down. */
  method OctetCount(b: Byte) returns (uiOctetCount: nat)
    ensures uiOctetCount == Octets(b)
  {
    MatchesExactly(b);
    uiOctetCount := 7;
    while true
      invariant 2 <= uiOctetCount <= 7
      invariant forall n :: uiOctetCount <= n <= 6 ==> !Matches(b, n)
      decreases uiOctetCount
    {
      uiOctetCount := uiOctetCount - 1;
      var byMask := HighBits(uiOctetCount);
      if !(uiOctetCount > 1 && b & byMask != UTF8_MASK[uiOctetCount - 1]) {
        break;
      }
    }
  }

  // ----- the 32-bit index of the outer loop -----

  /** The index after `k` rounds. It is a 32-bit number, and stays once it is past the end. */
  function Index(s: seq<Byte>, k: nat): nat {
    if k == 0 then 0
    else
      var i := Index(s, k - 1);
      if i >= |s| then i else (i + Octets(s[i])) % TWO_TO_THE_32
  }

  /** The loop comes to its end, after some number of rounds. */
  ghost predicate Ends(s: seq<Byte>) {
    exists k: nat :: Index(s, k) >= |s|
  }

  predicate EndsAfter(s: seq<Byte>, k: nat) {
    Index(s, k) >= |s| && (k > 0 ==> Index(s, k - 1) < |s|)
  }

  lemma {:induction false} StaysEnded(s: seq<Byte>, j: nat, k: nat)
    requires j <= k && Index(s, j) >= |s|
    ensures Index(s, k) >= |s|
  {
    if j < k { StaysEnded(s, j, k - 1); }
  }

  lemma {:induction false} SamePath(s: seq<Byte>, j: nat, k: nat, d: nat)
    requires Index(s, j) == Index(s, k)
    ensures Index(s, j + d) == Index(s, k + d)
  {
    if d > 0 { SamePath(s, j, k, d - 1); }
  }

  lemma {:induction false} DistinctBelow(ps: seq<nat>, n: nat)
    requires forall i :: 0 <= i < |ps| ==> ps[i] < n
    requires forall i, j :: 0 <= i < j < |ps| ==> ps[i] != ps[j]
    ensures |ps| <= n
  {
    if ps == [] {
    } else {
      assert ps[0] < n;
      if k :| 0 <= k < |ps| && ps[k] == n - 1 {
        var rest := ps[..k] + ps[k + 1..];
        assert forall i :: 0 <= i < |rest| ==> rest[i] == ps[if i < k then i else i + 1];
        DistinctBelow(rest, n - 1);
      } else {
        DistinctBelow(ps, n - 1);
      }
    }
  }

  /** A loop that ends visits no index twice, so it has at most as many rounds as there are bytes. */
  lemma EndsWithinSize(s: seq<Byte>, k: nat)
    requires EndsAfter(s, k)
    ensures k <= |s|
  {
    var visited := seq(k, j requires 0 <= j < k => Index(s, j));
    forall j | 0 <= j < k
      ensures Index(s, j) < |s|
    {
      if Index(s, j) >= |s| { StaysEnded(s, j, k - 1); }
    }
    forall i, j | 0 <= i < j < k
      ensures visited[i] != visited[j]
    {
      if Index(s, i) == Index(s, j) {
        SamePath(s, i, j, k - j);
        StaysEnded(s, i + (k - j), k - 1);
      }
    }
    DistinctBelow(visited, |s|);
  }

  /** Where the loop ends when the index does not wrap. */
  function PastEnd(s: seq<Byte>, i: nat): (e: nat)
    ensures e >= |s|
    decreases if i < |s| then |s| - i else 0
  {
    if i >= |s| then i else PastEnd(s, i + Octets(s[i]))
  }

  lemma {:induction false} UnwrappedRounds(s: seq<Byte>, i: nat, k: nat)
    requires Index(s, k) == i && PastEnd(s, i) < TWO_TO_THE_32
    ensures Index(s, k + Characters(s, i)) == PastEnd(s, i)
    ensures Characters(s, i) > 0 ==> Index(s, k + Characters(s, i) - 1) < |s|
    decreases if i < |s| then |s| - i else 0
  {
    hide Octets;
    if i < |s| {
      var next := i + Octets(s[i]);
      NextWithin(s, next);
      assert Index(s, k + 1) == next;
      UnwrappedRounds(s, next, k + 1);
    }
  }

  lemma NextWithin(s: seq<Byte>, i: nat)
    ensures i <= PastEnd(s, i)
    decreases if i < |s| then |s| - i else 0
  {
    if i < |s| { NextWithin(s, i + Octets(s[i])); }
  }

  /** Without a wrap the rounds are the characters. */
  lemma UnwrappedCounts(s: seq<Byte>)
    requires PastEnd(s, 0) < TWO_TO_THE_32
    ensures EndsAfter(s, Characters(s, 0)) && Ends(s)
  {
    UnwrappedRounds(s, 0, 0);
    assert Index(s, Characters(s, 0)) >= |s|;
  }

  lemma OneEnd(s: seq<Byte>, j: nat, k: nat)
    requires EndsAfter(s, j) && EndsAfter(s, k)
    ensures j == k
  {
    if j < k { StaysEnded(s, j, k - 1); }
    if k < j { StaysEnded(s, k, j - 1); }
  }

  lemma {:induction false} PastEndBound(s: seq<Byte>, i: nat)
    requires i <= |s| + 5
    ensures PastEnd(s, i) <= |s| + 5
    decreases if i < |s| then |s| - i else 0
  {
    if i < |s| { PastEndBound(s, i + Octets(s[i])); }
  }

  /** Ordinary characters, and a first byte of six at the end. */
  function CutShort(n: nat): (s: seq<Byte>)
    requires n > 0
    ensures |s| == n && s[n - 1] == 0xFC && forall i :: 0 <= i < n - 1 ==> s[i] == 0
  {
    seq(n - 1, _ => 0 as Byte) + [0xFC]
  }

  lemma {:induction false} CutShortNeverEnds(n: nat, k: nat)
    requires TWO_TO_THE_32 - 6 < n < TWO_TO_THE_32
    ensures Index(CutShort(n), k) < n
  {
    if k > 0 { CutShortNeverEnds(n, k - 1); }
  }

  /** For a size: the loop ends on every string of that size, and then counts its characters, if and only if the size
      is at most 2^32 - 6. */
  lemma EndsExactlyWhen(n: nat)
    requires n < TWO_TO_THE_32
    ensures (forall s: seq<Byte> :: |s| == n ==> Ends(s)) <==> n <= TWO_TO_THE_32 - 6
    ensures n <= TWO_TO_THE_32 - 6 ==> forall s: seq<Byte> :: |s| == n ==> EndsAfter(s, Characters(s, 0))
  {
    hide EndsAfter;
    if n <= TWO_TO_THE_32 - 6 {
      forall s: seq<Byte> | |s| == n
        ensures Ends(s) && EndsAfter(s, Characters(s, 0))
      {
        PastEndBound(s, 0);
        UnwrappedCounts(s);
      }
    } else {
      var s := CutShort(n);
      forall k: nat
        ensures Index(s, k) < |s|
      {
        CutShortNeverEnds(n, k);
      }
      assert |s| == n && !Ends(s);
    }
  }

  lemma {:induction false} PastEndSkips(p: seq<Byte>, s: seq<Byte>, i: nat)
    ensures PastEnd(p + s, |p| + i) == |p| + PastEnd(s, i)
    decreases if i < |s| then |s| - i else 0
  {
    if i < |s| { PastEndSkips(p, s, i + Octets(s[i])); }
  }

  /** An encoded string never wraps the index, whatever its size. */
  lemma {:induction false} EncodedEndsAtSize(cs: seq<CodePoint>)
    requires forall i :: 0 <= i < |cs| ==> Scalar(cs[i])
    ensures PastEnd(EncodedAll(cs), 0) == |EncodedAll(cs)|
  {
    if cs == [] {
    } else {
      var first, rest := Encoded(cs[0]), EncodedAll(cs[1..]);
      EncodedEndsAtSize(cs[1..]);
      FirstByteTellsLength(cs[0]);
      PastEndSkips(first, rest, 0);
    }
  }

  /** The length of the character that starts with this byte: one for a byte without the highest bit. */
  method CharacterSize(b: Byte) returns (octets: nat)
    ensures octets == Octets(b)
  {
    octets := 1;
    if b & 0x80 != 0 {
      octets := OctetCount(b);
    } else {
      assert b < 0x80;
    }
  }

  lemma WrapAdds(i: nat, octets: nat)
    requires 1 <= octets <= 6
    ensures ((i + (octets - 1)) % TWO_TO_THE_32 + 1) % TWO_TO_THE_32 == (i + octets) % TWO_TO_THE_32
  {
  }

  lemma RoundsOf(s: seq<Byte>, k: nat)
    requires EndsAfter(s, k)
    ensures k <= |s|
    ensures PastEnd(s, 0) < TWO_TO_THE_32 ==> k == Characters(s, 0)
  {
    hide EndsAfter;
    EndsWithinSize(s, k);
    if PastEnd(s, 0) < TWO_TO_THE_32 {
      UnwrappedCounts(s);
      OneEnd(s, k, Characters(s, 0));
    }
  }

  /** Whenever the loop ends, its result is the number of its rounds, no more than the number of bytes, and the number of
      characters unless the index wrapped. */
  method StrLen(s: seq<Byte>) returns (uLen: nat)
    requires |s| < TWO_TO_THE_32 && Ends(s)
    ensures EndsAfter(s, uLen) && uLen <= |s|
    ensures PastEnd(s, 0) < TWO_TO_THE_32 ==> uLen == Characters(s, 0)
  {
    hide Octets, PastEnd, Characters;
    ghost var k: nat :| Index(s, k) >= |s|;
    uLen := 0;
    var uCount := 0;
    while uCount < |s|
      invariant uCount == Index(s, uLen) && uLen <= k
      invariant uLen > 0 ==> Index(s, uLen - 1) < |s|
      decreases k - uLen
    {
      var octets := CharacterSize(s[uCount]);
      WrapAdds(uCount, octets);
      uLen := uLen + 1;
      uCount := (uCount + (octets - 1)) % TWO_TO_THE_32;
      uCount := (uCount + 1) % TWO_TO_THE_32;
    }
    RoundsOf(s, uLen);
  }

  /** For an encoded string of any size the count is the number of its code points. */
  lemma StrLenOfEncoded(cs: seq<CodePoint>)
    requires forall i :: 0 <= i < |cs| ==> Scalar(cs[i])
    requires |EncodedAll(cs)| < TWO_TO_THE_32
    ensures Ends(EncodedAll(cs)) && EndsAfter(EncodedAll(cs), |cs|)
  {
    EncodedEndsAtSize(cs);
    CountOfEncoded(cs);
    UnwrappedCounts(EncodedAll(cs));
  }
}
