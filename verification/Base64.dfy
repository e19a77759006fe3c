/**
 base64_encode and base64_decode (Funcs.cc): the staging-array loops, against the definition in
 section 4 of RFC 4648 (groups of 24 bits read as four 6-bit numbers).  Bytes and staging
 arrays are `bv8`, the source's `unsigned char`, so masks, shifts and sums are as written there.
 */
module Base64 {
  import opened Common

  // --- The alphabet ------------------------------------------------------------------------------

  const UPPER := "ABCDEFGHIJKLMNOPQRSTUVWXYZ"
  const LOWER := "abcdefghijklmnopqrstuvwxyz"
  const DIGITS := "0123456789+/"
  const BASE64_CHARS := UPPER + LOWER + DIGITS

  /** is_base64, with isalnum in the "C" locale. */
  predicate IsBase64(c: char) {
    'A' <= c <= 'Z' || 'a' <= c <= 'z' || '0' <= c <= '9' || c == '+' || c == '/'
  }

  /** The place of a character in the alphabet, or -1 (`npos`). */
  function Place(c: char): (p: int)
    ensures -1 <= p < 64 && (p == -1 <==> !IsBase64(c))
  {
    if 'A' <= c <= 'Z' then c as int - 65
    else if 'a' <= c <= 'z' then c as int - 71
    else if '0' <= c <= '9' then c as int + 4
    else if c == '+' then 62
    else if c == '/' then 63
    else -1
  }

  lemma UpperAt(k: nat)
    requires k < 26
    ensures |UPPER| == 26 && UPPER[k] as int == k + 65
  {
  }

  lemma LowerAt(k: nat)
    requires k < 26
    ensures |LOWER| == 26 && LOWER[k] as int == k + 97
  {
  }

  lemma DigitAt(k: nat)
    requires k < 12
    ensures |DIGITS| == 12
    ensures DIGITS[k] as int == if k < 10 then k + 48 else if k == 10 then '+' as int else '/' as int
  {
  }

  lemma LetterAt(k: nat)
    requires k < |BASE64_CHARS|
    ensures |BASE64_CHARS| == 64 && Place(BASE64_CHARS[k]) == k
  {
    assert |UPPER| == 26 by { UpperAt(0); }
    assert |LOWER| == 26 by { LowerAt(0); }
    assert |DIGITS| == 12 by { DigitAt(0); }
    if k < 26 { UpperAt(k); } else if k < 52 { LowerAt(k - 26); } else { DigitAt(k - 52); }
  }

  /** Each letter is where its place says, and nothing else is in the alphabet. */
  lemma PlaceIff(c: char)
    ensures |BASE64_CHARS| == 64
    ensures IsBase64(c) ==> BASE64_CHARS[Place(c)] == c
    ensures c in BASE64_CHARS <==> IsBase64(c)
  {
    assert |BASE64_CHARS| == 64 by { LetterAt(0); }
    if IsBase64(c) {
      LetterAt(Place(c));
      SamePlace(BASE64_CHARS[Place(c)], c);
    }
    if c in BASE64_CHARS {
      var k :| 0 <= k < |BASE64_CHARS| && BASE64_CHARS[k] == c;
      LetterAt(k);
    }
  }

  lemma SamePlace(c: char, d: char)
    requires Place(c) == Place(d) >= 0
    ensures c == d
  {
  }

  /** A 6-bit number. */
  type Sextet = v: bv8 | v < 64

  function Letter(v: Sextet): (c: char)
    ensures IsBase64(c)
  {
    PlaceIff('A'); LetterAt(v as nat);
    BASE64_CHARS[v as nat]
  }

  /** What the table's `find` leaves in an unsigned char. */
  function Index(c: char): (v: bv8)
    ensures IsBase64(c) <==> v < 64
  {
    if Place(c) >= 0 then Place(c) as bv8 else 255
  }

  lemma IndexLetter(v: Sextet)
    ensures Index(Letter(v)) == v
  {
    LetterAt(v as nat);
  }

  lemma LetterIndex(c: char)
    requires IsBase64(c)
    ensures Letter(Index(c)) == c
  {
    PlaceIff(c);
    Narrow(Place(c));
  }

  // --- Groups of 24 bits -------------------------------------------------------------------------

  function Group(a: bv8, b: bv8, c: bv8): bv24 {
    (a as bv24 << 16) | (b as bv24 << 8) | c as bv24
  }

  function Sextets(g: bv24): (vs: seq<Sextet>)
    ensures |vs| == 4
  {
    [((g >> 18) & 63) as bv8, ((g >> 12) & 63) as bv8, ((g >> 6) & 63) as bv8, (g & 63) as bv8]
  }

  function Join(a: Sextet, b: Sextet, c: Sextet, d: Sextet): bv24 {
    (a as bv24 << 18) | (b as bv24 << 12) | (c as bv24 << 6) | d as bv24
  }

  function Octets(g: bv24): (bs: seq<bv8>)
    ensures |bs| == 3
  {
    [((g >> 16) & 255) as bv8, ((g >> 8) & 255) as bv8, (g & 255) as bv8]
  }

  lemma OctetsGroup(a: bv8, b: bv8, c: bv8)
    ensures Octets(Group(a, b, c)) == [a, b, c]
  {
  }

  lemma GroupOctets(g: bv24)
    ensures Group(Octets(g)[0], Octets(g)[1], Octets(g)[2]) == g
  {
  }

  lemma SextetsJoin(a: Sextet, b: Sextet, c: Sextet, d: Sextet)
    ensures Sextets(Join(a, b, c, d)) == [a, b, c, d]
  {
  }

  lemma JoinSextets(g: bv24)
    ensures Join(Sextets(g)[0], Sextets(g)[1], Sextets(g)[2], Sextets(g)[3]) == g
  {
  }

  // --- Section 4 of RFC 4648 ---------------------------------------------------------------------

  function Letters(vs: seq<Sextet>): (t: string)
    ensures |t| == |vs| && forall k :: 0 <= k < |t| ==> t[k] == Letter(vs[k])
  {
    seq(|vs|, k requires 0 <= k < |vs| => Letter(vs[k]))
  }

  /** Three bytes make four letters; a final one or two are filled up with zero bits, and padded. */
  function Encode(x: seq<bv8>): string {
    if |x| == 0 then ""
    else if |x| == 1 then Letters(Sextets(Group(x[0], 0, 0))[..2]) + "=="
    else if |x| == 2 then Letters(Sextets(Group(x[0], x[1], 0))[..3]) + "="
    else Letters(Sextets(Group(x[0], x[1], x[2]))) + Encode(x[3..])
  }

  /** The leading letters of s, at most four of them. */
  function Leading(s: string): (n: nat)
    ensures n <= 4 && n <= |s| && (forall k :: 0 <= k < n ==> IsBase64(s[k]))
    ensures n < 4 && n < |s| ==> !IsBase64(s[n])
  {
    if |s| < 1 || !IsBase64(s[0]) then 0
    else if |s| < 2 || !IsBase64(s[1]) then 1
    else if |s| < 3 || !IsBase64(s[2]) then 2
    else if |s| < 4 || !IsBase64(s[3]) then 3
    else 4
  }

  /**
   Four letters make three bytes, up to the first character that is no letter; a final two or
   three letters make one or two bytes.
   */
  function Decode(s: string): seq<bv8> {
    var n := Leading(s);
    if n < 2 then []
    else if n == 2 then Octets(Join(Index(s[0]), Index(s[1]), 0, 0))[..1]
    else if n == 3 then Octets(Join(Index(s[0]), Index(s[1]), Index(s[2]), 0))[..2]
    else Octets(Join(Index(s[0]), Index(s[1]), Index(s[2]), Index(s[3]))) + Decode(s[4..])
  }

  /** The test vectors of section 10 of RFC 4648. */
  lemma Vectors()
    ensures Encode([0x66]) == "Zg=="
    ensures Encode([0x66, 0x6f]) == "Zm8="
    ensures Encode([0x66, 0x6f, 0x6f]) == "Zm9v"
  {
  }

  // --- Round trips -------------------------------------------------------------------------------

  /** Decoding what was encoded gives back the bytes. */
  lemma {:induction false} RoundTrip(x: seq<bv8>)
    ensures Decode(Encode(x)) == x
  {
    if |x| == 1 {
      DecodeOne(x[0]);
    } else if |x| == 2 {
      DecodeTwo(x[0], x[1]);
    } else if |x| >= 3 {
      DecodeGroup(Group(x[0], x[1], x[2]), Encode(x[3..]));
      OctetsGroup(x[0], x[1], x[2]);
      RoundTrip(x[3..]);
    }
  }

  lemma DecodeGroup(g: bv24, s: string)
    ensures Decode(Letters(Sextets(g)) + s) == Octets(g) + Decode(s)
  {
    var vs := Sextets(g);
    var t := Letters(vs) + s;
    assert t[4..] == s;
    assert Leading(t) == 4;
    assert forall k :: 0 <= k < 4 ==> t[k] == Letter(vs[k]);
    IndexLetter(vs[0]); IndexLetter(vs[1]); IndexLetter(vs[2]); IndexLetter(vs[3]);
    JoinSextets(g);
  }

  lemma DecodeOne(a: bv8)
    ensures Decode(Encode([a])) == [a]
  {
    var g := Group(a, 0, 0);
    var vs := Sextets(g);
    assert Leading(Encode([a])) == 2;
    IndexLetter(vs[0]); IndexLetter(vs[1]);
    LastZero(a, 0);
    JoinSextets(g);
    OctetsGroup(a, 0, 0);
  }

  lemma DecodeTwo(a: bv8, b: bv8)
    ensures Decode(Encode([a, b])) == [a, b]
  {
    var g := Group(a, b, 0);
    var vs := Sextets(g);
    assert Leading(Encode([a, b])) == 3;
    IndexLetter(vs[0]); IndexLetter(vs[1]); IndexLetter(vs[2]);
    LastZero(a, b);
    JoinSextets(g);
    OctetsGroup(a, b, 0);
  }

  lemma LastZero(a: bv8, b: bv8)
    ensures Sextets(Group(a, b, 0))[3] == 0
    ensures b == 0 ==> Sextets(Group(a, b, 0))[2] == 0
  {
  }

  lemma {:induction false} EncodeLength(x: seq<bv8>)
    ensures |Encode(x)| == 4 * ((|x| + 2) / 3)
  {
    if |x| >= 3 { EncodeLength(x[3..]); }
  }

  /**
   Canonical text, in the sense of section 3.5: groups of four letters, and a last group that
   may end in one or two pad characters when the bits they stand for are zero.
   */
  predicate Canonical(s: string) {
    if |s| < 4 then s == ""
    else if |s| == 4 && Leading(s) == 2 then s[2] == s[3] == '=' && Index(s[1]) & 15 == 0
    else if |s| == 4 && Leading(s) == 3 then s[3] == '=' && Index(s[2]) & 3 == 0
    else Leading(s) == 4 && Canonical(s[4..])
  }

  /** Encoding what was decoded gives back the text exactly when it is canonical. */
  lemma CanonicalIff(s: string)
    ensures Encode(Decode(s)) == s <==> Canonical(s)
  {
    EncodeCanonical(Decode(s));
    if Canonical(s) { DecodeEncode(s); }
  }

  lemma {:induction false} EncodeCanonical(x: seq<bv8>)
    ensures Canonical(Encode(x))
  {
    if |x| == 1 {
      var s, vs := Encode(x), Sextets(Group(x[0], 0, 0));
      IndexLetter(vs[1]);
      LowBits(x[0], 0);
      assert Leading(s) == 2;
    } else if |x| == 2 {
      var s, vs := Encode(x), Sextets(Group(x[0], x[1], 0));
      IndexLetter(vs[2]);
      LowBits(x[0], x[1]);
      assert Leading(s) == 3;
    } else if |x| >= 3 {
      EncodeCanonical(x[3..]);
      assert Encode(x)[4..] == Encode(x[3..]);
      assert Leading(Encode(x)) == 4;
    }
  }

  lemma LowBits(a: bv8, b: bv8)
    ensures Sextets(Group(a, 0, 0))[1] & 15 == 0
    ensures Sextets(Group(a, b, 0))[2] & 3 == 0
  {
  }

  lemma {:induction false} DecodeEncode(s: string)
    requires Canonical(s)
    ensures Encode(Decode(s)) == s
  {
    if |s| >= 4 {
      if Leading(s) == 4 {
        DecodeEncodeFour(s);
        DecodeEncode(s[4..]);
        assert s == s[..4] + s[4..];
      } else {
        DecodeEncodeLast(s);
      }
    }
  }

  lemma DecodeEncodeFour(s: string)
    requires Leading(s) == 4
    ensures Encode(Decode(s)) == s[..4] + Encode(Decode(s[4..]))
  {
    LetterIndex(s[0]); LetterIndex(s[1]); LetterIndex(s[2]); LetterIndex(s[3]);
    EncodeIndices(s, Index(s[0]), Index(s[1]), Index(s[2]), Index(s[3]));
  }

  lemma DecodeEncodeLast(s: string)
    requires Canonical(s) && |s| == 4 && Leading(s) < 4
    ensures Encode(Decode(s)) == s
  {
    LetterIndex(s[0]); LetterIndex(s[1]);
    if Leading(s) == 2 {
      EncodeLastOne(s, Index(s[0]), Index(s[1]));
    } else {
      LetterIndex(s[2]);
      EncodeLastTwo(s, Index(s[0]), Index(s[1]), Index(s[2]));
    }
  }

  lemma EncodeLastOne(s: string, a: Sextet, b: Sextet)
    requires |s| == 4 && Leading(s) == 2 && Index(s[0]) == a && Index(s[1]) == b && b & 15 == 0
    requires s == [Letter(a), Letter(b), '=', '=']
    ensures Encode(Decode(s)) == s
  {
    EncodeOne(a, b);
  }

  lemma EncodeLastTwo(s: string, a: Sextet, b: Sextet, c: Sextet)
    requires |s| == 4 && Leading(s) == 3 && Index(s[0]) == a && Index(s[1]) == b && Index(s[2]) == c && c & 3 == 0
    requires s == [Letter(a), Letter(b), Letter(c), '=']
    ensures Encode(Decode(s)) == s
  {
    EncodeTwo(a, b, c);
  }

  lemma EncodeIndices(s: string, a: Sextet, b: Sextet, c: Sextet, d: Sextet)
    requires Leading(s) == 4 && [a, b, c, d] == [Index(s[0]), Index(s[1]), Index(s[2]), Index(s[3])]
    requires s[..4] == [Letter(a), Letter(b), Letter(c), Letter(d)]
    ensures Encode(Decode(s)) == s[..4] + Encode(Decode(s[4..]))
  {
    EncodeGroup(a, b, c, d, Decode(s[4..]));
  }

  lemma EncodeGroup(a: Sextet, b: Sextet, c: Sextet, d: Sextet, x: seq<bv8>)
    ensures Encode(Octets(Join(a, b, c, d)) + x) == [Letter(a), Letter(b), Letter(c), Letter(d)] + Encode(x)
  {
    var g := Join(a, b, c, d);
    assert (Octets(g) + x)[3..] == x;
    GroupOctets(g);
    SextetsJoin(a, b, c, d);
  }

  lemma EncodeOne(a: Sextet, b: Sextet)
    requires b & 15 == 0
    ensures Encode(Octets(Join(a, b, 0, 0))[..1]) == [Letter(a), Letter(b), '=', '=']
  {
    var g := Join(a, b, 0, 0);
    GroupOctets(g);
    SextetsJoin(a, b, 0, 0);
    assert Octets(g)[1] == Octets(g)[2] == 0;
  }

  lemma EncodeTwo(a: Sextet, b: Sextet, c: Sextet)
    requires c & 3 == 0
    ensures Encode(Octets(Join(a, b, c, 0))[..2]) == [Letter(a), Letter(b), Letter(c), '=']
  {
    var g := Join(a, b, c, 0);
    GroupOctets(g);
    SextetsJoin(a, b, c, 0);
    assert Octets(g)[2] == 0;
  }

  /** The text is letters, ending in as many pad characters as the last group lacks bytes. */
  lemma {:induction false} EncodePadding(x: seq<bv8>)
    ensures var s, pads := Encode(x), (3 - |x| % 3) % 3;
            && pads <= |s|
            && (forall k :: 0 <= k < |s| - pads ==> IsBase64(s[k]))
            && (forall k :: |s| - pads <= k < |s| ==> s[k] == '=')
  {
    if |x| >= 3 {
      EncodePadding(x[3..]);
      assert |x| % 3 == |x[3..]| % 3;
    }
  }

  // --- The staging arithmetic --------------------------------------------------------------------

  lemma PackSextets(a: bv8, b: bv8, c: bv8)
    ensures Sextets(Group(a, b, c)) == [
              (a & 0xfc) >> 2,
              ((a & 0x03) << 4) + ((b & 0xf0) >> 4),
              ((b & 0x0f) << 2) + ((c & 0xc0) >> 6),
              c & 0x3f]
  {
  }

  /** The three sums base64_decode stores, before they are cut to a byte. */
  function Promoted(a: bv8, b: bv8, c: bv8, d: bv8): (ns: seq<bv16>)
    ensures |ns| == 3
  {
    [(a as bv16 << 2) + ((b as bv16 & 0x30) >> 4),
     ((b as bv16 & 0xf) << 4) + ((c as bv16 & 0x3c) >> 2),
     ((c as bv16 & 0x3) << 6) + d as bv16]
  }

  /** Places from the n-th on hold 255, which `find` gives for the zeros put there. */
  predicate Staged(n: nat, a: bv8, b: bv8, c: bv8, d: bv8) {
    && a < 64
    && (if n < 2 then b == 255 else b < 64)
    && (if n < 3 then c == 255 else c < 64)
    && (if n < 4 then d == 255 else d < 64)
  }

  /**
   With n places staged, no sum overflows a byte but the third, and that one exactly when fewer
   than three places are staged or the third has low bits set.  It is used only when all four
   are staged.
   */
  lemma OverflowIff(n: nat, a: bv8, b: bv8, c: bv8, d: bv8)
    requires 1 <= n <= 4 && Staged(n, a, b, c, d)
    ensures Promoted(a, b, c, d)[0] <= 255 && Promoted(a, b, c, d)[1] <= 255
    ensures Promoted(a, b, c, d)[2] > 255 <==> n < 3 || (n == 3 && c & 3 != 0)
  {
  }

  /** What the group of the leading letters of s stores in the k-th place. */
  function StoredAt(s: string, k: nat): bv8
    requires k < 4
  {
    if k < Leading(s) then Index(s[k]) else 255
  }

  /** Some byte computed while s is decoded overflows, used or not. */
  predicate Overflows(s: string) {
    var n := Leading(s);
    && n > 0
    && ((exists k :: 0 <= k < 3 && Promoted(StoredAt(s, 0), StoredAt(s, 1), StoredAt(s, 2), StoredAt(s, 3))[k] > 255)
        || (n == 4 && Overflows(s[4..])))
  }

  /** The letters of the last group, when it is not full. */
  function Short(s: string): (t: string)
    ensures |t| < 4 && Leading(t) == |t|
  {
    if Leading(s) == 4 then Short(s[4..]) else s[..Leading(s)]
  }

  lemma GroupOverflowIff(s: string)
    requires Leading(s) > 0
    ensures (exists k :: 0 <= k < 3 && Promoted(StoredAt(s, 0), StoredAt(s, 1), StoredAt(s, 2), StoredAt(s, 3))[k] > 255)
            <==> Leading(s) < 3 || (Leading(s) == 3 && Index(s[2]) & 3 != 0)
  {
    var a, b, c, d := StoredAt(s, 0), StoredAt(s, 1), StoredAt(s, 2), StoredAt(s, 3);
    OverflowIff(Leading(s), a, b, c, d);
    if Promoted(a, b, c, d)[2] <= 255 {
      assert forall k :: 0 <= k < 3 ==> Promoted(a, b, c, d)[k] <= 255;
    }
  }

  /**
   By the text: decoding overflows somewhere exactly if the letters end in a group of one or two,
   or in one of three whose last letter has one of its two low bits set.
   */
  lemma {:induction false} TextOverflowIff(s: string)
    ensures Overflows(s) <==> 1 <= |Short(s)| <= 2 || (|Short(s)| == 3 && Index(Short(s)[2]) & 3 != 0)
    decreases |s|
  {
    if Leading(s) > 0 {
      GroupOverflowIff(s);
      if Leading(s) == 4 { TextOverflowIff(s[4..]); }
    }
  }

  /** The fill is never seen in the bytes that are used: they are as if it was zero. */
  lemma FillUnseen(n: nat, a: bv8, b: bv8, c: bv8, d: bv8)
    requires 2 <= n <= 4 && Staged(n, a, b, c, d)
    ensures var octets := Octets(Join(a, b, if n < 3 then 0 else c, if n < 4 then 0 else d));
            && (a << 2) + ((b & 0x30) >> 4) == octets[0]
            && (n >= 3 ==> ((b & 0xf) << 4) + ((c & 0x3c) >> 2) == octets[1])
            && (n == 4 ==> ((c & 0x3) << 6) + d == octets[2])
  {
  }

  // --- The loops ---------------------------------------------------------------------------------

  /** The four assignments to char_array_4, in both places. */
  method Pack(charArray3: array<bv8>, charArray4: array<bv8>)
    requires charArray3.Length == 3 && charArray4.Length == 4 && charArray3 != charArray4
    modifies charArray4
    ensures charArray4[..] == Sextets(Group(charArray3[0], charArray3[1], charArray3[2]))
  {
    PackSextets(charArray3[0], charArray3[1], charArray3[2]);
    charArray4[0] := (charArray3[0] & 0xfc) >> 2;
    charArray4[1] := ((charArray3[0] & 0x03) << 4) + ((charArray3[1] & 0xf0) >> 4);
    charArray4[2] := ((charArray3[1] & 0x0f) << 2) + ((charArray3[2] & 0xc0) >> 6);
    charArray4[3] := charArray3[2] & 0x3f;
  }

  method EmitLetters(charArray4: array<bv8>, n: nat) returns (t: string)
    requires n <= charArray4.Length && forall k :: 0 <= k < n ==> charArray4[k] < 64
    ensures |t| == n && forall k :: 0 <= k < n ==> t[k] == Letter(charArray4[k])
  {
    t := "";
    for i := 0 to n
      invariant |t| == i && forall k :: 0 <= k < i ==> t[k] == Letter(charArray4[k])
    {
      assert charArray4[i] < 64;
      LetterAt(0);
      t := t + [BASE64_CHARS[charArray4[i] as nat]];
    }
  }

  method Base64Encode(bytes: seq<bv8>) returns (ret: string)
    ensures ret == Encode(bytes)
  {
    ret := "";
    var i, at := 0, 0;
    var charArray3, charArray4 := new bv8[3], new bv8[4];
    ghost var t: seq<bv8> := [];
    assert t + bytes[at..] == bytes;
    while at < |bytes|
      invariant |t| == i < 3 && at <= |bytes| && charArray3[..i] == t
      invariant ret + Encode(t + bytes[at..]) == Encode(bytes)
    {
      MoveOne(t, bytes, at);
      charArray3[i] := bytes[at];
      t := t + [bytes[at]];
      i, at := i + 1, at + 1;
      if i == 3 {
        ret := EncodeGroupOf(charArray3, charArray4, ret, bytes[at..]);
        i, t := 0, [];
      }
    }
    assert t + bytes[at..] == t;
    if i > 0 {
      var letters := EncodeTail(charArray3, charArray4, i);
      ret := ret + letters;
    }
  }

  lemma MoveOne<T>(t: seq<T>, s: seq<T>, at: nat)
    requires at < |s|
    ensures t + s[at..] == t + [s[at]] + s[at + 1..]
  {
  }

  /** A full group: its letters join the result, and staging starts over. */
  method EncodeGroupOf(charArray3: array<bv8>, charArray4: array<bv8>, ret: string, ghost x: seq<bv8>)
    returns (longer: string)
    requires charArray3.Length == 3 && charArray4.Length == 4 && charArray3 != charArray4
    modifies charArray4
    ensures longer + Encode([] + x) == ret + Encode(charArray3[..] + x)
  {
    Pack(charArray3, charArray4);
    var letters := EmitLetters(charArray4, 4);
    longer := ret + letters;
    EncodeThree(ret, charArray3[..], x);
  }

  /** The last one or two bytes. */
  method EncodeTail(charArray3: array<bv8>, charArray4: array<bv8>, staged: nat) returns (t: string)
    requires charArray3.Length == 3 && charArray4.Length == 4 && charArray3 != charArray4 && 1 <= staged < 3
    modifies charArray3, charArray4
    ensures t == Encode(old(charArray3[..staged]))
  {
    for j := staged to 3
      invariant charArray3[..staged] == old(charArray3[..staged])
      invariant forall k :: staged <= k < j ==> charArray3[k] == 0
    {
      charArray3[j] := 0;
    }
    Pack(charArray3, charArray4);
    t := EmitLetters(charArray4, staged + 1);
    assert t == Letters(Sextets(Group(charArray3[0], charArray3[1], charArray3[2]))[..staged + 1]);
    ghost var letters := t;
    var i := staged;
    while i < 3
      invariant staged <= i <= 3
      invariant t == letters + Pads(i - staged)
    {
      t := t + "=";
      i := i + 1;
    }
    assert Pads(1) == "=" && Pads(2) == "==";
  }

  function Pads(n: nat): string {
    seq(n, _ => '=')
  }

  lemma EncodeThree(ret: string, group: seq<bv8>, x: seq<bv8>)
    requires |group| == 3
    ensures ret + Encode(group + x) == ret + Letters(Sextets(Group(group[0], group[1], group[2]))) + Encode([] + x)
  {
    assert (group + x)[3..] == x == [] + x;
  }

  function Code(c: char): bv8
    requires IsBase64(c)
  {
    c as bv8
  }

  /** A letter in an unsigned char, and back. */
  lemma CodeBack(c: char)
    requires IsBase64(c)
    ensures Code(c) as char == c
  {
    Narrow(c as int);
  }

  /** std::string::find on the table, cut to an unsigned char. */
  method Find(code: bv8) returns (v: bv8)
    ensures v == Index(code as char)
  {
    var c := code as char;
    PlaceIff(c);
    for k := 0 to |BASE64_CHARS|
      invariant c !in BASE64_CHARS[..k]
    {
      if BASE64_CHARS[k] == c {
        LetterAt(k);
        return k as bv8;
      }
      assert BASE64_CHARS[..k + 1] == BASE64_CHARS[..k] + [BASE64_CHARS[k]];
    }
    assert BASE64_CHARS[..|BASE64_CHARS|] == BASE64_CHARS;
    v := 255;
  }

  method FindAll(charArray4: array<bv8>)
    requires charArray4.Length == 4
    modifies charArray4
    ensures forall k :: 0 <= k < 4 ==> charArray4[k] == Index(old(charArray4[k]) as char)
  {
    for i := 0 to 4
      invariant forall k :: 0 <= k < i ==> charArray4[k] == Index(old(charArray4[k]) as char)
      invariant forall k :: i <= k < 4 ==> charArray4[k] == old(charArray4[k])
    {
      charArray4[i] := Find(charArray4[i]);
    }
  }

  /** The three assignments to char_array_3, in both places, with n letters staged. */
  method Unpack(charArray4: array<bv8>, charArray3: array<bv8>, ghost n: nat)
    requires charArray3.Length == 3 && charArray4.Length == 4 && charArray3 != charArray4 && 1 <= n <= 4
    requires Staged(n, charArray4[0], charArray4[1], charArray4[2], charArray4[3])
    modifies charArray3
    ensures n >= 2 ==>
              var octets := Octets(Join(charArray4[0], charArray4[1], if n < 3 then 0 else charArray4[2], if n < 4 then 0 else charArray4[3]));
              charArray3[..n - 1] == octets[..n - 1]
  {
    if n >= 2 { FillUnseen(n, charArray4[0], charArray4[1], charArray4[2], charArray4[3]); }
    charArray3[0] := (charArray4[0] << 2) + ((charArray4[1] & 0x30) >> 4);
    charArray3[1] := ((charArray4[1] & 0xf) << 4) + ((charArray4[2] & 0x3c) >> 2);
    charArray3[2] := ((charArray4[2] & 0x3) << 6) + charArray4[3];
  }

  /** The letters t are staged. */
  ghost predicate Holds(charArray4: array<bv8>, t: string)
    reads charArray4
  {
    && charArray4.Length == 4 && |t| <= 4
    && forall k :: 0 <= k < |t| ==> IsBase64(t[k]) && charArray4[k] == Code(t[k])
  }

  method Stage(charArray4: array<bv8>, c: char, i: nat, ghost t: string)
    requires Holds(charArray4, t) && i == |t| < 4 && IsBase64(c)
    modifies charArray4
    ensures Holds(charArray4, t + [c])
  {
    charArray4[i] := Code(c);
  }

  /** The bytes of one group, full or the last one. */
  method DecodeStaged(charArray4: array<bv8>, charArray3: array<bv8>, n: nat, ghost t: string) returns (bytes: seq<bv8>)
    requires Holds(charArray4, t) && charArray3.Length == 3 && charArray3 != charArray4 && 1 <= n == |t|
    modifies charArray4, charArray3
    ensures Holds(charArray4, []) && bytes == Decode(t)
  {
    for j := n to 4
      invariant Holds(charArray4, t)
      invariant forall k :: n <= k < j ==> charArray4[k] == 0
    {
      charArray4[j] := 0;
    }
    forall k | 0 <= k < n ensures (charArray4[k] as char) == t[k] { CodeBack(t[k]); }
    FindAll(charArray4);
    Unpack(charArray4, charArray3, n);
    bytes := charArray3[..n - 1];
    DecodeShort(t, charArray4[..]);
  }

  /** Decoding one group, by the numbers of its letters. */
  lemma DecodeShort(t: string, v: seq<bv8>)
    requires 1 <= |t| <= 4 && |v| == 4 && forall k :: 0 <= k < |t| ==> IsBase64(t[k]) && v[k] == Index(t[k]) && v[k] < 64
    ensures |t| == 1 ==> Decode(t) == []
    ensures |t| >= 2 ==>
              Decode(t) == Octets(Join(v[0], v[1], if |t| < 3 then 0 else v[2], if |t| < 4 then 0 else v[3]))[..|t| - 1]
  {
    assert Leading(t) == |t|;
    if |t| == 4 { DecodeFull(t); }
  }

  lemma DecodeFull(t: string)
    requires |t| == 4 && forall k :: 0 <= k < 4 ==> IsBase64(t[k])
    ensures Decode(t) == Octets(Join(Index(t[0]), Index(t[1]), Index(t[2]), Index(t[3])))
  {
    assert Leading(t) == 4;
    assert t[4..] == [] && Decode([]) == [];
  }

  lemma DecodeFour(ret: seq<bv8>, charArray4: array<bv8>, t: string, s: string)
    requires Holds(charArray4, t) && |t| == 4
    ensures ret + Decode(t + s) == ret + Decode(t) + Decode([] + s)
  {
    assert Leading(t + s) == Leading(t) == 4;
    assert (t + s)[4..] == s == [] + s;
    assert Decode(t[4..]) == [];
  }

  lemma DecodeEnd(charArray4: array<bv8>, t: string, s: string, at: nat)
    requires Holds(charArray4, t) && |t| < 4 && at <= |s| && (at < |s| ==> !IsBase64(s[at]))
    ensures Decode(t + s[at..]) == Decode(t)
    ensures t == "" ==> Decode(t) == []
  {
    assert Leading(t + s[at..]) == Leading(t) == |t|;
  }

  /** A full group: its bytes join the result, and staging starts over. */
  method DecodeGroupOf(charArray4: array<bv8>, charArray3: array<bv8>, ret: seq<bv8>, ghost t: string, ghost s: string)
    returns (longer: seq<bv8>)
    requires Holds(charArray4, t) && charArray3.Length == 3 && charArray3 != charArray4 && |t| == 4
    modifies charArray4, charArray3
    ensures Holds(charArray4, []) && longer + Decode([] + s) == ret + Decode(t + s)
  {
    DecodeFour(ret, charArray4, t, s);
    var bytes := DecodeStaged(charArray4, charArray3, 4, t);
    longer := ret + bytes;
  }

  method Base64Decode(encoded: string) returns (ret: seq<bv8>)
    ensures ret == Decode(encoded)
  {
    ret := [];
    var i, at := 0, 0;
    var charArray4, charArray3 := new bv8[4], new bv8[3];
    ghost var t: string := [];
    assert t + encoded[at..] == encoded;
    while at < |encoded| && encoded[at] != '=' && IsBase64(encoded[at])
      invariant |t| == i < 4 && at <= |encoded| && Holds(charArray4, t)
      invariant ret + Decode(t + encoded[at..]) == Decode(encoded)
    {
      Stage(charArray4, encoded[at], i, t);
      MoveOne(t, encoded, at);
      t := t + [encoded[at]];
      i, at := i + 1, at + 1;
      if i == 4 {
        ret := DecodeGroupOf(charArray4, charArray3, ret, t, encoded[at..]);
        i, t := 0, [];
      }
    }
    DecodeEnd(charArray4, t, encoded, at);
    ret := DecodeRest(charArray4, charArray3, ret, i, t);
  }

  method DecodeRest(charArray4: array<bv8>, charArray3: array<bv8>, ret: seq<bv8>, i: nat, ghost t: string)
    returns (longer: seq<bv8>)
    requires Holds(charArray4, t) && charArray3.Length == 3 && charArray3 != charArray4 && i == |t| < 4
    modifies charArray4, charArray3
    ensures longer == ret + Decode(t)
  {
    longer := ret;
    if i > 0 {
      var bytes := DecodeStaged(charArray4, charArray3, i, t);
      longer := ret + bytes;
    }
  }
}
