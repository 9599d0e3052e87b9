/** UTF-8 and Base64 over sequences of 16-bit code units: what the codec computes, and that decoding undoes encoding. */
module Base64s {
  import opened Common

  /** A code unit of a string; bytes are the units below 256. */
  type Unit = bv16

  predicate Bytes(s: seq<Unit>) {
    forall i :: 0 <= i < |s| ==> s[i] < 256
  }

  function UnitAt(s: seq<Unit>, i: nat): Option<Unit> {
    if i < |s| then Some(s[i]) else None
  }

  /** Bit operations take a code that is not there for 0. */
  function Bits(code: Option<Unit>): Unit {
    if code.None? then 0 else code.value
  }

  function Rest(s: seq<Unit>, n: nat): (r: seq<Unit>)
    ensures |r| == if n <= |s| then |s| - n else 0
    ensures Bytes(s) ==> Bytes(r)
  {
    if n <= |s| then s[n..] else []
  }

  // ---------- UTF-8 ----------

  /** Each CR LF becomes LF. */
  function NewLines(s: seq<Unit>): seq<Unit> {
    if s == [] then []
    else if |s| > 1 && s[0] == 13 && s[1] == 10 then [10] + NewLines(s[2..])
    else [s[0]] + NewLines(s[1..])
  }

  /** One code unit in one, two or three bytes. */
  function UnitBytes(c: Unit): seq<Unit> {
    if c < 128 then [c]
    else if c < 2048 then [(c >> 6) | 192, (c & 63) | 128]
    else [(c >> 12) | 224, ((c >> 6) & 63) | 128, (c & 63) | 128]
  }

  function Utf8(s: seq<Unit>): seq<Unit> {
    if s == [] then [] else UnitBytes(s[0]) + Utf8(s[1..])
  }

  /** The bytes taken by the unit that starts with the given one. */
  function Width(c: Unit): nat {
    if c < 128 then 1 else if 191 < c < 224 then 2 else 3
  }

  function FirstUnit(s: seq<Unit>): Unit
    requires s != []
  {
    var c, c2, c3 := s[0], Bits(UnitAt(s, 1)), Bits(UnitAt(s, 2));
    if Width(c) == 1 then c
    else if Width(c) == 2 then ((c & 31) << 6) | (c2 & 63)
    else ((c & 15) << 12) | ((c2 & 63) << 6) | (c3 & 63)
  }

  function FromUtf8(s: seq<Unit>): seq<Unit>
    decreases |s|
  {
    if s == [] then [] else [FirstUnit(s)] + FromUtf8(Rest(s, Width(s[0])))
  }

  lemma UnitBits(c: Unit)
    ensures c < 2048 ==> 191 < (c >> 6) | 192 < 224 && ((((c >> 6) | 192) & 31) << 6) | (((c & 63) | 128) & 63) == c
    ensures (c >> 12) | 224 >= 224
    ensures ((((c >> 12) | 224) & 15) << 12) | (((((c >> 6) & 63) | 128) & 63) << 6) | (((c & 63) | 128) & 63) == c
    ensures (c >> 6) | 192 < 256 || c >= 2048
    ensures (c >> 12) | 224 < 256 && ((c >> 6) & 63) | 128 < 256 && (c & 63) | 128 < 256
  {
  }

  lemma {:induction false} UnitReads(c: Unit, more: seq<Unit>)
    ensures Bytes(UnitBytes(c)) && UnitBytes(c) != []
    ensures FirstUnit(UnitBytes(c) + more) == c
    ensures Rest(UnitBytes(c) + more, Width(UnitBytes(c)[0])) == more
  {
    UnitBytesRead(c);
    FirstAlone(UnitBytes(c), more);
  }

  /** A unit is read from its own bytes, whatever comes behind them. */
  lemma {:induction false} FirstAlone(bytes: seq<Unit>, more: seq<Unit>)
    requires bytes != [] && |bytes| == Width(bytes[0])
    ensures FirstUnit(bytes + more) == FirstUnit(bytes) && Rest(bytes + more, Width(bytes[0])) == more
  {
    var s := bytes + more;
    assert |bytes| > 1 ==> UnitAt(s, 1) == UnitAt(bytes, 1);
    assert |bytes| > 2 ==> UnitAt(s, 2) == UnitAt(bytes, 2);
  }

  lemma UnitBytesRead(c: Unit)
    ensures Bytes(UnitBytes(c)) && FirstUnit(UnitBytes(c)) == c && Width(UnitBytes(c)[0]) == |UnitBytes(c)|
  {
    UnitBits(c);
  }

  /** Every sequence of code units is read back from its bytes. */
  lemma {:induction false} Utf8ReadsBack(s: seq<Unit>)
    ensures FromUtf8(Utf8(s)) == s && Bytes(Utf8(s))
  {
    if s != [] {
      UnitReads(s[0], Utf8(s[1..]));
      Utf8ReadsBack(s[1..]);
    }
  }

  /** The bytes of a code unit have the form given in section 3 of RFC 3629, and hold its bits. */
  lemma Utf8Form(c: Unit)
    ensures var b := UnitBytes(c);
            if c < 0x80 then b == [c]
            else if c < 0x800 then |b| == 2 && b[0] >> 5 == 6 && b[1] >> 6 == 2 && ((b[0] & 31) << 6) | (b[1] & 63) == c
            else |b| == 3 && b[0] >> 4 == 14 && b[1] >> 6 == 2 && b[2] >> 6 == 2
                 && ((b[0] & 15) << 12) | ((b[1] & 63) << 6) | (b[2] & 63) == c
  {
    if c < 0x80 {
    } else if c < 0x800 {
      TwoByteForm(c);
    } else {
      ThreeByteForm(c);
    }
  }

  lemma TwoByteForm(c: Unit)
    requires c < 0x800
    ensures ((c >> 6) | 192) >> 5 == 6 && ((c & 63) | 128) >> 6 == 2
    ensures ((((c >> 6) | 192) & 31) << 6) | (((c & 63) | 128) & 63) == c
  {
  }

  lemma ThreeByteForm(c: Unit)
    ensures ((c >> 12) | 224) >> 4 == 14 && (((c >> 6) & 63) | 128) >> 6 == 2 && ((c & 63) | 128) >> 6 == 2
    ensures ((((c >> 12) | 224) & 15) << 12) | (((((c >> 6) & 63) | 128) & 63) << 6) | (((c & 63) | 128) & 63) == c
  {
  }

  /** Wherever a CR LF stands it becomes one LF; a text without one stays as it is. */
  lemma {:induction false} NewLinesReplaced(s: seq<Unit>, t: seq<Unit>)
    ensures NewLines(s + [13, 10] + t) == NewLines(s) + [10] + NewLines(t)
  {
    var all := s + [13, 10] + t;
    if s == [] {
      assert all == [13, 10] + t && all[2..] == t;
    } else if |s| > 1 && s[0] == 13 && s[1] == 10 {
      assert all[2..] == s[2..] + [13, 10] + t;
      NewLinesReplaced(s[2..], t);
      assert [10] + (NewLines(s[2..]) + [10] + NewLines(t)) == [10] + NewLines(s[2..]) + [10] + NewLines(t);
    } else {
      assert all[0] == s[0] && all[1..] == s[1..] + [13, 10] + t;
      assert all[1] == if |s| > 1 then s[1] else 13;
      NewLinesReplaced(s[1..], t);
      assert [s[0]] + (NewLines(s[1..]) + [10] + NewLines(t)) == [s[0]] + NewLines(s[1..]) + [10] + NewLines(t);
    }
  }

  lemma {:induction false} NewLinesKept(s: seq<Unit>)
    requires forall i: nat :: !LineEndAt(s, i)
    ensures NewLines(s) == s
  {
    if s != [] {
      assert !LineEndAt(s, 0);
      forall i: nat ensures !LineEndAt(s[1..], i) { assert !LineEndAt(s, i + 1); }
      NewLinesKept(s[1..]);
      assert s == [s[0]] + s[1..];
    }
  }

  predicate LineEndAt(s: seq<Unit>, i: nat) {
    i + 1 < |s| && s[i] == 13 && s[i + 1] == 10
  }

  // ---------- The alphabet ----------

  /** The key string: the letters, the digits, plus and slash, and the pad at number 64. */
  function Key(n: Unit): Unit
    requires n <= 64
  {
    if n < 26 then n + 65 else if n < 52 then n + 71 else if n < 62 then n - 4
    else if n == 62 then 43 else if n == 63 then 47 else 61
  }

  predicate InAlphabet(c: Unit) {
    65 <= c <= 90 || 97 <= c <= 122 || 48 <= c <= 57 || c == 43 || c == 47 || c == 61
  }

  /** The number of a character in the key string; the empty string of a missing one is found at 0. */
  function KeyNumber(c: Option<Unit>): (n: Unit)
    requires c.Some? ==> InAlphabet(c.value)
    ensures n <= 64 && (c.Some? ==> Key(n) == c.value)
  {
    match c
    case None => 0
    case Some(u) =>
      if 65 <= u <= 90 then u - 65 else if 97 <= u <= 122 then u - 71 else if 48 <= u <= 57 then u + 4
      else if u == 43 then 62 else if u == 47 then 63 else 64
  }

  lemma KeysDiffer(n: Unit)
    requires n <= 64
    ensures InAlphabet(Key(n)) && KeyNumber(Some(Key(n))) == n
  {
  }

  /**
    The alphabet of section 4 of RFC 4648: A to Z (from code 65), a to z (97), 0 to 9 (48), plus (43) and slash (47),
    with the pad (61) behind it.
  */
  lemma KeyOrder(n: Unit)
    requires n <= 64
    ensures Key(n) == if n < 26 then 65 + n else if n < 52 then 97 + (n - 26) else if n < 62 then 48 + (n - 52)
                      else if n == 62 then 43 else if n == 63 then 47 else 61
  {
  }

  lemma {:induction false} AlphabetOfString(c: Unit)
    ensures InAlphabet(c) <==> exists n: Unit :: n <= 64 && Key(n) == c
  {
    if InAlphabet(c) {
      var n := KeyNumber(Some(c));
      assert n <= 64 && Key(n) == c;
    }
    if n: Unit :| n <= 64 && Key(n) == c { KeysDiffer(n); }
  }

  /** What is not in the alphabet is left out, and nothing else. */
  lemma {:induction false} ForeignLeftOut(s: seq<Unit>, t: seq<Unit>, c: Unit)
    ensures Stripped(s + [c] + t) == Stripped(s) + (if InAlphabet(c) then [c] else []) + Stripped(t)
  {
    var all := s + [c] + t;
    if s == [] {
      assert all[0] == c && all[1..] == t;
    } else {
      assert all[0] == s[0] && all[1..] == s[1..] + [c] + t;
      ForeignLeftOut(s[1..], t, c);
    }
  }

  // ---------- Three bytes in four characters ----------

  /** The numbers of the four characters for up to three bytes. */
  function Numbers(a: Unit, b: Option<Unit>, c: Option<Unit>): (Unit, Unit, Unit, Unit) {
    var enc1, enc2 := a >> 2, ((a & 3) << 4) | (Bits(b) >> 4);
    var enc3, enc4 := ((Bits(b) & 15) << 2) | (Bits(c) >> 6), Bits(c) & 63;
    if b.None? then (enc1, enc2, 64, 64) else if c.None? then (enc1, enc2, enc3, 64) else (enc1, enc2, enc3, enc4)
  }

  function Four(a: Unit, b: Option<Unit>, c: Option<Unit>): (r: seq<Unit>)
    requires a < 256 && Bits(b) < 256 && Bits(c) < 256
    ensures |r| == 4
  {
    NumbersSmall(a, b, c);
    var (n1, n2, n3, n4) := Numbers(a, b, c);
    [Key(n1), Key(n2), Key(n3), Key(n4)]
  }

  lemma NumberBits(a: Unit, b: Unit, c: Unit)
    requires a < 256 && b < 256 && c < 256
    ensures a >> 2 < 64
    ensures ((a & 3) << 4) | (b >> 4) < 64
    ensures ((b & 15) << 2) | (c >> 6) < 64
    ensures c & 63 < 64
  {
  }

  lemma NumbersSmall(a: Unit, b: Option<Unit>, c: Option<Unit>)
    requires a < 256 && Bits(b) < 256 && Bits(c) < 256
    ensures var (n1, n2, n3, n4) := Numbers(a, b, c); n1 < 64 && n2 < 64 && n3 <= 64 && n4 <= 64
  {
    NumberBits(a, Bits(b), Bits(c));
    if b.None? {
    } else if c.None? {
      assert Numbers(a, b, c).2 == ((Bits(b) & 15) << 2) | (Bits(c) >> 6);
    } else {
      assert Numbers(a, b, c).3 == Bits(c) & 63;
    }
  }

  function Encoded(s: seq<Unit>): seq<Unit>
    requires Bytes(s)
    decreases |s|
  {
    if s == [] then [] else Four(s[0], UnitAt(s, 1), UnitAt(s, 2)) + Encoded(Rest(s, 3))
  }

  /** The bytes of one group of characters; a pad in third or fourth place stands for no byte. */
  function Three(n1: Unit, n2: Unit, n3: Unit, n4: Unit): seq<Unit> {
    [(n1 << 2) | (n2 >> 4)]
    + (if n3 != 64 then [((n2 & 15) << 4) | (n3 >> 2)] else [])
    + (if n4 != 64 then [((n3 & 3) << 6) | n4] else [])
  }

  predicate Alphabetic(s: seq<Unit>) {
    forall i :: 0 <= i < |s| ==> InAlphabet(s[i])
  }

  function Decoded(s: seq<Unit>): seq<Unit>
    requires Alphabetic(s)
    decreases |s|
  {
    if s == [] then []
    else Three(KeyNumber(UnitAt(s, 0)), KeyNumber(UnitAt(s, 1)), KeyNumber(UnitAt(s, 2)), KeyNumber(UnitAt(s, 3)))
         + Decoded(Rest(s, 4))
  }

  /** The characters of the key string. */
  function Stripped(s: seq<Unit>): (r: seq<Unit>)
    ensures Alphabetic(r) && (Alphabetic(s) ==> r == s)
  {
    if s == [] then [] else if InAlphabet(s[0]) then [s[0]] + Stripped(s[1..]) else Stripped(s[1..])
  }

  // ---------- Decoding undoes encoding ----------

  function Group(a: Unit, b: Option<Unit>, c: Option<Unit>): seq<Unit> {
    if b.None? then [a] else if c.None? then [a, b.value] else [a, b.value, c.value]
  }

  lemma GroupBits(a: Unit, b: Unit, c: Unit)
    requires a < 256 && b < 256 && c < 256
    ensures ((a >> 2) << 2) | ((((a & 3) << 4) | (b >> 4)) >> 4) == a
    ensures (((((a & 3) << 4) | (b >> 4)) & 15) << 4) | ((((b & 15) << 2) | (c >> 6)) >> 2) == b
    ensures (((((b & 15) << 2) | (c >> 6)) & 3) << 6) | (c & 63) == c
  {
  }

  lemma OneBits(a: Unit)
    requires a < 256
    ensures ((a >> 2) << 2) | (((a & 3) << 4) >> 4) == a
  {
  }

  lemma TwoBits(a: Unit, b: Unit)
    requires a < 256 && b < 256
    ensures (b & 15) << 2 < 64
    ensures (((((a & 3) << 4) | (b >> 4)) & 15) << 4) | (((b & 15) << 2) >> 2) == b
  {
  }

  lemma {:induction false} OneReads(a: Unit)
    requires a < 256
    ensures var (n1, n2, n3, n4) := Numbers(a, None, None); Three(n1, n2, n3, n4) == [a]
  {
    OneBits(a);
    assert ((a & 3) << 4) | (0 >> 4) == (a & 3) << 4;
  }

  lemma {:induction false} TwoReads(a: Unit, b: Unit)
    requires a < 256 && b < 256
    ensures var (n1, n2, n3, n4) := Numbers(a, Some(b), None); Three(n1, n2, n3, n4) == [a, b]
  {
    GroupBits(a, b, 0);
    TwoBits(a, b);
    assert ((b & 15) << 2) | (0 >> 6) == (b & 15) << 2;
  }

  lemma {:induction false} ThreeRead(a: Unit, b: Unit, c: Unit)
    requires a < 256 && b < 256 && c < 256
    ensures var (n1, n2, n3, n4) := Numbers(a, Some(b), Some(c)); Three(n1, n2, n3, n4) == [a, b, c]
  {
    var (n1, n2, n3, n4) := Numbers(a, Some(b), Some(c));
    assert n3 < 64 && n4 < 64 by { NumberBits(a, b, c); }
    FullThree(n1, n2, n3, n4);
    GroupBits(a, b, c);
  }

  lemma FullThree(n1: Unit, n2: Unit, n3: Unit, n4: Unit)
    requires n3 < 64 && n4 < 64
    ensures Three(n1, n2, n3, n4) == [(n1 << 2) | (n2 >> 4), ((n2 & 15) << 4) | (n3 >> 2), ((n3 & 3) << 6) | n4]
  {
  }

  lemma {:induction false} GroupReads(a: Unit, b: Option<Unit>, c: Option<Unit>)
    requires a < 256 && Bits(b) < 256 && Bits(c) < 256 && (b.None? ==> c.None?)
    ensures var (n1, n2, n3, n4) := Numbers(a, b, c); Three(n1, n2, n3, n4) == Group(a, b, c)
  {
    if b.None? { OneReads(a); } else if c.None? { TwoReads(a, b.value); } else { ThreeRead(a, b.value, c.value); }
  }

  lemma {:induction false} FourReads(a: Unit, b: Option<Unit>, c: Option<Unit>, more: seq<Unit>)
    requires a < 256 && Bits(b) < 256 && Bits(c) < 256 && (b.None? ==> c.None?) && Alphabetic(more)
    ensures Alphabetic(Four(a, b, c) + more)
    ensures Decoded(Four(a, b, c) + more) ==
            Group(a, b, c) + Decoded(more)
  {
    var (n1, n2, n3, n4) := Numbers(a, b, c);
    NumbersSmall(a, b, c);
    KeysDiffer(n1);
    KeysDiffer(n2);
    KeysDiffer(n3);
    KeysDiffer(n4);
    GroupReads(a, b, c);
    assert Rest(Four(a, b, c) + more, 4) == more;
  }

  lemma {:induction false} GroupSplits(s: seq<Unit>)
    requires s != []
    ensures Group(s[0], UnitAt(s, 1), UnitAt(s, 2)) + Rest(s, 3) == s
  {
  }

  lemma {:induction false} BytesReadBack(s: seq<Unit>)
    requires Bytes(s)
    ensures Alphabetic(Encoded(s)) && Decoded(Encoded(s)) == s
    decreases |s|
  {
    if s != [] {
      BytesReadBack(Rest(s, 3));
      FourReads(s[0], UnitAt(s, 1), UnitAt(s, 2), Encoded(Rest(s, 3)));
      GroupSplits(s);
    }
  }

  /** Decoding what was encoded gives the string back, with LF for each CR LF. */
  lemma {:induction false} RoundTrip(s: seq<Unit>)
    ensures Bytes(Utf8(NewLines(s)))
    ensures FromUtf8(Decoded(Stripped(Encoded(Utf8(NewLines(s)))))) == NewLines(s)
  {
    Utf8ReadsBack(NewLines(s));
    BytesReadBack(Utf8(NewLines(s)));
  }

  // ---------- The form of the encoding: section 4 of RFC 4648 ----------

  lemma {:induction false} EncodedStep(s: seq<Unit>)
    requires Bytes(s) && s != []
    ensures |Encoded(s)| == 4 + |Encoded(Rest(s, 3))|
    ensures forall i :: 0 <= i < 4 ==> Encoded(s)[i] == Four(s[0], UnitAt(s, 1), UnitAt(s, 2))[i]
    ensures forall i :: 4 <= i < |Encoded(s)| ==> Encoded(s)[i] == Encoded(Rest(s, 3))[i - 4]
  {
    Joined(Four(s[0], UnitAt(s, 1), UnitAt(s, 2)), Encoded(Rest(s, 3)));
  }

  lemma {:induction false} Joined(four: seq<Unit>, more: seq<Unit>)
    requires |four| == 4
    ensures forall i :: 0 <= i < 4 ==> (four + more)[i] == four[i]
    ensures forall i :: 4 <= i < |four + more| ==> (four + more)[i] == more[i - 4]
  {
  }

  lemma ByThrees(n: nat)
    ensures n > 0 ==> (n + 2) / 3 == 1 + ((if n < 3 then 0 else n - 3) + 2) / 3
    ensures n >= 3 ==> n % 3 == (n - 3) % 3
  {
  }

  lemma {:induction false} EncodedLength(s: seq<Unit>)
    requires Bytes(s)
    ensures |Encoded(s)| == 4 * ((|s| + 2) / 3)
    decreases |s|
  {
    if s != [] {
      EncodedStep(s);
      EncodedLength(Rest(s, 3));
      ByThrees(|s|);
    }
  }

  function Pads(n: nat): (pads: nat)
    ensures pads <= 2 && (n >= 3 ==> pads == Pads(n - 3))
  {
    if n % 3 == 0 then 0 else 3 - n % 3
  }

  /** Pads stand at the very end only: two after one last byte, one after two. */
  lemma {:induction false} Padding(s: seq<Unit>, i: nat)
    requires Bytes(s) && i < |Encoded(s)|
    ensures Encoded(s)[i] == 61 <==> i >= |Encoded(s)| - Pads(|s|)
    decreases |s|
  {
    if i >= 4 {
      PadInRest(s, i);
      Padding(Rest(s, 3), i - 4);
    } else {
      PadInFirst(s, i);
    }
  }

  /** The groups behind the first one end like the whole encoding. */
  lemma {:induction false} PadInRest(s: seq<Unit>, i: nat)
    requires Bytes(s) && 4 <= i < |Encoded(s)|
    ensures Bytes(Rest(s, 3)) && |Rest(s, 3)| < |s| && i - 4 < |Encoded(Rest(s, 3))|
    ensures Encoded(s)[i] == Encoded(Rest(s, 3))[i - 4]
    ensures |Encoded(s)| - Pads(|s|) == 4 + |Encoded(Rest(s, 3))| - Pads(|Rest(s, 3)|)
  {
    EncodedStep(s);
    EncodedLength(s);
  }

  lemma {:induction false} PadInFirst(s: seq<Unit>, i: nat)
    requires Bytes(s) && s != [] && i < 4
    ensures |Encoded(s)| >= 4 && (Encoded(s)[i] == 61 <==> i >= |Encoded(s)| - Pads(|s|))
  {
    EncodedStep(s);
    PadOfFour(s[0], UnitAt(s, 1), UnitAt(s, 2), i);
    EncodedLength(s);
  }

  lemma {:induction false} PadOfFour(a: Unit, b: Option<Unit>, c: Option<Unit>, i: nat)
    requires a < 256 && Bits(b) < 256 && Bits(c) < 256 && i < 4 && (b.None? ==> c.None?)
    ensures Four(a, b, c)[i] == 61 <==> (i == 2 && b.None?) || (i == 3 && c.None?)
  {
    NumbersSmall(a, b, c);
    NumberBits(a, Bits(b), Bits(c));
    PadNumber(Numbers(a, b, c).0);
    PadNumber(Numbers(a, b, c).1);
    PadNumber(Numbers(a, b, c).2);
    PadNumber(Numbers(a, b, c).3);
  }

  lemma PadNumber(n: Unit)
    requires n <= 64
    ensures Key(n) == 61 <==> n == 64
  {
  }

  /** The four numbers are the 24 bits of the three bytes, taken six at a time; missing bytes count as zero bits. */
  lemma GroupIs24Bits(a: Unit, b: Unit, c: Unit)
    requires a < 256 && b < 256 && c < 256
    ensures
      var bits := ((a as bv32) << 16) | ((b as bv32) << 8) | (c as bv32);
      var (n1, n2, n3, n4) := Numbers(a, Some(b), Some(c));
      && n1 as bv32 == (bits >> 18) & 63 && n2 as bv32 == (bits >> 12) & 63
      && n3 as bv32 == (bits >> 6) & 63 && n4 as bv32 == bits & 63
  {
  }

  /** Groups of four characters; pads in the last group only, and no bits lost in front of them. */
  predicate Canonical(s: seq<Unit>)
    requires Alphabetic(s)
    decreases |s|
  {
    s == [] ||
    (|s| >= 4 && CanonicalFour(KeyNumber(Some(s[0])), KeyNumber(Some(s[1])), KeyNumber(Some(s[2])), KeyNumber(Some(s[3])), |s| == 4) &&
     Canonical(s[4..]))
  }

  predicate CanonicalFour(n1: Unit, n2: Unit, n3: Unit, n4: Unit, last: bool) {
    && n1 < 64 && n2 < 64
    && if n4 < 64 then n3 < 64 else n4 == 64 && last && if n3 < 64 then n3 & 3 == 0 else n3 == 64 && n2 & 15 == 0
  }

  lemma FullBits(n1: Unit, n2: Unit, n3: Unit, n4: Unit)
    requires n1 < 64 && n2 < 64 && n3 < 64 && n4 < 64
    ensures (n1 << 2) | (n2 >> 4) < 256 && ((n2 & 15) << 4) | (n3 >> 2) < 256 && ((n3 & 3) << 6) | n4 < 256
    ensures ((n1 << 2) | (n2 >> 4)) >> 2 == n1
    ensures ((((n1 << 2) | (n2 >> 4)) & 3) << 4) | ((((n2 & 15) << 4) | (n3 >> 2)) >> 4) == n2
    ensures (((((n2 & 15) << 4) | (n3 >> 2)) & 15) << 2) | ((((n3 & 3) << 6) | n4) >> 6) == n3
    ensures (((n3 & 3) << 6) | n4) & 63 == n4
  {
  }

  lemma {:induction false} FullEncodes(n1: Unit, n2: Unit, n3: Unit, n4: Unit)
    requires n1 < 64 && n2 < 64 && n3 < 64 && n4 < 64
    ensures
      var t := Three(n1, n2, n3, n4);
      |t| == 3 && t[0] < 256 && t[1] < 256 && t[2] < 256 && Numbers(t[0], Some(t[1]), Some(t[2])) == (n1, n2, n3, n4)
  {
    FullBits(n1, n2, n3, n4);
  }

  lemma PaddedBits(n1: Unit, n2: Unit, n3: Unit)
    requires n1 < 64 && n2 < 64 && n3 < 64 && n3 & 3 == 0
    ensures (n1 << 2) | (n2 >> 4) < 256 && ((n2 & 15) << 4) | (n3 >> 2) < 256
    ensures ((n1 << 2) | (n2 >> 4)) >> 2 == n1
    ensures ((((n1 << 2) | (n2 >> 4)) & 3) << 4) | ((((n2 & 15) << 4) | (n3 >> 2)) >> 4) == n2
    ensures (((((n2 & 15) << 4) | (n3 >> 2)) & 15) << 2) | (0 >> 6) == n3
  {
  }

  lemma {:induction false} PaddedEncodes(n1: Unit, n2: Unit, n3: Unit)
    requires n1 < 64 && n2 < 64 && n3 < 64 && n3 & 3 == 0
    ensures
      var t := Three(n1, n2, n3, 64);
      |t| == 2 && t[0] < 256 && t[1] < 256 && Numbers(t[0], Some(t[1]), None) == (n1, n2, n3, 64)
  {
    PaddedBits(n1, n2, n3);
  }

  lemma TwicePaddedBits(n1: Unit, n2: Unit)
    requires n1 < 64 && n2 < 64 && n2 & 15 == 0
    ensures (n1 << 2) | (n2 >> 4) < 256
    ensures ((n1 << 2) | (n2 >> 4)) >> 2 == n1
    ensures ((((n1 << 2) | (n2 >> 4)) & 3) << 4) | (0 >> 4) == n2
  {
  }

  lemma {:induction false} TwicePaddedEncodes(n1: Unit, n2: Unit)
    requires n1 < 64 && n2 < 64 && n2 & 15 == 0
    ensures
      var t := Three(n1, n2, 64, 64);
      |t| == 1 && t[0] < 256 && Numbers(t[0], None, None) == (n1, n2, 64, 64)
  {
    TwicePaddedBits(n1, n2);
  }

  /** The bytes of a canonical group, encoded, are the group. */
  lemma {:induction false} GroupEncodes(n1: Unit, n2: Unit, n3: Unit, n4: Unit, last: bool)
    requires CanonicalFour(n1, n2, n3, n4, last)
    ensures
      var t := Three(n1, n2, n3, n4);
      && 1 <= |t| <= 3 && Bytes(t) && (!last ==> |t| == 3)
      && Numbers(t[0], UnitAt(t, 1), UnitAt(t, 2)) == (n1, n2, n3, n4)
  {
    if n4 < 64 {
      FullEncodes(n1, n2, n3, n4);
    } else if n3 < 64 {
      PaddedEncodes(n1, n2, n3);
    } else {
      TwicePaddedEncodes(n1, n2);
    }
  }

  function FirstBytes(s: seq<Unit>): seq<Unit>
    requires Alphabetic(s) && |s| >= 4
  {
    Three(KeyNumber(Some(s[0])), KeyNumber(Some(s[1])), KeyNumber(Some(s[2])), KeyNumber(Some(s[3])))
  }

  lemma {:induction false} FirstEncodes(s: seq<Unit>)
    requires Alphabetic(s) && Canonical(s) && s != []
    ensures |s| >= 4 && Canonical(s[4..]) && Decoded(s) == FirstBytes(s) + Decoded(s[4..])
    ensures 1 <= |FirstBytes(s)| <= 3 && Bytes(FirstBytes(s)) && (|FirstBytes(s)| < 3 ==> s[4..] == [])
    ensures Four(FirstBytes(s)[0], UnitAt(FirstBytes(s), 1), UnitAt(FirstBytes(s), 2)) == s[..4]
  {
    GroupEncodes(KeyNumber(Some(s[0])), KeyNumber(Some(s[1])), KeyNumber(Some(s[2])), KeyNumber(Some(s[3])), |s| == 4);
  }

  lemma {:induction false} EncodesBack(s: seq<Unit>)
    requires Alphabetic(s) && Canonical(s)
    ensures Bytes(Decoded(s)) && Encoded(Decoded(s)) == s
    decreases |s|
  {
    if s != [] {
      FirstEncodes(s);
      EncodesBack(s[4..]);
      EncodedGroup(FirstBytes(s), Decoded(s[4..]));
      assert s[..4] + s[4..] == s;
    }
  }

  lemma {:induction false} EncodedGroup(t: seq<Unit>, more: seq<Unit>)
    requires 1 <= |t| <= 3 && (|t| < 3 ==> more == []) && Bytes(t) && Bytes(more)
    ensures Bytes(t + more) && Encoded(t + more) == Four(t[0], UnitAt(t, 1), UnitAt(t, 2)) + Encoded(more)
  {
    TakeGroup(t, more);
  }

  lemma {:induction false} TakeGroup(t: seq<Unit>, more: seq<Unit>)
    requires 1 <= |t| <= 3 && (|t| < 3 ==> more == [])
    ensures (t + more)[0] == t[0] && UnitAt(t + more, 1) == UnitAt(t, 1) && UnitAt(t + more, 2) == UnitAt(t, 2)
    ensures Rest(t + more, 3) == more
  {
  }

  lemma {:induction false} EncodedCanonical(s: seq<Unit>)
    requires Bytes(s)
    ensures Alphabetic(Encoded(s)) && Canonical(Encoded(s))
    decreases |s|
  {
    if s != [] {
      EncodedCanonical(Rest(s, 3));
      EncodedStep(s);
      BytesReadBack(s);
      FourCanonical(s[0], UnitAt(s, 1), UnitAt(s, 2));
      assert Encoded(s)[4..] == Encoded(Rest(s, 3));
    }
  }

  lemma {:induction false} FourCanonical(a: Unit, b: Option<Unit>, c: Option<Unit>)
    requires a < 256 && Bits(b) < 256 && Bits(c) < 256 && (b.None? ==> c.None?)
    ensures
      var f := Four(a, b, c);
      && InAlphabet(f[0]) && InAlphabet(f[1]) && InAlphabet(f[2]) && InAlphabet(f[3])
      && CanonicalFour(KeyNumber(Some(f[0])), KeyNumber(Some(f[1])), KeyNumber(Some(f[2])), KeyNumber(Some(f[3])), c.None?)
  {
    NumbersSmall(a, b, c);
    NumberBits(a, Bits(b), Bits(c));
    KeysDiffer(Numbers(a, b, c).0);
    KeysDiffer(Numbers(a, b, c).1);
    KeysDiffer(Numbers(a, b, c).2);
    KeysDiffer(Numbers(a, b, c).3);
    NoBitsLost(a, Bits(b));
  }

  lemma NoBitsLost(a: Unit, b: Unit)
    requires a < 256 && b < 256
    ensures (((a & 3) << 4) | (0 >> 4)) & 15 == 0 && (((b & 15) << 2) | (0 >> 6)) & 3 == 0
  {
  }

  /** The byte codec is an exact inverse pair on bytes and on the canonical forms, and on no other ones. */
  lemma {:induction false} ExactInverse(s: seq<Unit>)
    requires Alphabetic(s)
    ensures Canonical(s) <==> Bytes(Decoded(s)) && Encoded(Decoded(s)) == s
  {
    if Canonical(s) { EncodesBack(s); }
    if Bytes(Decoded(s)) { EncodedCanonical(Decoded(s)); }
  }
}
