/** The loops of the Base64 plugin: they go through a string with an index and append to the output. */
module Base64Codecs {
  import opened Common
  import opened Base64s

  lemma RestSteps(s: seq<Unit>, i: nat, n: nat)
    ensures Rest(Rest(s, i), n) == Rest(s, i + n)
    ensures UnitAt(Rest(s, i), n) == UnitAt(s, i + n)
  {
  }

  lemma {:induction false} Utf8More(s: seq<Unit>, i: nat)
    requires i < |s|
    ensures Utf8(s[i..]) == UnitBytes(s[i]) + Utf8(s[i + 1..])
  {
    assert s[i..][1..] == s[i + 1..];
  }

  lemma Joins(s: seq<Unit>, t: seq<Unit>, u: seq<Unit>)
    ensures s + (t + u) == s + t + u
  {
  }

  lemma {:induction false} NewLinesMore(s: seq<Unit>, i: nat)
    requires i < |s|
    ensures NewLines(s[i..]) == if i + 1 < |s| && s[i] == 13 && s[i + 1] == 10 then [10] + NewLines(s[i + 2..])
                                else [s[i]] + NewLines(s[i + 1..])
  {
    assert s[i..][1..] == s[i + 1..];
    if i + 1 < |s| { assert s[i..][2..] == s[i + 2..]; }
  }

  /** Replaces every CR LF by LF, from left to right. */
  method ReplaceNewLines(s: seq<Unit>) returns (output: seq<Unit>)
    ensures output == NewLines(s)
  {
    output := [];
    var i := 0;
    while i < |s|
      invariant 0 <= i <= |s| && output + NewLines(s[i..]) == NewLines(s)
    {
      if i + 1 < |s| && s[i] == 13 && s[i + 1] == 10 {
        NewLinesMore(s, i);
        Joins(output, [10], NewLines(s[i + 2..]));
        output := output + [10];
        i := i + 2;
      } else {
        NewLinesMore(s, i);
        Joins(output, [s[i]], NewLines(s[i + 1..]));
        output := output + [s[i]];
        i := i + 1;
      }
    }
  }

  method AddUnit(c: Unit, before: seq<Unit>) returns (output: seq<Unit>)
    ensures output == before + UnitBytes(c)
  {
    output := before;
    if c < 128 {
      output := output + [c];
    } else if c > 127 && c < 2048 {
      output := output + [(c >> 6) | 192];
      output := output + [(c & 63) | 128];
    } else {
      output := output + [(c >> 12) | 224];
      output := output + [((c >> 6) & 63) | 128];
      output := output + [(c & 63) | 128];
    }
  }

  method Utf8Encode(input: seq<Unit>) returns (output: seq<Unit>)
    ensures output == Utf8(NewLines(input))
  {
    var s := ReplaceNewLines(input);
    output := [];
    for n := 0 to |s|
      invariant output + Utf8(s[n..]) == Utf8(s)
    {
      Utf8More(s, n);
      Joins(output, UnitBytes(s[n]), Utf8(s[n + 1..]));
      output := AddUnit(s[n], output);
    }
  }

  method ReadUnit(input: seq<Unit>, at: nat) returns (unit: Unit, next: nat)
    requires at < |input|
    ensures next == at + Width(input[at]) && unit == FirstUnit(input[at..])
  {
    var c := input[at];
    RestSteps(input, at, 1);
    RestSteps(input, at, 2);
    next := at;
    if c < 128 {
      unit := c;
      next := next + 1;
    } else if c > 191 && c < 224 {
      var c2 := UnitAt(input, at + 1);
      unit := ((c & 31) << 6) | (Bits(c2) & 63);
      next := next + 2;
    } else {
      var c2 := UnitAt(input, at + 1);
      var c3 := UnitAt(input, at + 2);
      unit := ((c & 15) << 12) | ((Bits(c2) & 63) << 6) | (Bits(c3) & 63);
      next := next + 3;
    }
  }

  lemma {:induction false} FromUtf8More(s: seq<Unit>, i: nat)
    requires i < |s|
    ensures FromUtf8(Rest(s, i)) == [FirstUnit(s[i..])] + FromUtf8(Rest(s, i + Width(s[i])))
  {
    RestSteps(s, i, Width(s[i]));
  }

  method Utf8Decode(input: seq<Unit>) returns (s: seq<Unit>)
    ensures s == FromUtf8(input)
  {
    s := [];
    var i := 0;
    while i < |input|
      invariant s + FromUtf8(Rest(input, i)) == FromUtf8(input)
    {
      FromUtf8More(input, i);
      var unit, next := ReadUnit(input, i);
      Joins(s, [unit], FromUtf8(Rest(input, next)));
      s := s + [unit];
      i := next;
    }
  }

  method AddFour(chr1: Unit, chr2: Option<Unit>, chr3: Option<Unit>, before: seq<Unit>) returns (output: seq<Unit>)
    requires chr1 < 256 && Bits(chr2) < 256 && Bits(chr3) < 256
    ensures output == before + Four(chr1, chr2, chr3)
  {
    NumbersSmall(chr1, chr2, chr3);
    var enc1 := chr1 >> 2;
    var enc2 := ((chr1 & 3) << 4) | (Bits(chr2) >> 4);
    var enc3 := ((Bits(chr2) & 15) << 2) | (Bits(chr3) >> 6);
    var enc4 := Bits(chr3) & 63;
    if chr2.None? {
      enc3, enc4 := 64, 64;
    } else if chr3.None? {
      enc4 := 64;
    }
    assert (enc1, enc2, enc3, enc4) == Numbers(chr1, chr2, chr3);
    output := before + [Key(enc1), Key(enc2), Key(enc3), Key(enc4)];
  }

  lemma {:induction false} EncodedMore(s: seq<Unit>, i: nat)
    requires Bytes(s) && i < |s|
    ensures s[i] < 256 && Bits(UnitAt(s, i + 1)) < 256 && Bits(UnitAt(s, i + 2)) < 256
    ensures Encoded(Rest(s, i)) == Four(s[i], UnitAt(s, i + 1), UnitAt(s, i + 2)) + Encoded(Rest(s, i + 3))
  {
    RestSteps(s, i, 1);
    RestSteps(s, i, 2);
    RestSteps(s, i, 3);
  }

  method Encode(input: seq<Unit>) returns (output: seq<Unit>)
    ensures Bytes(Utf8(NewLines(input))) && output == Encoded(Utf8(NewLines(input)))
  {
    output := [];
    var i := 0;
    var s := Utf8Encode(input);
    Utf8ReadsBack(NewLines(input));
    assert Rest(s, 0) == s;
    while i < |s|
      invariant output + Encoded(Rest(s, i)) == Encoded(s)
    {
      EncodedMore(s, i);
      Joins(output, Four(s[i], UnitAt(s, i + 1), UnitAt(s, i + 2)), Encoded(Rest(s, i + 3)));
      output := AddFour(s[i], UnitAt(s, i + 1), UnitAt(s, i + 2), output);
      i := i + 3;
    }
    assert Rest(s, i) == [] && output + [] == output;
  }

  /** Keeps the characters of the key string only. */
  method Strip(s: seq<Unit>) returns (output: seq<Unit>)
    ensures output == Stripped(s)
  {
    output := [];
    for i := 0 to |s|
      invariant output + Stripped(s[i..]) == Stripped(s)
    {
      assert s[i..][1..] == s[i + 1..];
      if InAlphabet(s[i]) {
        assert output + ([s[i]] + Stripped(s[i + 1..])) == output + [s[i]] + Stripped(s[i + 1..]);
        output := output + [s[i]];
      }
    }
  }

  method AddThree(enc1: Unit, enc2: Unit, enc3: Unit, enc4: Unit, before: seq<Unit>) returns (output: seq<Unit>)
    ensures output == before + Three(enc1, enc2, enc3, enc4)
  {
    var chr1 := (enc1 << 2) | (enc2 >> 4);
    var chr2 := ((enc2 & 15) << 4) | (enc3 >> 2);
    var chr3 := ((enc3 & 3) << 6) | enc4;
    output := before + [chr1];
    if enc3 != 64 {
      output := output + [chr2];
    }
    if enc4 != 64 {
      output := output + [chr3];
    }
  }

  function ThreeAt(s: seq<Unit>, i: nat): seq<Unit>
    requires Alphabetic(s)
  {
    Three(KeyNumber(UnitAt(s, i)), KeyNumber(UnitAt(s, i + 1)), KeyNumber(UnitAt(s, i + 2)), KeyNumber(UnitAt(s, i + 3)))
  }

  lemma {:induction false} DecodedMore(s: seq<Unit>, i: nat)
    requires Alphabetic(s) && i < |s|
    ensures Alphabetic(Rest(s, i)) && Alphabetic(Rest(s, i + 4))
    ensures Decoded(Rest(s, i)) == ThreeAt(s, i) + Decoded(Rest(s, i + 4))
  {
    RestSteps(s, i, 0);
    RestSteps(s, i, 1);
    RestSteps(s, i, 2);
    RestSteps(s, i, 3);
    RestSteps(s, i, 4);
  }

  method Decode(input: seq<Unit>) returns (output: seq<Unit>)
    ensures output == FromUtf8(Decoded(Stripped(input)))
  {
    output := [];
    var i := 0;
    var s := Strip(input);
    assert Rest(s, 0) == s;
    while i < |s|
      invariant Alphabetic(Rest(s, i)) && output + Decoded(Rest(s, i)) == Decoded(s)
    {
      DecodedMore(s, i);
      Joins(output, ThreeAt(s, i), Decoded(Rest(s, i + 4)));
      output := AddThree(KeyNumber(UnitAt(s, i)), KeyNumber(UnitAt(s, i + 1)), KeyNumber(UnitAt(s, i + 2)),
                         KeyNumber(UnitAt(s, i + 3)), output);
      i := i + 4;
    }
    assert Rest(s, i) == [] && output + [] == output;
    output := Utf8Decode(output);
  }
}
