// Base64 as section 4 of RFC 4648 has it, in the form of the onboard's two loops.
module Base64 {
  import opened Wrappers

  type Byte = bv8
  type Sextet = bv6

  // ---------- the alphabet ----------

  predicate InAlphabet(c: char) {
    'A' <= c <= 'Z' || 'a' <= c <= 'z' || '0' <= c <= '9' || c == '+' || c == '/'
  }

  function Letter(v: Sextet): char {
    if v < 26 then 'A' + (v as char)
    else if v < 52 then 'a' + ((v - 26) as char)
    else if v < 62 then '0' + ((v - 52) as char)
    else if v == 62 then '+'
    else '/'
  }

  // -1 for a character outside the alphabet.
  function Value(c: char): (v: int)
    ensures -1 <= v < 64 && (v >= 0 <==> InAlphabet(c))
  {
    if 'A' <= c <= 'Z' then c as int - 'A' as int
    else if 'a' <= c <= 'z' then c as int - 'a' as int + 26
    else if '0' <= c <= '9' then c as int - '0' as int + 52
    else if c == '+' then 62
    else if c == '/' then 63
    else -1
  }

  function SixBits(c: char): Sextet
    requires InAlphabet(c)
  {
    Value(c) as Sextet
  }

  lemma LetterOfValue(c: char)
    requires InAlphabet(c)
    ensures Letter(SixBits(c)) == c
  {
  }

  lemma ValueOfLetter(v: Sextet)
    ensures InAlphabet(Letter(v)) && SixBits(Letter(v)) == v
  {
  }

  // ---------- groups ----------

  // Three bytes, or four sextets, are one 24-bit number.
  function Join3(a: Byte, b: Byte, c: Byte): bv24 { ((a as bv24) << 16) | ((b as bv24) << 8) | (c as bv24) }

  function Join4(p: Sextet, q: Sextet, r: Sextet, s: Sextet): bv24 {
    ((p as bv24) << 18) | ((q as bv24) << 12) | ((r as bv24) << 6) | (s as bv24)
  }

  function SextetAt(n: bv24, shift: bv5): Sextet
    requires shift <= 18
  {
    ((n >> shift) & 0x3F) as Sextet
  }

  function ByteAt(n: bv24, shift: bv5): Byte
    requires shift <= 16
  {
    ((n >> shift) & 0xFF) as Byte
  }

  lemma SextetsOfJoin(p: Sextet, q: Sextet, r: Sextet, s: Sextet)
    ensures var n := Join4(p, q, r, s);
      SextetAt(n, 18) == p && SextetAt(n, 12) == q && SextetAt(n, 6) == r && SextetAt(n, 0) == s
  {
  }

  lemma BytesOfJoin(a: Byte, b: Byte, c: Byte)
    ensures var n := Join3(a, b, c); ByteAt(n, 16) == a && ByteAt(n, 8) == b && ByteAt(n, 0) == c
  {
  }

  lemma JoinOfSextets(n: bv24)
    ensures Join4(SextetAt(n, 18), SextetAt(n, 12), SextetAt(n, 6), SextetAt(n, 0)) == n
  {
  }

  lemma JoinOfBytes(n: bv24)
    ensures Join3(ByteAt(n, 16), ByteAt(n, 8), ByteAt(n, 0)) == n
  {
  }

  // The bits no byte of a short group reaches.
  lemma SpareBits(a: Byte, b: Byte)
    ensures SextetAt(Join3(a, 0, 0), 6) == SextetAt(Join3(a, 0, 0), 0) == SextetAt(Join3(a, b, 0), 0) == 0
  {
  }

  function Letters(n: bv24): (s: string)
    ensures |s| == 4
  {
    [Letter(SextetAt(n, 18)), Letter(SextetAt(n, 12)), Letter(SextetAt(n, 6)), Letter(SextetAt(n, 0))]
  }

  function Bytes(n: bv24): (s: seq<Byte>)
    ensures |s| == 3
  {
    [ByteAt(n, 16), ByteAt(n, 8), ByteAt(n, 0)]
  }

  // ---------- encoding ----------

  function Encoded(bytes: seq<Byte>): string {
    if |bytes| == 0 then ""
    else if |bytes| == 1 then Letters(Join3(bytes[0], 0, 0))[..2] + "=="
    else if |bytes| == 2 then Letters(Join3(bytes[0], bytes[1], 0))[..3] + "="
    else Letters(Join3(bytes[0], bytes[1], bytes[2])) + Encoded(bytes[3..])
  }

  method Base64Encode(bytes: seq<Byte>) returns (out: string)
    ensures out == Encoded(bytes)
  {
    out := "";
    var i := 0;
    assert bytes[0..] == bytes;
    while i + 2 < |bytes|
      invariant i <= |bytes|
      invariant out + Encoded(bytes[i..]) == Encoded(bytes)
    {
      var v := Join3(bytes[i], bytes[i + 1], bytes[i + 2]);
      assert bytes[i..][3..] == bytes[i + 3..];
      assert out + (Letters(v) + Encoded(bytes[i + 3..])) == (out + Letters(v)) + Encoded(bytes[i + 3..]);
      out := out + [Letter(SextetAt(v, 18)), Letter(SextetAt(v, 12)), Letter(SextetAt(v, 6)), Letter(SextetAt(v, 0))];
      i := i + 3;
    }
    var last := EncodeRest(bytes[i..]);
    out := out + last;
  }

  method EncodeRest(rest: seq<Byte>) returns (out: string)
    requires |rest| <= 2
    ensures out == Encoded(rest)
  {
    if |rest| == 1 {
      var v := Join3(rest[0], 0, 0);
      return [Letter(SextetAt(v, 18)), Letter(SextetAt(v, 12))] + "==";
    }
    if |rest| == 2 {
      var v := Join3(rest[0], rest[1], 0);
      return [Letter(SextetAt(v, 18)), Letter(SextetAt(v, 12)), Letter(SextetAt(v, 6))] + "=";
    }
    out := "";
  }

  // ---------- decoding ----------

  // How many of the last two characters of a final group are padding.
  function Padding(group: string): (p: nat)
    requires |group| == 4
    ensures p <= 2
  {
    if group[3] != '=' then 0 else if group[2] != '=' then 1 else 2
  }

  // The number a group stands for; padding counts as zero bits.
  function GroupNumber(group: string, padding: nat): (r: Option<bv24>)
    requires |group| == 4 && padding <= 2
    ensures r.Some? <==> forall k :: 0 <= k < 4 - padding ==> InAlphabet(group[k])
  {
    if forall k :: 0 <= k < 4 - padding ==> InAlphabet(group[k]) then
      Some(Join4(SixBits(group[0]), SixBits(group[1]), if padding == 2 then 0 else SixBits(group[2]),
                 if padding >= 1 then 0 else SixBits(group[3])))
    else None
  }

  function DecodedGroup(group: string, last: bool): (r: Option<seq<Byte>>)
    requires |group| == 4
  {
    var padding := if last then Padding(group) else 0;
    match GroupNumber(group, padding)
    case None => None
    case Some(n) => Some(Bytes(n)[..3 - padding])
  }

  function Decoded(text: string): Option<seq<Byte>> {
    if |text| == 0 then Some([])
    else if |text| < 4 then None
    else
      match DecodedGroup(text[..4], |text| == 4)
      case None => None
      case Some(first) =>
        match Decoded(text[4..])
        case None => None
        case Some(rest) => Some(first + rest)
  }

  method Base64Decode(text: string) returns (bytes: Option<seq<Byte>>)
    ensures bytes == Decoded(text)
  {
    WholeGroups(text);
    assert text[0..] == text;
    NothingBefore(Decoded(text));
    if |text| % 4 != 0 { return None; }
    var out: seq<Byte> := [];
    var i := 0;
    ghost var groups, done := |text| / 4, 0;
    while i < |text|
      invariant i == 4 * done && |text| == 4 * groups && 0 <= done <= groups
      invariant Decoded(text) == Prepended(out, Decoded(text[i..]))
      decreases |text| - i
    {
      var group := DecodeGroup(text[i..i + 4], i + 4 == |text|);
      OneGroup(text, i);
      if group.None? { return None; }
      PrependTwice(out, group.value, Decoded(text[i + 4..]));
      out := out + group.value;
      i, done := i + 4, done + 1;
    }
    assert text[i..] == "" && out + [] == out;
    bytes := Some(out);
  }

  function Prepended(a: seq<Byte>, r: Option<seq<Byte>>): Option<seq<Byte>> {
    match r
    case None => None
    case Some(b) => Some(a + b)
  }

  lemma OneGroup(text: string, i: nat)
    requires i + 4 <= |text|
    ensures var group := DecodedGroup(text[i..i + 4], i + 4 == |text|);
      Decoded(text[i..]) == if group.None? then None else Prepended(group.value, Decoded(text[i + 4..]))
  {
    assert text[i..][..4] == text[i..i + 4] && text[i..][4..] == text[i + 4..];
  }

  lemma NothingBefore(r: Option<seq<Byte>>)
    ensures Prepended([], r) == r
  {
    if r.Some? { assert [] + r.value == r.value; }
  }

  lemma PrependTwice(a: seq<Byte>, b: seq<Byte>, r: Option<seq<Byte>>)
    ensures Prepended(a + b, r) == Prepended(a, Prepended(b, r))
  {
    if r.Some? { assert a + b + r.value == a + (b + r.value); }
  }

  // One group: padding only in the last two places of the last group, and
  // nothing but padding after padding.
  method DecodeGroup(group: string, last: bool) returns (r: Option<seq<Byte>>)
    requires |group| == 4
    ensures r == DecodedGroup(group, last)
  {
    var v: seq<Sextet> := [0, 0, 0, 0];
    var padding: nat := 0;
    for k := 0 to 4
      invariant |v| == 4 && padding <= 2 && (k <= 2 || !last ==> padding == 0)
      invariant last && k == 3 ==> padding == (if group[2] == '=' then 1 else 0)
      invariant last && k == 4 ==> padding == Padding(group)
      invariant forall j :: 0 <= j < k - padding ==> InAlphabet(group[j]) && v[j] == SixBits(group[j])
      invariant forall j :: k - padding <= j < k ==> v[j] == 0
    {
      if group[k] == '=' && last && k >= 2 {
        v := v[k := 0];
        padding := padding + 1;
      } else if padding > 0 || Value(group[k]) < 0 {
        return None;
      } else {
        v := v[k := SixBits(group[k])];
      }
    }
    r := Some(Bytes(Join4(v[0], v[1], v[2], v[3]))[..3 - padding]);
  }

  lemma {:induction false} WholeGroups(text: string)
    ensures |text| % 4 != 0 ==> Decoded(text) == None
    decreases |text|
  {
    if |text| >= 4 { WholeGroups(text[4..]); }
  }

  // ---------- one undoes the other ----------

  lemma GroupBack(n: bv24, padding: nat)
    requires padding <= 2
    requires padding >= 1 ==> SextetAt(n, 0) == 0
    requires padding == 2 ==> SextetAt(n, 6) == 0
    ensures GroupNumber(Letters(n)[..4 - padding] + "=="[..padding], padding) == Some(n)
  {
    JoinOfSextets(n);
    ValueOfLetter(SextetAt(n, 18));
    ValueOfLetter(SextetAt(n, 12));
    ValueOfLetter(SextetAt(n, 6));
    ValueOfLetter(SextetAt(n, 0));
  }

  lemma {:induction false} DecodeUndoesEncode(bytes: seq<Byte>)
    ensures Decoded(Encoded(bytes)) == Some(bytes)
    decreases |bytes|
  {
    var text := Encoded(bytes);
    if |bytes| == 1 {
      OneByteBack(bytes[0]);
      assert bytes == [bytes[0]];
    } else if |bytes| == 2 {
      TwoBytesBack(bytes[0], bytes[1]);
      assert bytes == [bytes[0], bytes[1]];
    } else if |bytes| >= 3 {
      FirstGroupBack(bytes);
      DecodeUndoesEncode(bytes[3..]);
      assert text[4..] == Encoded(bytes[3..]);
      assert bytes == bytes[..3] + bytes[3..];
    }
  }

  lemma FirstGroupBack(bytes: seq<Byte>)
    requires |bytes| >= 3
    ensures DecodedGroup(Encoded(bytes)[..4], |Encoded(bytes)| == 4) == Some(bytes[..3])
  {
    var n := Join3(bytes[0], bytes[1], bytes[2]);
    BytesOfJoin(bytes[0], bytes[1], bytes[2]);
    GroupBack(n, 0);
    assert Encoded(bytes)[..4] == Letters(n) == Letters(n)[..4] + "=="[..0];
    assert Padding(Letters(n)) == 0;
    assert Bytes(n)[..3] == bytes[..3];
  }

  lemma OneByteBack(a: Byte)
    ensures Decoded(Encoded([a])) == Some([a])
  {
    var n := Join3(a, 0, 0);
    SpareBits(a, 0);
    BytesOfJoin(a, 0, 0);
    assert Bytes(n)[..1] == [a] && "=="[..2] == "==";
    ShortGroupBack(n, 2, [a]);
  }

  lemma TwoBytesBack(a: Byte, b: Byte)
    ensures Decoded(Encoded([a, b])) == Some([a, b])
  {
    var n := Join3(a, b, 0);
    SpareBits(a, b);
    BytesOfJoin(a, b, 0);
    assert Bytes(n)[..2] == [a, b] && "=="[..1] == "=";
    ShortGroupBack(n, 1, [a, b]);
  }

  lemma ShortGroupBack(n: bv24, padding: nat, bytes: seq<Byte>)
    requires 1 <= padding <= 2 && SextetAt(n, 0) == 0 && (padding == 2 ==> SextetAt(n, 6) == 0)
    requires Bytes(n)[..3 - padding] == bytes
    ensures Decoded(Letters(n)[..4 - padding] + "=="[..padding]) == Some(bytes)
  {
    var text := Letters(n)[..4 - padding] + "=="[..padding];
    GroupBack(n, padding);
    LettersInAlphabet(n);
    assert text[..4] == text && text[4..] == "" && Padding(text) == padding;
    assert bytes + [] == bytes;
  }

  // Four characters for every three bytes begun.
  lemma {:induction false} EncodedLength(bytes: seq<Byte>)
    ensures |Encoded(bytes)| == 4 * ((|bytes| + 2) / 3)
    decreases |bytes|
  {
    if |bytes| >= 3 { EncodedLength(bytes[3..]); }
  }

  // Padding only at the very end, and only to fill the last group.
  lemma {:induction false} PaddingOnlyAtEnd(bytes: seq<Byte>, k: nat)
    requires k < |Encoded(bytes)|
    ensures InAlphabet(Encoded(bytes)[k]) <==> k < |Encoded(bytes)| - Pads(|bytes|)
    ensures !InAlphabet(Encoded(bytes)[k]) ==> Encoded(bytes)[k] == '='
    decreases |bytes|
  {
    if |bytes| >= 3 && k >= 4 {
      PaddingOnlyAtEnd(bytes[3..], k - 4);
    } else {
      var n := if |bytes| == 1 then Join3(bytes[0], 0, 0)
               else if |bytes| == 2 then Join3(bytes[0], bytes[1], 0)
               else Join3(bytes[0], bytes[1], bytes[2]);
      LettersInAlphabet(n);
      if |bytes| >= 3 { EncodedLength(bytes[3..]); }
    }
  }

  function Pads(bytes: nat): nat { (3 - bytes % 3) % 3 }

  lemma LettersInAlphabet(n: bv24)
    ensures forall k :: 0 <= k < 4 ==> InAlphabet(Letters(n)[k])
  {
    ValueOfLetter(SextetAt(n, 18));
    ValueOfLetter(SextetAt(n, 12));
    ValueOfLetter(SextetAt(n, 6));
    ValueOfLetter(SextetAt(n, 0));
  }

  // The bits under the padding are zero.
  predicate Canonical(text: string) {
    |text| >= 4 ==>
      var group := text[|text| - 4..];
      && (Padding(group) == 2 && InAlphabet(group[1]) ==> SixBits(group[1]) & 0xF == 0)
      && (Padding(group) == 1 && InAlphabet(group[2]) ==> SixBits(group[2]) & 0x3 == 0)
  }

  // The decoder takes other texts too: a text reads back as itself exactly when
  // the bits under its padding are zero.
  lemma {:induction false} EncodeUndoesDecode(text: string)
    requires Decoded(text).Some?
    ensures Encoded(Decoded(text).value) == text <==> Canonical(text)
    decreases |text|
  {
    if |text| > 4 {
      var first := DecodedGroup(text[..4], false).value;
      var rest := Decoded(text[4..]).value;
      assert Decoded(text).value == first + rest && |first| == 3;
      FullGroupAgain(text[..4]);
      EncodeUndoesDecode(text[4..]);
      assert (first + rest)[3..] == rest;
      assert text[4..][|text[4..]| - 4..] == text[|text| - 4..];
      assert text == text[..4] + text[4..];
      assert |text[4..]| >= 4;
      assert Encoded(first + rest) == text[..4] + Encoded(rest);
    } else if |text| == 4 {
      assert text[..4] == text && text[4..] == "" && text[0..] == text;
      assert Decoded(text).value == DecodedGroup(text, true).value + [];
      LastGroupAgain(text);
    }
  }

  lemma FullGroupAgain(group: string)
    requires |group| == 4 && GroupNumber(group, 0).Some?
    ensures var b := Bytes(GroupNumber(group, 0).value);
      Letters(Join3(b[0], b[1], b[2])) == group
  {
    var p, q, r, s := SixBits(group[0]), SixBits(group[1]), SixBits(group[2]), SixBits(group[3]);
    JoinOfBytes(Join4(p, q, r, s));
    SextetsOfJoin(p, q, r, s);
    LetterOfValue(group[0]);
    LetterOfValue(group[1]);
    LetterOfValue(group[2]);
    LetterOfValue(group[3]);
  }

  lemma LastGroupAgain(group: string)
    requires |group| == 4 && DecodedGroup(group, true).Some?
    ensures Encoded(DecodedGroup(group, true).value) == group <==> Canonical(group)
  {
    var padding := Padding(group);
    assert group[|group| - 4..] == group;
    if padding == 0 {
      FullGroupAgain(group);
      var b := Bytes(GroupNumber(group, 0).value);
      assert b[..3] == b && b[3..] == [];
      assert Encoded(b) == Letters(Join3(b[0], b[1], b[2])) + "";
    } else {
      PaddedGroupAgain(group, padding);
    }
  }

  // Cutting a number to its first bytes clears the low bits of the last sextet.
  lemma CutToOneByte(p: Sextet, q: Sextet)
    ensures Join3(ByteAt(Join4(p, q, 0, 0), 16), 0, 0) == Join4(p, q & 0x30, 0, 0)
    ensures q & 0x30 == q <==> q & 0xF == 0
  {
  }

  lemma CutToTwoBytes(p: Sextet, q: Sextet, r: Sextet)
    ensures var n := Join4(p, q, r, 0); Join3(ByteAt(n, 16), ByteAt(n, 8), 0) == Join4(p, q, r & 0x3C, 0)
    ensures r & 0x3C == r <==> r & 0x3 == 0
  {
  }

  lemma PaddedGroupAgain(group: string, padding: nat)
    requires |group| == 4 && padding == Padding(group) >= 1 && GroupNumber(group, padding).Some?
    ensures Encoded(Bytes(GroupNumber(group, padding).value)[..3 - padding]) == group <==> Canonical(group)
  {
    assert group[|group| - 4..] == group;
    var p, q := SixBits(group[0]), SixBits(group[1]);
    var r := if padding == 2 then 0 else SixBits(group[2]);
    LetterOfValue(group[0]);
    LetterOfValue(group[1]);
    var text := Encoded(Bytes(GroupNumber(group, padding).value)[..3 - padding]);
    if padding == 2 {
      CutToOneByte(p, q);
      SextetsOfJoin(p, q & 0x30, 0, 0);
      ValueOfLetter(q & 0x30);
      assert text == [Letter(p), Letter(q & 0x30)] + "==";
      assert text == group <==> Letter(q & 0x30) == group[1];
    } else {
      LetterOfValue(group[2]);
      CutToTwoBytes(p, q, r);
      SextetsOfJoin(p, q, r & 0x3C, 0);
      ValueOfLetter(r & 0x3C);
      assert text == [Letter(p), Letter(q), Letter(r & 0x3C)] + "=";
      assert text == group <==> Letter(r & 0x3C) == group[2];
    }
  }
}
