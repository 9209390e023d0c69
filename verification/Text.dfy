// Numbers and lines as text: the C++ library calls the queue file and the
// fallback plan are written and read with.
module Text {
  import opened Wrappers

  const INT64_MIN := -0x8000_0000_0000_0000
  const INT64_MAX := 0x7FFF_FFFF_FFFF_FFFF
  const TWO64: nat := 0x1_0000_0000_0000_0000

  // ---------- integers ----------

  predicate IsDigit(c: char) { '0' <= c <= '9' }

  predicate IsSpace(c: char) {
    c == ' ' || c == '\t' || c == '\n' || c == '\r' || c == '\U{0B}' || c == '\U{0C}'
  }

  function Digit(n: nat): char
    requires n < 10
  {
    '0' + n as char
  }

  function Digits(n: nat): (s: string)
    ensures s != [] && forall i :: 0 <= i < |s| ==> IsDigit(s[i])
  {
    if n < 10 then [Digit(n)] else Digits(n / 10) + [Digit(n % 10)]
  }

  // operator<< of an integer.
  function FormatInt(v: int): string {
    if v < 0 then "-" + Digits(-v) else Digits(v)
  }

  function Value(s: string): nat
    requires forall i :: 0 <= i < |s| ==> IsDigit(s[i])
  {
    if s == [] then 0
    else
      assert IsDigit(s[|s| - 1]);
      10 * Value(s[..|s| - 1]) + (s[|s| - 1] as int - '0' as int)
  }

  lemma {:induction false} ValueOfDigits(n: nat)
    ensures Value(Digits(n)) == n
  {
    if n >= 10 {
      ValueOfDigits(n / 10);
      assert Digits(n)[..|Digits(n)| - 1] == Digits(n / 10);
    }
  }

  function SpaceRun(s: string): (n: nat)
    ensures n <= |s| && (forall i :: 0 <= i < n ==> IsSpace(s[i])) && (n < |s| ==> !IsSpace(s[n]))
  {
    if s != [] && IsSpace(s[0]) then 1 + SpaceRun(s[1..]) else 0
  }

  function DigitRun(s: string): (n: nat)
    ensures n <= |s| && (forall i :: 0 <= i < n ==> IsDigit(s[i])) && (n < |s| ==> !IsDigit(s[n]))
  {
    if s != [] && IsDigit(s[0]) then 1 + DigitRun(s[1..]) else 0
  }

  // What strtoll and strtoull read: leading space, a sign, digits; then the
  // sign, the magnitude and how many characters were used.
  datatype Scan = Scan(negative: bool, magnitude: nat, used: nat)

  function ScanInteger(s: string): Option<Scan> {
    var spaces := SpaceRun(s);
    var signed := spaces < |s| && (s[spaces] == '-' || s[spaces] == '+');
    var from := if signed then spaces + 1 else spaces;
    var digits := DigitRun(s[from..]);
    if digits == 0 then None
    else Some(Scan(signed && s[spaces] == '-', Value(s[from..][..digits]), from + digits))
  }

  // std::stoll: None where it throws.
  function Stoll(s: string): Option<(int, nat)> {
    match ScanInteger(s)
    case None => None
    case Some(scan) =>
      var m: int := scan.magnitude;
      var v := if scan.negative then -m else m;
      if INT64_MIN <= v <= INT64_MAX then Some((v, scan.used)) else None
  }

  // std::stoull: a minus sign wraps around instead of failing.
  function Stoull(s: string): Option<(nat, nat)> {
    match ScanInteger(s)
    case None => None
    case Some(scan) =>
      if scan.magnitude >= TWO64 then None
      else Some((if scan.negative then (TWO64 - scan.magnitude) % TWO64 else scan.magnitude, scan.used))
  }

  lemma {:induction false} DigitRunOfDigits(s: string)
    requires forall i :: 0 <= i < |s| ==> IsDigit(s[i])
    ensures DigitRun(s) == |s|
  {
  }

  lemma ScanOfFormat(v: int)
    ensures ScanInteger(FormatInt(v)) == Some(Scan(v < 0, if v < 0 then -v else v, |FormatInt(v)|))
  {
    var m := if v < 0 then -v else v;
    var s := FormatInt(v);
    ValueOfDigits(m);
    DigitRunOfDigits(Digits(m));
    assert SpaceRun(s) == 0;
    if v < 0 {
      assert s[1..] == Digits(m);
    } else {
      assert s[0..] == Digits(m);
      assert IsDigit(s[0]);
    }
    assert Digits(m)[..|Digits(m)|] == Digits(m);
  }

  lemma StollOfFormat(v: int)
    requires INT64_MIN <= v <= INT64_MAX
    ensures Stoll(FormatInt(v)) == Some((v, |FormatInt(v)|))
  {
    ScanOfFormat(v);
  }

  lemma StoullOfFormat(n: nat)
    requires n < TWO64
    ensures Stoull(Digits(n)) == Some((n, |Digits(n)|))
  {
    ScanOfFormat(n);
  }

  lemma FormatHasNo(v: int, c: char)
    requires !IsDigit(c) && c != '-'
    ensures c !in FormatInt(v)
  {
  }

  // ---------- searching and lines ----------

  // std::string::find of one character.
  function Find(s: string, c: char, from: nat): (at: Option<nat>)
    ensures at.Some? ==> from <= at.value < |s| && s[at.value] == c
    ensures at.Some? ==> forall i :: from <= i < at.value ==> s[i] != c
    ensures at.None? ==> forall i :: from <= i < |s| ==> s[i] != c
    decreases |s| - from
  {
    if from >= |s| then None
    else if s[from] == c then Some(from)
    else Find(s, c, from + 1)
  }

  lemma FindAt(s: string, c: char, from: nat, at: nat)
    requires from <= at < |s| && s[at] == c && forall i :: from <= i < at ==> s[i] != c
    ensures Find(s, c, from) == Some(at)
  {
  }

  // The text before the first separator and the text after it.
  function Cut(s: string, sep: char): Option<(string, string)> {
    match Find(s, sep, 0)
    case None => None
    case Some(at) => Some((s[..at], s[at + 1..]))
  }

  lemma CutField(field: string, sep: char, after: string)
    requires sep !in field
    ensures Cut(field + [sep] + after, sep) == Some((field, after))
  {
    var s := field + [sep] + after;
    assert forall i :: 0 <= i < |field| ==> s[i] == field[i];
    assert s[|field|] == sep;
    FindAt(s, sep, 0, |field|);
    assert s[..|field|] == field && s[|field| + 1..] == after;
  }

  function Join(lines: seq<string>): string {
    if lines == [] then "" else Join(lines[..|lines| - 1]) + lines[|lines| - 1] + "\n"
  }

  lemma JoinOneMore(lines: seq<string>, line: string)
    ensures Join(lines + [line]) == Join(lines) + line + "\n"
  {
    assert (lines + [line])[..|lines|] == lines;
  }

  // What std::getline with this separator yields until the stream ends.
  function Split(s: string, sep: char): seq<string>
    decreases |s|
  {
    if s == [] then []
    else
      match Cut(s, sep)
      case None => [s]
      case Some((first, rest)) => [first] + Split(rest, sep)
  }

  lemma {:induction false} JoinFromFront(lines: seq<string>)
    requires lines != []
    ensures Join(lines) == lines[0] + "\n" + Join(lines[1..])
  {
    if |lines| > 1 {
      var n := |lines| - 1;
      JoinFromFront(lines[..n]);
      var middle := lines[1..];
      assert lines[..n][1..] == middle[..n - 1] && middle[n - 1] == lines[n] && lines[..n][0] == lines[0];
      assert Join(middle) == Join(middle[..n - 1]) + lines[n] + "\n";
    }
  }

  // Lines without a newline of their own read back as they were written.
  lemma {:induction false} SplitOfJoin(lines: seq<string>)
    requires forall i :: 0 <= i < |lines| ==> '\n' !in lines[i]
    ensures Split(Join(lines), '\n') == lines
  {
    if lines != [] {
      JoinFromFront(lines);
      CutField(lines[0], '\n', Join(lines[1..]));
      assert lines[0] + "\n" + Join(lines[1..]) == lines[0] + ['\n'] + Join(lines[1..]);
      SplitOfJoin(lines[1..]);
    }
  }

  lemma SplitFirst(a: string, sep: char, rest: string)
    requires sep !in a
    ensures Split(a + [sep] + rest, sep) == [a] + Split(rest, sep)
  {
    CutField(a, sep, rest);
  }

  lemma SplitLast(a: string, sep: char)
    requires sep !in a && a != ""
    ensures Split(a, sep) == [a]
  {
  }

  // ---------- trimming ----------

  function TrimLeft(s: string, blank: char -> bool): string {
    if s != "" && blank(s[0]) then TrimLeft(s[1..], blank) else s
  }

  function TrimRight(s: string, blank: char -> bool): string {
    if s != "" && blank(s[|s| - 1]) then TrimRight(s[..|s| - 1], blank) else s
  }

  function Trim(s: string, blank: char -> bool): string { TrimRight(TrimLeft(s, blank), blank) }

  lemma TrimSolid(s: string, blank: char -> bool)
    requires s != "" && !blank(s[0]) && !blank(s[|s| - 1])
    ensures Trim(s, blank) == s
  {
  }
}
