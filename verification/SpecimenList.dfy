// The text a motor's specimens are kept in: `ch8:19,ch2:13,ch1`, written by the
// setup scripts and read by the onboard.
module SpecimenLists {
  import opened Layouts
  import opened Text
  import opened Wrappers

  // ---------- writing ----------

  function FormatOne(s: Specimen): string {
    if s.line.Some? then "ch" + Digits(s.channel) + [':'] + Digits(s.line.value) else "ch" + Digits(s.channel)
  }

  function FormatSpecimens(ss: seq<Specimen>): string {
    if ss == [] then ""
    else if |ss| == 1 then FormatOne(ss[0])
    else FormatOne(ss[0]) + [','] + FormatSpecimens(ss[1..])
  }

  // ---------- reading ----------

  function Lower(c: char): char { if 'A' <= c <= 'Z' then c - 'A' + 'a' else c }

  function Lowered(s: string): (r: string)
    ensures |r| == |s|
  {
    seq(|s|, i requires 0 <= i < |s| => Lower(s[i]))
  }

  // At most four digits, and nothing else.
  function ParseDigits(s: string): Option<nat> {
    if s == "" || |s| > 4 || exists i :: 0 <= i < |s| && !IsDigit(s[i]) then None else Some(Value(s))
  }

  predicate StartsWith(s: string, prefix: string) { prefix <= s }

  function ParseTerminal(text: string): Option<nat> {
    if StartsWith(text, "ch") then ParseDigits(text[2..]) else None
  }

  function ParseHeater(text: string): Option<nat> {
    ParseDigits(if StartsWith(text, "bcm") then text[3..] else text)
  }

  function ParseOne(item: string): Option<Specimen> {
    var entry := Lowered(Trim(item, IsSpace));
    match Cut(entry, ':')
    case None =>
      (match ParseTerminal(Trim(entry, IsSpace))
       case None => None
       case Some(channel) => Some(Specimen(channel, None)))
    case Some((before, after)) =>
      (match (ParseTerminal(Trim(before, IsSpace)), ParseHeater(Trim(after, IsSpace)))
       case (Some(channel), Some(line)) => Some(Specimen(channel, Some(line)))
       case (_, _) => None)
  }

  function ParseEach(items: seq<string>): (r: seq<Option<Specimen>>)
    ensures |r| == |items|
  {
    seq(|items|, i requires 0 <= i < |items| => ParseOne(items[i]))
  }

  // All of them, if there are all of them.
  function Collect(parsed: seq<Option<Specimen>>): Option<seq<Specimen>> {
    if parsed == [] then Some([])
    else
      match (Collect(parsed[..|parsed| - 1]), parsed[|parsed| - 1])
      case (Some(before), Some(s)) => Some(before + [s])
      case (_, _) => None
  }

  // One bad entry spoils the list, and so does an empty one.
  method ParseSpecimenList(text: string) returns (ss: Option<seq<Specimen>>)
    ensures ss == if Split(text, ',') == [] then None else Collect(ParseEach(Split(text, ',')))
  {
    var items := Split(text, ',');
    ghost var parsed := ParseEach(items);
    var out := [];
    for i := 0 to |items|
      invariant Collect(parsed[..i]) == Some(out) && |out| == i
    {
      CollectOneMore(parsed, i);
      var s := ParseOne(items[i]);
      assert s == parsed[i];
      if s.None? { return None; }
      out := out + [s.value];
    }
    assert parsed[..|items|] == parsed;
    ss := if out == [] then None else Some(out);
  }

  // The next entry joins the others, or spoils everything.
  lemma CollectOneMore(parsed: seq<Option<Specimen>>, i: nat)
    requires i < |parsed| && Collect(parsed[..i]).Some?
    ensures parsed[i].Some? ==> Collect(parsed[..i + 1]) == Some(Collect(parsed[..i]).value + [parsed[i].value])
    ensures parsed[i].None? ==> Collect(parsed).None?
  {
    assert parsed[..i + 1][..i] == parsed[..i];
    if parsed[i].None? { NoneSpoils(parsed, i + 1); }
  }

  lemma {:induction false} NoneSpoils(parsed: seq<Option<Specimen>>, n: nat)
    requires n <= |parsed| && Collect(parsed[..n]).None?
    ensures Collect(parsed).None?
    decreases |parsed|
  {
    if n == |parsed| {
      assert parsed[..n] == parsed;
    } else {
      assert parsed[..|parsed| - 1][..n] == parsed[..n];
      NoneSpoils(parsed[..|parsed| - 1], n);
    }
  }

  // ---------- one undoes the other ----------

  // Numbers of at most four digits.
  predicate Short(s: Specimen) { s.channel < 10000 && (s.line.Some? ==> s.line.value < 10000) }

  lemma DigitsShort(n: nat)
    ensures |Digits(n)| <= 4 <==> n < 10000
  {
    if n >= 10 {
      assert |Digits(n)| == |Digits(n / 10)| + 1;
      if n >= 100 {
        assert |Digits(n / 10)| == |Digits(n / 100)| + 1 && n / 10 / 10 == n / 100;
        if n >= 1000 {
          assert |Digits(n / 100)| == |Digits(n / 1000)| + 1 && n / 100 / 10 == n / 1000;
          if n >= 10000 { assert |Digits(n / 1000)| == |Digits(n / 1000 / 10)| + 1; }
        }
      }
    }
  }

  lemma DigitsParse(n: nat)
    ensures ParseDigits(Digits(n)) == if n < 10000 then Some(n) else None
  {
    DigitsShort(n);
    ValueOfDigits(n);
  }

  // Neither blanks nor capitals nor commas: nothing for the reader to change.
  predicate Clean(s: string) { forall i :: 0 <= i < |s| ==> !IsSpace(s[i]) && Lower(s[i]) == s[i] && s[i] != ',' }

  lemma CleanUnchanged(s: string)
    requires Clean(s) && s != ""
    ensures Trim(s, IsSpace) == s && Lowered(s) == s && ',' !in s
  {
    TrimSolid(s, IsSpace);
  }

  lemma CleanText(s: Specimen)
    ensures Clean(FormatOne(s)) && FormatOne(s) != "" && Clean("ch" + Digits(s.channel))
    ensures s.line.Some? ==> Clean(Digits(s.line.value))
  {
    assert forall i :: 0 <= i < |"ch"| ==> !IsSpace("ch"[i]) && Lower("ch"[i]) == "ch"[i] && "ch"[i] != ',';
  }

  // A terminal's text as the reader meets it.
  lemma TerminalReads(channel: nat)
    ensures var t := "ch" + Digits(channel);
      ':' !in t && ParseTerminal(t) == if channel < 10000 then Some(channel) else None
  {
    var t := "ch" + Digits(channel);
    assert t[2..] == Digits(channel) && "ch" <= t;
    DigitsParse(channel);
  }

  lemma HeaterReads(line: nat)
    ensures ParseHeater(Digits(line)) == if line < 10000 then Some(line) else None
  {
    DigitsParse(line);
    assert IsDigit(Digits(line)[0]);
  }

  lemma OneReadsBack(s: Specimen)
    ensures ParseOne(FormatOne(s)) == if Short(s) then Some(s) else None
  {
    var terminal := "ch" + Digits(s.channel);
    CleanText(s);
    CleanUnchanged(FormatOne(s));
    CleanUnchanged(terminal);
    TerminalReads(s.channel);
    if s.line.Some? {
      HeaterReads(s.line.value);
      CleanUnchanged(Digits(s.line.value));
      CutField(terminal, ':', Digits(s.line.value));
    }
  }

  function FormatEach(ss: seq<Specimen>): (r: seq<string>)
    ensures |r| == |ss|
  {
    seq(|ss|, i requires 0 <= i < |ss| => FormatOne(ss[i]))
  }

  lemma {:induction false} SplitOfFormat(ss: seq<Specimen>)
    ensures Split(FormatSpecimens(ss), ',') == FormatEach(ss)
  {
    if ss != [] {
      CleanText(ss[0]);
      CleanUnchanged(FormatOne(ss[0]));
      if |ss| == 1 {
        SplitLast(FormatOne(ss[0]), ',');
      } else {
        SplitFirst(FormatOne(ss[0]), ',', FormatSpecimens(ss[1..]));
        SplitOfFormat(ss[1..]);
        assert FormatEach(ss) == [FormatOne(ss[0])] + FormatEach(ss[1..]);
      }
    }
  }

  predicate AllShort(ss: seq<Specimen>) { forall i :: 0 <= i < |ss| ==> Short(ss[i]) }

  lemma {:induction false} CollectShort(ss: seq<Specimen>, parsed: seq<Option<Specimen>>)
    requires |parsed| == |ss| && forall i :: 0 <= i < |ss| ==> parsed[i] == if Short(ss[i]) then Some(ss[i]) else None
    ensures Collect(parsed) == if AllShort(ss) then Some(ss) else None
  {
    if ss != [] {
      var n := |ss| - 1;
      CollectShort(ss[..n], parsed[..n]);
      assert ss == ss[..n] + [ss[n]];
      assert AllShort(ss) <==> AllShort(ss[..n]) && Short(ss[n]);
    }
  }

  // The onboard reads what the scripts write, exactly for a list that is not
  // empty and whose numbers have at most four digits.
  lemma WrittenListReads(ss: seq<Specimen>)
    ensures Split(FormatSpecimens(ss), ',') == [] <==> ss == []
    ensures Collect(ParseEach(Split(FormatSpecimens(ss), ','))) == if AllShort(ss) then Some(ss) else None
  {
    SplitOfFormat(ss);
    forall i | 0 <= i < |ss|
      ensures ParseEach(FormatEach(ss))[i] == if Short(ss[i]) then Some(ss[i]) else None
    {
      OneReadsBack(ss[i]);
    }
    CollectShort(ss, ParseEach(FormatEach(ss)));
  }
}
