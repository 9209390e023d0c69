// One line of pending.queue.
module QueueFile {
  import opened Subsequence
  import opened Text
  import opened Wrappers

  datatype Frame = Frame(epoch: int, session: string, number: nat, text: string) {
    predicate IsEvent() { |text| >= 4 && text[..4] == "EVT," }
  }

  // The integers a frame can hold.
  predicate InRange(f: Frame) { INT64_MIN <= f.epoch <= INT64_MAX && f.number < TWO64 }

  function FormatLine(f: Frame): string {
    FormatInt(f.epoch) + ['\t'] + (f.session + ['\t'] + (Digits(f.number) + ['\t'] + f.text))
  }

  function LineBytes(f: Frame): nat { |FormatLine(f)| + 1 }

  function ParseLine(line: string): Option<Frame> {
    match Cut(line, '\t')
    case None => None
    case Some((epoch, fromSession)) =>
      match Cut(fromSession, '\t')
      case None => None
      case Some((session, fromNumber)) =>
        match Cut(fromNumber, '\t')
        case None => None
        case Some((number, text)) => ParseFields(epoch, session, number, text)
  }

  function ParseFields(epoch: string, session: string, number: string, text: string): Option<Frame> {
    match (Stoll(epoch), Stoull(number))
    case (Some((e, _)), Some((n, _))) =>
      if session == "" || text == "" then None else Some(Frame(e, session, n, text))
    case (_, _) => None
  }

  // What reads back as it was written.
  predicate Storable(f: Frame) {
    '\t' !in f.session && f.session != "" && f.text != ""
  }

  lemma CutNeverYieldsSeparator(s: string, sep: char)
    ensures Cut(s, sep).Some? ==> sep !in Cut(s, sep).value.0
  {
  }

  // ParseLine undoes FormatLine on the storable frames, and on no other.
  lemma ParseOfFormat(f: Frame)
    requires InRange(f)
    ensures ParseLine(FormatLine(f)) == Some(f) <==> Storable(f)
  {
    var epoch, number := FormatInt(f.epoch), Digits(f.number);
    FormatHasNo(f.epoch, '\t');
    FormatHasNo(f.number, '\t');
    var fromNumber := number + ['\t'] + f.text;
    var fromSession := f.session + ['\t'] + fromNumber;
    CutField(epoch, '\t', fromSession);
    CutNeverYieldsSeparator(fromSession, '\t');
    if '\t' !in f.session {
      CutField(f.session, '\t', fromNumber);
      CutField(number, '\t', f.text);
      StollOfFormat(f.epoch);
      StoullOfFormat(f.number);
    }
  }

  // ---------- reading a file back ----------

  predicate Stale(f: Frame, now: int, retention: int) { retention > 0 && now - f.epoch > retention }

  // With a retention a frame is stale exactly if queued before `now - retention`; what
  // is older, or looked at later, is stale all the more.
  lemma StaleByAge(f: Frame, g: Frame, now: int, later: int, retention: int)
    ensures retention > 0 ==> (Stale(f, now, retention) <==> f.epoch < now - retention)
    ensures retention <= 0 ==> !Stale(f, now, retention)
    ensures Stale(f, now, retention) && g.epoch <= f.epoch && now <= later ==> Stale(g, later, retention)
  {
  }

  // The frames a restart takes from the file: what parses and is not past retention.
  function Recovered(lines: seq<string>, now: int, retention: int): seq<Frame> {
    if lines == [] then []
    else
      var before := Recovered(lines[..|lines| - 1], now, retention);
      match ParseLine(lines[|lines| - 1])
      case Some(f) => if Stale(f, now, retention) then before else before + [f]
      case None => before
  }

  lemma RecoveredOneMore(lines: seq<string>, line: string, now: int, retention: int)
    ensures Recovered(lines + [line], now, retention)
         == match ParseLine(line)
            case None => Recovered(lines, now, retention)
            case Some(f) =>
              if Stale(f, now, retention) then Recovered(lines, now, retention) else Recovered(lines, now, retention) + [f]
  {
    assert (lines + [line])[..|lines|] == lines;
  }

  function Fresh(fs: seq<Frame>, now: int, retention: int): seq<Frame> {
    if fs == [] then []
    else
      var before := Fresh(fs[..|fs| - 1], now, retention);
      if Stale(fs[|fs| - 1], now, retention) then before else before + [fs[|fs| - 1]]
  }

  function Lines(fs: seq<Frame>): (ls: seq<string>)
    ensures |ls| == |fs|
  {
    seq(|fs|, i requires 0 <= i < |fs| => FormatLine(fs[i]))
  }

  // A newline in a frame would cut its line in two.
  predicate OneLine(f: Frame) { '\n' !in f.session && '\n' !in f.text }

  lemma LineHasNoNewline(f: Frame)
    requires OneLine(f)
    ensures '\n' !in FormatLine(f)
  {
    FormatHasNo(f.epoch, '\n');
    FormatHasNo(f.number, '\n');
  }

  // Every frame whose line is somewhere in the file, and which is not stale,
  // comes back, in the order of the lines.
  lemma {:induction false} PendingIsRecovered(fs: seq<Frame>, lines: seq<string>, now: int, retention: int)
    requires Sub(Lines(fs), lines)
    requires forall f :: f in fs ==> InRange(f) && Storable(f)
    ensures Sub(Fresh(fs, now, retention), Recovered(lines, now, retention))
    decreases |fs| + |lines|
  {
    if fs != [] {
      var last := fs[|fs| - 1];
      var ls := Lines(fs);
      assert Init(ls) == Lines(Init(fs)) && Last(ls) == FormatLine(last);
      if Last(ls) == Last(lines) && Sub(Init(ls), Init(lines)) {
        ParseOfFormat(last);
        PendingIsRecovered(Init(fs), Init(lines), now, retention);
        if !Stale(last, now, retention) {
          SubAppend(Fresh(Init(fs), now, retention), Recovered(Init(lines), now, retention), last);
        }
      } else {
        PendingIsRecovered(fs, Init(lines), now, retention);
        RecoveredGrows(lines, now, retention);
        SubTransitive(Fresh(fs, now, retention), Recovered(Init(lines), now, retention),
                      Recovered(lines, now, retention));
      }
    }
  }

  // ---------- the text of the whole file ----------

  // A frame the file keeps: it fits its line, and its line reads back.
  predicate Keepable(f: Frame) { InRange(f) && Storable(f) && OneLine(f) }

  // No line is left without its newline.
  predicate WholeLines(content: string) { content == "" || content[|content| - 1] == '\n' }

  // These lines stand in the file, in order, among others, and the next one
  // will start a line of its own.
  ghost predicate Holds(content: string, lines: seq<string>) {
    WholeLines(content) && Sub(lines, Split(content, '\n'))
  }

  lemma {:induction false} SplitOneMore(content: string, line: string)
    requires WholeLines(content) && '\n' !in line
    ensures WholeLines(content + line + "\n") && Split(content + line + "\n", '\n') == Split(content, '\n') + [line]
    decreases |content|
  {
    if content == "" {
      assert content + line + "\n" == line + ['\n'] + "";
      CutField(line, '\n', "");
    } else {
      var cut := Cut(content, '\n');
      assert content[|content| - 1] in content && cut.Some?;
      var first, rest := cut.value.0, cut.value.1;
      assert content == first + ['\n'] + rest;
      assert content + line + "\n" == first + ['\n'] + (rest + line + "\n");
      CutField(first, '\n', rest + line + "\n");
      SplitOneMore(rest, line);
    }
  }

  lemma {:induction false} JoinIsWholeLines(lines: seq<string>)
    ensures WholeLines(Join(lines))
  {
  }

  lemma {:induction false} PiecesAreLines(content: string)
    ensures forall l :: l in Split(content, '\n') ==> '\n' !in l
    decreases |content|
  {
    if content != "" {
      var cut := Cut(content, '\n');
      if cut.Some? { PiecesAreLines(cut.value.1); }
    }
  }

  // What is read from a line can be kept.
  lemma ParsedIsKeepable(line: string)
    requires '\n' !in line && ParseLine(line).Some?
    ensures Keepable(ParseLine(line).value)
  {
    var (epoch, fromSession) := Cut(line, '\t').value;
    var (session, fromNumber) := Cut(fromSession, '\t').value;
    var (number, text) := Cut(fromNumber, '\t').value;
    CutNeverYieldsSeparator(fromSession, '\t');
    CutKeepsOut(line, '\t', '\n');
    CutKeepsOut(fromSession, '\t', '\n');
    CutKeepsOut(fromNumber, '\t', '\n');
  }

  lemma CutKeepsOut(s: string, sep: char, c: char)
    requires c !in s
    ensures Cut(s, sep).Some? ==> c !in Cut(s, sep).value.0 && c !in Cut(s, sep).value.1
  {
  }

  lemma {:induction false} RecoveredAreKeepable(lines: seq<string>, now: int, retention: int)
    requires forall l :: l in lines ==> '\n' !in l
    ensures forall f :: f in Recovered(lines, now, retention) ==> Keepable(f)
  {
    if lines != [] {
      var last := lines[|lines| - 1];
      assert last in lines;
      RecoveredAreKeepable(lines[..|lines| - 1], now, retention);
      if ParseLine(last).Some? { ParsedIsKeepable(last); }
    }
  }

  lemma KeepableLines(fs: seq<Frame>)
    requires forall f :: f in fs ==> Keepable(f)
    ensures forall l :: l in Lines(fs) ==> '\n' !in l
  {
    forall l | l in Lines(fs) ensures '\n' !in l {
      var j :| 0 <= j < |Lines(fs)| && Lines(fs)[j] == l;
      assert fs[j] in fs;
      LineHasNoNewline(fs[j]);
    }
  }

  lemma RecoveredGrows(lines: seq<string>, now: int, retention: int)
    requires lines != []
    ensures Sub(Recovered(Init(lines), now, retention), Recovered(lines, now, retention))
  {
    var before := Recovered(Init(lines), now, retention);
    SubSelf(before);
    if ParseLine(Last(lines)).Some? { SubAppend(before, before, ParseLine(Last(lines)).value); }
  }
}
