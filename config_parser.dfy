/** The line grammar of the radstack configuration file (config/config.go, loadConfigFileVals):
    a single pass over the file's lines in one of two modes.

    - single-line mode: a line must split on `=` into exactly two pieces, key and value; the
      raw key is mapped to the raw value. A value whose first character is a backtick opens a
      block for that key: the rest of the value, then a newline, starts the block's buffer.
    - multi-line mode: a line whose last character is a backtick closes the block; the
      buffer followed by the line without that backtick becomes the key's value. Any other
      line is appended to the buffer followed by a newline.

    The functions here are the specification; `Config.Config.LoadConfigFileVals` is the
    loop that runs it against the object's table. */
module ConfigParser {
  import opened Wrappers
  import opened Text

  const Tick: char := '`'
  const Eq: char := '='

  /** Why a load stops before the end of the file. `Malformed` is the error the loader
      returns; `SliceOutOfRange` is the runtime panic of slicing an empty value
      (config.go:124) or an empty line inside a block (config.go:134). */
  datatype ParseError = Malformed | SliceOutOfRange

  /** The parser's carried state: the key of the open block and its buffer. */
  datatype Mode = SingleLine | MultiLine(key: string, buffer: string)

  /** The file table so far, the mode, and the reason the load stopped, if it did. */
  datatype Scan = Scan(vals: map<string, string>, mode: Mode, failure: Option<ParseError>)

  /** One line of the file. */
  function Step(vals: map<string, string>, mode: Mode, line: string): (s: Scan)
    ensures vals.Keys <= s.vals.Keys
    ensures s.failure == Some(Malformed) ==> s.vals == vals && mode.SingleLine?
    ensures s.failure.None? && mode.MultiLine? && s.mode.MultiLine? ==> s.vals == vals && s.mode.key == mode.key
  {
    match mode
    case SingleLine =>
      var tokens := Split(line, Eq);
      if |tokens| != 2 then Scan(vals, SingleLine, Some(Malformed))
      else
        var v := tokens[1];
        // the entry is written before the value is inspected (config.go:123-124)
        var vals' := vals[tokens[0] := v];
        if |v| == 0 then Scan(vals', SingleLine, Some(SliceOutOfRange))
        else if v[0] == Tick then Scan(vals', MultiLine(tokens[0], v[1..] + "\n"), None)
        else Scan(vals', SingleLine, None)
    case MultiLine(key, buffer) =>
      if |line| == 0 then Scan(vals, mode, Some(SliceOutOfRange))
      else if line[|line| - 1] == Tick then Scan(vals[key := buffer + line[..|line| - 1]], SingleLine, None)
      else Scan(vals, MultiLine(key, buffer + line + "\n"), None)
  }

  /** The rest of the file from scan state `s`; a stopped scan reads no further. */
  function ScanFrom(s: Scan, lines: seq<string>): (r: Scan)
    ensures s.vals.Keys <= r.vals.Keys
    ensures s.failure.Some? ==> r == s
    ensures r.failure.None? ==> s.failure.None?
    decreases |lines|
  {
    if s.failure.Some? || |lines| == 0 then s
    else ScanFrom(Step(s.vals, s.mode, lines[0]), lines[1..])
  }

  /** The whole file, starting in single-line mode from the table `vals`. */
  function Parse(vals: map<string, string>, lines: seq<string>): (r: Scan)
    ensures vals.Keys <= r.vals.Keys
    ensures r.failure.None? && lines != [] ==> Step(vals, SingleLine, lines[0]).failure.None?
  {
    ScanFrom(Scan(vals, SingleLine, None), lines)
  }

  /** Scanning two runs of lines one after the other is scanning their concatenation. */
  lemma {:induction false} ScanFromAppend(s: Scan, a: seq<string>, b: seq<string>)
    ensures ScanFrom(s, a + b) == ScanFrom(ScanFrom(s, a), b)
    decreases |a|
  {
    if s.failure.None? && |a| > 0 {
      assert (a + b)[0] == a[0];
      assert (a + b)[1..] == a[1..] + b;
      ScanFromAppend(Step(s.vals, s.mode, a[0]), a[1..], b);
    } else if s.failure.None? {
      assert a + b == b;
    }
  }

  /** Single-line rule: a line is rejected as malformed exactly when it does not hold
      exactly one `=`; a rejected line leaves the table as it was. This covers blank
      lines, lines without `=`, and values holding `=`. */
  lemma MalformedIffNotOneEq(vals: map<string, string>, line: string)
    ensures Step(vals, SingleLine, line).failure == Some(Malformed) <==> Count(line, Eq) != 1
    ensures Count(line, Eq) != 1 ==> Step(vals, SingleLine, line) == Scan(vals, SingleLine, Some(Malformed))
  {
    SplitLength(line, Eq);
  }

  /** Single-line rule, accepted case: the line is `key=value` and the raw key is mapped to
      the raw value; the value opens a block exactly when it starts with a backtick. */
  lemma SingleLineAccepted(vals: map<string, string>, line: string)
    requires Count(line, Eq) == 1
    ensures var tokens := Split(line, Eq);
      && |tokens| == 2 && line == tokens[0] + "=" + tokens[1]
      && Eq !in tokens[0] && Eq !in tokens[1]
      && Step(vals, SingleLine, line).vals == vals[tokens[0] := tokens[1]]
      && (Step(vals, SingleLine, line).mode.MultiLine? <==> |tokens[1]| > 0 && tokens[1][0] == Tick)
  {
    SplitLength(line, Eq);
    JoinSplit(line, Eq);
    var tokens := Split(line, Eq);
    assert Join(tokens, Eq) == tokens[0] + [Eq] + Join(tokens[1..], Eq);
    assert Eq !in tokens[0] && Eq !in tokens[1];
  }

  /** `key=value` with `=`-free key and value maps `key` to `value`. */
  lemma StepPair(vals: map<string, string>, key: string, value: string)
    requires Eq !in key && Eq !in value
    ensures var s := Step(vals, SingleLine, key + "=" + value);
      && s.vals == vals[key := value]
      && s.failure == (if value == "" then Some(SliceOutOfRange) else None)
      && s.mode == (if value != "" && value[0] == Tick then MultiLine(key, value[1..] + "\n") else SingleLine)
  {
    SplitPair(key, value, Eq);
  }

  /** An empty value is written into the table and then stops the load (config.go:123-124). */
  lemma EmptyValueStops(vals: map<string, string>, key: string)
    requires Eq !in key
    ensures Step(vals, SingleLine, key + "=") == Scan(vals[key := ""], SingleLine, Some(SliceOutOfRange))
  {
    StepPair(vals, key, "");
    assert key + "=" + "" == key + "=";
  }

  /** An empty line inside a block stops the load and leaves the table as it was (config.go:134). */
  lemma EmptyBlockLineStops(vals: map<string, string>, key: string, buffer: string)
    ensures Step(vals, MultiLine(key, buffer), "") == Scan(vals, MultiLine(key, buffer), Some(SliceOutOfRange))
  {
  }

  /** While a block is open its key holds the provisional token, which starts with a backtick. */
  ghost predicate ProvisionalHeld(s: Scan) {
    s.mode.MultiLine? ==>
      s.mode.key in s.vals && |s.vals[s.mode.key]| > 0 && s.vals[s.mode.key][0] == Tick
  }

  lemma {:induction false} ScanFromKeepsProvisional(s: Scan, lines: seq<string>)
    requires ProvisionalHeld(s)
    ensures ProvisionalHeld(ScanFrom(s, lines))
    decreases |lines|
  {
    if s.failure.None? && |lines| > 0 {
      var line := lines[0];
      if s.mode.SingleLine? && Count(line, Eq) == 1 {
        SingleLineAccepted(s.vals, line);
      }
      ScanFromKeepsProvisional(Step(s.vals, s.mode, lines[0]), lines[1..]);
    }
  }

  /** End of file with a block still open is not an error: the key keeps its provisional,
      backtick-prefixed token. */
  lemma UnterminatedBlockKeepsToken(vals: map<string, string>, lines: seq<string>)
    requires Parse(vals, lines).mode.MultiLine?
    ensures var s := Parse(vals, lines);
      s.mode.key in s.vals && |s.vals[s.mode.key]| > 0 && s.vals[s.mode.key][0] == Tick
  {
    ScanFromKeepsProvisional(Scan(vals, SingleLine, None), lines);
  }

  /** A malformed line ends the load with everything parsed before it still in the table. */
  lemma MalformedKeepsEarlierEntries(vals: map<string, string>, before: seq<string>, bad: string, after: seq<string>)
    requires Parse(vals, before).failure.None? && Parse(vals, before).mode.SingleLine?
    requires Count(bad, Eq) != 1
    ensures Parse(vals, before + [bad] + after) == Scan(Parse(vals, before).vals, SingleLine, Some(Malformed))
  {
    var s := Parse(vals, before);
    ScanFromAppend(Scan(vals, SingleLine, None), before, [bad] + after);
    assert before + [bad] + after == before + ([bad] + after);
    MalformedIffNotOneEq(s.vals, bad);
    assert ([bad] + after)[0] == bad;
  }

  // ----- Writing values out and reading them back -----

  /** A record of the file: a plain `key=value` line, or a block spanning several lines. */
  datatype Record =
    | Plain(key: string, value: string)
    | Block(key: string, first: string, middle: seq<string>, last: string)

  /** Each line followed by a newline, concatenated. */
  function Terminated(lines: seq<string>): string {
    if lines == [] then "" else lines[0] + "\n" + Terminated(lines[1..])
  }

  /** The lines a record is written as. */
  function RecordLines(r: Record): seq<string> {
    match r
    case Plain(key, value) => [key + "=" + value]
    case Block(key, first, middle, last) => [key + "=" + ([Tick] + first)] + middle + [last + [Tick]]
  }

  /** The value a record stands for: a block's first fragment, a newline, every middle line
      followed by a newline, then the last fragment. */
  function RecordValue(r: Record): string {
    match r
    case Plain(_, value) => value
    case Block(_, first, middle, last) => first + "\n" + Terminated(middle) + last
  }

  /** What a record must satisfy to be read back as written: keys and single-line values
      hold no `=`, a plain value is non-empty and does not start with a backtick, a block's
      opening fragment holds no `=`, and its middle lines are non-empty and do not end with
      a backtick. The closing fragment is unconstrained. */
  predicate WellFormed(r: Record) {
    Eq !in r.key &&
    match r
    case Plain(_, value) => Eq !in value && value != "" && value[0] != Tick
    case Block(_, first, middle, _) =>
      Eq !in first && forall i :: 0 <= i < |middle| ==> middle[i] != "" && middle[i][|middle[i]| - 1] != Tick
  }

  function Render(rs: seq<Record>): seq<string> {
    if rs == [] then [] else RecordLines(rs[0]) + Render(rs[1..])
  }

  /** The table after applying the records in order; a later record for a key wins. */
  function Apply(vals: map<string, string>, rs: seq<Record>): map<string, string>
    decreases |rs|
  {
    if rs == [] then vals else Apply(vals[rs[0].key := RecordValue(rs[0])], rs[1..])
  }

  /** Inside a block, lines that neither are empty nor end with a backtick are buffered verbatim. */
  lemma {:induction false} MiddleLinesBuffered(vals: map<string, string>, key: string, buffer: string, middle: seq<string>)
    requires forall i :: 0 <= i < |middle| ==> middle[i] != "" && middle[i][|middle[i]| - 1] != Tick
    ensures ScanFrom(Scan(vals, MultiLine(key, buffer), None), middle)
         == Scan(vals, MultiLine(key, buffer + Terminated(middle)), None)
    decreases |middle|
  {
    if middle == [] {
      assert buffer + "" == buffer;
    } else {
      MiddleLinesBuffered(vals, key, buffer + middle[0] + "\n", middle[1..]);
      assert buffer + middle[0] + "\n" + Terminated(middle[1..]) == buffer + Terminated(middle);
    }
  }

  /** One well-formed record read from single-line mode sets its key to its value. */
  lemma RecordRoundTrip(vals: map<string, string>, r: Record)
    requires WellFormed(r)
    ensures ScanFrom(Scan(vals, SingleLine, None), RecordLines(r)) == Scan(vals[r.key := RecordValue(r)], SingleLine, None)
  {
    match r
    case Plain(key, value) =>
      StepPair(vals, key, value);
    case Block(key, first, middle, last) =>
      var opening := [Tick] + first;
      StepPair(vals, key, opening);
      assert opening[1..] == first;
      var vals1 := vals[key := opening];
      var s1 := Scan(vals1, MultiLine(key, first + "\n"), None);
      assert Step(vals, SingleLine, key + "=" + opening) == s1;
      var lines := RecordLines(r);
      assert lines == [key + "=" + opening] + (middle + [last + [Tick]]);
      assert ScanFrom(Scan(vals, SingleLine, None), lines) == ScanFrom(s1, middle + [last + [Tick]]);
      ScanFromAppend(s1, middle, [last + [Tick]]);
      MiddleLinesBuffered(vals1, key, first + "\n", middle);
      var closing := last + [Tick];
      assert closing[..|closing| - 1] == last;
      assert first + "\n" + Terminated(middle) + last == RecordValue(r);
      assert vals1[key := RecordValue(r)] == vals[key := RecordValue(r)];
  }

  /** Round trip: a file written from well-formed records reads back, to the end and in
      single-line mode, as the table with those records applied in order. */
  lemma {:induction false} RenderRoundTrip(vals: map<string, string>, rs: seq<Record>)
    requires forall i :: 0 <= i < |rs| ==> WellFormed(rs[i])
    ensures Parse(vals, Render(rs)) == Scan(Apply(vals, rs), SingleLine, None)
    decreases |rs|
  {
    if rs != [] {
      ScanFromAppend(Scan(vals, SingleLine, None), RecordLines(rs[0]), Render(rs[1..]));
      RecordRoundTrip(vals, rs[0]);
      RenderRoundTrip(vals[rs[0].key := RecordValue(rs[0])], rs[1..]);
    }
  }

  /** The opening line of a block is never tested for a closing backtick: `K=`abc``
      opens a block whose first fragment is `abc``, and the key holds its provisional token. */
  lemma OpeningLineNotClosed()
    ensures Parse(map[], ["K=`abc`"]) == Scan(map["K" := "`abc`"], MultiLine("K", "abc`\n"), None)
    ensures Parse(map[], ["K=`abc`", "def`"]).vals == map["K" := "abc`\ndef"]
  {
    var opening := "`abc`";
    assert Eq !in "K" && Eq !in opening by {
      assert forall i :: 0 <= i < |opening| ==> opening[i] != Eq;
    }
    StepPair(map[], "K", opening);
    assert "K" + "=" + opening == "K=`abc`";
    assert opening[1..] == "abc`";
    var s1 := Scan(map["K" := opening], MultiLine("K", "abc`\n"), None);
    assert Step(map[], SingleLine, "K=`abc`") == s1;
    assert ["K=`abc`", "def`"][1..] == ["def`"];
    var closing := "def`";
    assert closing[|closing| - 1] == Tick && closing[..|closing| - 1] == "def";
    assert "abc`\n" + "def" == "abc`\ndef";
    assert Step(s1.vals, s1.mode, closing).vals == map["K" := "abc`\ndef"];
  }
}
