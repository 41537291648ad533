/** The pure scanning inside the tuning script: reading the game engine's
    error stream and the agent's log after one game (`call_halite`),
    reducing each game to its best round, averaging over repeated games for
    every combination of personality parameters (`scan_pvalues`), and
    ranking the combinations. Running the engine, reading and deleting
    files, and decoding the map's JSON happen outside this model: the
    engine's output arrives as text and the log as its list of lines. */
module RunAndParse {
  import opened Outcomes
  import opened Text
  import opened PyMath
  import Linalg
  import MyBot

  /** The Python exceptions the scanning can raise. */
  datatype Failure = ValueError | IndexError | Unbound(name: string) | StatisticsError

  datatype RoundPair = RoundPair(round: int, halite: int)

  // ---------------------------------------------------------------------
  // The engine's error stream

  const SeedMarker: string := "[info] Map seed is"

  /** A line reporting that the agent's ship collided. */
  predicate IsCollision(line: string)
  {
    Contains(line, "[P0]") && Contains(line, "collided")
  }

  /** `line[start:]`. */
  function From(line: string, start: nat): string
  {
    if |line| <= start then "" else line[start..]
  }

  datatype StderrSummary = StderrSummary(seed: Option<int>, collisions: nat)

  /** One pass of the stderr loop: a seed line must hold an integer after
      its 18th character and replaces the seed; a collision line counts. */
  function StderrStep(acc: StderrSummary, line: string): Result<StderrSummary, Failure>
  {
    var parsed := ParseInt(From(line, 18));
    if Contains(line, SeedMarker) && parsed.None? then Err(ValueError)
    else
      var seed := if Contains(line, SeedMarker) then parsed else acc.seed;
      Ok(StderrSummary(seed, if IsCollision(line) then acc.collisions + 1 else acc.collisions))
  }

  /** The stderr loop over `lines`, stopping at the first failure. */
  function StderrScan(lines: seq<string>): Result<StderrSummary, Failure>
  {
    if |lines| == 0 then Ok(StderrSummary(None, 0))
    else
      match StderrScan(lines[..|lines| - 1])
      case Err(e) => Err(e)
      case Ok(acc) => StderrStep(acc, lines[|lines| - 1])
  }

  /** The number of collision lines. */
  function CountCollisions(lines: seq<string>): nat
  {
    if |lines| == 0 then 0
    else CountCollisions(lines[..|lines| - 1]) + (if IsCollision(lines[|lines| - 1]) then 1 else 0)
  }

  /** Once the loop has failed, later lines change nothing. */
  lemma {:induction false} StderrFailureSticks(lines: seq<string>, i: nat)
    requires i <= |lines| && StderrScan(lines[..i]).Err?
    ensures StderrScan(lines) == StderrScan(lines[..i])
  {
    if i < |lines| {
      assert lines[..|lines| - 1][..i] == lines[..i];
      StderrFailureSticks(lines[..|lines| - 1], i);
      assert lines[..|lines|] == lines;
    } else {
      assert lines[..i] == lines;
    }
  }

  /** What one pass of the stderr loop does. */
  lemma StderrStepEffect(acc: StderrSummary, line: string)
    ensures StderrStep(acc, line).Ok? <==> !Contains(line, SeedMarker) || ParseInt(From(line, 18)).Some?
    ensures StderrStep(acc, line).Ok? ==>
              StderrStep(acc, line).value.collisions == acc.collisions + (if IsCollision(line) then 1 else 0)
              && StderrStep(acc, line).value.seed == (if Contains(line, SeedMarker) then ParseInt(From(line, 18)) else acc.seed)
  {
  }

  /** The scan succeeds exactly when every seed line holds an integer, and
      then counts the collision lines. */
  lemma {:induction false} StderrScanMeaning(lines: seq<string>)
    ensures StderrScan(lines).Ok? <==>
              forall i :: 0 <= i < |lines| && Contains(lines[i], SeedMarker) ==> ParseInt(From(lines[i], 18)).Some?
    ensures StderrScan(lines).Ok? ==> StderrScan(lines).value.collisions == CountCollisions(lines)
  {
    if |lines| > 0 {
      var init := lines[..|lines| - 1];
      StderrScanMeaning(init);
      assert forall i :: 0 <= i < |init| ==> init[i] == lines[i];
      if StderrScan(init).Ok? {
        StderrStepEffect(StderrScan(init).value, lines[|lines| - 1]);
      }
    }
  }

  /** After a successful scan the seed is absent exactly when no line
      reports one. */
  lemma {:induction false} StderrSeedAbsent(lines: seq<string>)
    requires StderrScan(lines).Ok?
    ensures StderrScan(lines).value.seed.None? <==> forall i :: 0 <= i < |lines| ==> !Contains(lines[i], SeedMarker)
  {
    if |lines| > 0 {
      var init := lines[..|lines| - 1];
      assert StderrScan(init).Ok?;
      StderrSeedAbsent(init);
      StderrStepEffect(StderrScan(init).value, lines[|lines| - 1]);
      assert forall i :: 0 <= i < |init| ==> init[i] == lines[i];
    }
  }

  /** Line `i` is the last one that contains `pattern`. */
  predicate LastLineWith(lines: seq<string>, pattern: string, i: int)
  {
    0 <= i < |lines| && Contains(lines[i], pattern) && NoneAfter(lines, pattern, i)
  }

  predicate NoneAfter(lines: seq<string>, pattern: string, i: nat)
  {
    forall j :: i < j < |lines| ==> !Contains(lines[j], pattern)
  }

  /** A last line with `pattern` stays the last one when a line without it
      is appended. */
  lemma LastLineKept(lines: seq<string>, pattern: string, i: int)
    requires |lines| > 0 && LastLineWith(lines[..|lines| - 1], pattern, i) && !Contains(lines[|lines| - 1], pattern)
    ensures LastLineWith(lines, pattern, i) && lines[i] == lines[..|lines| - 1][i]
  {
    var init := lines[..|lines| - 1];
    forall j | i < j < |lines|
      ensures !Contains(lines[j], pattern)
    {
      if j < |lines| - 1 {
        assert lines[j] == init[j];
      }
    }
  }

  /** A seed, when there is one, comes from the last line that reports
      one. */
  lemma {:induction false} StderrSeedLast(lines: seq<string>)
    requires StderrScan(lines).Ok? && StderrScan(lines).value.seed.Some?
    ensures exists i :: 0 <= i < |lines| && LastLineWith(lines, SeedMarker, i) && ParseInt(From(lines[i], 18)) == StderrScan(lines).value.seed
  {
    var n := |lines| - 1;
    var init := lines[..n];
    assert StderrScan(init).Ok?;
    var acc := StderrScan(init).value;
    StderrStepEffect(acc, lines[n]);
    assert StderrScan(lines) == StderrStep(acc, lines[n]);
    if Contains(lines[n], SeedMarker) {
      assert LastLineWith(lines, SeedMarker, n);
    } else {
      StderrSeedLast(init);
      var i :| LastLineWith(init, SeedMarker, i) && ParseInt(From(init[i], 18)) == acc.seed;
      LastLineKept(lines, SeedMarker, i);
    }
  }

  /** The loop over one more line is one more pass. */
  lemma StderrScanNext(lines: seq<string>, i: nat)
    requires i < |lines|
    ensures StderrScan(lines[..i + 1])
         == (match StderrScan(lines[..i]) case Err(e) => Err(e) case Ok(acc) => StderrStep(acc, lines[i]))
  {
    assert lines[..i + 1][..i] == lines[..i];
  }

  /** The stderr loop of `call_halite` over `stderr.split("\n")`. */
  method ScanStderr(stderr: string) returns (r: Result<StderrSummary, Failure>)
    ensures r == StderrScan(Split(stderr, '\n'))
  {
    var lines := Split(stderr, '\n');
    var seed: Option<int> := None;
    var collisions := 0;
    for i := 0 to |lines|
      invariant StderrScan(lines[..i]) == Ok(StderrSummary(seed, collisions))
    {
      var line := lines[i];
      StderrScanNext(lines, i);
      if Contains(line, SeedMarker) {
        var parsed := ParseInt(From(line, 18));
        if parsed.None? {
          StderrFailureSticks(lines, i + 1);
          return Err(ValueError);
        }
        seed := parsed;
      }
      if IsCollision(line) {
        collisions := collisions + 1;
      }
    }
    assert lines[..|lines|] == lines;
    return Ok(StderrSummary(seed, collisions));
  }

  /** The engine's seed report, as the stderr loop expects it. */
  function SeedLine(seed: int): string
  {
    SeedMarker + " " + ShowInt(seed)
  }

  lemma SeedLineParses(seed: int)
    ensures Contains(SeedLine(seed), SeedMarker)
    ensures ParseInt(From(SeedLine(seed), 18)) == Some(seed)
  {
    var text := ShowInt(seed);
    var line := SeedLine(seed);
    assert line == SeedMarker + (" " + text);
    assert Window(line, 0, |SeedMarker|) == SeedMarker;
    assert From(line, 18) == " " + text;
    StripSpaceBefore(text);
    ParseShowInt(seed);
  }

  // ---------------------------------------------------------------------
  // The agent's log

  datatype LogSummary = LogSummary(gameMap: Option<string>, rounds: seq<RoundPair>)

  /** `[int(fields[3]), int(fields[4])]`, failing as Python does, from left
      to right. */
  function RoundOf(fields: seq<string>): (r: Result<RoundPair, Failure>)
    ensures r.Ok? <==> |fields| >= 5 && ParseInt(fields[3]).Some? && ParseInt(fields[4]).Some?
    ensures r.Ok? ==> r.value == RoundPair(ParseInt(fields[3]).value, ParseInt(fields[4]).value)
    ensures r == Err(IndexError) <==> |fields| < 4 || (ParseInt(fields[3]).Some? && |fields| == 4)
  {
    if |fields| < 4 then Err(IndexError)
    else if ParseInt(fields[3]).None? then Err(ValueError)
    else if |fields| < 5 then Err(IndexError)
    else if ParseInt(fields[4]).None? then Err(ValueError)
    else Ok(RoundPair(ParseInt(fields[3]).value, ParseInt(fields[4]).value))
  }

  /** The map text of a `##FL-Map` line: its fourth ':'-separated field. */
  function MapOf(fields: seq<string>): Result<string, Failure>
  {
    if |fields| < 4 then Err(IndexError) else Ok(fields[3])
  }

  /** One pass of the log loop: a map line replaces the map, then a round
      line appends its pair. */
  function LogStep(acc: LogSummary, line: string): Result<LogSummary, Failure>
  {
    var fields := Split(line, ':');
    if Contains(line, "##FL-Map") && MapOf(fields).Err? then Err(IndexError)
    else
      var gameMap := if Contains(line, "##FL-Map") then Some(MapOf(fields).value) else acc.gameMap;
      if !Contains(line, "##FL-Round") then Ok(LogSummary(gameMap, acc.rounds))
      else
        match RoundOf(fields)
        case Err(e) => Err(e)
        case Ok(pair) => Ok(LogSummary(gameMap, acc.rounds + [pair]))
  }

  /** The log loop over `lines`, stopping at the first failure. */
  function LogScan(lines: seq<string>): Result<LogSummary, Failure>
  {
    if |lines| == 0 then Ok(LogSummary(None, []))
    else
      match LogScan(lines[..|lines| - 1])
      case Err(e) => Err(e)
      case Ok(acc) => LogStep(acc, lines[|lines| - 1])
  }

  lemma {:induction false} LogFailureSticks(lines: seq<string>, i: nat)
    requires i <= |lines| && LogScan(lines[..i]).Err?
    ensures LogScan(lines) == LogScan(lines[..i])
  {
    if i < |lines| {
      assert lines[..|lines| - 1][..i] == lines[..i];
      LogFailureSticks(lines[..|lines| - 1], i);
    } else {
      assert lines[..i] == lines;
    }
  }

  /** The lines that mention `##FL-Round`, in order. */
  function RoundLines(lines: seq<string>): (r: seq<string>)
    ensures |r| <= |lines|
  {
    if |lines| == 0 then []
    else
      var init := RoundLines(lines[..|lines| - 1]);
      if Contains(lines[|lines| - 1], "##FL-Round") then init + [lines[|lines| - 1]] else init
  }

  /** What one successful pass of the log loop changes. */
  lemma LogStepEffect(acc: LogSummary, line: string)
    requires LogStep(acc, line).Ok?
    ensures LogStep(acc, line).value.rounds
         == acc.rounds + (if Contains(line, "##FL-Round") then [RoundOf(Split(line, ':')).value] else [])
    ensures Contains(line, "##FL-Round") ==> RoundOf(Split(line, ':')).Ok?
    ensures LogStep(acc, line).value.gameMap.None? <==> acc.gameMap.None? && !Contains(line, "##FL-Map")
  {
  }

  /** After a successful scan there is one pair per round line, in file
      order, each parsed from that line's fourth and fifth fields. */
  lemma {:induction false} LogScanRounds(lines: seq<string>)
    requires LogScan(lines).Ok?
    ensures |LogScan(lines).value.rounds| == |RoundLines(lines)|
    ensures forall k :: 0 <= k < |RoundLines(lines)| ==>
              RoundOf(Split(RoundLines(lines)[k], ':')) == Ok(LogScan(lines).value.rounds[k])
  {
    if |lines| > 0 {
      var init := lines[..|lines| - 1];
      assert LogScan(init).Ok?;
      LogScanRounds(init);
      LogStepEffect(LogScan(init).value, lines[|lines| - 1]);
    }
  }

  /** After a successful scan the map is absent exactly when no line
      mentions `##FL-Map`. */
  lemma {:induction false} LogScanMap(lines: seq<string>)
    requires LogScan(lines).Ok?
    ensures LogScan(lines).value.gameMap.None? <==> forall i :: 0 <= i < |lines| ==> !Contains(lines[i], "##FL-Map")
  {
    if |lines| > 0 {
      var init := lines[..|lines| - 1];
      assert LogScan(init).Ok?;
      LogScanMap(init);
      LogStepEffect(LogScan(init).value, lines[|lines| - 1]);
      assert forall i :: 0 <= i < |init| ==> init[i] == lines[i];
    }
  }
  lemma LogStepMap(acc: LogSummary, line: string)
    requires LogStep(acc, line).Ok?
    ensures Contains(line, "##FL-Map") ==>
              |Split(line, ':')| >= 4 && LogStep(acc, line).value.gameMap == Some(Split(line, ':')[3])
    ensures !Contains(line, "##FL-Map") ==> LogStep(acc, line).value.gameMap == acc.gameMap
  {
  }

  /** A map, when there is one, is field 3 of the last line that carries
      the map tag. */
  lemma {:induction false} LogMapLast(lines: seq<string>)
    requires LogScan(lines).Ok? && LogScan(lines).value.gameMap.Some?
    ensures exists i :: 0 <= i < |lines| && LastLineWith(lines, "##FL-Map", i) && |Split(lines[i], ':')| >= 4
              && LogScan(lines).value.gameMap.value == Split(lines[i], ':')[3]
  {
    var n := |lines| - 1;
    var init := lines[..n];
    assert LogScan(init).Ok?;
    var acc := LogScan(init).value;
    LogStepMap(acc, lines[n]);
    assert LogScan(lines) == LogStep(acc, lines[n]);
    if Contains(lines[n], "##FL-Map") {
      assert LastLineWith(lines, "##FL-Map", n);
    } else {
      LogMapLast(init);
      var i :| 0 <= i < |init| && LastLineWith(init, "##FL-Map", i) && |Split(init[i], ':')| >= 4
               && acc.gameMap.value == Split(init[i], ':')[3];
      LastLineKept(lines, "##FL-Map", i);
    }
  }


  /** The log loop of `call_halite` over the lines of the agent's log. */
  method ScanLog(lines: seq<string>) returns (r: Result<LogSummary, Failure>)
    ensures r == LogScan(lines)
  {
    var gameMap: Option<string> := None;
    var haliteAmounts: seq<RoundPair> := [];
    for i := 0 to |lines|
      invariant LogScan(lines[..i]) == Ok(LogSummary(gameMap, haliteAmounts))
    {
      var line := lines[i];
      assert lines[..i + 1][..i] == lines[..i] && lines[..i + 1][i] == line;
      if Contains(line, "##FL-Map") {
        var fields := Split(line, ':');
        if |fields| < 4 {
          LogFailureSticks(lines, i + 1);
          return Err(IndexError);
        }
        gameMap := Some(fields[3]);
      }
      if Contains(line, "##FL-Round") {
        var pair := RoundOf(Split(line, ':'));
        if pair.Err? {
          LogFailureSticks(lines, i + 1);
          return Err(pair.error);
        }
        haliteAmounts := haliteAmounts + [pair.value];
      }
    }
    assert lines[..|lines|] == lines;
    return Ok(LogSummary(gameMap, haliteAmounts));
  }

  /** A message as the agent's logger writes it: level, logger name and
      message separated by ':', then the newline the file keeps. */
  function Logged(message: string): string
  {
    "INFO:root:" + message + "\n"
  }

  lemma NoHash(s: string)
    requires forall k :: 0 <= k < |s| ==> s[k] == '-' || IsDigit(s[k])
    ensures forall k :: 0 <= k < |s| ==> s[k] != '#' && s[k] != ':'
  {
  }

  /** In a logged message that starts with a `##` tag and has no other
      '#', a pattern starting with `##` occurs exactly when the message
      starts with it. */
  lemma TagContains(message: string, pattern: string)
    requires |message| >= 3 && message[0] == '#' && message[1] == '#'
    requires forall k :: 2 <= k < |message| ==> message[k] != '#'
    requires 2 <= |pattern| <= |message| && pattern[0] == '#' && pattern[1] == '#'
    ensures Contains(Logged(message), pattern) <==> message[..|pattern|] == pattern
  {
    var line := Logged(message);
    assert forall k :: 0 <= k < |message| ==> line[10 + k] == message[k];
    if message[..|pattern|] == pattern {
      assert Window(line, 10, |pattern|) == pattern;
    }
    if Contains(line, pattern) {
      var i :| 0 <= i <= |line| - |pattern| && Window(line, i, |pattern|) == pattern;
      assert line[i] == '#' && line[i + 1] == '#';
      assert i == 10;
      assert Window(line, i, |pattern|) == message[..|pattern|];
    }
  }

  /** Text made of digits and minus signs, as `str` writes an integer. */
  predicate Numeral(s: string)
  {
    forall k :: 0 <= k < |s| ==> s[k] == '-' || IsDigit(s[k])
  }

  /** A round message carries its round tag and no map tag. */
  lemma RoundMessageTags(t: string, b: string)
    requires Numeral(t) && Numeral(b)
    ensures Contains(Logged("##FL-Round:" + t + ":" + b), "##FL-Round")
    ensures !Contains(Logged("##FL-Round:" + t + ":" + b), "##FL-Map")
  {
    var message := "##FL-Round:" + t + ":" + b;
    NoHash(t);
    NoHash(b);
    assert forall k :: 11 <= k < 11 + |t| ==> message[k] == t[k - 11];
    assert forall k :: 12 + |t| <= k < |message| ==> message[k] == b[k - 12 - |t|];
    TagContains(message, "##FL-Round");
    TagContains(message, "##FL-Map");
    assert message[5] == 'R';
  }

  /** The agent's map line carries its map tag and no round tag, provided
      the map text is not empty and has no '#' (JSON of a list of lists of
      numbers is neither). */
  lemma MapLineTags(mapJson: string)
    requires |mapJson| >= 1 && '#' !in mapJson
    ensures Contains(Logged(MyBot.MapLogLine(mapJson)), "##FL-Map")
    ensures !Contains(Logged(MyBot.MapLogLine(mapJson)), "##FL-Round")
  {
    var message := MyBot.MapLogLine(mapJson);
    assert forall k :: 9 <= k < |message| ==> message[k] == mapJson[k - 9];
    TagContains(message, "##FL-Map");
    TagContains(message, "##FL-Round");
    assert message[8] == ':';
  }

  /** Four separator-free pieces joined by ':' split back into those
      pieces. */
  lemma SplitFour(p0: string, p1: string, p2: string, p3: string)
    requires ':' !in p0 && ':' !in p1 && ':' !in p2 && ':' !in p3
    ensures Split(p0 + [':'] + (p1 + [':'] + (p2 + [':'] + p3)), ':') == [p0, p1, p2, p3]
  {
    SplitNoSeparator(p3, ':');
    SplitFirstPiece(p2, ':', p3);
    SplitFirstPiece(p1, ':', p2 + [':'] + p3);
    SplitFirstPiece(p0, ':', p1 + [':'] + (p2 + [':'] + p3));
  }

  /** Five separator-free pieces joined by ':' split back into those
      pieces. */
  lemma SplitFive(p0: string, p1: string, p2: string, p3: string, p4: string)
    requires ':' !in p0 && ':' !in p1 && ':' !in p2 && ':' !in p3 && ':' !in p4
    ensures Split(p0 + [':'] + (p1 + [':'] + (p2 + [':'] + (p3 + [':'] + p4))), ':') == [p0, p1, p2, p3, p4]
  {
    SplitFour(p1, p2, p3, p4);
    SplitFirstPiece(p0, ':', p1 + [':'] + (p2 + [':'] + (p3 + [':'] + p4)));
  }

  /** Split on ':', a logged round message gives five fields, the two
      numbers in the fourth and fifth. */
  lemma RoundMessageSplit(t: string, b: string)
    requires Numeral(t) && Numeral(b)
    ensures Split(Logged("##FL-Round:" + t + ":" + b), ':') == ["INFO", "root", "##FL-Round", t, b + "\n"]
  {
    var tail := b + "\n";
    NoHash(t);
    NoHash(b);
    assert ':' !in tail by {
      assert forall k :: 0 <= k < |b| ==> tail[k] == b[k];
    }
    SplitFive("INFO", "root", "##FL-Round", t, tail);
    assert "##FL-Round:" + t + ":" + b == "##FL-Round" + [':'] + (t + [':'] + b);
    LoggedFields("##FL-Round", t + [':'] + b);
    assert t + [':'] + b + "\n" == t + [':'] + tail;
  }

  /** A logged message is the level, the logger's name and the message,
      separated by ':'. */
  lemma LoggedFields(tag: string, rest: string)
    ensures Logged(tag + [':'] + rest) == "INFO" + [':'] + ("root" + [':'] + (tag + [':'] + (rest + "\n")))
  {
  }

  /** The agent's round line is a round line, not a map line, and its
      fields parse as the pair it was written from. */
  lemma RoundLineReads(turn: int, bank: int)
    ensures ReadsAs(Logged(MyBot.RoundLogLine(turn, bank)), RoundPair(turn, bank))
  {
    var t, b := ShowInt(turn), ShowInt(bank);
    assert MyBot.RoundLogLine(turn, bank) == "##FL-Round:" + t + ":" + b;
    RoundMessageTags(t, b);
    RoundMessageSplit(t, b);
    ParseShowInt(turn);
    ParseShowInt(bank);
  }

  /** The agent's map line sets the map to its text (with the newline
      the file keeps) and adds no round. */
  lemma MapLineStep(acc: LogSummary, mapJson: string)
    requires |mapJson| >= 1 && '#' !in mapJson && ':' !in mapJson
    ensures LogStep(acc, Logged(MyBot.MapLogLine(mapJson))) == Ok(LogSummary(Some(mapJson + "\n"), acc.rounds))
  {
    MapLineTags(mapJson);
    var tail := mapJson + "\n";
    assert forall k :: 0 <= k < |mapJson| ==> tail[k] == mapJson[k];
    SplitFour("INFO", "root", "##FL-Map", tail);
    assert MyBot.MapLogLine(mapJson) == "##FL-Map" + [':'] + mapJson;
    LoggedFields("##FL-Map", mapJson);
  }

  /** The lines the agent logs for a game's turns. */
  function RoundLog(turns: seq<int>, banks: seq<int>): (lines: seq<string>)
    requires |turns| == |banks|
    ensures |lines| == |turns|
  {
    seq(|turns|, k requires 0 <= k < |turns| => Logged(MyBot.RoundLogLine(turns[k], banks[k])))
  }

  /** The pairs the agent meant to record for those turns. */
  function Pairs(turns: seq<int>, banks: seq<int>): (pairs: seq<RoundPair>)
    requires |turns| == |banks|
    ensures |pairs| == |turns|
  {
    seq(|turns|, k requires 0 <= k < |turns| => RoundPair(turns[k], banks[k]))
  }

  /** Scanning one more line is one more pass of the loop. */
  lemma LogScanAppend(lines: seq<string>, line: string)
    ensures LogScan(lines + [line])
         == (match LogScan(lines) case Err(e) => Err(e) case Ok(acc) => LogStep(acc, line))
  {
    assert (lines + [line])[..|lines|] == lines;
  }

  lemma AppendLast<T>(before: seq<T>, lines: seq<T>)
    requires |lines| > 0
    ensures before + lines == (before + lines[..|lines| - 1]) + [lines[|lines| - 1]]
  {
  }

  /** The log loop reads `line` as the round `pair`, whatever came
      before it. */
  predicate ReadsAs(line: string, pair: RoundPair)
  {
    Contains(line, "##FL-Round") && !Contains(line, "##FL-Map") && RoundOf(Split(line, ':')) == Ok(pair)
  }

  lemma ReadsAsStep(acc: LogSummary, line: string, pair: RoundPair)
    requires ReadsAs(line, pair)
    ensures LogStep(acc, line) == Ok(LogSummary(acc.gameMap, acc.rounds + [pair]))
  {
  }

  lemma {:induction false} ScanAddsPairs(before: seq<string>, lines: seq<string>, pairs: seq<RoundPair>)
    requires |lines| == |pairs| && LogScan(before).Ok?
    requires forall k :: 0 <= k < |lines| ==> ReadsAs(lines[k], pairs[k])
    ensures LogScan(before + lines)
         == Ok(LogSummary(LogScan(before).value.gameMap, LogScan(before).value.rounds + pairs))
  {
    var acc := LogScan(before).value;
    if |lines| > 0 {
      var n := |lines| - 1;
      ScanAddsPairs(before, lines[..n], pairs[..n]);
      AppendLast(before, lines);
      LogScanAppend(before + lines[..n], lines[n]);
      ReadsAsStep(LogSummary(acc.gameMap, acc.rounds + pairs[..n]), lines[n], pairs[n]);
      AppendLast(acc.rounds, pairs);
    } else {
      assert before + lines == before;
      assert acc.rounds + pairs == acc.rounds;
    }
  }

  /** Reading back what the agent logged: after any log that scans, the
      round lines of a game add back every turn's bank, in order, and leave
      the map alone. */
  lemma EmittedRoundsParse(before: seq<string>, turns: seq<int>, banks: seq<int>)
    requires |turns| == |banks|
    requires LogScan(before).Ok?
    ensures LogScan(before + RoundLog(turns, banks))
         == Ok(LogSummary(LogScan(before).value.gameMap, LogScan(before).value.rounds + Pairs(turns, banks)))
  {
    forall k | 0 <= k < |turns|
      ensures ReadsAs(RoundLog(turns, banks)[k], Pairs(turns, banks)[k])
    {
      RoundLineReads(turns[k], banks[k]);
    }
    ScanAddsPairs(before, RoundLog(turns, banks), Pairs(turns, banks));
  }

  /** The agent's whole log: the map line, then one round line per turn. */
  function GameLog(mapJson: string, turns: seq<int>, banks: seq<int>): (lines: seq<string>)
    requires |turns| == |banks|
    ensures |lines| == |turns| + 1
  {
    [Logged(MyBot.MapLogLine(mapJson))] + RoundLog(turns, banks)
  }

  /** The log scan reads a game's log back as its map and its pairs. */
  lemma GameLogParses(mapJson: string, turns: seq<int>, banks: seq<int>)
    requires |turns| == |banks|
    requires |mapJson| >= 1 && '#' !in mapJson && ':' !in mapJson
    ensures LogScan(GameLog(mapJson, turns, banks)) == Ok(LogSummary(Some(mapJson + "\n"), Pairs(turns, banks)))
  {
    var line := Logged(MyBot.MapLogLine(mapJson));
    var empty: seq<string> := [];
    LogScanAppend(empty, line);
    assert empty + [line] == [line];
    MapLineStep(LogSummary(None, []), mapJson);
    EmittedRoundsParse([line], turns, banks);
    assert [] + Pairs(turns, banks) == Pairs(turns, banks);
  }

  // ---------------------------------------------------------------------
  // One game

  /** What the engine leaves behind after one game: its error stream and
      the lines of the agent's log file. */
  datatype GameOutput = GameOutput(stderr: string, log: seq<string>)

  /** The dictionary `call_halite` returns. */
  datatype RunData = RunData(gameMap: string, halite: seq<RoundPair>, seed: int, collisions: nat)

  /** `call_halite` after the engine has run: the stderr loop, the log
      loop, then the dictionary, which reads `game_map` before `seed`. */
  function RunOf(output: GameOutput): Result<RunData, Failure>
  {
    match StderrScan(Split(output.stderr, '\n'))
    case Err(e) => Err(e)
    case Ok(engine) =>
      match LogScan(output.log)
      case Err(e) => Err(e)
      case Ok(agent) =>
        if agent.gameMap.None? then Err(Unbound("game_map"))
        else if engine.seed.None? then Err(Unbound("seed"))
        else Ok(RunData(agent.gameMap.value, agent.rounds, engine.seed.value, engine.collisions))
  }

  /** `call_halite`: scans the error stream, then the log, then builds the
      result. */
  method CallHalite(output: GameOutput) returns (r: Result<RunData, Failure>)
    ensures r == RunOf(output)
  {
    var engine := ScanStderr(output.stderr);
    if engine.Err? {
      return Err(engine.error);
    }
    var agent := ScanLog(output.log);
    if agent.Err? {
      return Err(agent.error);
    }
    if agent.value.gameMap.None? {
      return Err(Unbound("game_map"));
    }
    if engine.value.seed.None? {
      return Err(Unbound("seed"));
    }
    return Ok(RunData(agent.value.gameMap.value, agent.value.rounds, engine.value.seed.value, engine.value.collisions));
  }

  /** A game succeeds exactly when every seed line holds an integer, the
      log scans, some log line carries the map and some stderr line the
      seed; the result then counts the collision lines and holds one pair
      per round line. */
  lemma RunOfMeaning(output: GameOutput)
    ensures RunOf(output).Ok? <==>
              StderrScan(Split(output.stderr, '\n')).Ok? && LogScan(output.log).Ok?
              && (exists i :: 0 <= i < |output.log| && Contains(output.log[i], "##FL-Map"))
              && (exists i :: 0 <= i < |Split(output.stderr, '\n')| && Contains(Split(output.stderr, '\n')[i], SeedMarker))
    ensures RunOf(output).Ok? ==>
              RunOf(output).value.collisions == CountCollisions(Split(output.stderr, '\n'))
              && |RunOf(output).value.halite| == |RoundLines(output.log)|
  {
    var lines := Split(output.stderr, '\n');
    StderrScanMeaning(lines);
    if StderrScan(lines).Ok? {
      StderrSeedAbsent(lines);
    }
    if LogScan(output.log).Ok? {
      LogScanMap(output.log);
      LogScanRounds(output.log);
    }
  }

  /** A game whose engine reported its seed and whose agent logged its map
      and its turns comes back as exactly that seed, map and pairs. */
  lemma GameRoundTrip(stderr: string, mapJson: string, turns: seq<int>, banks: seq<int>)
    requires |turns| == |banks|
    requires |mapJson| >= 1 && '#' !in mapJson && ':' !in mapJson
    requires StderrScan(Split(stderr, '\n')).Ok? && StderrScan(Split(stderr, '\n')).value.seed.Some?
    ensures RunOf(GameOutput(stderr, GameLog(mapJson, turns, banks)))
         == Ok(RunData(mapJson + "\n", Pairs(turns, banks),
                       StderrScan(Split(stderr, '\n')).value.seed.value, StderrScan(Split(stderr, '\n')).value.collisions))
  {
    GameLogParses(mapJson, turns, banks);
  }

  // ---------------------------------------------------------------------
  // The best round of a game

  function HaliteOf(p: RoundPair): int
  {
    p.halite
  }

  /** `sorted(halite_data, key=lambda x: x[1], reverse=True)[0]`: a round
      with the most halite, and since the sort is stable, the earliest
      such round. */
  function BestRound(rounds: seq<RoundPair>): (best: RoundPair)
    requires |rounds| > 0
    ensures best == rounds[FirstMaxIndex(rounds, HaliteOf)]
    ensures forall i :: 0 <= i < |rounds| ==> rounds[i].halite <= best.halite
  {
    SortDescendingHead(rounds, HaliteOf);
    SortDescending(rounds, HaliteOf)[0]
  }

  // ---------------------------------------------------------------------
  // Scanning the personality parameters

  /** A row of `averages`: the rounded mean of the best halite over the
      repeated games, then the sample's parameters. */
  datatype ScoredSample = ScoredSample(score: int, sample: seq<real>)

  /** The engine as the scan sees it: what the `rep`-th game played with
      personality `sample` leaves behind. */
  type Games = (seq<real>, nat) -> GameOutput

  /** A loop that appends one value per pass and lets the first
      exception escape: all the values, or that exception. */
  function Collect<T>(results: seq<Result<T, Failure>>): (r: Result<seq<T>, Failure>)
    ensures r.Ok? ==> |r.value| == |results| && forall k :: 0 <= k < |results| ==> results[k] == Ok(r.value[k])
  {
    if |results| == 0 then Ok([])
    else
      match Collect(results[..|results| - 1])
      case Err(e) => Err(e)
      case Ok(values) =>
        match results[|results| - 1]
        case Err(e) => Err(e)
        case Ok(v) => Ok(values + [v])
  }

  lemma CollectNext<T>(results: seq<Result<T, Failure>>, i: nat)
    requires i < |results|
    ensures Collect(results[..i + 1])
         == (match Collect(results[..i])
             case Err(e) => Err(e)
             case Ok(values) => match results[i] case Err(e) => Err(e) case Ok(v) => Ok(values + [v]))
  {
    assert results[..i + 1][..i] == results[..i];
  }

  lemma {:induction false} CollectFailureSticks<T>(results: seq<Result<T, Failure>>, i: nat)
    requires i <= |results| && Collect(results[..i]).Err?
    ensures Collect(results) == Collect(results[..i])
  {
    if i < |results| {
      assert results[..|results| - 1][..i] == results[..i];
      CollectFailureSticks(results[..|results| - 1], i);
    } else {
      assert results[..i] == results;
    }
  }

  /** The loop completes exactly when no pass raises. */
  lemma {:induction false} CollectSucceeds<T>(results: seq<Result<T, Failure>>)
    ensures Collect(results).Ok? <==> forall k :: 0 <= k < |results| ==> results[k].Ok?
  {
    if |results| > 0 {
      var init := results[..|results| - 1];
      CollectSucceeds(init);
      assert forall k :: 0 <= k < |init| ==> init[k] == results[k];
    }
  }

  /** A loop that raises, raises the exception of its first failing
      pass. */
  lemma {:induction false} CollectFirstFailure<T>(results: seq<Result<T, Failure>>)
    requires Collect(results).Err?
    ensures exists k :: 0 <= k < |results| && results[k] == Err(Collect(results).error)
              && forall j :: 0 <= j < k ==> results[j].Ok?
  {
    var n := |results| - 1;
    var init := results[..n];
    assert forall j :: 0 <= j < n ==> init[j] == results[j];
    if Collect(init).Err? {
      CollectFirstFailure(init);
    } else {
      CollectSucceeds(init);
    }
  }

  /** The best halite of one game: `call_halite`'s rounds sorted by
      halite, the first one taken. */
  function GameBest(output: GameOutput): Result<int, Failure>
  {
    match RunOf(output)
    case Err(e) => Err(e)
    case Ok(data) => if |data.halite| == 0 then Err(IndexError) else Ok(BestRound(data.halite).halite)
  }

  /** A game's best halite is the largest bank of any of its rounds. */
  lemma GameBestIsLargest(output: GameOutput)
    requires GameBest(output).Ok?
    ensures RunOf(output).Ok? && |RunOf(output).value.halite| > 0
    ensures exists i :: 0 <= i < |RunOf(output).value.halite| && RunOf(output).value.halite[i].halite == GameBest(output).value
    ensures forall i :: 0 <= i < |RunOf(output).value.halite| ==> RunOf(output).value.halite[i].halite <= GameBest(output).value
  {
    var rounds := RunOf(output).value.halite;
    assert rounds[FirstMaxIndex(rounds, HaliteOf)].halite == GameBest(output).value;
  }

  /** The `maxes` list after `n` games with `sample`: the best halite of
      each game, or the first exception. */
  function BestHalites(sample: seq<real>, n: nat, games: Games): (r: Result<seq<int>, Failure>)
    ensures r.Ok? ==> |r.value| == n && forall k :: 0 <= k < n ==> GameBest(games(sample, k)) == Ok(r.value[k])
  {
    Collect(seq(n, k requires 0 <= k < n => GameBest(games(sample, k))))
  }

  /** One row of `averages`, or the exception that ends the scan:
      `statistics.mean` refuses an empty `maxes`. */
  function SampleRow(sample: seq<real>, repeats: nat, games: Games): (r: Result<ScoredSample, Failure>)
    ensures r.Ok? <==> repeats > 0 && BestHalites(sample, repeats, games).Ok?
    ensures r.Ok? ==> r.value.sample == sample
  {
    match BestHalites(sample, repeats, games)
    case Err(e) => Err(e)
    case Ok(maxes) =>
      if |maxes| == 0 then Err(StatisticsError)
      else Ok(ScoredSample(RoundHalfEven(Mean(maxes)), sample))
  }

  /** The rows for `samples`, in order, or the first exception. */
  function ScanRows(samples: seq<seq<real>>, repeats: nat, games: Games): (r: Result<seq<ScoredSample>, Failure>)
    ensures r.Ok? ==> |r.value| == |samples|
    ensures r.Ok? ==> forall k :: 0 <= k < |samples| ==> SampleRow(samples[k], repeats, games) == Ok(r.value[k])
  {
    Collect(seq(|samples|, k requires 0 <= k < |samples| => SampleRow(samples[k], repeats, games)))
  }

  /** The scan succeeds exactly when every sample's games succeed; a
      failed scan fails with the exception of the first sample whose games
      fail. */
  lemma ScanRowsFailure(samples: seq<seq<real>>, repeats: nat, games: Games)
    ensures ScanRows(samples, repeats, games).Ok? <==>
              forall k :: 0 <= k < |samples| ==> SampleRow(samples[k], repeats, games).Ok?
    ensures ScanRows(samples, repeats, games).Err? ==>
              exists k :: 0 <= k < |samples| && SampleRow(samples[k], repeats, games) == Err(ScanRows(samples, repeats, games).error)
                && forall j :: 0 <= j < k ==> SampleRow(samples[j], repeats, games).Ok?
  {
    var results := seq(|samples|, k requires 0 <= k < |samples| => SampleRow(samples[k], repeats, games));
    assert ScanRows(samples, repeats, games) == Collect(results);
    assert forall j :: 0 <= j < |samples| ==> results[j] == SampleRow(samples[j], repeats, games);
    CollectSucceeds(results);
    if Collect(results).Err? {
      CollectFirstFailure(results);
      var k :| 0 <= k < |results| && results[k] == Err(Collect(results).error)
               && forall j :: 0 <= j < k ==> results[j].Ok?;
      assert SampleRow(samples[k], repeats, games) == Err(ScanRows(samples, repeats, games).error);
    }
  }

  /** The inner loop of `scan_pvalues`: `repeats` games with one sample,
      keeping each game's best halite. */
  method PlayRepeats(sample: seq<real>, repeats: nat, games: Games) returns (r: Result<seq<int>, Failure>)
    ensures r == BestHalites(sample, repeats, games)
  {
    ghost var results := seq(repeats, k requires 0 <= k < repeats => GameBest(games(sample, k)));
    var maxes: seq<int> := [];
    for t := 0 to repeats
      invariant Collect(results[..t]) == Ok(maxes)
    {
      CollectNext(results, t);
      var data := CallHalite(games(sample, t));
      if data.Err? || |data.value.halite| == 0 {
        CollectFailureSticks(results, t + 1);
        return if data.Err? then Err(data.error) else Err(IndexError);
      }
      var best := BestRound(data.value.halite);
      maxes := maxes + [best.halite];
    }
    assert results[..repeats] == results;
    return Ok(maxes);
  }

  /** `scan_pvalues(repeats, *p_values)`: for every combination of the
      parameter lists, in `itertools.product` order, play `repeats` games,
      keep each game's best halite, and record the rounded mean. */
  method ScanPValues(repeats: nat, pValues: seq<seq<real>>, games: Games) returns (r: Result<seq<ScoredSample>, Failure>)
    ensures r == ScanRows(Linalg.Product(pValues), repeats, games)
  {
    var samples := Linalg.Product(pValues);
    ghost var results := seq(|samples|, k requires 0 <= k < |samples| => SampleRow(samples[k], repeats, games));
    var averages: seq<ScoredSample> := [];
    for s := 0 to |samples|
      invariant Collect(results[..s]) == Ok(averages)
    {
      var sample := samples[s];
      CollectNext(results, s);
      var maxes := PlayRepeats(sample, repeats, games);
      if maxes.Err? || |maxes.value| == 0 {
        CollectFailureSticks(results, s + 1);
        return if maxes.Err? then Err(maxes.error) else Err(StatisticsError);
      }
      averages := averages + [ScoredSample(RoundHalfEven(Mean(maxes.value)), sample)];
    }
    assert results[..|samples|] == results;
    return Ok(averages);
  }

  /** A sample's score lies between the least and the greatest best
      halite of its games. */
  lemma ScoreWithinBest(sample: seq<real>, repeats: nat, games: Games, lo: int, hi: int)
    requires SampleRow(sample, repeats, games).Ok?
    requires forall k :: 0 <= k < repeats ==> lo <= BestHalites(sample, repeats, games).value[k] <= hi
    ensures lo <= SampleRow(sample, repeats, games).value.score <= hi
  {
    var maxes := BestHalites(sample, repeats, games).value;
    MeanBounds(maxes, lo, hi);
    RoundHalfEvenBetween(Mean(maxes), lo, hi);
  }

  /** With one game per sample, as the script runs it, the score is that
      game's best halite. */
  lemma ScoreOfOneGame(sample: seq<real>, games: Games)
    requires SampleRow(sample, 1, games).Ok?
    ensures GameBest(games(sample, 0)) == Ok(SampleRow(sample, 1, games).value.score)
  {
    var maxes := BestHalites(sample, 1, games).value;
    assert maxes == [maxes[0]];
    MeanOfOne(maxes[0]);
  }

  // ---------------------------------------------------------------------
  // Ranking and the script

  function ScoreOf(row: ScoredSample): int
  {
    row.score
  }

  /** `sorted(averages, key=lambda x: x[0], reverse=True)`. */
  function Ranked(rows: seq<ScoredSample>): (ranked: seq<ScoredSample>)
    ensures Descending(ranked, ScoreOf)
    ensures multiset(ranked) == multiset(rows)
  {
    SortDescendingCorrect(rows, ScoreOf);
    SortDescending(rows, ScoreOf)
  }

  /** The values the script tries for each of the three parameters. */
  const PValues: seq<real> := [0.1, 0.3, 0.5, 0.7, 0.9]

  /** The script: one game per combination of the three parameters, then
      the rows ranked by score. */
  function Script(games: Games): Result<seq<ScoredSample>, Failure>
  {
    match ScanRows(Linalg.Product([PValues, PValues, PValues]), 1, games)
    case Err(e) => Err(e)
    case Ok(rows) => Ok(Ranked(rows))
  }

  /** The script's grid: 125 samples of three values, each from the
      list. */
  lemma ScriptGrid()
    ensures |Linalg.Product([PValues, PValues, PValues])| == 125
    ensures forall k :: 0 <= k < 125 ==> |Linalg.Product([PValues, PValues, PValues])[k]| == 3
    ensures forall k, d :: 0 <= k < 125 && 0 <= d < 3 ==> Linalg.Product([PValues, PValues, PValues])[k][d] in PValues
  {
    var lists := [PValues, PValues, PValues];
    Linalg.ProductShape(lists);
    assert Linalg.LengthProduct(lists) == 125 by {
      assert lists[1..] == [PValues, PValues];
      assert lists[1..][1..] == [PValues];
      assert lists[1..][1..][1..] == [];
      assert Linalg.LengthProduct(lists[1..][1..]) == 5;
    }
    assert forall d :: 0 <= d < 3 ==> lists[d] == PValues;
  }

  /** Ranking keeps the rows, so every ranked row is the row of one of
      the samples. */
  lemma RankedRowsComeFromSamples(samples: seq<seq<real>>, repeats: nat, games: Games)
    requires ScanRows(samples, repeats, games).Ok?
    ensures forall k :: 0 <= k < |samples| ==> Ranked(ScanRows(samples, repeats, games).value)[k].sample in samples
  {
    var rows := ScanRows(samples, repeats, games).value;
    var ranked := Ranked(rows);
    forall k | 0 <= k < |samples|
      ensures ranked[k].sample in samples
    {
      assert ranked[k] in multiset(rows);
      var j :| 0 <= j < |rows| && rows[j] == ranked[k];
      assert SampleRow(samples[j], repeats, games) == Ok(rows[j]);
    }
  }

  /** The script ranks 125 rows, best score first, each for a sample of
      three values taken from the list. */
  lemma ScriptShape(games: Games)
    requires Script(games).Ok?
    ensures |Script(games).value| == 125
    ensures Descending(Script(games).value, ScoreOf)
    ensures forall k :: 0 <= k < 125 ==> |Script(games).value[k].sample| == 3
    ensures forall k, d :: 0 <= k < 125 && 0 <= d < 3 ==> Script(games).value[k].sample[d] in PValues
  {
    var samples := Linalg.Product([PValues, PValues, PValues]);
    ScriptGrid();
    RankedRowsComeFromSamples(samples, 1, games);
  }
}
