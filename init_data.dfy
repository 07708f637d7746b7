/**
 * The configuration generator: it checks the team list and the number of
 * innings, builds the `init_data.json` record (title, the two first teams,
 * the inning selector and the team selector), reads its options from the
 * command line, and picks its mode from the first argument. Reading YAML,
 * the interactive prompts and writing the file are not part of this model;
 * the process exiting with an error is an `Err`/`Failed` result.
 */
module InitData {
  import opened Wrappers
  import opened JsStrings
  import opened JsValue

  datatype InitError = TooFewTeams | InningsOutOfRange | MissingTitle | MissingTeams

  /** An entry of the inning selector: a caption or an inning number. */
  datatype GameEntry = Label(text: string) | InningNo(n: int)

  datatype Config = Config(
    gameTitle: Value, teamTop: Value, teamBottom: Value,
    gameArray: seq<GameEntry>, teamItems: seq<Value>, lastInning: int)

  const PreGame: string := "試合前"
  const GameOver: string := "試合終了"
  /** The blank first entry of the team selector (an ideographic space). */
  const BlankTeam: string := "　"

  /** `validateTeams`: an array of at least two teams. */
  function ValidateTeams(teams: Value): (r: Result<seq<Value>, InitError>)
    ensures r.Ok? ==> teams.Arr? && r.value == teams.items && |r.value| >= 2
    ensures r.Err? ==> r.error == TooFewTeams
  {
    if teams.Arr? && |teams.items| >= 2 then Ok(teams.items) else Err(TooFewTeams)
  }

  /** The longest prefix of `s` made of decimal digits. */
  function DigitPrefix(s: string): (d: string)
    ensures d <= s && (forall k :: 0 <= k < |d| ==> IsDigit(s[k]))
    ensures |d| < |s| ==> !IsDigit(s[|d|])
  {
    if |s| > 0 && IsDigit(s[0]) then [s[0]] + DigitPrefix(s[1..]) else []
  }

  /** `parseInt(s, 10)`: leading whitespace, an optional sign, then the digits that follow; `None` for NaN. */
  function ParseInt(s: string): Option<int>
  {
    ParseSigned(TrimStart(s))
  }

  /** `parseInt` after the leading whitespace. */
  function ParseSigned(t: string): Option<int>
  {
    var signed := |t| > 0 && (t[0] == '-' || t[0] == '+');
    var d := DigitPrefix(if signed then t[1..] else t);
    var v: int := if d == [] then 0 else DigitsValue(d);
    if d == [] then None
    else if signed && t[0] == '-' then Some(-v)
    else Some(v)
  }

  /**
   * `parseInt(v, 10)`, which reads the text of `v`: a string as it is, a
   * finite number written without an exponent (read up to its decimal
   * point), and an array through its elements' texts joined with commas.
   * Reading stops at the first comma, so an array is read as its first
   * element (`ArrayReadAsJoinedText`); an empty array, and every other value
   * (`"true"`, `"null"`, `"NaN"`, `"[object Object]"`), gives no number.
   */
  function ParseInnings(v: Value): Option<int>
  {
    match v
    case Str(s) => ParseInt(s)
    case Num(x) => Some(if x >= 0.0 then x.Floor else -((-x).Floor))
    case Arr(items) => if items == [] then None else ParseInnings(items[0])
    case _ => None
  }

  /** `validateInnings`: the parsed number, if it is from 1 to 9. */
  function ValidateInnings(innings: Value): (r: Result<int, InitError>)
    ensures r.Ok? ==> 1 <= r.value <= 9
  {
    var n := ParseInnings(innings);
    if n.None? || n.value < 1 || n.value > 9 then Err(InningsOutOfRange) else Ok(n.value)
  }

  /** The inning selector for a game of `lastInning` innings. */
  function GameArray(lastInning: int): seq<GameEntry>
  {
    var n := if lastInning < 0 then 0 else lastInning;
    [Label(PreGame)] + seq(n, i => InningNo(i + 1)) + [Label(GameOver)]
  }

  /**
   * `generateGameArray`: the pre-game caption, the innings from 1 in order,
   * and the game-over caption.
   */
  method GenerateGameArray(lastInning: int) returns (a: seq<GameEntry>)
    ensures a == GameArray(lastInning)
    ensures lastInning >= 0 ==>
      |a| == lastInning + 2 && a[0] == Label(PreGame) && a[lastInning + 1] == Label(GameOver)
      && forall k :: 1 <= k <= lastInning ==> a[k] == InningNo(k)
  {
    a := [Label(PreGame)];
    var i := 1;
    while i <= lastInning
      invariant 1 <= i && (lastInning >= 0 ==> i <= lastInning + 1) && (lastInning < 0 ==> i == 1)
      invariant a == [Label(PreGame)] + seq(i - 1, k => InningNo(k + 1))
    {
      a := a + [InningNo(i)];
      i := i + 1;
    }
    a := a + [Label(GameOver)];
    assert lastInning >= 0 ==> i == lastInning + 1;
    assert lastInning < 0 ==> i == 1;
  }

  /** `generateInitData`: the teams are checked first, then the innings. */
  function GenerateInitData(gameTitle: Value, lastInning: Value, teamNames: Value): (r: Result<Config, InitError>)
    ensures r.Ok? ==> 1 <= r.value.lastInning <= 9 && r.value.gameTitle == gameTitle
    ensures r.Err? ==> r.error == TooFewTeams || r.error == InningsOutOfRange
  {
    match ValidateTeams(teamNames)
    case Err(e) => Err(e)
    case Ok(teams) =>
      match ValidateInnings(lastInning)
      case Err(e) => Err(e)
      case Ok(n) => Ok(Config(gameTitle, teams[0], teams[1], GameArray(n), [Str(BlankTeam)] + teams, n))
  }

  /**
   * A configuration is generated exactly when there are at least two teams
   * and the innings parse to 1..9; with fewer teams the team error is
   * reported, whatever the innings.
   */
  lemma GenerateInitDataAccepts(gameTitle: Value, lastInning: Value, teamNames: Value)
    ensures var r := GenerateInitData(gameTitle, lastInning, teamNames);
      (r.Ok? <==> teamNames.Arr? && |teamNames.items| >= 2 && ValidateInnings(lastInning).Ok?)
      && (!(teamNames.Arr? && |teamNames.items| >= 2) ==> r == Err(TooFewTeams))
      && (teamNames.Arr? && |teamNames.items| >= 2 && ValidateInnings(lastInning).Err? ==> r == Err(InningsOutOfRange))
  {
  }

  /**
   * A generated configuration opens with the first two teams, offers a blank
   * and then every team, and has one selector entry per inning between the
   * two captions; its last inning is the parsed count, from 1 to 9.
   */
  lemma GenerateInitDataContents(gameTitle: Value, lastInning: Value, teamNames: Value)
    requires GenerateInitData(gameTitle, lastInning, teamNames).Ok?
    ensures var c := GenerateInitData(gameTitle, lastInning, teamNames).value;
      var n := c.lastInning;
      1 <= n <= 9 && Some(n) == ParseInnings(lastInning)
      && c.gameTitle == gameTitle
      && c.teamTop == teamNames.items[0] && c.teamBottom == teamNames.items[1]
      && c.teamItems == [Str(BlankTeam)] + teamNames.items
      && |c.gameArray| == n + 2 && c.gameArray[0] == Label(PreGame) && c.gameArray[n + 1] == Label(GameOver)
      && (forall k :: 1 <= k <= n ==> c.gameArray[k] == InningNo(k))
  {
    var teams := ValidateTeams(teamNames).value;
    var n := ValidateInnings(lastInning).value;
    assert GenerateInitData(gameTitle, lastInning, teamNames)
      == Ok(Config(gameTitle, teams[0], teams[1], GameArray(n), [Str(BlankTeam)] + teams, n));
    GameArrayShape(n);
  }

  /** The selector holds the pre-game caption, the innings from 1 in order, and the game-over caption. */
  lemma GameArrayShape(n: nat)
    ensures var a := GameArray(n);
      |a| == n + 2 && a[0] == Label(PreGame) && a[n + 1] == Label(GameOver)
      && forall k :: 1 <= k <= n ==> a[k] == InningNo(k)
  {
    var a := GameArray(n);
    var mid := seq(n, i => InningNo(i + 1));
    assert a == [Label(PreGame)] + mid + [Label(GameOver)];
    forall k | 1 <= k <= n ensures a[k] == InningNo(k) {
      assert a[k] == mid[k - 1];
    }
  }

  /** A string of digits is its own digit prefix. */
  lemma {:induction false} DigitPrefixOfDigits(s: string)
    requires forall k :: 0 <= k < |s| ==> IsDigit(s[k])
    ensures DigitPrefix(s) == s
  {
    if |s| > 0 {
      DigitPrefixOfDigits(s[1..]);
    }
  }

  /** A string that starts with a digit is read from its first character. */
  lemma ParseIntFromDigit(s: string)
    requires |s| > 0 && IsDigit(s[0])
    ensures ParseInt(s) == Some(DigitsValue(DigitPrefix(s)))
  {
    assert !IsJsWhitespace(s[0]) by {
      assert '0' <= s[0] <= '9';
    }
    assert TrimStart(s) == s;
    assert !(s[0] == '-' || s[0] == '+');
    assert ParseInt(s) == ParseSigned(s);
  }

  /** A natural number written in decimal is read back as itself. */
  lemma ParseIntOfDecimal(n: nat)
    ensures ParseInt(NatToDecimal(n)) == Some(n)
  {
    var s := NatToDecimal(n);
    ParseIntFromDigit(s);
    DigitPrefixOfDigits(s);
    DigitsOfDecimal(n);
  }

  /** Every inning count from 1 to 9 written in decimal is accepted as itself, and nothing outside 1..9 is accepted. */
  lemma DecimalInningsAccepted(n: nat)
    ensures ValidateInnings(Str(NatToDecimal(n))) == (if 1 <= n <= 9 then Ok(n) else Err(InningsOutOfRange))
  {
    ParseIntOfDecimal(n);
  }

  /** The digit prefix of digits followed by a non-digit is those digits. */
  lemma {:induction false} DigitPrefixOfConcat(d: string, rest: string)
    requires forall k :: 0 <= k < |d| ==> IsDigit(d[k])
    requires rest == [] || !IsDigit(rest[0])
    ensures DigitPrefix(d + rest) == d
    decreases |d|
  {
    if |d| > 0 {
      assert (d + rest)[1..] == d[1..] + rest;
      DigitPrefixOfConcat(d[1..], rest);
    } else {
      assert d + rest == rest;
    }
  }

  /**
   * Parsing stops at the first character that is not a digit: digits followed
   * by anything else read as the digits alone (`"7回"` gives 7).
   */
  lemma ParseIntStopsAtNonDigit(d: string, rest: string)
    requires |d| > 0 && forall k :: 0 <= k < |d| ==> IsDigit(d[k])
    requires rest == [] || !IsDigit(rest[0])
    ensures ParseInt(d + rest) == Some(DigitsValue(d))
  {
    assert (d + rest)[0] == d[0];
    ParseIntFromDigit(d + rest);
    DigitPrefixOfConcat(d, rest);
  }

  /** Leading whitespace is skipped: a whitespace character in front changes nothing. */
  lemma ParseIntSkipsSpace(c: char, s: string)
    requires IsJsWhitespace(c)
    ensures ParseInt([c] + s) == ParseInt(s)
  {
    assert ([c] + s)[1..] == s;
    assert TrimStart([c] + s) == TrimStart(s);
  }

  /**
   * The text gives no number exactly when, after the leading whitespace and
   * an optional sign, no digit follows (`"x7"`, `"-"`, `""` and `" + 1"` give
   * nothing); `ParseSignedDigits` gives the value otherwise.
   */
  lemma ParseIntOfNonNumber(s: string)
    ensures var t := TrimStart(s);
      var signed := |t| > 0 && (t[0] == '-' || t[0] == '+');
      var body := if signed then t[1..] else t;
      ParseInt(s) == None <==> body == [] || !IsDigit(body[0])
  {
    var t := TrimStart(s);
    ParseSignedDigits(t);
    assert ParseInt(s) == ParseSigned(t);
  }

  /**
   * After the leading whitespace, the digits right after the optional sign
   * are read, negated after a minus; without such digits there is no number.
   */
  lemma ParseSignedDigits(t: string)
    ensures var signed := |t| > 0 && (t[0] == '-' || t[0] == '+');
      var body := if signed then t[1..] else t;
      var v: int := DigitsValue(DigitPrefix(body));
      (ParseSigned(t) == None <==> body == [] || !IsDigit(body[0]))
      && (body != [] && IsDigit(body[0]) ==> ParseSigned(t) == Some(if signed && t[0] == '-' then -v else v))
  {
    var signed := |t| > 0 && (t[0] == '-' || t[0] == '+');
    var body := if signed then t[1..] else t;
    var d := DigitPrefix(body);
    assert d == [] <==> body == [] || !IsDigit(body[0]) by {
      if d != [] {
        assert body != [] && body[0] == d[0];
      } else if body != [] {
        assert |d| < |body|;
      }
    }
  }

  /** Whitespace dropped from the front of `t` is all that is dropped from `t + x` when `x` does not start with whitespace. */
  lemma {:induction false} TrimStartStops(t: string, x: string)
    requires x == [] || !IsJsWhitespace(x[0])
    ensures TrimStart(t + x) == TrimStart(t) + x
    decreases |t|
  {
    if |t| == 0 {
      assert t + x == x;
    } else {
      assert (t + x)[0] == t[0];
      assert (t + x)[1..] == t[1..] + x;
      if IsJsWhitespace(t[0]) {
        TrimStartStops(t[1..], x);
      }
    }
  }

  /** The digit prefix of `b + x` is that of `b` when `x` does not start with a digit. */
  lemma {:induction false} DigitPrefixStops(b: string, x: string)
    requires x == [] || !IsDigit(x[0])
    ensures DigitPrefix(b + x) == DigitPrefix(b)
    decreases |b|
  {
    if |b| == 0 {
      assert b + x == x;
    } else {
      assert (b + x)[0] == b[0];
      assert (b + x)[1..] == b[1..] + x;
      if IsDigit(b[0]) {
        DigitPrefixStops(b[1..], x);
      }
    }
  }

  /** After the leading whitespace, a comma ends the text that is read. */
  lemma ParseSignedStops(u: string, x: string)
    requires x != [] && x[0] == ','
    ensures ParseSigned(u + x) == ParseSigned(u)
  {
    var t := u + x;
    var signed := |u| > 0 && (u[0] == '-' || u[0] == '+');
    var body := if signed then u[1..] else u;
    assert |t| > 0 && t[0] == (if u == [] then ',' else u[0]);
    assert (if signed then t[1..] else t) == body + x by {
      if signed {
        assert t[1..] == u[1..] + x;
      }
    }
    assert !IsDigit(x[0]);
    DigitPrefixStops(body, x);
  }

  /** Reading stops at a comma: whatever follows it does not change the number read. */
  lemma ParseIntStopsAtComma(t: string, rest: string)
    ensures ParseInt(t + "," + rest) == ParseInt(t)
  {
    var x := "," + rest;
    assert t + "," + rest == t + x;
    TrimStartStops(t, x);
    ParseSignedStops(TrimStart(t), x);
  }

  /**
   * An array of texts is read as the texts joined with commas, which is how
   * `parseInt` turns an array into the text it reads (`["3", "4"]` gives 3).
   */
  lemma ArrayReadAsJoinedText(items: seq<Value>, texts: seq<string>)
    requires |items| == |texts| && forall k :: 0 <= k < |items| ==> items[k] == Str(texts[k])
    ensures ParseInnings(Arr(items)) == ParseInt(Join(texts, ","))
  {
    if |texts| == 0 {
      assert Join(texts, ",") == [];
      assert ParseInt([]) == None;
    } else {
      assert items[0] == Str(texts[0]);
      assert ParseInnings(Arr(items)) == ParseInt(texts[0]);
      if |texts| > 1 {
        assert Join(texts, ",") == texts[0] + "," + Join(texts[1..], ",");
        ParseIntStopsAtComma(texts[0], Join(texts[1..], ","));
      }
    }
  }

  /** A one-element array of innings is read as its element; a longer one as its first element. */
  lemma ArrayInningsExamples()
    ensures ValidateInnings(Arr([Num(7.0)])) == Ok(7)
    ensures ValidateInnings(Arr([Str("3"), Num(4.0)])) == Ok(3)
    ensures ValidateInnings(Arr([])) == Err(InningsOutOfRange)
  {
    assert ParseInnings(Arr([Num(7.0)])) == ParseInnings(Num(7.0)) == Some(7);
    assert ParseInnings(Arr([Str("3"), Num(4.0)])) == ParseInt("3");
    assert ParseInt("3") == Some(3) by {
      ParseIntFromDigit("3");
      DigitPrefixOfDigits("3");
    }
  }

  /** The team list of `--teams`: split at commas, trimmed, blanks dropped. */
  function TeamList(s: string): seq<string>
  {
    KeepNonEmpty(TrimAll(Split(s, ',')))
  }

  /** Every part trimmed, in order. */
  function TrimAll(parts: seq<string>): (r: seq<string>)
    ensures |r| == |parts| && forall k :: 0 <= k < |r| ==> r[k] == Trim(parts[k])
  {
    seq(|parts|, k requires 0 <= k < |parts| => Trim(parts[k]))
  }

  function KeepNonEmpty(parts: seq<string>): seq<string>
  {
    if parts == [] then []
    else (if parts[0] == [] then [] else [parts[0]]) + KeepNonEmpty(parts[1..])
  }

  /** A name as `--teams` keeps it: not blank, no surrounding whitespace, no comma. */
  predicate CleanName(t: string)
  {
    t != [] && NoOuterSpace(t) && ',' !in t
  }

  /** Every team `--teams` yields is a clean name. */
  lemma {:induction false} TeamListClean(s: string)
    ensures forall k :: 0 <= k < |TeamList(s)| ==> CleanName(TeamList(s)[k])
  {
    var parts := TrimAll(Split(s, ','));
    forall k | 0 <= k < |parts| ensures NoOuterSpace(parts[k]) && ',' !in parts[k] {
      TrimHasNoOuterSpace(Split(s, ',')[k]);
      TrimIsSlice(Split(s, ',')[k]);
      var piece := Split(s, ',')[k];
      var a := LeadingSpace(piece);
      assert parts[k] == piece[a..][..|parts[k]|];
      assert forall c :: c in parts[k] ==> c in piece;
    }
    KeepNonEmptyKeeps(parts);
  }

  lemma {:induction false} KeepNonEmptyKeeps(parts: seq<string>)
    requires forall k :: 0 <= k < |parts| ==> NoOuterSpace(parts[k]) && ',' !in parts[k]
    ensures forall k :: 0 <= k < |KeepNonEmpty(parts)| ==> CleanName(KeepNonEmpty(parts)[k])
  {
    if parts != [] {
      KeepNonEmptyKeeps(parts[1..]);
    }
  }

  /** Clean names joined with commas come back from `--teams` as they were. */
  lemma {:induction false} TeamListOfJoined(names: seq<string>)
    requires forall k :: 0 <= k < |names| ==> CleanName(names[k])
    ensures TeamList(Join(names, ",")) == names
  {
    if names == [] {
      assert Split("", ',') == [""];
      assert TrimAll([""]) == [""];
      return;
    }
    SplitJoined(names);
    TrimAllClean(names);
    KeepNonEmptyClean(names);
  }

  lemma {:induction false} SplitJoined(names: seq<string>)
    requires |names| > 0
    requires forall k :: 0 <= k < |names| ==> ',' !in names[k]
    ensures Split(Join(names, ","), ',') == names
  {
    if |names| == 1 {
    } else {
      var rest := Join(names[1..], ",");
      var s := Join(names, ",");
      assert s == names[0] + "," + rest;
      assert ',' in s by { assert s[|names[0]|] == ','; }
      FirstIndexAfter(names[0], rest);
      assert s[..|names[0]|] == names[0];
      assert s[|names[0]| + 1..] == rest;
      SplitJoined(names[1..]);
    }
  }

  lemma FirstIndexAfter(a: string, rest: string)
    requires ',' !in a
    ensures ',' in a + "," + rest && FirstIndex(a + "," + rest, ',') == |a|
  {
    var s := a + "," + rest;
    assert s[|a|] == ',';
    assert s[..|a|] == a;
  }

  lemma {:induction false} TrimAllClean(names: seq<string>)
    requires forall k :: 0 <= k < |names| ==> CleanName(names[k])
    ensures TrimAll(names) == names
  {
    forall k | 0 <= k < |names| ensures Trim(names[k]) == names[k] {
      TrimOfTrimmed(names[k]);
    }
  }

  lemma {:induction false} KeepNonEmptyClean(names: seq<string>)
    requires forall k :: 0 <= k < |names| ==> names[k] != []
    ensures KeepNonEmpty(names) == names
  {
    if names != [] {
      KeepNonEmptyClean(names[1..]);
    }
  }

  /** The options the command line sets; the innings default to the number 9. */
  datatype Options = Options(title: Option<string>, innings: Value, teams: seq<string>)

  const DefaultOptions: Options := Options(None, Num(9.0), [])

  /** What reading the arguments ends in: options, or the help text (and exit). */
  datatype Parsed = Read(options: Options) | HelpShown

  predicate IsTitleFlag(a: string) { a == "--title" || a == "-t" }
  predicate IsInningsFlag(a: string) { a == "--innings" || a == "-i" }
  predicate IsHelpFlag(a: string) { a == "--help" || a == "-h" }

  /** The argument after position `i` exists and is not empty. */
  predicate HasValue(args: seq<string>, i: nat)
  {
    i + 1 < |args| && args[i + 1] != ""
  }

  /**
   * The options read from `args[i..]`, starting from `opts`. A flag takes
   * the next argument only when that argument is not empty; otherwise the
   * flag is skipped like any unknown argument.
   */
  function ParseFrom(args: seq<string>, i: nat, opts: Options): (p: Parsed)
    ensures p.HelpShown? ==> exists k :: i <= k < |args| && IsHelpFlag(args[k])
    ensures (forall k :: i <= k < |args| ==> !IsHelpFlag(args[k])) ==> p.Read?
    decreases |args| - i
  {
    if i >= |args| then Read(opts)
    else
      var arg := args[i];
      if IsTitleFlag(arg) && HasValue(args, i) then ParseFrom(args, i + 2, opts.(title := Some(args[i + 1])))
      else if IsInningsFlag(arg) && HasValue(args, i) then ParseFrom(args, i + 2, opts.(innings := Str(args[i + 1])))
      else if arg == "--teams" && HasValue(args, i) then ParseFrom(args, i + 2, opts.(teams := TeamList(args[i + 1])))
      else if IsHelpFlag(arg) then HelpShown
      else ParseFrom(args, i + 1, opts)
  }

  /** The argument loop of `commandLineMode`. */
  method ParseArguments(args: seq<string>) returns (p: Parsed)
    ensures p == ParseFrom(args, 0, DefaultOptions)
  {
    var opts := DefaultOptions;
    var i := 0;
    while i < |args|
      invariant ParseFrom(args, i, opts) == ParseFrom(args, 0, DefaultOptions)
      decreases |args| - i
    {
      var arg := args[i];
      var hasNext := i + 1 < |args| && args[i + 1] != "";
      if IsTitleFlag(arg) && hasNext {
        opts := opts.(title := Some(args[i + 1]));
        i := i + 1;
      } else if IsInningsFlag(arg) && hasNext {
        opts := opts.(innings := Str(args[i + 1]));
        i := i + 1;
      } else if arg == "--teams" && hasNext {
        opts := opts.(teams := TeamList(args[i + 1]));
        i := i + 1;
      } else if IsHelpFlag(arg) {
        return HelpShown;
      }
      i := i + 1;
    }
    return Read(opts);
  }

  /**
   * A title that was read is a non-empty argument that follows a title flag;
   * the same holds of the innings.
   */
  lemma {:induction false} OptionsComeFromFlags(args: seq<string>, i: nat, opts: Options)
    requires opts.title.Some? ==> exists k :: 0 < k < |args| && k <= i && IsTitleFlag(args[k - 1]) && args[k] == opts.title.value && args[k] != ""
    ensures var p := ParseFrom(args, i, opts);
      p.Read? && p.options.title.Some? ==>
        exists k :: 0 < k < |args| && IsTitleFlag(args[k - 1]) && args[k] == p.options.title.value && args[k] != ""
    decreases |args| - i
  {
    if i < |args| {
      var arg := args[i];
      if IsTitleFlag(arg) && HasValue(args, i) {
        var o := opts.(title := Some(args[i + 1]));
        assert 0 < i + 1 < |args| && IsTitleFlag(args[i + 1 - 1]) && args[i + 1] == o.title.value;
        OptionsComeFromFlags(args, i + 2, o);
      } else if IsInningsFlag(arg) && HasValue(args, i) {
        OptionsComeFromFlags(args, i + 2, opts.(innings := Str(args[i + 1])));
      } else if arg == "--teams" && HasValue(args, i) {
        OptionsComeFromFlags(args, i + 2, opts.(teams := TeamList(args[i + 1])));
      } else if !IsHelpFlag(arg) {
        OptionsComeFromFlags(args, i + 1, opts);
      }
    }
  }

  /** The options a value-taking flag sets. */
  datatype Field = TitleField | InningsField | TeamsField

  /** The option the flag `a` sets from the argument after it, if it is a value-taking flag. */
  function FlagField(a: string): (f: Option<Field>)
    ensures f == Some(TitleField) <==> IsTitleFlag(a)
    ensures f == Some(InningsField) <==> IsInningsFlag(a)
    ensures f == Some(TeamsField) <==> a == "--teams"
  {
    if IsTitleFlag(a) then Some(TitleField)
    else if IsInningsFlag(a) then Some(InningsField)
    else if a == "--teams" then Some(TeamsField)
    else None
  }

  /** `opts` with the option `f` set from the text `v`, as the parser sets it. */
  function SetField(opts: Options, f: Field, v: string): Options
  {
    match f
    case TitleField => opts.(title := Some(v))
    case InningsField => opts.(innings := Str(v))
    case TeamsField => opts.(teams := TeamList(v))
  }

  /** The two option records agree on every option but `f`. */
  predicate SameExcept(o1: Options, o2: Options, f: Field)
  {
    (f != TitleField ==> o1.title == o2.title)
    && (f != InningsField ==> o1.innings == o2.innings)
    && (f != TeamsField ==> o1.teams == o2.teams)
  }

  /** A value-taking flag followed by a non-empty argument consumes both and sets its option. */
  lemma ConsumingFlagStep(args: seq<string>, i: nat, opts: Options)
    requires i < |args| && FlagField(args[i]).Some? && HasValue(args, i)
    ensures ParseFrom(args, i, opts) == ParseFrom(args, i + 2, SetField(opts, FlagField(args[i]).value, args[i + 1]))
  {
  }

  /**
   * Reading `args[i..]` sets the option `f` again, or stops at a help flag,
   * before it reaches the end.
   */
  predicate ResetsFrom(args: seq<string>, i: nat, f: Field)
    decreases |args| - i
  {
    i < |args|
    && if FlagField(args[i]).Some? && HasValue(args, i) then
         FlagField(args[i]) == Some(f) || ResetsFrom(args, i + 2, f)
       else if IsHelpFlag(args[i]) then true
       else ResetsFrom(args, i + 1, f)
  }

  /**
   * When the rest of the arguments set the option `f` again, what it held
   * before makes no difference to the outcome: a later flag overrides an
   * earlier one.
   */
  lemma {:induction false} LaterFlagOverrides(args: seq<string>, i: nat, o1: Options, o2: Options, f: Field)
    requires ResetsFrom(args, i, f) && SameExcept(o1, o2, f)
    ensures ParseFrom(args, i, o1) == ParseFrom(args, i, o2)
    decreases |args| - i
  {
    var g := FlagField(args[i]);
    if g.Some? && HasValue(args, i) {
      ConsumingFlagStep(args, i, o1);
      ConsumingFlagStep(args, i, o2);
      var v := args[i + 1];
      if g.value == f {
        assert SetField(o1, f, v) == SetField(o2, f, v);
      } else {
        LaterFlagOverrides(args, i + 2, SetField(o1, g.value, v), SetField(o2, g.value, v), f);
      }
    } else if !IsHelpFlag(args[i]) {
      LaterFlagOverrides(args, i + 1, o1, o2, f);
    }
  }

  /**
   * A value-taking flag whose option the remaining arguments set again has no
   * effect: parsing goes on as if it and its argument were not there.
   */
  lemma EarlierFlagIgnored(args: seq<string>, i: nat, opts: Options)
    requires i < |args| && FlagField(args[i]).Some? && HasValue(args, i)
    requires ResetsFrom(args, i + 2, FlagField(args[i]).value)
    ensures ParseFrom(args, i, opts) == ParseFrom(args, i + 2, opts)
  {
    var f := FlagField(args[i]).value;
    ConsumingFlagStep(args, i, opts);
    LaterFlagOverrides(args, i + 2, SetField(opts, f, args[i + 1]), opts, f);
  }

  /** Of two flags in a row that set the same option, the later one wins (`--title x -t y` reads `y`). */
  lemma LaterFlagWins(args: seq<string>, i: nat, opts: Options)
    requires i + 3 < |args| && FlagField(args[i]).Some? && HasValue(args, i)
    requires FlagField(args[i + 2]) == FlagField(args[i]) && HasValue(args, i + 2)
    ensures ParseFrom(args, i, opts) == ParseFrom(args, i + 4, SetField(opts, FlagField(args[i]).value, args[i + 3]))
  {
    EarlierFlagIgnored(args, i, opts);
    ConsumingFlagStep(args, i + 2, opts);
  }

  /** The outcome of `commandLineMode`. */
  datatype Outcome = Generated(config: Config) | Help | Failed(error: InitError)

  function TeamValues(teams: seq<string>): (r: seq<Value>)
    ensures |r| == |teams| && forall k :: 0 <= k < |r| ==> r[k] == Str(teams[k])
  {
    if teams == [] then [] else [Str(teams[0])] + TeamValues(teams[1..])
  }

  /** `commandLineMode`: a title and a team list are required; then the configuration is generated. */
  function CommandLineMode(args: seq<string>): (r: Outcome)
    ensures r == Help <==> ParseFrom(args, 0, DefaultOptions).HelpShown?
    ensures r.Generated? ==>
      var o := ParseFrom(args, 0, DefaultOptions).options;
      o.title.Some? && r.config.gameTitle == Str(o.title.value) && 1 <= r.config.lastInning <= 9
  {
    match ParseFrom(args, 0, DefaultOptions)
    case HelpShown => Help
    case Read(o) =>
      if o.title.None? then Failed(MissingTitle)
      else if |o.teams| == 0 then Failed(MissingTeams)
      else
        match GenerateInitData(Str(o.title.value), o.innings, Arr(TeamValues(o.teams)))
        case Err(e) => Failed(e)
        case Ok(c) => Generated(c)
  }

  /**
   * A missing title is reported before a missing team list, and a single team
   * is refused by the team check; a generated configuration carries the title
   * read and teams that are clean names.
   */
  lemma CommandLineOutcomes(args: seq<string>)
    requires ParseFrom(args, 0, DefaultOptions).Read?
    ensures var o := ParseFrom(args, 0, DefaultOptions).options;
      (CommandLineMode(args) == Failed(MissingTitle) <==> o.title.None?)
      && (o.title.Some? && |o.teams| == 1 ==> CommandLineMode(args) == Failed(TooFewTeams))
      && (CommandLineMode(args).Generated? ==>
            CommandLineMode(args).config.gameTitle == Str(o.title.value)
            && |o.teams| >= 2
            && forall k :: 1 <= k < |CommandLineMode(args).config.teamItems| ==>
                 exists t :: CommandLineMode(args).config.teamItems[k] == Str(t) && CleanName(t))
  {
    var o := ParseFrom(args, 0, DefaultOptions).options;
    TeamsAreClean(args, 0, DefaultOptions);
    if CommandLineMode(args).Generated? {
      var items := CommandLineMode(args).config.teamItems;
      assert items == [Str(BlankTeam)] + TeamValues(o.teams);
      forall k | 1 <= k < |items| ensures exists t :: items[k] == Str(t) && CleanName(t) {
        assert items[k] == Str(o.teams[k - 1]);
      }
    }
  }

  /** The team list read from the command line is made of clean names. */
  lemma {:induction false} TeamsAreClean(args: seq<string>, i: nat, opts: Options)
    requires forall k :: 0 <= k < |opts.teams| ==> CleanName(opts.teams[k])
    ensures var p := ParseFrom(args, i, opts);
      p.Read? ==> forall k :: 0 <= k < |p.options.teams| ==> CleanName(p.options.teams[k])
    decreases |args| - i
  {
    if i < |args| {
      var arg := args[i];
      if IsTitleFlag(arg) && HasValue(args, i) {
        TeamsAreClean(args, i + 2, opts.(title := Some(args[i + 1])));
      } else if IsInningsFlag(arg) && HasValue(args, i) {
        TeamsAreClean(args, i + 2, opts.(innings := Str(args[i + 1])));
      } else if arg == "--teams" && HasValue(args, i) {
        TeamListClean(args[i + 1]);
        TeamsAreClean(args, i + 2, opts.(teams := TeamList(args[i + 1])));
      } else if !IsHelpFlag(arg) {
        TeamsAreClean(args, i + 1, opts);
      }
    }
  }

  /** The generator's modes. */
  datatype Mode = Interactive | YamlFile(path: string) | CommandLine(args: seq<string>)

  /** `main`: no arguments is interactive, a first argument naming a YAML file selects it, anything else is options. */
  function SelectMode(args: seq<string>): (m: Mode)
    ensures m.YamlFile? ==> args != [] && m.path == args[0]
    ensures m.CommandLine? ==> m.args == args && args != []
  {
    if |args| == 0 then Interactive
    else if EndsWith(args[0], ".yaml") || EndsWith(args[0], ".yml") then YamlFile(args[0])
    else CommandLine(args)
  }

  /** The mode is interactive exactly without arguments, and the YAML mode exactly when the first argument ends in `.yaml` or `.yml`. */
  lemma SelectModeIff(args: seq<string>)
    ensures SelectMode(args) == Interactive <==> args == []
    ensures SelectMode(args).YamlFile? <==>
      |args| > 0 && (EndsWith(args[0], ".yaml") || EndsWith(args[0], ".yml"))
  {
  }
}
