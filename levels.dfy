/** Log levels, their names and the parser for level names. */
module Levels {
  import opened Values

  /** The six predefined levels, in ascending severity. */
  datatype Level = Trace | Debug | Info | Warning | Error | Fatal

  /** The level's position in the source's enumeration (iota order). */
  function Severity(l: Level): nat {
    match l
    case Trace => 0
    case Debug => 1
    case Info => 2
    case Warning => 3
    case Error => 4
    case Fatal => 5
  }

  /** The levels are numbered 0 to 5 in ascending severity, each with a
      number of its own. */
  lemma SeverityAscending(l1: Level, l2: Level)
    ensures Severity(Trace) < Severity(Debug) < Severity(Info) < Severity(Warning) < Severity(Error) < Severity(Fatal)
    ensures Severity(l1) < 6
    ensures Severity(l1) == Severity(l2) ==> l1 == l2
  {
  }

  /** LEVEL.String(): a name the parser maps back to the level. */
  function Name(l: Level): (r: string)
    ensures LevelFromString(r) == Parsed(l, None)
  {
    match l
    case Trace => "trace"
    case Debug => "debug"
    case Info => "info"
    case Warning => "warn"
    case Error => "error"
    case Fatal => "fatal"
  }

  /** Every name the parser accepts, as an independent table. */
  const KnownNames: map<string, Level> := map[
    "trace" := Trace, "debug" := Debug, "info" := Info,
    "warn" := Warning, "warning" := Warning,
    "error" := Error, "fatal" := Fatal]

  /** ASCII lower-casing of one character. */
  function LowerChar(c: char): char {
    if 'A' <= c <= 'Z' then (c as int + ('a' as int - 'A' as int)) as char else c
  }

  /** strings.ToLower restricted to ASCII letters. */
  function ToLower(s: string): (r: string)
    ensures |r| == |s|
    ensures forall i :: 0 <= i < |s| ==> r[i] == LowerChar(s[i])
  {
    seq(|s|, i requires 0 <= i < |s| => LowerChar(s[i]))
  }

  lemma ToLowerIdempotent(s: string)
    ensures ToLower(ToLower(s)) == ToLower(s)
  {
    assert forall i :: 0 <= i < |s| ==> LowerChar(LowerChar(s[i])) == LowerChar(s[i]);
  }

  /** The result of LevelFromString: a level and, when the name is
      unknown, an error. */
  datatype Parsed = Parsed(level: Level, err: Option<Error>)

  /** LevelFromString: an exact match on the known names first; otherwise
      the lower-cased string is parsed again, if lower-casing changed it.
      The recursion is one level deep at most, since lower-casing is
      idempotent; the measure below says so. */
  function LevelFromString(s: string): (r: Parsed)
    ensures r.err.Some? ==> r == Parsed(Debug, Some(UnknownLevel(ToLower(s))))
    decreases if ToLower(s) == s then 0 else 1
  {
    match s
    case "trace" => Parsed(Trace, None)
    case "debug" => Parsed(Debug, None)
    case "info" => Parsed(Info, None)
    case "warn" => Parsed(Warning, None)
    case "warning" => Parsed(Warning, None)
    case "error" => Parsed(Error, None)
    case "fatal" => Parsed(Fatal, None)
    case _ =>
      var lower := ToLower(s);
      if lower != s then
        ToLowerIdempotent(s);
        LevelFromString(lower)
      else
        Parsed(Debug, Some(UnknownLevel(s)))
  }

  /** The exact-match branch agrees with the table of known names. */
  lemma ExactMatchIsTable(s: string)
    ensures s in KnownNames ==> LevelFromString(s) == Parsed(KnownNames[s], None)
    ensures s !in KnownNames && ToLower(s) == s ==> LevelFromString(s) == Parsed(Debug, Some(UnknownLevel(s)))
  {
  }

  /** Every known name is already lower case. */
  lemma KnownNamesAreLower(s: string)
    requires s in KnownNames
    ensures ToLower(s) == s
  {
    var names := ["trace", "debug", "info", "warn", "warning", "error", "fatal"];
    assert s in names;
    forall i | 0 <= i < |s| ensures LowerChar(s[i]) == s[i] {
      assert 'a' <= s[i] <= 'z';
    }
  }

  /** LevelFromString in full: a string parses to the level its lower-case
      form names; any other string yields Debug together with an
      unknown-level error that names the lower-cased string. */
  lemma {:induction false} LevelFromStringSpec(s: string)
    ensures var lower := ToLower(s);
      LevelFromString(s) ==
        if lower in KnownNames then Parsed(KnownNames[lower], None)
        else Parsed(Debug, Some(UnknownLevel(lower)))
  {
    var lower := ToLower(s);
    ToLowerIdempotent(s);
    if s in KnownNames {
      KnownNamesAreLower(s);
      ExactMatchIsTable(s);
    } else if lower == s {
      ExactMatchIsTable(s);
    } else {
      assert LevelFromString(s) == LevelFromString(lower);
      ExactMatchIsTable(lower);
    }
  }

  /** Every level's name parses back to that level without an error. */
  lemma NameRoundTrip(l: Level)
    ensures LevelFromString(Name(l)) == Parsed(l, None)
  {
  }

  /** "warn" and "warning" both denote the warning level. */
  lemma WarningAliases()
    ensures LevelFromString("warn") == Parsed(Warning, None)
    ensures LevelFromString("warning") == Parsed(Warning, None)
  {
  }

  /** Names are case-insensitive: "WARN" parses through the lower-case retry. */
  lemma UpperCaseWarn()
    ensures LevelFromString("WARN") == Parsed(Warning, None)
  {
    assert ToLower("WARN") == "warn";
  }

  /** The names of distinct levels are distinct. */
  lemma NameInjective(l1: Level, l2: Level)
    ensures Name(l1) == Name(l2) ==> l1 == l2
  {
    NameRoundTrip(l1);
    NameRoundTrip(l2);
  }
}
