/** The log levels of src/ltf_log_level.c, as the C enum's integers. */
module LogLevel {
  import opened Options

  const CRITICAL := 0
  const ERROR := 1
  const TRACE := 5

  const NAMES := ["CRITICAL", "ERROR", "WARNING", "INFO", "DEBUG", "TRACE"]

  predicate IsLevel(level: int) {
    0 <= level <= TRACE
  }

  function ToStr(level: int): Option<string> {
    if IsLevel(level) then Some(NAMES[level]) else None
  }

  function Lower(c: char): char {
    if 'A' <= c <= 'Z' then c - 'A' + 'a' else c
  }

  function Lowered(s: string): (r: string)
    ensures |r| == |s|
  {
    seq(|s|, i requires 0 <= i < |s| => Lower(s[i]))
  }

  /** strcasecmp against the short and the long name of each level. */
  function FromStr(s: string): (level: int)
    ensures level == -1 || IsLevel(level)
  {
    var name := Lowered(s);
    if name == "c" || name == "critical" then 0
    else if name == "e" || name == "error" then 1
    else if name == "w" || name == "warning" then 2
    else if name == "i" || name == "info" then 3
    else if name == "d" || name == "debug" then 4
    else if name == "t" || name == "trace" then 5
    else -1
  }

  /** Every level's own name reads back as that level. */
  lemma LevelRoundTrip(level: int)
    requires IsLevel(level)
    ensures FromStr(ToStr(level).value) == level
  {
    match level
    case 0 => assert Lowered("CRITICAL") == "critical";
    case 1 => assert Lowered("ERROR") == "error";
    case 2 => assert Lowered("WARNING") == "warning";
    case 3 => assert Lowered("INFO") == "info";
    case 4 => assert Lowered("DEBUG") == "debug";
    case 5 => assert Lowered("TRACE") == "trace";
  }

  /** A name and its letter, of which some characters are in the other case. */
  lemma NameReads(s: string, name: string)
    requires Lowered(s) == name
    ensures FromStr(s)
         == if name == "c" || name == "critical" then 0 else if name == "e" || name == "error" then 1
            else if name == "w" || name == "warning" then 2 else if name == "i" || name == "info" then 3
            else if name == "d" || name == "debug" then 4 else if name == "t" || name == "trace" then 5 else -1
  {
  }

  /** Lowering takes letters of the other case and leaves everything else. */
  lemma LoweredAt(s: string, i: nat)
    requires i < |s|
    ensures Lowered(s)[i] == if 65 as char <= s[i] <= 90 as char then (s[i] as int + 32) as char else s[i]
  {
  }
}
