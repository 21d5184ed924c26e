/** The level gate and the separator lines of the `Logger` in
    src/config/logger.ts. The logger's level is fixed in its constructor
    from the configured level name; each output method writes only when
    that level reaches the method's threshold. Console and file output are
    recorded as a sequence of records (the file line's level label and
    message); timestamps, colours of the message and extra arguments are
    not part of this model. */
module Logger {
  import opened Strings

  /** The `levels` table: error 0, warn 1, info 2, debug 3. */
  function LevelValue(name: string): Option<int> {
    if name == "error" then Some(0)
    else if name == "warn" then Some(1)
    else if name == "info" then Some(2)
    else if name == "debug" then Some(3)
    else None
  }

  /** `getLevelNumber(level)`: `levels[level] || 2`. The error level's 0 is
      falsy under `||`, so "error" gives 2 like an unknown name. */
  function LevelNumber(name: string): (r: int)
    ensures r == 1 <==> name == "warn"
    ensures r == 3 <==> name == "debug"
    ensures r == 2 <==> name != "warn" && name != "debug"
  {
    var v := LevelValue(name);
    if v.Some? && v.value != 0 then v.value else 2
  }

  /** The level number the table evidently intends: a listed name gives its
      own value, any other name gives info. */
  function IntendedLevelNumber(name: string): (r: int)
    ensures 0 <= r <= 3
    ensures r == 0 <==> name == "error"
    ensures r == 1 <==> name == "warn"
    ensures r == 3 <==> name == "debug"
  {
    match LevelValue(name)
    case Some(v) => v
    case None => 2
  }

  /** The logger's output methods. */
  datatype Kind = ErrorKind | WarnKind | InfoKind | DebugKind | WhatsAppKind | CommandKind | SuccessKind

  /** The level a method compares the logger's level against. */
  function Threshold(k: Kind): (t: int)
    ensures 0 <= t <= 3
    ensures k.ErrorKind? <==> t == 0
    ensures k.DebugKind? <==> t == 3
  {
    match k
    case ErrorKind => 0
    case WarnKind => 1
    case InfoKind => 2
    case DebugKind => 3
    case WhatsAppKind => 2
    case CommandKind => 2
    case SuccessKind => 2
  }

  /** `this.logLevel >= this.levels.<level>` in the method for k. */
  predicate Passes(k: Kind, logLevel: int) {
    logLevel >= Threshold(k)
  }

  /** The upper-cased level name the file line carries. */
  function FileLabel(k: Kind): string {
    match k
    case ErrorKind => "ERROR"
    case WarnKind => "WARN"
    case InfoKind => "INFO"
    case DebugKind => "DEBUG"
    case WhatsAppKind => "WHATSAPP"
    case CommandKind => "COMMAND"
    case SuccessKind => "SUCCESS"
  }

  /** One message written to the console and the day's log file. */
  datatype Record = Record(level: string, message: string)

  /** The message `command(command, user)` writes to the file. */
  function CommandMessage(command: string, user: string): (r: string)
    ensures StartsWith(r, "User " + user)
    ensures EndsWith(r, " executed /" + command)
  {
    var head := "User " + user;
    var tail := " executed /" + command;
    assert (head + tail)[..|head|] == head;
    assert (head + tail)[|head|..] == tail;
    head + tail
  }

  class Logger {
    var logLevel: int
    var written: seq<Record>

    /** `new Logger()` with the configured level name. */
    constructor(levelName: string)
      ensures logLevel == LevelNumber(levelName) && written == []
    {
      logLevel := LevelNumber(levelName);
      written := [];
    }

    /** `error`, `warn`, `info`, `debug`, `whatsapp` and `success`: the
        message is written exactly when the level passes the method's gate. */
    method Log(k: Kind, message: string)
      modifies this
      ensures logLevel == old(logLevel)
      ensures written == old(written) + (if Passes(k, logLevel) then [Record(FileLabel(k), message)] else [])
    {
      if logLevel >= Threshold(k) {
        written := written + [Record(FileLabel(k), message)];
      }
    }

    /** `command(command, user)`: gated at the info level. */
    method Command(command: string, user: string)
      modifies this
      ensures logLevel == old(logLevel)
      ensures written == old(written) + (if Passes(CommandKind, logLevel) then [Record("COMMAND", CommandMessage(command, user))] else [])
    {
      Log(CommandKind, CommandMessage(command, user));
    }
  }

  /** Every configured level name lets errors and warnings through. */
  lemma ErrorsAndWarningsAlwaysPass(name: string)
    ensures Passes(ErrorKind, LevelNumber(name)) && Passes(WarnKind, LevelNumber(name))
  {
  }

  /** Debug messages are written only when the level name is "debug". */
  lemma DebugOnlyAtDebug(name: string)
    ensures Passes(DebugKind, LevelNumber(name)) <==> name == "debug"
  {
  }

  /** The info-level methods are silenced by "warn" and by nothing else. */
  lemma InfoUnlessWarn(name: string, k: Kind)
    requires k.InfoKind? || k.WhatsAppKind? || k.CommandKind? || k.SuccessKind?
    ensures Passes(k, LevelNumber(name)) <==> name != "warn"
  {
  }

  /** As written, the level name "error" lets info messages through. */
  lemma ErrorLevelShowsInfo()
    ensures LevelNumber("error") == 2 && Passes(InfoKind, LevelNumber("error"))
  {
  }

  /** With the intended lookup, the level name "error" lets only errors through. */
  lemma IntendedErrorLevel(k: Kind)
    ensures Passes(k, IntendedLevelNumber("error")) <==> k.ErrorKind?
  {
  }

  /** The intended lookup agrees with the written one on every name but "error". */
  lemma IntendedAgrees(name: string)
    requires name != "error"
    ensures IntendedLevelNumber(name) == LevelNumber(name)
  {
  }

  /** A logger built from a level name writes a message of kind k iff the gate passes. */
  method LogOnce(levelName: string, k: Kind, message: string) returns (written: seq<Record>)
    ensures |written| == 1 <==> Passes(k, LevelNumber(levelName))
    ensures |written| <= 1
    ensures |written| == 1 ==> written[0] == Record(FileLabel(k), message)
  {
    var logger := new Logger(levelName);
    logger.Log(k, message);
    written := logger.written;
  }

  /** The escape character that starts an ANSI colour code. */
  const Esc: char := 27 as char
  const Gray: string := [Esc] + "[90m"
  const Bright: string := [Esc] + "[1m"
  const White: string := [Esc] + "[37m"
  const Reset: string := [Esc] + "[0m"

  /** The box-drawing character the separator repeats. */
  const Rule: char := '─'

  /** `c.repeat(n)`. */
  function Repeat(c: char, n: nat): (r: string)
    ensures |r| == n && forall i :: 0 <= i < n ==> r[i] == c
    ensures multiset(r)[c] == n
  {
    if n == 0 then [] else [c] + Repeat(c, n - 1)
  }

  /** The colour codes hold no rule characters. */
  lemma CodesHaveNoRule()
    ensures multiset(Gray)[Rule] == 0 && multiset(Bright)[Rule] == 0
    ensures multiset(White)[Rule] == 0 && multiset(Reset)[Rule] == 0
  {
    assert Rule !in Gray && Rule !in Bright && Rule !in White && Rule !in Reset;
  }

  /** A grey run of 20 rule characters. */
  function Side(): (r: string)
    ensures multiset(r)[Rule] == 20
  {
    CodesHaveNoRule();
    RuleCount(Gray, Repeat(Rule, 20));
    Gray + Repeat(Rule, 20)
  }

  /** The title, padded by a space on each side, in bright white. */
  function Middle(t: string): string {
    Bright + White + (" " + t + " ") + Reset
  }

  /** The line `separator(title)` prints: 60 rule characters without a
      (non-empty) title, the padded title between two runs of 20 with one. */
  function Separator(title: Option<string>): string {
    if Truthy(title) then Side() + Middle(title.value) + (Side() + Reset)
    else Gray + Repeat(Rule, 60) + Reset
  }

  /** The rule characters of a concatenation are those of its parts. */
  lemma RuleCount(a: string, b: string)
    ensures multiset(a + b)[Rule] == multiset(a)[Rule] + multiset(b)[Rule]
  {
  }

  /** A string ends with what was appended to it. */
  lemma EndsWithAppended(a: string, b: string, c: string)
    ensures EndsWith(a + b, b) && EndsWith(a + (b + c), c)
  {
    assert (a + b)[|a + b| - |b|..] == b;
    assert (a + (b + c))[|a + (b + c)| - |c|..] == c;
  }

  /** Text around an occurrence keeps it. */
  lemma {:induction false} ContainsWithin(a: string, s: string, b: string, p: string)
    requires Contains(s, p)
    ensures Contains(a + s + b, p)
    decreases |a|, |s|
  {
    if |a| > 0 {
      assert (a + s + b)[1..] == a[1..] + s + b;
      ContainsWithin(a[1..], s, b, p);
    } else if StartsWith(s, p) {
      assert a + s + b == s + b;
      assert (s + b)[..|p|] == s[..|p|];
    } else {
      assert a + s + b == s + b;
      assert (s + b)[1..] == s[1..] + b;
      ContainsWithin(a, s[1..], b, p);
      assert a + s[1..] + b == s[1..] + b;
    }
  }

  /** Without a title the line holds exactly 60 rule characters and ends
      with the reset code. */
  lemma PlainSeparator(title: Option<string>)
    requires !Truthy(title)
    ensures multiset(Separator(title))[Rule] == 60
    ensures EndsWith(Separator(title), Reset)
  {
    CodesHaveNoRule();
    var body := Gray + Repeat(Rule, 60);
    RuleCount(Gray, Repeat(Rule, 60));
    RuleCount(body, Reset);
    EndsWithAppended(body, Reset, "");
  }

  /** With a title the line holds 40 rule characters besides the title's own. */
  lemma TitledCount(t: string)
    requires t != ""
    ensures multiset(Separator(Some(t)))[Rule] == 40 + multiset(t)[Rule]
  {
    CodesHaveNoRule();
    var padded := " " + t + " ";
    RuleCount(" ", t);
    RuleCount(" " + t, " ");
    RuleCount(Bright, White);
    RuleCount(Bright + White, padded);
    RuleCount(Bright + White + padded, Reset);
    RuleCount(Side(), Middle(t));
    RuleCount(Side(), Reset);
    RuleCount(Side() + Middle(t), Side() + Reset);
  }

  /** With a title the line holds the title padded by one space on each
      side, and ends with the reset code. */
  lemma TitledShape(t: string)
    requires t != ""
    ensures Contains(Separator(Some(t)), " " + t + " ")
    ensures EndsWith(Separator(Some(t)), Reset)
  {
    var padded := " " + t + " ";
    ContainsPiece(Bright + White, padded, Reset);
    ContainsWithin(Side(), Middle(t), Side() + Reset, padded);
    EndsWithAppended(Side() + Middle(t), Side(), Reset);
  }
}
