/** The command table of src/commands/index.ts: the four commands and the `s`
    alias, the descriptions and usages translated once when the table is
    built, and the `help` command (the details of one command, or the general
    list of the commands without their aliases).

    The source reads a command's strings at `commands.<command>.<key>`, a path
    only the Portuguese core object has; the command tables put them at
    `<command>.<key>`. `PathStyle` selects one or the other, so both the table
    as written and the corrected one are modelled. */
module Commands {
  import opened Strings
  import opened TranslationTables
  import opened Translations
  import opened I18n

  /** The identity of a command's `execute` function. */
  datatype Handler = HelpHandler | StickerHandler | AudioHandler | VideoHandler

  datatype Command = Command(name: string, description: string, usage: string, execute: Handler)

  /** What running a command amounts to: the sticker command drops its arguments. */
  datatype Invocation = RunHelp(args: seq<string>) | RunSticker | RunAudio(args: seq<string>) | RunVideo(args: seq<string>)

  datatype PathStyle = AsWritten | Corrected

  /** The path of one of a command's strings. */
  function KeyPath(style: PathStyle, command: string, key: string): string {
    if style == AsWritten then "commands." + command + "." + key else command + "." + key
  }

  /** The path of the one-command details template. */
  function DetailsPath(style: PathStyle): string {
    if style == AsWritten then "commands.commandDetails" else "help.commandDetails"
  }

  /** The paths as the keys they are made of. */
  lemma KeyPathKeys(style: PathStyle, command: string, key: string)
    ensures KeyPath(style, command, key)
      == if style == AsWritten then Path(["commands", command, key]) else Path([command, key])
  {
    assert Join([command, key], ".") == command + "." + key by {
      assert [command, key][1..] == [key];
    }
    if style == AsWritten {
      assert Join(["commands", command, key], ".") == "commands" + "." + (command + "." + key) by {
        assert ["commands", command, key][1..] == [command, key];
      }
      assert "commands." == "commands" + ".";
    }
  }

  /** `String(x)` of what `t` gives back: a record shows as "[object Object]". */
  function Shown(t: Translated): (r: string)
    requires !t.ReplaceOnRecord?
    ensures t.Message? ==> r == t.text
  {
    match t
    case Message(s) => s
    case Subtree(_) => "[object Object]"
  }

  /** The strings the module reads when it is loaded: `t(path)` under the
      configured language, as a string. */
  function LoadText(lang: string): string -> string {
    p => Shown(T(lang, p, []))
  }

  /** What a reply holds: `t(path, replacements)` under the configured language. */
  function Say(lang: string): (string, seq<(string, string)>) -> Translated {
    (p, r) => T(lang, p, r)
  }

  /** A command as the module builds it, with `tr` reading its strings. */
  function Load(tr: string -> string, style: PathStyle, name: string, handler: Handler): (c: Command)
    ensures c.name == name && c.execute == handler
  {
    Command(name, tr(KeyPath(style, name, "description")), tr(KeyPath(style, name, "usage")), handler)
  }

  /** The `commands` record, in insertion order; `s` is the sticker command itself. */
  function Table(tr: string -> string, style: PathStyle): seq<(string, Command)> {
    var sticker := Load(tr, style, "sticker", StickerHandler);
    [("help", Load(tr, style, "help", HelpHandler)), ("sticker", sticker), ("s", sticker),
     ("audio", Load(tr, style, "audio", AudioHandler)), ("video", Load(tr, style, "video", VideoHandler))]
  }

  const TableKeys: seq<string> := ["help", "sticker", "s", "audio", "video"]

  /** `commands[name]`: the command stored under the first entry with that key. */
  function Lookup(table: seq<(string, Command)>, name: string): (r: Option<Command>)
    ensures r.Some? <==> exists i :: 0 <= i < |table| && table[i].0 == name
    ensures r.Some? ==> exists i :: 0 <= i < |table| && table[i] == (name, r.value)
    decreases |table|
  {
    if |table| == 0 then None
    else if table[0].0 == name then Some(table[0].1)
    else
      var r := Lookup(table[1..], name);
      assert forall i :: 0 < i < |table| ==> table[i] == table[1..][i - 1];
      r
  }

  /** `Object.values(commands)`. */
  function Values(table: seq<(string, Command)>): (r: seq<Command>)
    ensures |r| == |table| && forall i :: 0 <= i < |table| ==> r[i] == table[i].1
  {
    seq(|table|, i requires 0 <= i < |table| => table[i].1)
  }

  /** Running a command with its arguments. */
  function Invoke(c: Command, args: seq<string>): Invocation {
    match c.execute
    case HelpHandler => RunHelp(args)
    case StickerHandler => RunSticker
    case AudioHandler => RunAudio(args)
    case VideoHandler => RunVideo(args)
  }

  /** The first entry with a key is the one looked up. */
  lemma {:induction false} LookupAt(table: seq<(string, Command)>, i: nat)
    requires i < |table| && forall j :: 0 <= j < i ==> table[j].0 != table[i].0
    ensures Lookup(table, table[i].0) == Some(table[i].1)
    decreases i
  {
    if i > 0 {
      LookupAt(table[1..], i - 1);
    }
  }

  /** `s` and `sticker` look up the same command. */
  lemma AliasLookup(tr: string -> string, style: PathStyle)
    ensures Lookup(Table(tr, style), "s") == Lookup(Table(tr, style), "sticker")
  {
    var table := Table(tr, style);
    LookupAt(table, 1);
    LookupAt(table, 2);
  }

  /** Each of the five keys finds a command: its own, or the sticker command for `s`. */
  lemma TableFound(tr: string -> string, style: PathStyle, name: string)
    requires name in TableKeys
    ensures Lookup(Table(tr, style), name).Some?
    ensures Lookup(Table(tr, style), name).value.name == if name == "s" then "sticker" else name
  {
    var table := Table(tr, style);
    if name == "help" {
      LookupAt(table, 0);
    } else if name == "sticker" {
      LookupAt(table, 1);
    } else if name == "s" {
      LookupAt(table, 2);
    } else if name == "audio" {
      LookupAt(table, 3);
    } else {
      LookupAt(table, 4);
    }
  }

  /** Any other name finds nothing. */
  lemma TableMissing(tr: string -> string, style: PathStyle, name: string)
    requires name !in TableKeys
    ensures Lookup(Table(tr, style), name).None?
  {
    var table := Table(tr, style);
    assert forall i :: 0 <= i < |table| ==> table[i].0 == TableKeys[i];
  }

  /** The table holds exactly the five keys; `s` and `sticker` are the same
      command, and every other key holds the command of its own name. */
  lemma TableLookup(tr: string -> string, style: PathStyle, name: string)
    ensures Lookup(Table(tr, style), name).Some? <==> name in TableKeys
    ensures Lookup(Table(tr, style), "s") == Lookup(Table(tr, style), "sticker")
    ensures name in TableKeys && name != "s" ==> Lookup(Table(tr, style), name).value.name == name
  {
    AliasLookup(tr, style);
    if name in TableKeys {
      TableFound(tr, style, name);
    } else {
      TableMissing(tr, style, name);
    }
  }

  /** `arr.findIndex(c => c.execute === h)`: the first position holding handler h, or -1. */
  function FindIndex(arr: seq<Command>, h: Handler): (r: int)
    ensures -1 <= r < |arr|
    ensures r >= 0 ==> arr[r].execute == h && forall j :: 0 <= j < r ==> arr[j].execute != h
    ensures r == -1 ==> forall j :: 0 <= j < |arr| ==> arr[j].execute != h
    decreases |arr|
  {
    if |arr| == 0 then -1
    else if arr[0].execute == h then 0
    else
      var r := FindIndex(arr[1..], h);
      assert forall j :: 0 < j < |arr| ==> arr[j] == arr[1..][j - 1];
      if r == -1 then -1 else r + 1
  }

  /** Position i is the first one with its handler. */
  predicate FirstOccurrence(arr: seq<Command>, i: int)
    requires 0 <= i < |arr|
  {
    FindIndex(arr, arr[i].execute) == i
  }

  /** The filter of the first n entries: `arr.filter((cmd, index) => arr.findIndex(...) === index)`. */
  function UniqueUpTo(arr: seq<Command>, n: nat): seq<Command>
    requires n <= |arr|
  {
    if n == 0 then []
    else UniqueUpTo(arr, n - 1) + (if FirstOccurrence(arr, n - 1) then [arr[n - 1]] else [])
  }

  function Unique(arr: seq<Command>): seq<Command> {
    UniqueUpTo(arr, |arr|)
  }

  /** The position of handler h is the first position holding it. */
  lemma FindIndexAt(arr: seq<Command>, h: Handler, i: nat)
    requires i < |arr| && arr[i].execute == h
    requires forall j :: 0 <= j < i ==> arr[j].execute != h
    ensures FindIndex(arr, h) == i
  {
  }

  /** The filter of n entries extends the filter of n - 1 entries by entry n - 1
      when that one is the first with its handler. */
  lemma UniqueStep(arr: seq<Command>, n: nat)
    requires 0 < n <= |arr|
    ensures var u0, u := UniqueUpTo(arr, n - 1), UniqueUpTo(arr, n);
      |u0| <= |u| <= |u0| + 1 && u[..|u0|] == u0
      && (|u| == |u0| + 1 <==> FirstOccurrence(arr, n - 1))
      && (|u| == |u0| + 1 ==> u[|u0|] == arr[n - 1])
  {
  }

  /** Each kept entry is the first one with its handler. */
  lemma {:induction false} UniqueKept(arr: seq<Command>, n: nat)
    requires n <= |arr|
    ensures var u := UniqueUpTo(arr, n);
      forall k :: 0 <= k < |u| ==> 0 <= FindIndex(arr, u[k].execute) < n && arr[FindIndex(arr, u[k].execute)] == u[k]
  {
    if n > 0 {
      UniqueKept(arr, n - 1);
      UniqueStep(arr, n);
      var u0, u := UniqueUpTo(arr, n - 1), UniqueUpTo(arr, n);
      forall k | 0 <= k < |u|
        ensures 0 <= FindIndex(arr, u[k].execute) < n && arr[FindIndex(arr, u[k].execute)] == u[k]
      {
        if k < |u0| {
          assert u[k] == u0[k];
        }
      }
    }
  }

  /** The kept entries come in the order of their first occurrence, so no
      two share a handler. */
  lemma {:induction false} UniqueOrdered(arr: seq<Command>, n: nat)
    requires n <= |arr|
    ensures var u := UniqueUpTo(arr, n);
      forall k, l :: 0 <= k < l < |u| ==> FindIndex(arr, u[k].execute) < FindIndex(arr, u[l].execute)
    ensures var u := UniqueUpTo(arr, n);
      forall k, l :: 0 <= k < l < |u| ==> u[k].execute != u[l].execute
  {
    if n > 0 {
      UniqueOrdered(arr, n - 1);
      UniqueKept(arr, n - 1);
      UniqueStep(arr, n);
      var u0, u := UniqueUpTo(arr, n - 1), UniqueUpTo(arr, n);
      forall k, l | 0 <= k < l < |u|
        ensures FindIndex(arr, u[k].execute) < FindIndex(arr, u[l].execute)
      {
        assert u[k] == u0[k];
        if l < |u0| {
          assert u[l] == u0[l];
        }
      }
    }
  }

  /** Every handler of the list is kept: the first entry holding it is in the list. */
  lemma {:induction false} UniqueCovers(arr: seq<Command>, n: nat)
    requires n <= |arr|
    ensures forall i :: 0 <= i < n ==> arr[FindIndex(arr, arr[i].execute)] in UniqueUpTo(arr, n)
  {
    if n > 0 {
      UniqueCovers(arr, n - 1);
      UniqueStep(arr, n);
      var u0, u := UniqueUpTo(arr, n - 1), UniqueUpTo(arr, n);
      forall i | 0 <= i < n ensures arr[FindIndex(arr, arr[i].execute)] in u {
        var f := FindIndex(arr, arr[i].execute);
        if i < n - 1 {
          assert arr[f] in u0;
        } else if f == n - 1 {
          assert u[|u0|] == arr[n - 1];
        } else {
          assert FindIndex(arr, arr[f].execute) == f;
          assert arr[f] in u0;
        }
      }
    }
  }

  /** The listing of the five-entry table is help, sticker, audio and video:
      the `s` alias is left out. */
  lemma UniqueTable(tr: string -> string, style: PathStyle)
    ensures var t := Table(tr, style);
      Unique(Values(t)) == [t[0].1, t[1].1, t[3].1, t[4].1]
  {
    var t := Table(tr, style);
    var arr := Values(t);
    FindIndexAt(arr, HelpHandler, 0);
    FindIndexAt(arr, StickerHandler, 1);
    FindIndexAt(arr, AudioHandler, 3);
    FindIndexAt(arr, VideoHandler, 4);
    assert UniqueUpTo(arr, 0) == [];
    assert UniqueUpTo(arr, 1) == [arr[0]];
    assert UniqueUpTo(arr, 2) == [arr[0], arr[1]];
    assert UniqueUpTo(arr, 3) == [arr[0], arr[1]];
    assert UniqueUpTo(arr, 4) == [arr[0], arr[1], arr[3]];
  }

  /** One line of the general help. */
  function Line(c: Command): string {
    "*/" + c.name + "*: " + c.description + "\n"
  }

  /** The lines of a list of commands, in list order. */
  function Lines(cs: seq<Command>): string {
    if |cs| == 0 then "" else Lines(cs[..|cs| - 1]) + Line(cs[|cs| - 1])
  }

  /** The lines of two lists are the lines of the first followed by those of the second. */
  lemma {:induction false} LinesAppend(a: seq<Command>, b: seq<Command>)
    ensures Lines(a + b) == Lines(a) + Lines(b)
    decreases |b|
  {
    if |b| > 0 {
      var b0 := b[..|b| - 1];
      assert (a + b)[..|a + b| - 1] == a + b0;
      LinesAppend(a, b0);
    } else {
      assert a + b == a;
    }
  }

  /** Each command of the list has its line in the listing. */
  lemma LinesContain(cs: seq<Command>, k: nat)
    requires k < |cs|
    ensures Contains(Lines(cs), Line(cs[k]))
  {
    var pre, c, rest := cs[..k], cs[k], cs[k + 1..];
    var a := pre + [c];
    assert cs == a + rest;
    LinesAppend(a, rest);
    assert a[..|a| - 1] == pre;
    var line := Line(c);
    assert Lines(a) == Lines(pre) + line;
    ContainsPiece(Lines(pre), line, Lines(rest));
  }

  /** Specification of the general help text: the `availableCommands` heading,
      a blank line, one line per command other than an alias, a blank line and
      the `moreDetails` hint. */
  function GeneralHelpText(tr: string -> string, style: PathStyle): string {
    tr(KeyPath(style, "help", "availableCommands")) + "\n\n"
    + Lines(Unique(Values(Table(tr, style))))
    + "\n" + tr(KeyPath(style, "help", "moreDetails"))
  }

  /** The general help text built line by line, as the `forEach` does. */
  method GeneralHelp(tr: string -> string, style: PathStyle) returns (text: string)
    ensures text == GeneralHelpText(tr, style)
  {
    var head := tr(KeyPath(style, "help", "availableCommands")) + "\n\n";
    text := AppendLines(head, Unique(Values(Table(tr, style))));
    text := text + "\n" + tr(KeyPath(style, "help", "moreDetails"));
  }

  /** The `forEach` over the commands: one line appended per command. */
  method AppendLines(head: string, cs: seq<Command>) returns (text: string)
    ensures text == head + Lines(cs)
  {
    text := head;
    var i := 0;
    while i < |cs|
      invariant 0 <= i <= |cs|
      invariant text == head + Lines(cs[..i])
    {
      assert cs[..i + 1][..i] == cs[..i];
      text := text + Line(cs[i]);
      i := i + 1;
    }
    assert cs[..i] == cs;
  }

  /** The lines of four commands. */
  lemma LinesOfFour(a: Command, b: Command, c: Command, d: Command)
    ensures Lines([a, b, c, d]) == Line(a) + Line(b) + Line(c) + Line(d)
  {
    assert Lines([a]) == Line(a) by { assert [a][..0] == []; }
    assert Lines([a, b]) == Lines([a]) + Line(b) by { assert [a, b][..1] == [a]; }
    assert Lines([a, b, c]) == Lines([a, b]) + Line(c) by { assert [a, b, c][..2] == [a, b]; }
    assert Lines([a, b, c, d]) == Lines([a, b, c]) + Line(d) by { assert [a, b, c, d][..3] == [a, b, c]; }
  }

  /** The general help lists every command under its own name and not the alias. */
  lemma GeneralHelpListsCommands(tr: string -> string, style: PathStyle)
    ensures var t := Table(tr, style);
      Lines(Unique(Values(t))) == Line(t[0].1) + Line(t[1].1) + Line(t[3].1) + Line(t[4].1)
  {
    var t := Table(tr, style);
    UniqueTable(tr, style);
    LinesOfFour(t[0].1, t[1].1, t[3].1, t[4].1);
  }

  /** The translator of replies. */
  type Sayer = (string, seq<(string, string)>) -> Translated

  /** `help` with arguments: the details of the command named by the first
      argument, lowercased, or the not-found message naming it. */
  function HelpDetails(tr: string -> string, say: Sayer, style: PathStyle, args: seq<string>): Translated
    requires |args| > 0
  {
    var name := Lower(args[0]);
    match Lookup(Table(tr, style), name)
    case Some(c) => say(DetailsPath(style), [("name", c.name), ("description", c.description), ("usage", c.usage)])
    case None => say(KeyPath(style, "help", "notFound"), [("command", name)])
  }

  /** The one message the help command sends. */
  function HelpReply(tr: string -> string, say: Sayer, style: PathStyle, args: seq<string>): Translated {
    if |args| > 0 then HelpDetails(tr, say, style, args) else Message(GeneralHelpText(tr, style))
  }

  /** Only the first argument counts, and its case does not. */
  lemma HelpFirstArgument(tr: string -> string, say: Sayer, style: PathStyle, args1: seq<string>, args2: seq<string>)
    requires |args1| > 0 && |args2| > 0 && Lower(args1[0]) == Lower(args2[0])
    ensures HelpReply(tr, say, style, args1) == HelpReply(tr, say, style, args2)
  {
  }

  /** A known first argument gives that command's details, filled with its
      name, description and usage; an unknown one names the lowercased argument. */
  lemma HelpDetailsCases(tr: string -> string, say: Sayer, style: PathStyle, args: seq<string>)
    requires |args| > 0
    ensures var name := Lower(args[0]);
      var found := Lookup(Table(tr, style), name);
      (name in TableKeys ==>
        found.Some? && found.value.name == (if name == "s" then "sticker" else name)
        && HelpReply(tr, say, style, args)
           == say(DetailsPath(style), [("name", found.value.name), ("description", found.value.description),
                                       ("usage", found.value.usage)]))
      && (name !in TableKeys ==>
        HelpReply(tr, say, style, args) == say(KeyPath(style, "help", "notFound"), [("command", name)]))
  {
    var name := Lower(args[0]);
    if name in TableKeys {
      TableFound(tr, style, name);
    } else {
      TableMissing(tr, style, name);
    }
  }

  // The paths as written.

  /** Under en and es (and any language that falls back to en) a string of a
      command read at its path as written is the path itself. */
  lemma AsWrittenString(lang: string, name: string, key: string)
    requires ValidLang(lang) == "en" || ValidLang(lang) == "es"
    requires name in CommandKeys && '.' !in key
    ensures LoadText(lang)(KeyPath(AsWritten, name, key)) == KeyPath(AsWritten, name, key)
  {
    KeyPathKeys(AsWritten, name, key);
    CommandKeysUndotted(name);
    assert ["commands", name, key] == ["commands"] + [name, key];
    CommandsPathIsPath(ValidLang(lang), [name, key], []);
  }

  /** So the help listing under those languages shows each command's
      description path in place of its description... */
  lemma AsWrittenDescription(lang: string, name: string, handler: Handler)
    requires ValidLang(lang) == "en" || ValidLang(lang) == "es"
    requires name in CommandKeys
    ensures Load(LoadText(lang), AsWritten, name, handler).description == KeyPath(AsWritten, name, "description")
  {
    AsWrittenString(lang, name, "description");
  }

  /** ... and the details of a command show its usage path in place of its usage. */
  lemma AsWrittenUsage(lang: string, name: string, handler: Handler)
    requires ValidLang(lang) == "en" || ValidLang(lang) == "es"
    requires name in CommandKeys
    ensures Load(LoadText(lang), AsWritten, name, handler).usage == KeyPath(AsWritten, name, "usage")
  {
    AsWrittenString(lang, name, "usage");
  }

  // The corrected paths.

  /** With the corrected paths an available language reads one of a command's
      strings from the command table. */
  lemma CorrectedString(lang: string, name: string, key: string, text: string)
    requires IsValidLanguage(lang) && name in CommandKeys && '.' !in key
    requires Get(CommandTable(lang, name), key) == Some(Text(text))
    ensures LoadText(lang)(KeyPath(Corrected, name, key)) == text
  {
    KeyPathKeys(Corrected, name, key);
    CommandPath(lang, name, key, text, []);
  }

  /** A language that is not available loads every command as English does. */
  lemma LoadFallback(lang: string, style: PathStyle, name: string, handler: Handler)
    ensures Load(LoadText(lang), style, name, handler) == Load(LoadText(ValidLang(lang)), style, name, handler)
  {
    if !IsValidLanguage(lang) {
      InvalidLanguageIsEnglish(lang, KeyPath(style, name, "description"), []);
      InvalidLanguageIsEnglish(lang, KeyPath(style, name, "usage"), []);
    }
  }

  /** With the corrected paths an available language loads a command with the
      description its command table holds. */
  lemma CorrectedDescription(lang: string, name: string, handler: Handler, description: string)
    requires IsValidLanguage(lang) && name in CommandKeys
    requires Get(CommandTable(lang, name), "description") == Some(Text(description))
    ensures Load(LoadText(lang), Corrected, name, handler).description == description
  {
    CorrectedString(lang, name, "description", description);
  }

  /** ... and with the usage its command table holds. */
  lemma CorrectedUsage(lang: string, name: string, handler: Handler, usage: string)
    requires IsValidLanguage(lang) && name in CommandKeys
    requires Get(CommandTable(lang, name), "usage") == Some(Text(usage))
    ensures Load(LoadText(lang), Corrected, name, handler).usage == usage
  {
    CorrectedString(lang, name, "usage", usage);
  }

  /** With the corrected paths the help strings come from the language's help table. */
  lemma CorrectedHelpStringValid(lang: string, key: string, replacements: seq<(string, string)>)
    requires IsValidLanguage(lang) && key in HelpKeys
    ensures var r := Get(HelpTable(lang), key);
      r.Some? && r.value.Text?
      && T(lang, KeyPath(Corrected, "help", key), replacements) == Message(Replace(r.value.text, replacements))
  {
    KeyPathKeys(Corrected, "help", key);
    HelpEntry(lang, key);
    CommandPath(lang, "help", key, Get(HelpTable(lang), key).value.text, replacements);
  }

  /** The same holds for any configured language, read as English when it is not available. */
  lemma CorrectedHelpString(lang: string, key: string, replacements: seq<(string, string)>)
    requires key in HelpKeys
    ensures var r := Get(HelpTable(ValidLang(lang)), key);
      r.Some? && r.value.Text?
      && T(lang, KeyPath(Corrected, "help", key), replacements) == Message(Replace(r.value.text, replacements))
  {
    CorrectedHelpStringValid(ValidLang(lang), key, replacements);
    if !IsValidLanguage(lang) {
      InvalidLanguageIsEnglish(lang, KeyPath(Corrected, "help", key), replacements);
    }
  }
}
