/** `parseCommand` and `handleCommand` of src/handlers/commandHandler.ts.

    The argument tokenizer is the global match of `("[^"]+"|'[^']+'|\S+)`:
    scanning left to right, a match is tried at each position, the first
    alternative that matches wins, and the scan resumes after it; positions
    where nothing matches (white space) are skipped. */
module CommandHandler {
  import opened Strings
  import opened Commands
  import opened Effects

  // The tokenizer.

  /** The length of the run of non-white-space characters at the start of s. */
  function RunLength(s: string): (n: nat)
    ensures n <= |s|
    ensures forall k :: 0 <= k < n ==> !IsSpace(s[k])
    ensures n < |s| ==> IsSpace(s[n])
  {
    if |s| == 0 || IsSpace(s[0]) then 0 else 1 + RunLength(s[1..])
  }

  /** t is q, one or more characters other than q, and q. */
  predicate QuotedBy(t: string, q: char) {
    |t| >= 3 && t[0] == q && t[|t| - 1] == q && q !in t[1..|t| - 1]
  }

  /** t is a non-empty run without white space. */
  predicate Word(t: string) {
    |t| >= 1 && forall k :: 0 <= k < |t| ==> !IsSpace(t[k])
  }

  /** s opens with q, then a character other than q, and q occurs again later. */
  predicate OpensQuote(s: string, q: char) {
    |s| >= 3 && s[0] == q && s[1] != q && q in s[2..]
  }

  /** The length of the quoted alternative matched at the start of s, 0 when it does not match. */
  function QuotedLength(s: string, q: char): (n: nat)
    requires |s| > 0 && s[0] == q
    ensures n <= |s|
    ensures n > 0 <==> OpensQuote(s, q)
    ensures n > 0 ==> QuotedBy(s[..n], q)
  {
    var inner := BeforeFirst(s[1..], q);
    if |inner| >= 1 && |inner| < |s| - 1 then
      assert s[..|inner| + 2][1..|inner| + 1] == inner;
      assert s[2..] == s[1..][1..];
      assert s[|inner| + 1] == q;
      |inner| + 2
    else
      assert OpensQuote(s, q) ==> s[1..][0] != q && q in s[1..];
      0
  }

  /** The length of the token matched at the start of s: the double-quoted
      alternative if it matches, else the single-quoted one, else the
      maximal run without white space. */
  function TokenLength(s: string): (n: nat)
    requires |s| > 0 && !IsSpace(s[0])
    ensures 1 <= n <= |s|
    ensures OpensQuote(s, '"') ==> QuotedBy(s[..n], '"')
    ensures !OpensQuote(s, '"') && OpensQuote(s, '\'') ==> QuotedBy(s[..n], '\'')
    ensures !OpensQuote(s, '"') && !OpensQuote(s, '\'') ==> Word(s[..n]) && (n == |s| || IsSpace(s[n]))
  {
    if s[0] == '"' && QuotedLength(s, '"') > 0 then QuotedLength(s, '"')
    else if s[0] == '\'' && QuotedLength(s, '\'') > 0 then QuotedLength(s, '\'')
    else RunLength(s)
  }

  /** `text.match(/("[^"]+"|'[^']+'|\S+)/g) || []`. The contract gives each
      token's shape; TokenLength, TokensOfWords and QuotedToken state which
      tokens a text yields. */
  function Tokens(s: string): (r: seq<string>)
    ensures forall i :: 0 <= i < |r| ==> QuotedBy(r[i], '"') || QuotedBy(r[i], '\'') || Word(r[i])
    decreases |s|
  {
    if |s| == 0 then []
    else if IsSpace(s[0]) then Tokens(s[1..])
    else
      var n := TokenLength(s);
      [s[..n]] + Tokens(s[n..])
  }

  /** A plain word: non-empty, without white space, not opening with a quote. */
  predicate Plain(w: string) {
    Word(w) && w[0] != '"' && w[0] != '\''
  }

  /** A run of non-white-space characters ends at the white space after it. */
  lemma {:induction false} RunLengthOf(w: string, rest: string)
    requires forall k :: 0 <= k < |w| ==> !IsSpace(w[k])
    requires rest == "" || IsSpace(rest[0])
    ensures RunLength(w + rest) == |w|
    decreases |w|
  {
    if |w| > 0 {
      assert (w + rest)[1..] == w[1..] + rest;
      RunLengthOf(w[1..], rest);
    } else {
      assert w + rest == rest;
    }
  }

  /** A plain word followed by white space or the end is one token. */
  lemma PlainToken(w: string, rest: string)
    requires Plain(w) && (rest == "" || IsSpace(rest[0]))
    ensures Tokens(w + rest) == [w] + Tokens(rest)
  {
    var s := w + rest;
    RunLengthOf(w, rest);
    assert s[0] == w[0];
    assert s[..|w|] == w && s[|w|..] == rest;
  }

  /** Plain words joined by single white-space characters tokenize back into the words. */
  lemma {:induction false} TokensOfWords(words: seq<string>, c: char)
    requires IsSpace(c) && forall i :: 0 <= i < |words| ==> Plain(words[i])
    ensures Tokens(Join(words, [c])) == words
    decreases |words|
  {
    if |words| == 1 {
      PlainToken(words[0], "");
      assert words[0] + "" == words[0];
    } else if |words| > 1 {
      var tail := Join(words[1..], [c]);
      TokensOfWords(words[1..], c);
      assert Join(words, [c]) == words[0] + [c] + tail;
      PlainThenSpace(words[0], c, tail);
      assert [words[0]] + words[1..] == words;
    }
  }

  /** A plain word and one white-space character are followed by the tokens of the rest. */
  lemma PlainThenSpace(w: string, c: char, tail: string)
    requires Plain(w) && IsSpace(c)
    ensures Tokens(w + [c] + tail) == [w] + Tokens(tail)
  {
    var rest := [c] + tail;
    PlainToken(w, rest);
    assert w + [c] + tail == w + rest;
    assert rest[1..] == tail;
  }

  /** A double-quoted run is one token, white space inside it included, and
      the scan resumes right after its closing quote. */
  lemma QuotedToken(w: string, rest: string)
    requires |w| >= 1 && '"' !in w
    ensures Tokens("\"" + w + "\"" + rest) == ["\"" + w + "\""] + Tokens(rest)
  {
    var s := "\"" + w + "\"" + rest;
    var t := "\"" + w + "\"";
    assert s[1] == w[0];
    assert s[2..] == w[1..] + "\"" + rest;
    assert '"' in s[2..] by { assert s[2..][|w| - 1] == '"'; }
    assert OpensQuote(s, '"');
    var n := TokenLength(s);
    assert n == |t|;
    assert s[..n] == t && s[n..] == rest;
  }

  // parseCommand.

  datatype Parsed = Parsed(command: string, args: seq<string>)

  /** The text with one leading "/" removed, then trimmed. */
  function Stripped(text: string): string {
    if StartsWith(text, "/") then Trim(text[1..]) else Trim(text)
  }

  /** The token starts and ends with the same quote character. */
  predicate Wrapped(arg: string) {
    (StartsWith(arg, "\"") && EndsWith(arg, "\"")) || (StartsWith(arg, "'") && EndsWith(arg, "'"))
  }

  /** `arg.slice(1, -1)` for a wrapped token, else the token itself. */
  function Unquote(arg: string): (r: string)
    ensures !Wrapped(arg) ==> r == arg
    ensures Wrapped(arg) && |arg| >= 2 ==> arg == [arg[0]] + r + [arg[0]]
    ensures Wrapped(arg) && |arg| < 2 ==> r == ""
  {
    if Wrapped(arg) then (if |arg| >= 2 then arg[1..|arg| - 1] else "") else arg
  }

  /** `parseCommand(text)`. What it yields is stated by ParseOfTokens,
      ParseWords and ParseQuotedArgument below. */
  function ParseCommand(text: string): Parsed {
    var parts := Tokens(Stripped(text));
    var command := if |parts| == 0 then "" else Lower(parts[0]);
    var args := if |parts| == 0 then [] else parts[1..];
    Parsed(command, seq(|args|, i requires 0 <= i < |args| => Unquote(args[i])))
  }

  /** A string that neither starts nor ends with white space is its own trim. */
  lemma TrimmedAlready(s: string)
    requires s == "" || (!IsSpace(s[0]) && !IsSpace(s[|s| - 1]))
    ensures Trim(s) == s
  {
  }

  /** Join of non-empty words starts with the first word's first character and
      ends with the last word's last character. */
  lemma {:induction false} JoinEnds(words: seq<string>)
    requires |words| >= 1 && forall i :: 0 <= i < |words| ==> |words[i]| >= 1
    ensures var j := Join(words, " ");
      |j| >= 1 && j[0] == words[0][0] && j[|j| - 1] == words[|words| - 1][|words[|words| - 1]| - 1]
    decreases |words|
  {
    if |words| > 1 {
      var tail := words[1..];
      var rest := Join(tail, " ");
      JoinEnds(tail);
      assert Join(words, " ") == words[0] + " " + rest;
      assert tail[|tail| - 1] == words[|words| - 1];
    }
  }

  /** Plain words are not wrapped in quotes, so they come through unchanged. */
  lemma PlainUnquoted(w: string)
    requires Plain(w)
    ensures Unquote(w) == w
  {
  }

  /** Regrouping a four-part concatenation, for the parse proofs below. */
  lemma Associate(a: string, b: string, c: string, d: string)
    ensures a + b + c + d == a + (b + (c + d))
  {
  }

  /** A double-quoted argument loses exactly its two quotes. */
  lemma UnquoteQuoted(w: string)
    ensures Unquote("\"" + w + "\"") == w
  {
    var q := "\"" + w + "\"";
    assert q[..1] == "\"" && q[|q| - 1..] == "\"";
    assert Wrapped(q);
    assert q[1..|q| - 1] == w;
  }

  /** "/" followed by a command name and arguments, all plain words, separated
      by single spaces, parses back into the lowercased name and the
      arguments exactly as written. */
  lemma ParseWords(name: string, args: seq<string>)
    requires Plain(name) && forall i :: 0 <= i < |args| ==> Plain(args[i])
    ensures ParseCommand("/" + Join([name] + args, " ")) == Parsed(Lower(name), args)
  {
    var words := [name] + args;
    assert forall i :: 0 <= i < |words| ==> Plain(words[i]);
    WordsTokens(words);
    ParsePlainTokens("/" + Join(words, " "), words);
    assert words[1..] == args;
  }

  /** Tokens that are all plain words come through `parseCommand` unchanged,
      apart from the lowercased command name. */
  lemma ParsePlainTokens(text: string, parts: seq<string>)
    requires Tokens(Stripped(text)) == parts && |parts| >= 1
    requires forall i :: 0 <= i < |parts| ==> Plain(parts[i])
    ensures ParseCommand(text) == Parsed(Lower(parts[0]), parts[1..])
  {
    ParseOfTokens(text, parts);
    var parsed := seq(|parts| - 1, i requires 0 <= i < |parts| - 1 => Unquote(parts[i + 1]));
    forall i | 0 <= i < |parts| - 1 ensures parsed[i] == parts[i + 1] {
      PlainUnquoted(parts[i + 1]);
    }
    assert parsed == parts[1..];
  }

  /** The stripped text of "/" and space-separated plain words is their tokens. */
  lemma WordsTokens(words: seq<string>)
    requires |words| >= 1 && forall i :: 0 <= i < |words| ==> Plain(words[i])
    ensures Tokens(Stripped("/" + Join(words, " "))) == words
  {
    var j := Join(words, " ");
    JoinEnds(words);
    assert StartsWith("/" + j, "/") && ("/" + j)[1..] == j;
    TrimmedAlready(j);
    assert " " == [' '];
    TokensOfWords(words, ' ');
  }

  /** Only one leading "/" is removed: "//w" is the command "/w". */
  lemma DoubleSlash(w: string)
    requires Word(w)
    ensures ParseCommand("//" + w) == Parsed(Lower("/" + w), [])
  {
    DoubleSlashTokens(w);
    ParsePlainTokens("//" + w, ["/" + w]);
  }

  /** The stripped text of "//w" is the single token "/w". */
  lemma DoubleSlashTokens(w: string)
    requires Word(w)
    ensures Tokens(Stripped("//" + w)) == ["/" + w] && Plain("/" + w)
  {
    var s := "/" + w;
    assert ("//" + w)[1..] == s;
    assert StartsWith("//" + w, "/");
    TrimmedAlready(s);
    assert Plain(s);
    PlainToken(s, "");
    assert s + "" == s;
  }

  /** A double-quoted argument keeps its inner white space and loses its quotes. */
  lemma ParseQuotedArgument(name: string, w: string)
    requires Plain(name) && |w| >= 1 && '"' !in w
    ensures ParseCommand("/" + name + " " + ("\"" + w + "\"")) == Parsed(Lower(name), [w])
  {
    var q := "\"" + w + "\"";
    var text := "/" + name + " " + q;
    QuotedArgumentTokens(name, w);
    UnquoteQuoted(w);
    ParseOfTokens(text, [name, q]);
    var parts := [name, q];
    assert seq(|parts| - 1, i requires 0 <= i < |parts| - 1 => Unquote(parts[i + 1])) == [w];
  }

  /** The stripped text of such a command is the name and the quoted argument. */
  lemma QuotedArgumentTokens(name: string, w: string)
    requires Plain(name) && |w| >= 1 && '"' !in w
    ensures Tokens(Stripped("/" + name + " " + ("\"" + w + "\""))) == [name, "\"" + w + "\""]
  {
    var q := "\"" + w + "\"";
    Associate("/", name, " ", q);
    SlashBody(name, " " + q);
    BodyTokens(name, w);
  }

  /** Removing the slash leaves a body that needs no trimming. */
  lemma SlashBody(name: string, tail: string)
    requires Plain(name) && |tail| >= 1 && !IsSpace(tail[|tail| - 1])
    ensures Stripped("/" + (name + tail)) == name + tail
  {
    var body := name + tail;
    assert ("/" + body)[1..] == body && StartsWith("/" + body, "/");
    assert body[0] == name[0] && body[|body| - 1] == tail[|tail| - 1];
    TrimmedAlready(body);
  }

  /** The name, a space and a quoted argument are two tokens. */
  lemma BodyTokens(name: string, w: string)
    requires Plain(name) && |w| >= 1 && '"' !in w
    ensures Tokens(name + (" " + ("\"" + w + "\""))) == [name, "\"" + w + "\""]
  {
    var q := "\"" + w + "\"";
    PlainToken(name, " " + q);
    assert (" " + q)[1..] == q;
    QuotedToken(w, "");
    assert q + "" == q;
  }

  /** What `parseCommand` makes of the tokens of the stripped text. */
  lemma ParseOfTokens(text: string, parts: seq<string>)
    requires Tokens(Stripped(text)) == parts && |parts| >= 1
    ensures ParseCommand(text) == Parsed(Lower(parts[0]), seq(|parts| - 1, i requires 0 <= i < |parts| - 1 => Unquote(parts[i + 1])))
  {
  }

  /** The leading "/" is optional: text without one parses the same as with it. */
  lemma SlashOptional(text: string)
    requires !StartsWith(text, "/")
    ensures ParseCommand("/" + text) == ParseCommand(text)
  {
    assert ("/" + text)[1..] == text;
    assert StartsWith("/" + text, "/");
  }

  /** Text that is only white space after the slash gives the empty command
      and no arguments. */
  lemma ParseBlank(text: string)
    requires forall k :: 0 <= k < |text| ==> IsSpace(text[k])
    ensures ParseCommand("/" + text) == Parsed("", [])
  {
    assert ("/" + text)[1..] == text;
    assert StartsWith("/" + text, "/");
    assert TrimStart(text) == "";
  }

  // handleCommand.

  /** `handleCommand(socket, message, text)`: the found command run with the
      parsed arguments, or the not-found reply naming the command; an
      exception from either is answered with the command-error reply. */
  function HandleCommand(tr: string -> string, style: PathStyle, text: string, failure: Option<Failure>): seq<Effect> {
    var p := ParseCommand(text);
    var body := match Lookup(Table(tr, style), p.command)
      case Some(c) => [Execute(Invoke(c, p.args))]
      case None => [Reply("help.notFound", [("command", p.command)])];
    TryCatch(body, failure, _ => [Reply("core.commandError", [])])
  }

  /** Without an exception, a command of the table is run once with the parsed
      arguments (`s` running the sticker command), and any other command
      gets exactly one not-found reply naming it. */
  lemma HandleCommandCases(tr: string -> string, style: PathStyle, text: string)
    ensures var p := ParseCommand(text);
      var found := Lookup(Table(tr, style), p.command);
      (p.command in TableKeys ==>
        found.Some? && found.value.name == (if p.command == "s" then "sticker" else p.command)
        && HandleCommand(tr, style, text, None) == [Execute(Invoke(found.value, p.args))])
      && (p.command !in TableKeys ==>
        HandleCommand(tr, style, text, None) == [Reply("help.notFound", [("command", p.command)])])
  {
    var p := ParseCommand(text);
    if p.command in TableKeys {
      TableFound(tr, style, p.command);
    } else {
      TableMissing(tr, style, p.command);
    }
  }

  /** An exception while the command runs or while the not-found reply is sent
      is answered with one command-error reply, after the failed call. */
  lemma HandleCommandFailure(tr: string -> string, style: PathStyle, text: string, f: Failure)
    requires f.step == 0
    ensures var r := HandleCommand(tr, style, text, Some(f));
      |r| == 2 && r[1] == Reply("core.commandError", []) && r[..1] == HandleCommand(tr, style, text, None)
  {
  }

  /** The handler makes at most two calls, whatever happens. */
  lemma HandleCommandSize(tr: string -> string, style: PathStyle, text: string, failure: Option<Failure>)
    ensures 1 <= |HandleCommand(tr, style, text, failure)| <= 2
    ensures failure.None? || failure.value.step > 0 ==> |HandleCommand(tr, style, text, failure)| == 1
  {
  }
}
