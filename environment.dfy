/** The `ENV` record of src/config/environment.ts, computed once from the
    process environment. The environment is a map from variable names to
    their values; a name outside the map is an unset variable. */
module Environment {
  import opened Strings
  import I18n

  /** The variables the record reads. */
  datatype Name =
    | NodeEnv | BotName | BotPrefix | BotSystemPrompt | BotLanguage
    | MarkOnlineOnConnect | GroupChatEnabled | GroupWhitelistEnabled | GroupWhitelist
    | GroupAdminOnly | GroupMentionOnly | GroupTriggerWords
    | PrivateChatHistoryLimit | GroupChatHistoryLimit
    | AiProvider | AiApiKey | OpenaiApiUrl | OpenaiModel | GroqApiUrl | GroqModel
    | AiMaxCompletionTokens | LogLevel

  /** `process.env`, restricted to the variables above. */
  type Vars = map<Name, string>

  /** `process.env[name]`. */
  function Var(vars: Vars, name: Name): Option<string> {
    if name in vars then Some(vars[name]) else None
  }

  /** `validateLanguage(lang)`: the language when it is set and available, else "en". */
  function ValidateLanguage(lang: Option<string>): (r: string)
    ensures I18n.IsValidLanguage(r)
    ensures Truthy(lang) && I18n.IsValidLanguage(lang.value) ==> r == lang.value
    ensures !Truthy(lang) || !I18n.IsValidLanguage(lang.value) ==> r == "en"
  {
    if !Truthy(lang) || !I18n.IsValidLanguage(lang.value) then "en" else lang.value
  }

  /** `process.env[name] === value`. */
  predicate Equals(vars: Vars, name: Name, value: string) {
    Var(vars, name) == Some(value)
  }

  /** `.filter(Boolean)` on strings: the non-empty parts, in order. */
  function NonEmpty(parts: seq<string>): (r: seq<string>)
    ensures |r| <= |parts|
    ensures forall i :: 0 <= i < |r| ==> r[i] != ""
    ensures forall w :: w in r <==> w in parts && w != ""
  {
    if |parts| == 0 then []
    else if parts[0] == "" then NonEmpty(parts[1..])
    else [parts[0]] + NonEmpty(parts[1..])
  }

  /** Filtering parts that are all non-empty keeps them all. */
  lemma {:induction false} NonEmptyAll(parts: seq<string>)
    requires forall i :: 0 <= i < |parts| ==> parts[i] != ""
    ensures NonEmpty(parts) == parts
    decreases |parts|
  {
    if |parts| > 0 {
      NonEmptyAll(parts[1..]);
      assert [parts[0]] + parts[1..] == parts;
    }
  }

  /** `GROUP_WHITELIST`: the comma-separated list with empty parts dropped and
      the parts not trimmed. */
  function Whitelist(v: Option<string>): (r: seq<string>)
    ensures forall i :: 0 <= i < |r| ==> r[i] != "" && ',' !in r[i]
  {
    var s := OrElse(v, "");
    var parts := Split(s, ',');
    SplitJoin(s, ',');
    var r := NonEmpty(parts);
    forall i | 0 <= i < |r| ensures ',' !in r[i] {
      assert r[i] in parts;
    }
    r
  }

  /** A list written as non-empty, comma-free entries joined by commas reads
      back as those entries, white space included. */
  lemma WhitelistOfJoin(entries: seq<string>)
    requires |entries| >= 1
    requires forall i :: 0 <= i < |entries| ==> entries[i] != "" && ',' !in entries[i]
    ensures Whitelist(Some(Join(entries, ","))) == entries
  {
    assert "," == [','];
    SplitOfJoin(entries, ',');
    NonEmptyAll(entries);
  }

  /** The trimmed, lowercased form of one trigger word. */
  function Folded(word: string): (r: string) {
    Lower(Trim(word))
  }

  /** A word as the trigger-word list stores it: non-empty, trimmed and lowercase. */
  predicate FoldedForm(w: string) {
    w != "" && Trim(w) == w && Lower(w) == w
  }

  /** `GROUP_TRIGGER_WORDS`: the comma-separated words trimmed and
      lowercased (`.map`), empty ones dropped (`.filter(Boolean)`). */
  function TriggerWords(v: Option<string>): seq<string> {
    var parts := Split(OrElse(v, ""), ',');
    NonEmpty(seq(|parts|, i requires 0 <= i < |parts| => Folded(parts[i])))
  }

  /** Every trigger word kept is non-empty, trimmed and lowercase. */
  lemma TriggerWordsForm(v: Option<string>)
    ensures forall i :: 0 <= i < |TriggerWords(v)| ==> FoldedForm(TriggerWords(v)[i])
  {
    var parts := Split(OrElse(v, ""), ',');
    var folded := seq(|parts|, i requires 0 <= i < |parts| => Folded(parts[i]));
    forall i | 0 <= i < |folded| ensures folded[i] == "" || FoldedForm(folded[i]) {
      FoldedIsFolded(parts[i]);
    }
    NonEmptyForm(folded);
  }

  /** Filtering words that are folded or empty leaves only folded words. */
  lemma NonEmptyForm(words: seq<string>)
    requires forall i :: 0 <= i < |words| ==> words[i] == "" || FoldedForm(words[i])
    ensures forall i :: 0 <= i < |NonEmpty(words)| ==> FoldedForm(NonEmpty(words)[i])
  {
    var r := NonEmpty(words);
    forall i | 0 <= i < |r| ensures FoldedForm(r[i]) {
      assert r[i] in words;
    }
  }

  /** A folded word has no white space at either end and no capital letter. */
  lemma FoldedIsFolded(word: string)
    ensures Trim(Folded(word)) == Folded(word)
    ensures Lower(Folded(word)) == Folded(word)
  {
    var t := Trim(word);
    var f := Lower(t);
    TrimOfTrim(word);
    if f != "" {
      LowerKeepsSpace(t[0]);
      LowerKeepsSpace(t[|t| - 1]);
    }
    TrimmedKept(f);
    LowerTwice(t);
  }

  /** A trimmed string neither starts nor ends with white space. */
  lemma TrimOfTrim(s: string)
    ensures Trim(s) != "" ==> !IsSpace(Trim(s)[0]) && !IsSpace(Trim(s)[|Trim(s)| - 1])
  {
    var a := TrimStart(s);
    var b := TrimEnd(a);
    if b != "" {
      assert b[0] == a[0];
    }
  }

  /** Lowercasing neither creates nor removes white space. */
  lemma LowerKeepsSpace(c: char)
    ensures IsSpace(LowerChar(c)) <==> IsSpace(c)
  {
  }

  /** A string whose ends are not white space is its own trim. */
  lemma TrimmedKept(s: string)
    requires s == "" || (!IsSpace(s[0]) && !IsSpace(s[|s| - 1]))
    ensures Trim(s) == s
  {
  }

  /** Lowercasing is idempotent. */
  lemma LowerTwice(s: string)
    ensures Lower(Lower(s)) == Lower(s)
  {
    var l := Lower(s);
    assert forall k :: 0 <= k < |s| ==> LowerChar(l[k]) == l[k];
  }

  /** The value of a string of decimal digits. */
  function DecimalValue(s: string): (r: nat)
    requires forall k :: 0 <= k < |s| ==> '0' <= s[k] <= '9'
    ensures |s| == 0 ==> r == 0
  {
    if |s| == 0 then 0
    else 10 * DecimalValue(s[..|s| - 1]) + (s[|s| - 1] as int - '0' as int)
  }

  /** The `ENV` record. The two history limits and the completion-token
      limit hold the text handed to `parseInt`, which is not modelled; the
      floating-point settings are not part of this model. */
  datatype Config = Config(
    nodeEnv: string,
    botName: string,
    botPrefix: string,
    botSystemPrompt: string,
    botLanguage: string,
    markOnlineOnConnect: bool,
    groupChatEnabled: bool,
    groupWhitelistEnabled: bool,
    groupWhitelist: seq<string>,
    groupAdminOnly: bool,
    groupMentionOnly: bool,
    groupTriggerWords: seq<string>,
    privateChatHistoryLimit: string,
    groupChatHistoryLimit: string,
    aiProvider: string,
    aiApiKey: string,
    openaiApiUrl: string,
    openaiModel: string,
    groqApiUrl: string,
    groqModel: string,
    aiMaxCompletionTokens: string,
    logLevel: string)

  /** The default system prompt; `${BOT_NAME}` in it is literal text, not a substitution. */
  const DefaultSystemPrompt := "You are ${BOT_NAME}, a helpful WhatsApp assistant. Keep responses concise and helpful."

  /** The `ENV` object literal. */
  function EnvOf(vars: Vars): (c: Config)
    ensures I18n.IsValidLanguage(c.botLanguage)
    ensures c.markOnlineOnConnect <==> Var(vars, MarkOnlineOnConnect) == Some("false")
    ensures c.groupWhitelistEnabled <==> Var(vars, GroupWhitelistEnabled) == Some("false")
    ensures c.groupChatEnabled <==> Var(vars, GroupChatEnabled) == Some("true")
    ensures c.groupAdminOnly <==> Var(vars, GroupAdminOnly) == Some("true")
    ensures c.groupMentionOnly <==> Var(vars, GroupMentionOnly) == Some("true")
    ensures forall i :: 0 <= i < |c.groupWhitelist| ==> c.groupWhitelist[i] != ""
    ensures forall i :: 0 <= i < |c.groupTriggerWords| ==> FoldedForm(c.groupTriggerWords[i])
  {
    var c := Config(
      OrElse(Var(vars, NodeEnv), "development"),
      OrElse(Var(vars, BotName), "Miau"),
      OrElse(Var(vars, BotPrefix), "/"),
      OrElse(Var(vars, BotSystemPrompt),
        DefaultSystemPrompt),
      ValidateLanguage(Var(vars, BotLanguage)),
      Equals(vars, MarkOnlineOnConnect, "false"),
      Equals(vars, GroupChatEnabled, "true"),
      Equals(vars, GroupWhitelistEnabled, "false"),
      Whitelist(Var(vars, GroupWhitelist)),
      Equals(vars, GroupAdminOnly, "true"),
      Equals(vars, GroupMentionOnly, "true"),
      TriggerWords(Var(vars, GroupTriggerWords)),
      OrElse(Var(vars, PrivateChatHistoryLimit), "10"),
      OrElse(Var(vars, GroupChatHistoryLimit), "15"),
      OrElse(Var(vars, AiProvider), "openai"),
      OrElse(Var(vars, AiApiKey), ""),
      OrElse(Var(vars, OpenaiApiUrl), "https://api.openai.com/v1"),
      OrElse(Var(vars, OpenaiModel), "gpt-3.5-turbo"),
      OrElse(Var(vars, GroqApiUrl), "https://api.groq.com/openai/v1"),
      OrElse(Var(vars, GroqModel), "llama3-70b-8192"),
      OrElse(Var(vars, AiMaxCompletionTokens), "512"),
      OrElse(Var(vars, LogLevel), "info"));
    TriggerWordsForm(Var(vars, GroupTriggerWords));
    c
  }

  /** With the variable unset, or set to anything but "false", the
      whitelist flag is false, so the whitelist check runs (the flag's
      meaning is inverted). */
  lemma WhitelistFlagInverted(vars: Vars)
    ensures !EnvOf(vars).groupWhitelistEnabled <==> Var(vars, GroupWhitelistEnabled) != Some("false")
  {
  }

  /** With both whitelist variables unset, the whitelist is enforced and empty. */
  lemma WhitelistUnset(vars: Vars)
    requires GroupWhitelistEnabled !in vars && GroupWhitelist !in vars
    ensures !EnvOf(vars).groupWhitelistEnabled && EnvOf(vars).groupWhitelist == []
  {
    assert Split("", ',') == [""];
    assert NonEmpty([""]) == [];
  }

  /** An unset or empty setting takes its default. */
  lemma Defaults(vars: Vars)
    requires !Truthy(Var(vars, BotName)) && !Truthy(Var(vars, LogLevel))
    requires !Truthy(Var(vars, AiProvider)) && !Truthy(Var(vars, BotLanguage))
    requires !Truthy(Var(vars, GroupWhitelist)) && !Truthy(Var(vars, GroupTriggerWords))
    ensures var c := EnvOf(vars);
      c.botName == "Miau" && c.logLevel == "info" && c.aiProvider == "openai" && c.botLanguage == "en"
      && c.groupWhitelist == [] && c.groupTriggerWords == []
  {
    var c := EnvOf(vars);
    assert Split("", ',') == [""];
    assert NonEmpty([""]) == [];
    assert seq(1, i requires 0 <= i < 1 => Folded([""][i])) == [Folded("")];
    assert Folded("") == "";
  }

  /** The history limits default to the text "10" in private chats and "15"
      in groups, the decimal numerals of 10 and 15. */
  lemma HistoryLimitDefaults(vars: Vars)
    requires !Truthy(Var(vars, PrivateChatHistoryLimit)) && !Truthy(Var(vars, GroupChatHistoryLimit))
    ensures var c := EnvOf(vars);
      c.privateChatHistoryLimit == "10" && c.groupChatHistoryLimit == "15"
  {
  }

  /** The default limits' numerals denote 10 and 15. */
  lemma DefaultLimitValues()
    ensures DecimalValue("10") == 10 && DecimalValue("15") == 15
  {
    assert "10"[..1] == "1" && "15"[..1] == "1" && "1"[..0] == "";
  }
}
