/** The per-language translation objects of src/i18n/translations/index.ts:
    each is the language's core table spread first and its four command
    tables (help, audio, sticker, video) spread over it, so a command table
    replaces a core entry of the same name in place and every other core
    entry stays. Records are sequences of (key, value) pairs in property
    order, as JavaScript keeps them. */
module Translations {
  import opened Strings
  import opened TranslationTables

  const AvailableLanguages: seq<string> := ["en", "es", "pt"]

  /** The keys of a record, in property order. */
  function Keys(entries: seq<(string, Tree)>): seq<string> {
    seq(|entries|, i requires 0 <= i < |entries| => entries[i].0)
  }

  /** A record never holds a key twice. */
  predicate Distinct(ks: seq<string>) {
    forall i, j :: 0 <= i < j < |ks| ==> ks[i] != ks[j]
  }

  /** `obj[k]`: the value under key k, if there is one. */
  function Get(entries: seq<(string, Tree)>, k: string): (r: Option<Tree>)
    ensures r.Some? <==> k in Keys(entries)
    ensures r.Some? ==> (k, r.value) in entries
  {
    if |entries| == 0 then None
    else
      KeysTail(entries);
      if entries[0].0 == k then Some(entries[0].1) else Get(entries[1..], k)
  }

  /** The value under a key is the one of its first occurrence. */
  lemma {:induction false} GetAt(entries: seq<(string, Tree)>, i: nat)
    requires i < |entries|
    requires forall j :: 0 <= j < i ==> entries[j].0 != entries[i].0
    ensures Get(entries, entries[i].0) == Some(entries[i].1)
  {
    if i > 0 {
      GetAt(entries[1..], i - 1);
    }
  }

  /** `obj[k] = v`: an existing key keeps its position and takes the new
      value; a new key goes last. */
  function Assign(entries: seq<(string, Tree)>, k: string, v: Tree): seq<(string, Tree)> {
    if |entries| == 0 then [(k, v)]
    else if entries[0].0 == k then [(k, v)] + entries[1..]
    else [entries[0]] + Assign(entries[1..], k, v)
  }

  /** `{...a, ...b}` as far as it differs from `a`: b's properties assigned in order. */
  function Spread(a: seq<(string, Tree)>, b: seq<(string, Tree)>): seq<(string, Tree)>
    decreases |b|
  {
    if |b| == 0 then a else Spread(Assign(a, b[0].0, b[0].1), b[1..])
  }

  /** After an assignment the key holds the new value and every other key its old one. */
  lemma {:induction false} AssignGet(entries: seq<(string, Tree)>, k: string, v: Tree, q: string)
    ensures Get(Assign(entries, k, v), q) == if q == k then Some(v) else Get(entries, q)
  {
    if |entries| > 0 && entries[0].0 != k {
      AssignGet(entries[1..], k, v, q);
      assert Assign(entries, k, v)[1..] == Assign(entries[1..], k, v);
    }
  }

  /** An assignment keeps the keys and their order, adding the new key at the end. */
  lemma {:induction false} AssignKeys(entries: seq<(string, Tree)>, k: string, v: Tree)
    ensures Keys(Assign(entries, k, v)) == if k in Keys(entries) then Keys(entries) else Keys(entries) + [k]
  {
    if |entries| > 0 {
      var rest := entries[1..];
      if entries[0].0 == k {
        assert Keys(Assign(entries, k, v)) == [k] + Keys(rest);
        assert Keys(entries) == [k] + Keys(rest);
      } else {
        AssignKeys(rest, k, v);
        assert Keys(entries) == [entries[0].0] + Keys(rest);
        assert Assign(entries, k, v) == [entries[0]] + Assign(rest, k, v);
        assert Keys(Assign(entries, k, v)) == [entries[0].0] + Keys(Assign(rest, k, v));
        assert k in Keys(entries) <==> k in Keys(rest);
      }
    }
  }

  /** A spread record gives each key of b b's value and every other key a's. */
  lemma {:induction false} SpreadGet(a: seq<(string, Tree)>, b: seq<(string, Tree)>, q: string)
    requires Distinct(Keys(b))
    ensures Get(Spread(a, b), q) == if q in Keys(b) then Get(b, q) else Get(a, q)
    decreases |b|
  {
    if |b| > 0 {
      var (k, v) := b[0];
      var rest := b[1..];
      KeysTail(b);
      SpreadGet(Assign(a, k, v), rest, q);
      AssignGet(a, k, v, q);
    }
  }

  /** A spread record has a's keys in a's order, followed by b's new keys. */
  lemma {:induction false} SpreadKeys(a: seq<(string, Tree)>, b: seq<(string, Tree)>)
    ensures |Keys(a)| <= |Keys(Spread(a, b))| && Keys(Spread(a, b))[..|Keys(a)|] == Keys(a)
    ensures forall q :: q in Keys(Spread(a, b)) <==> q in Keys(a) || q in Keys(b)
    decreases |b|
  {
    if |b| > 0 {
      var (k, v) := b[0];
      AssignKeys(a, k, v);
      SpreadKeys(Assign(a, k, v), b[1..]);
      assert Keys(b) == [k] + Keys(b[1..]);
      var ka := Keys(Assign(a, k, v));
      assert ka[..|Keys(a)|] == Keys(a);
    }
  }

  /** `{...core, ...commands}`: the core table spread into a fresh object,
      then the command tables over it. */
  function Merge(core: seq<(string, Tree)>, commands: seq<(string, Tree)>): seq<(string, Tree)> {
    Spread(Spread([], core), commands)
  }

  /** The command tables of each language, under the names the merge gives them. */
  const EnCommands: seq<(string, Tree)> :=
    [("help", Node(HelpEn)), ("audio", Node(AudioEn)), ("sticker", Node(StickerEn)), ("video", Node(VideoEn))]
  const EsCommands: seq<(string, Tree)> :=
    [("help", Node(HelpEs)), ("audio", Node(AudioEs)), ("sticker", Node(StickerEs)), ("video", Node(VideoEs))]
  const PtCommands: seq<(string, Tree)> :=
    [("help", Node(HelpPt)), ("audio", Node(AudioPt)), ("sticker", Node(StickerPt)), ("video", Node(VideoPt))]

  const CommandKeys: seq<string> := ["help", "audio", "sticker", "video"]

  /** `helpTranslations[lang]`. */
  function HelpTable(lang: string): seq<(string, Tree)>
    requires lang in AvailableLanguages
  {
    if lang == "en" then HelpEn else if lang == "es" then HelpEs else HelpPt
  }

  /** `buildLanguageTranslations(lang)`. */
  function BuildLanguageTranslations(lang: string): seq<(string, Tree)>
    requires lang in AvailableLanguages
  {
    if lang == "en" then Merge(EnCore, EnCommands)
    else if lang == "es" then Merge(EsCore, EsCommands)
    else Merge(PtCore, PtCommands)
  }

  /** `translations[lang]`: every language is built by the same merge. */
  function TranslationsOf(lang: string): Tree
    requires lang in AvailableLanguages
  {
    Node(BuildLanguageTranslations(lang))
  }

  /** The keys of a non-empty record split into its first key and the rest;
      without repeats, the first key is not among the rest. */
  lemma KeysTail(b: seq<(string, Tree)>)
    requires |b| > 0
    ensures Keys(b) == [b[0].0] + Keys(b[1..])
    ensures Distinct(Keys(b)) ==> Distinct(Keys(b[1..])) && b[0].0 !in Keys(b[1..])
  {
    var rest := Keys(b[1..]);
    if Distinct(Keys(b)) {
      forall i, j | 0 <= i < j < |rest| ensures rest[i] != rest[j] {
        assert rest[i] == Keys(b)[i + 1] && rest[j] == Keys(b)[j + 1];
      }
      forall j | 0 <= j < |rest| ensures rest[j] != b[0].0 {
        assert rest[j] == Keys(b)[j + 1] && b[0].0 == Keys(b)[0];
      }
    }
  }

  /** Assigning a new key appends it, and keys new to the record stay new
      unless they are that key. */
  lemma AssignNewKey(a: seq<(string, Tree)>, b: seq<(string, Tree)>)
    requires |b| > 0 && Distinct(Keys(b))
    requires forall q :: q in Keys(b) ==> q !in Keys(a)
    ensures Keys(Assign(a, b[0].0, b[0].1)) == Keys(a) + [b[0].0]
    ensures forall q :: q in Keys(b[1..]) ==> q !in Keys(Assign(a, b[0].0, b[0].1))
  {
    KeysTail(b);
    AssignKeys(a, b[0].0, b[0].1);
    forall q | q in Keys(b[1..]) ensures q !in Keys(a) + [b[0].0] {
      assert q in Keys(b);
    }
  }

  /** Spreading keys that are all new appends them, in order. */
  lemma {:induction false} SpreadNewKeys(a: seq<(string, Tree)>, b: seq<(string, Tree)>)
    requires Distinct(Keys(b))
    requires forall q :: q in Keys(b) ==> q !in Keys(a)
    ensures Keys(Spread(a, b)) == Keys(a) + Keys(b)
    decreases |b|
  {
    if |b| > 0 {
      var a' := Assign(a, b[0].0, b[0].1);
      KeysTail(b);
      AssignNewKey(a, b);
      SpreadNewKeys(a', b[1..]);
      assert (Keys(a) + [b[0].0]) + Keys(b[1..]) == Keys(a) + ([b[0].0] + Keys(b[1..]));
    }
  }

  /** The two-stage merge for any core table and command tables without repeated keys. */
  lemma {:induction false} MergeLookup(core: seq<(string, Tree)>, cmds: seq<(string, Tree)>, q: string)
    requires Distinct(Keys(core)) && Distinct(Keys(cmds))
    ensures Get(Merge(core, cmds), q) == if q in Keys(cmds) then Get(cmds, q) else Get(core, q)
  {
    SpreadGet(Spread([], core), cmds, q);
    SpreadGet([], core, q);
  }

  lemma {:induction false} MergeKeys(core: seq<(string, Tree)>, cmds: seq<(string, Tree)>)
    requires Distinct(Keys(core))
    ensures var ks := Keys(Merge(core, cmds));
      |Keys(core)| <= |ks| && ks[..|Keys(core)|] == Keys(core)
      && forall q :: q in ks <==> q in Keys(core) || q in Keys(cmds)
  {
    SpreadKeys([], core);
    SpreadKeys(Spread([], core), cmds);
    var k1 := Keys(Spread([], core));
    var k2 := Keys(Merge(core, cmds));
    assert Keys([]) == [];
    assert k1[..0] == [];
    SpreadNewKeys([], core);
    assert k2[..|k1|] == k1;
  }

  /** The merge of a core table with the four command tables: the command
      keys hold the command tables, and every other key the core table's value. */
  lemma {:induction false} CommandMerge(core: seq<(string, Tree)>, help: Tree, audio: Tree, sticker: Tree, video: Tree, q: string)
    requires Distinct(Keys(core))
    ensures var m := Merge(core, [("help", help), ("audio", audio), ("sticker", sticker), ("video", video)]);
      Get(m, q) == (if q == "help" then Some(help) else if q == "audio" then Some(audio)
                    else if q == "sticker" then Some(sticker) else if q == "video" then Some(video)
                    else Get(core, q))
  {
    var cmds := [("help", help), ("audio", audio), ("sticker", sticker), ("video", video)];
    assert Keys(cmds) == CommandKeys;
    MergeLookup(core, cmds, q);
  }

  /** The merged keys of each language are its core keys, in their order,
      followed by the command keys the core table lacks. */
  lemma {:induction false} CommandMergeKeys(core: seq<(string, Tree)>, help: Tree, audio: Tree, sticker: Tree, video: Tree)
    requires Distinct(Keys(core))
    ensures var ks := Keys(Merge(core, [("help", help), ("audio", audio), ("sticker", sticker), ("video", video)]));
      |Keys(core)| <= |ks| && ks[..|Keys(core)|] == Keys(core)
      && forall q :: q in ks <==> q in Keys(core) || q in CommandKeys
  {
    var cmds := [("help", help), ("audio", audio), ("sticker", sticker), ("video", video)];
    assert Keys(cmds) == CommandKeys;
    MergeKeys(core, cmds);
  }

  /** en: the core `core` entry stays and the four command tables are added after it. */
  lemma EnMerge()
    ensures Keys(Merge(EnCore, EnCommands)) == ["core"] + CommandKeys
    ensures Get(Merge(EnCore, EnCommands), "core") == Some(Node(EnCoreCore))
    ensures Get(Merge(EnCore, EnCommands), "help") == Some(Node(HelpEn))
  {
    assert Keys(EnCore) == ["core"];
    SpreadNewKeys([], EnCore);
    SpreadNewKeys(Spread([], EnCore), EnCommands);
    CommandMerge(EnCore, Node(HelpEn), Node(AudioEn), Node(StickerEn), Node(VideoEn), "core");
    CommandMerge(EnCore, Node(HelpEn), Node(AudioEn), Node(StickerEn), Node(VideoEn), "help");
  }

  /** es: like en, the core `core` entry followed by the four command tables. */
  lemma EsMerge()
    ensures Keys(Merge(EsCore, EsCommands)) == ["core"] + CommandKeys
  {
    assert Keys(EsCore) == ["core"];
    SpreadNewKeys([], EsCore);
    SpreadNewKeys(Spread([], EsCore), EsCommands);
  }

  lemma PtCoreKeys()
    ensures Keys(PtCore) == ["sticker", "commands", "video", "audio", "media"]
    ensures Distinct(Keys(PtCore))
  {
  }

  /** pt's core table has its own `sticker` entry; in the merged pt table the
      sticker command table replaces it. */
  lemma PtStickerReplaced()
    ensures Get(PtCore, "sticker") == Some(Node(PtCoreSticker)) && PtCoreSticker != StickerPt
    ensures Get(Merge(PtCore, PtCommands), "sticker") == Some(Node(StickerPt))
  {
    PtCoreKeys();
    assert |PtCoreSticker| == 1 && |StickerPt| == 3;
    CommandMerge(PtCore, Node(HelpPt), Node(AudioPt), Node(StickerPt), Node(VideoPt), "sticker");
  }

  /** The pt core entries that no command table names stay, and the merged
      keys are pt's core keys with `help` added last: `sticker`, `video` and
      `audio` keep their core positions. */
  lemma PtCoreKept()
    ensures Get(Merge(PtCore, PtCommands), "commands") == Get(PtCore, "commands")
    ensures Get(Merge(PtCore, PtCommands), "media") == Get(PtCore, "media")
  {
    PtCoreKeys();
    CommandMerge(PtCore, Node(HelpPt), Node(AudioPt), Node(StickerPt), Node(VideoPt), "commands");
    CommandMerge(PtCore, Node(HelpPt), Node(AudioPt), Node(StickerPt), Node(VideoPt), "media");
  }

  lemma PtMergeKeys()
    ensures 5 <= |Keys(Merge(PtCore, PtCommands))|
    ensures Keys(Merge(PtCore, PtCommands))[..5] == ["sticker", "commands", "video", "audio", "media"]
    ensures forall q :: q in Keys(Merge(PtCore, PtCommands)) <==> q in Keys(PtCore) || q == "help"
  {
    PtCoreKeys();
    CommandMergeKeys(PtCore, Node(HelpPt), Node(AudioPt), Node(StickerPt), Node(VideoPt));
  }

  lemma EnCommandEntries()
    ensures Get(Merge(EnCore, EnCommands), "help") == Some(Node(HelpEn))
    ensures Get(Merge(EnCore, EnCommands), "audio") == Some(Node(AudioEn))
    ensures Get(Merge(EnCore, EnCommands), "sticker") == Some(Node(StickerEn))
    ensures Get(Merge(EnCore, EnCommands), "video") == Some(Node(VideoEn))
  {
    assert Keys(EnCore) == ["core"];
    CommandMerge(EnCore, Node(HelpEn), Node(AudioEn), Node(StickerEn), Node(VideoEn), "help");
    CommandMerge(EnCore, Node(HelpEn), Node(AudioEn), Node(StickerEn), Node(VideoEn), "audio");
    CommandMerge(EnCore, Node(HelpEn), Node(AudioEn), Node(StickerEn), Node(VideoEn), "sticker");
    CommandMerge(EnCore, Node(HelpEn), Node(AudioEn), Node(StickerEn), Node(VideoEn), "video");
  }

  lemma EsCommandEntries()
    ensures Get(Merge(EsCore, EsCommands), "help") == Some(Node(HelpEs))
    ensures Get(Merge(EsCore, EsCommands), "audio") == Some(Node(AudioEs))
    ensures Get(Merge(EsCore, EsCommands), "sticker") == Some(Node(StickerEs))
    ensures Get(Merge(EsCore, EsCommands), "video") == Some(Node(VideoEs))
  {
    assert Keys(EsCore) == ["core"];
    CommandMerge(EsCore, Node(HelpEs), Node(AudioEs), Node(StickerEs), Node(VideoEs), "help");
    CommandMerge(EsCore, Node(HelpEs), Node(AudioEs), Node(StickerEs), Node(VideoEs), "audio");
    CommandMerge(EsCore, Node(HelpEs), Node(AudioEs), Node(StickerEs), Node(VideoEs), "sticker");
    CommandMerge(EsCore, Node(HelpEs), Node(AudioEs), Node(StickerEs), Node(VideoEs), "video");
  }

  lemma PtCommandEntries()
    ensures Get(Merge(PtCore, PtCommands), "help") == Some(Node(HelpPt))
    ensures Get(Merge(PtCore, PtCommands), "audio") == Some(Node(AudioPt))
    ensures Get(Merge(PtCore, PtCommands), "sticker") == Some(Node(StickerPt))
    ensures Get(Merge(PtCore, PtCommands), "video") == Some(Node(VideoPt))
  {
    PtCoreKeys();
    CommandMerge(PtCore, Node(HelpPt), Node(AudioPt), Node(StickerPt), Node(VideoPt), "help");
    CommandMerge(PtCore, Node(HelpPt), Node(AudioPt), Node(StickerPt), Node(VideoPt), "audio");
    CommandMerge(PtCore, Node(HelpPt), Node(AudioPt), Node(StickerPt), Node(VideoPt), "sticker");
    CommandMerge(PtCore, Node(HelpPt), Node(AudioPt), Node(StickerPt), Node(VideoPt), "video");
  }

  /** `commandTranslations[name][lang]`. */
  function CommandTable(lang: string, name: string): seq<(string, Tree)>
    requires lang in AvailableLanguages && name in CommandKeys
  {
    match name
    case "help" => HelpTable(lang)
    case "audio" => if lang == "en" then AudioEn else if lang == "es" then AudioEs else AudioPt
    case "sticker" => if lang == "en" then StickerEn else if lang == "es" then StickerEs else StickerPt
    case _ => if lang == "en" then VideoEn else if lang == "es" then VideoEs else VideoPt
  }

  /** In every language each command key holds that language's table for the command. */
  lemma CommandEntry(lang: string, name: string)
    requires lang in AvailableLanguages && name in CommandKeys
    ensures Get(BuildLanguageTranslations(lang), name) == Some(Node(CommandTable(lang, name)))
  {
    if lang == "en" {
      EnCommandEntries();
    } else if lang == "es" {
      EsCommandEntries();
    } else {
      PtCommandEntries();
    }
  }

  /** Every command table starts with its `name`, `description` and `usage` strings. */
  lemma CommandStringEntries(lang: string, name: string)
    requires lang in AvailableLanguages && name in CommandKeys
    ensures var tbl := CommandTable(lang, name);
      |tbl| >= 3 && tbl[0].0 == "name"
      && tbl[1].0 == "description" && tbl[1].1.Text?
      && tbl[2].0 == "usage" && tbl[2].1.Text?
  {
  }

  /** A record that starts with `name`, `description` and `usage` entries
      gives those entries for `description` and `usage`. */
  lemma LeadingStrings(tbl: seq<(string, Tree)>)
    requires |tbl| >= 3 && tbl[0].0 == "name" && tbl[1].0 == "description" && tbl[2].0 == "usage"
    ensures Get(tbl, "description") == Some(tbl[1].1) && Get(tbl, "usage") == Some(tbl[2].1)
  {
    GetAt(tbl, 1);
    GetAt(tbl, 2);
  }

  /** So looking up `description` and `usage` finds those two strings. */
  lemma CommandStrings(lang: string, name: string)
    requires lang in AvailableLanguages && name in CommandKeys
    ensures var tbl := CommandTable(lang, name);
      |tbl| >= 3 && tbl[1].1.Text? && tbl[2].1.Text?
      && Get(tbl, "description") == Some(tbl[1].1) && Get(tbl, "usage") == Some(tbl[2].1)
  {
    CommandStringEntries(lang, name);
    LeadingStrings(CommandTable(lang, name));
  }

  /** Every entry of a help table is a string. */
  predicate AllText(entries: seq<(string, Tree)>) {
    forall i :: 0 <= i < |entries| ==> entries[i].1.Text?
  }

  lemma {:induction false} GetText(entries: seq<(string, Tree)>, k: string)
    requires AllText(entries) && k in Keys(entries)
    ensures Get(entries, k).Some? && Get(entries, k).value.Text?
  {
    var v := Get(entries, k).value;
    var i :| 0 <= i < |entries| && entries[i] == (k, v);
  }

  const HelpKeys: seq<string> := ["name", "description", "usage", "availableCommands", "moreDetails", "notFound", "commandDetails"]

  /** The three help tables have the same seven string entries. */
  lemma HelpTables(lang: string)
    requires lang in AvailableLanguages
    ensures Keys(HelpTable(lang)) == HelpKeys && AllText(HelpTable(lang))
  {
  }

  /** Each help key holds a string, stored in the help command's table, and has no dot. */
  lemma HelpEntry(lang: string, key: string)
    requires lang in AvailableLanguages && key in HelpKeys
    ensures var r := Get(CommandTable(lang, "help"), key);
      r.Some? && r.value.Text? && r == Get(HelpTable(lang), key) && '.' !in key
  {
    HelpTables(lang);
    HelpKeyText(HelpTable(lang), key);
  }

  /** In a table of string entries with the help keys, each help key finds a string. */
  lemma HelpKeyText(tbl: seq<(string, Tree)>, key: string)
    requires Keys(tbl) == HelpKeys && AllText(tbl) && key in HelpKeys
    ensures Get(tbl, key).Some? && Get(tbl, key).value.Text? && '.' !in key
  {
    GetText(tbl, key);
  }

  /** The Spanish sticker table has no `success` entry. */
  lemma NoSpanishStickerSuccess()
    ensures Get(StickerEs, "success").None?
  {
    assert forall i :: 0 <= i < |StickerEs| ==> StickerEs[i].0 != "success";
  }

  /** Neither has the Portuguese one. */
  lemma NoPortugueseStickerSuccess()
    ensures Get(StickerPt, "success").None?
  {
    assert forall i :: 0 <= i < |StickerPt| ==> StickerPt[i].0 != "success";
  }

  /** The English sticker table has one, after name, description and usage. */
  lemma EnglishStickerSuccess()
    ensures Get(StickerEn, "success") == Some(Text(StickerEn[3].1.text))
  {
    StickerSuccessEntry();
    GetAt(StickerEn, 3);
  }

  lemma StickerSuccessEntry()
    ensures StickerEn[3].0 == "success" && StickerEn[3].1.Text?
    ensures forall j :: 0 <= j < 3 ==> StickerEn[j].0 != "success"
  {
  }
}
