/** The translation lookup `t(path, replacements)` of src/i18n/index.ts: the
    configured language (English when it is not one of the available ones),
    the dotted path walked through that language's translation object,
    English as the fallback when the path is missing, the path itself when it
    is missing in English too, and the `{key}` placeholders replaced in the
    order the replacements are given. */
module I18n {
  import opened Strings
  import opened TranslationTables
  import opened Translations

  /** What `t` gives back: a message, the record a path that stops short of a
      string leads to (returned as it is when there is nothing to replace), or
      the TypeError of calling `replace` on such a record. */
  datatype Translated = Message(text: string) | Subtree(entries: seq<(string, Tree)>) | ReplaceOnRecord

  /** `isValidLanguage(lang)`. */
  function IsValidLanguage(lang: string): (r: bool)
    ensures r <==> lang == "en" || lang == "es" || lang == "pt"
  {
    lang in AvailableLanguages
  }

  /** The language `t` reads: the configured one when it is available, else English. */
  function ValidLang(lang: string): (r: string)
    ensures r in AvailableLanguages
    ensures IsValidLanguage(lang) ==> r == lang
    ensures !IsValidLanguage(lang) ==> r == "en"
  {
    if IsValidLanguage(lang) then lang else "en"
  }

  /** `pathArray.reduce((obj, key) => obj?.[key], root)`: the value the keys
      lead to, None where a key is missing. */
  function Resolve(root: Tree, keys: seq<string>): Option<Tree>
    decreases |keys|
  {
    if |keys| == 0 then Some(root)
    else match root
      case Text(_) => None
      case Node(entries) =>
        match Get(entries, keys[0])
        case None => None
        case Some(child) => Resolve(child, keys[1..])
  }

  /** The `{key}` placeholder a replacement fills. */
  function Placeholder(key: string): (r: string)
    ensures |r| == |key| + 2
  {
    "{" + key + "}"
  }

  /** The replacements applied one after the other, each to every occurrence of its placeholder. */
  function Replace(s: string, replacements: seq<(string, string)>): string
    decreases |replacements|
  {
    if |replacements| == 0 then s
    else Replace(ReplaceAll(s, Placeholder(replacements[0].0), replacements[0].1), replacements[1..])
  }

  /** What `t` makes of the value it found. */
  function Render(found: Tree, replacements: seq<(string, string)>): Translated {
    match found
    case Text(s) => Message(Replace(s, replacements))
    case Node(entries) => if |replacements| == 0 then Subtree(entries) else ReplaceOnRecord
  }

  /** The lookup of `t` in the object of its language, with the English object
      as the fallback unless the language is English. */
  function Translate(own: Tree, english: Tree, isEnglish: bool, path: string, replacements: seq<(string, string)>): Translated {
    var keys := Split(path, '.');
    var found := if Resolve(own, keys).None? && !isEnglish then Resolve(english, keys) else Resolve(own, keys);
    if found.None? then Message(path) else Render(found.value, replacements)
  }

  /** `t(path, replacements)` with `lang` as the configured BOT_LANGUAGE. */
  function T(lang: string, path: string, replacements: seq<(string, string)>): (r: Translated)
    ensures |replacements| == 0 ==> !r.ReplaceOnRecord?
  {
    var valid := ValidLang(lang);
    Translate(TranslationsOf(valid), TranslationsOf("en"), valid == "en", path, replacements)
  }

  /** A path with no leading, trailing or doubled dot is walked key by key. */
  lemma {:induction false} ResolveStep(entries: seq<(string, Tree)>, k: string, rest: seq<string>, child: Tree)
    requires Get(entries, k) == Some(child)
    ensures Resolve(Node(entries), [k] + rest) == Resolve(child, rest)
  {
    assert ([k] + rest)[1..] == rest;
  }

  /** A missing key ends the walk, whatever follows it. */
  lemma ResolveMissing(entries: seq<(string, Tree)>, k: string, rest: seq<string>)
    requires Get(entries, k).None?
    ensures Resolve(Node(entries), [k] + rest).None?
  {
  }

  /** An unknown language is English. */
  lemma InvalidLanguageIsEnglish(lang: string, path: string, replacements: seq<(string, string)>)
    requires !IsValidLanguage(lang)
    ensures T(lang, path, replacements) == T("en", path, replacements)
  {
  }

  /** The three outcomes of `t` for a path that ends at a string: the
      language's own text, else the English text, else the path. */
  lemma {:induction false} Outcomes(lang: string, path: string, replacements: seq<(string, string)>)
    ensures var keys := Split(path, '.');
      var own := Resolve(TranslationsOf(ValidLang(lang)), keys);
      var en := Resolve(TranslationsOf("en"), keys);
      (forall s :: own == Some(Text(s)) ==> T(lang, path, replacements) == Message(Replace(s, replacements)))
      && (forall s :: own.None? && en == Some(Text(s)) ==> T(lang, path, replacements) == Message(Replace(s, replacements)))
      && (own.None? && en.None? ==> T(lang, path, replacements) == Message(path))
  {
  }

  /** Text without any of the placeholders is returned unchanged. */
  lemma {:induction false} ReplaceNoPlaceholders(s: string, replacements: seq<(string, string)>)
    requires forall i :: 0 <= i < |replacements| ==> !Contains(s, Placeholder(replacements[i].0))
    ensures Replace(s, replacements) == s
    decreases |replacements|
  {
    if |replacements| > 0 {
      ReplaceAbsent(s, Placeholder(replacements[0].0), replacements[0].1);
      ReplaceNoPlaceholders(s, replacements[1..]);
    }
  }

  /** A `{key}` placeholder is filled with its value: with no other brace
      around it, the text becomes the value in its place. */
  lemma FillsPlaceholder(a: string, key: string, b: string, v: string)
    requires '{' !in a && '{' !in b
    ensures Replace(a + Placeholder(key) + b, [(key, v)]) == a + v + b
  {
    var pat := Placeholder(key);
    assert SepFree(a, pat) by {
      forall k | 0 <= k < |a| ensures !StartsWith(a[k..] + pat, pat) {
        assert (a[k..] + pat)[0] == a[k];
      }
    }
    ReplaceFirst(a, pat, b, v);
    ContainsHead(b, pat);
    ReplaceAbsent(b, pat, v);
    assert [(key, v)][1..] == [];
  }

  /** A message that is just a placeholder becomes the value. */
  lemma PlaceholderAlone(key: string, v: string)
    ensures Replace(Placeholder(key), [(key, v)]) == v
  {
    assert "" + Placeholder(key) + "" == Placeholder(key);
    FillsPlaceholder("", key, "", v);
  }

  /** A placeholder filled with itself is left as it is. */
  lemma {:induction false} ReplaceIdentity(s: string, keys: seq<string>)
    ensures Replace(s, seq(|keys|, i requires 0 <= i < |keys| => (keys[i], Placeholder(keys[i])))) == s
    decreases |keys|
  {
    if |keys| > 0 {
      var r := seq(|keys|, i requires 0 <= i < |keys| => (keys[i], Placeholder(keys[i])));
      ReplaceBySelf(s, Placeholder(keys[0]));
      ReplaceIdentity(s, keys[1..]);
      assert r[1..] == seq(|keys[1..]|, i requires 0 <= i < |keys[1..]| => (keys[1..][i], Placeholder(keys[1..][i])));
    }
  }

  /** The dotted path of a sequence of keys. */
  function Path(keys: seq<string>): string {
    Join(keys, ".")
  }

  /** A path made of keys without dots is walked key by key. */
  lemma PathKeys(keys: seq<string>)
    requires |keys| >= 1 && forall k :: 0 <= k < |keys| ==> '.' !in keys[k]
    ensures Split(Path(keys), '.') == keys
  {
    SplitOfJoin(keys, '.');
  }

  /** Neither the English nor the Spanish object has a `commands` entry. */
  lemma NoCommandsEntry(lang: string, rest: seq<string>)
    requires lang == "en" || lang == "es"
    ensures Resolve(TranslationsOf(lang), ["commands"] + rest).None?
  {
    if lang == "en" {
      EnMerge();
    } else {
      EsMerge();
    }
    ResolveMissing(BuildLanguageTranslations(lang), "commands", rest);
  }

  /** A path missing in the language's object and in English is given back as it is. */
  lemma TranslateMissing(own: Tree, english: Tree, isEnglish: bool, keys: seq<string>,
                         replacements: seq<(string, string)>)
    requires |keys| >= 1 && forall k :: 0 <= k < |keys| ==> '.' !in keys[k]
    requires Resolve(own, keys).None? && Resolve(english, keys).None?
    ensures Translate(own, english, isEnglish, Path(keys), replacements) == Message(Path(keys))
  {
    PathKeys(keys);
  }

  /** Under en and es every `commands.<...>` path is given back as it is. */
  lemma CommandsPathIsPath(lang: string, rest: seq<string>, replacements: seq<(string, string)>)
    requires lang == "en" || lang == "es"
    requires forall k :: 0 <= k < |rest| ==> '.' !in rest[k]
    ensures T(lang, Path(["commands"] + rest), replacements) == Message(Path(["commands"] + rest))
  {
    NoCommandsEntry(lang, rest);
    NoCommandsEntry("en", rest);
    var keys := ["commands"] + rest;
    assert forall k :: 0 <= k < |keys| ==> '.' !in keys[k] by {
      forall k | 0 <= k < |keys| ensures '.' !in keys[k] {
        if k > 0 { assert keys[k] == rest[k - 1]; }
      }
    }
    TranslateMissing(TranslationsOf(lang), TranslationsOf("en"), lang == "en", keys, replacements);
  }

  /** A path that leads to a string in the language's own object is that string. */
  lemma TranslateFound(own: Tree, english: Tree, isEnglish: bool, keys: seq<string>, text: string,
                       replacements: seq<(string, string)>)
    requires |keys| >= 1 && forall k :: 0 <= k < |keys| ==> '.' !in keys[k]
    requires Resolve(own, keys) == Some(Text(text))
    ensures Translate(own, english, isEnglish, Path(keys), replacements) == Message(Replace(text, replacements))
  {
    PathKeys(keys);
  }

  lemma CommandKeysUndotted(table: string)
    requires table in CommandKeys
    ensures '.' !in table
  {
  }

  /** In every language `<command>.<key>` leads to the command table's entry. */
  lemma CommandResolve(lang: string, table: string, k: string)
    requires IsValidLanguage(lang) && table in CommandKeys
    ensures Resolve(TranslationsOf(lang), [table, k]) == Resolve(Node(CommandTable(lang, table)), [k])
  {
    CommandEntry(lang, table);
    ResolveStep(BuildLanguageTranslations(lang), table, [k], Node(CommandTable(lang, table)));
    assert [table] + [k] == [table, k];
  }

  /** A `<command>.<key>` path whose key the language's table for the command
      holds as a string is that string, with the placeholders replaced. */
  lemma CommandPath(lang: string, table: string, k: string, text: string, replacements: seq<(string, string)>)
    requires IsValidLanguage(lang) && table in CommandKeys && '.' !in k
    requires Get(CommandTable(lang, table), k) == Some(Text(text))
    ensures T(lang, Path([table, k]), replacements) == Message(Replace(text, replacements))
  {
    CommandKeysUndotted(table);
    CommandResolve(lang, table, k);
    ResolveStep(CommandTable(lang, table), k, [], Text(text));
    assert [k] + [] == [k];
    TranslateFound(TranslationsOf(lang), TranslationsOf("en"), lang == "en", [table, k], text, replacements);
  }

  /** A path missing in a language other than English but leading to a string
      in English is the English string. */
  lemma TranslateFallback(own: Tree, english: Tree, keys: seq<string>, text: string,
                          replacements: seq<(string, string)>)
    requires |keys| >= 1 && forall k :: 0 <= k < |keys| ==> '.' !in keys[k]
    requires Resolve(own, keys).None? && Resolve(english, keys) == Some(Text(text))
    ensures Translate(own, english, false, Path(keys), replacements) == Message(Replace(text, replacements))
  {
    PathKeys(keys);
  }

  /** The Spanish sticker table has no `success` key. */
  lemma EsStickerSuccessMissing()
    ensures Resolve(Node(StickerEs), ["success"]).None?
  {
    NoSpanishStickerSuccess();
  }

  /** The English sticker table holds `success` as a string. */
  lemma EnStickerSuccessFound()
    ensures Resolve(Node(StickerEn), ["success"]) == Some(Text(StickerEn[3].1.text))
  {
    EnglishStickerSuccess();
  }

  /** The Portuguese sticker table has no `success` key either. */
  lemma PtStickerSuccessMissing()
    ensures Resolve(Node(StickerPt), ["success"]).None?
  {
    NoPortugueseStickerSuccess();
  }

  /** `sticker.success` leads nowhere in the es and pt objects. */
  lemma StickerSuccessMissing(lang: string)
    requires lang == "es" || lang == "pt"
    ensures Resolve(TranslationsOf(lang), ["sticker", "success"]).None?
  {
    if lang == "es" {
      EsStickerSuccessMissing();
    } else {
      PtStickerSuccessMissing();
    }
    CommandResolve(lang, "sticker", "success");
  }

  /** `sticker.success` leads to the English success message. */
  lemma StickerSuccessInEnglish()
    ensures Resolve(TranslationsOf("en"), ["sticker", "success"]) == Some(Text(StickerEn[3].1.text))
  {
    EnStickerSuccessFound();
    CommandResolve("en", "sticker", "success");
  }

  /** Under es and pt, whose sticker tables lack `success`, `sticker.success`
      falls back to the English text. */
  lemma StickerSuccessIsEnglish(lang: string)
    requires lang == "es" || lang == "pt"
    ensures T(lang, Path(["sticker", "success"]), []) == Message(StickerEn[3].1.text)
  {
    StickerSuccessMissing(lang);
    StickerSuccessInEnglish();
    CommandKeysUndotted("sticker");
    TranslateFallback(TranslationsOf(lang), TranslationsOf("en"), ["sticker", "success"], StickerEn[3].1.text, []);
  }
}
