/** `JidIgnoreManager` of src/utils/jids/ignoreJids.ts: a set of ignored
    jids and a list of ignore patterns, and the rule chain that decides
    whether a jid is ignored. A pattern is kept as its source text; whether a
    source compiles (`new RegExp`) and whether a compiled pattern matches a
    jid (`pattern.test`) are inputs, as the regular-expression engine is not
    part of this model. */
module IgnoreJids {
  import opened Strings

  /** `pattern.test(jid)` for the pattern with the given source. */
  type Matcher = (string, string) -> bool

  /** The bot's own number: `botJid.split(":")[0]` for a non-empty bot jid. */
  function OwnPrefix(botJid: Option<string>): Option<string> {
    if Truthy(botJid) then Some(BeforeFirst(botJid.value, ':')) else None
  }

  /** A chat jid the bot talks in: a user or a group. */
  predicate StandardChat(jid: string) {
    EndsWith(jid, "@s.whatsapp.net") || EndsWith(jid, "@g.us")
  }

  /** Some pattern matches the jid. */
  predicate AnyPatternMatches(patterns: seq<string>, matches: Matcher, jid: string) {
    exists i :: 0 <= i < |patterns| && matches(patterns[i], jid)
  }

  /** The ignore rules: a jid is ignored when any of them fires (the order
      in which `shouldIgnoreJid` tries them only affects what it logs). */
  predicate Ignored(jids: set<string>, patterns: seq<string>, matches: Matcher, jid: string, botJid: Option<string>) {
    jid == ""
    || jid == "status@broadcast"
    || Contains(jid, "@newsletter") || Contains(jid, "announcement")
    || (OwnPrefix(botJid).Some? && Contains(jid, OwnPrefix(botJid).value))
    || jid in jids
    || AnyPatternMatches(patterns, matches, jid)
    || Contains(jid, "temp") || Contains(jid, "invalid")
    || !StandardChat(jid)
  }

  /** The trimmed comma-separated parts of a string, empty parts included. */
  function TrimmedParts(s: string): (r: seq<string>)
    ensures |r| == |Split(s, ',')|
    ensures forall i :: 0 <= i < |r| ==> r[i] == Trim(Split(s, ',')[i])
  {
    var parts := Split(s, ',');
    seq(|parts|, i requires 0 <= i < |parts| => Trim(parts[i]))
  }

  /** The jids a sequence of `add` calls puts into the set. */
  function Added(parts: seq<string>): set<string> {
    if |parts| == 0 then {} else Added(parts[..|parts| - 1]) + {parts[|parts| - 1]}
  }

  /** Exactly the parts are added. */
  lemma {:induction false} AddedParts(parts: seq<string>)
    ensures forall k :: 0 <= k < |parts| ==> parts[k] in Added(parts)
    ensures forall x :: x in Added(parts) ==> x in parts
    decreases |parts|
  {
    if |parts| > 0 {
      var init := parts[..|parts| - 1];
      AddedParts(init);
      forall k | 0 <= k < |parts| - 1 ensures parts[k] in Added(parts) {
        assert parts[k] == init[k];
      }
    }
  }

  class JidIgnoreManager {
    var ignoredJids: set<string>
    var ignoredPatterns: seq<string>

    constructor()
      ensures ignoredJids == {} && ignoredPatterns == []
    {
      ignoredJids := {};
      ignoredPatterns := [];
    }

    /** `shouldIgnoreJid(jid, botJid)`: the rule chain with its early
        returns, the patterns tried in order. */
    method ShouldIgnoreJid(jid: string, botJid: Option<string>, matches: Matcher) returns (r: bool)
      ensures r == Ignored(ignoredJids, ignoredPatterns, matches, jid, botJid)
    {
      if jid == "" { return true; }
      if jid == "status@broadcast" { return true; }
      if Contains(jid, "@newsletter") || Contains(jid, "announcement") { return true; }
      if Truthy(botJid) && Contains(jid, BeforeFirst(botJid.value, ':')) { return true; }
      if jid in ignoredJids { return true; }
      var i := 0;
      while i < |ignoredPatterns|
        invariant 0 <= i <= |ignoredPatterns|
        invariant forall k :: 0 <= k < i ==> !matches(ignoredPatterns[k], jid)
      {
        if matches(ignoredPatterns[i], jid) { return true; }
        i := i + 1;
      }
      if Contains(jid, "temp") || Contains(jid, "invalid") { return true; }
      if !StandardChat(jid) { return true; }
      return false;
    }

    /** `addIgnoredJid(jid)`. */
    method AddIgnoredJid(jid: string)
      modifies this
      ensures ignoredJids == old(ignoredJids) + {jid}
      ensures ignoredPatterns == old(ignoredPatterns)
    {
      ignoredJids := ignoredJids + {jid};
    }

    /** `removeIgnoredJid(jid)`. */
    method RemoveIgnoredJid(jid: string)
      modifies this
      ensures ignoredJids == old(ignoredJids) - {jid}
      ensures ignoredPatterns == old(ignoredPatterns)
    {
      ignoredJids := ignoredJids - {jid};
    }

    /** `addIgnoredPattern(pattern)`: `compiles` says whether `new RegExp(pattern)`
        succeeds; an invalid pattern is logged and changes nothing. */
    method AddIgnoredPattern(pattern: string, compiles: bool)
      modifies this
      ensures compiles ==> ignoredPatterns == old(ignoredPatterns) + [pattern]
      ensures !compiles ==> ignoredPatterns == old(ignoredPatterns)
      ensures ignoredJids == old(ignoredJids)
    {
      if compiles {
        ignoredPatterns := ignoredPatterns + [pattern];
      }
    }

    /** `clearIgnoredJids()`. */
    method ClearIgnoredJids()
      modifies this
      ensures ignoredJids == {} && ignoredPatterns == []
    {
      ignoredJids := {};
      ignoredPatterns := [];
    }

    /** `getIgnoredJids()`: the ignored jids and the pattern sources. */
    method GetIgnoredJids() returns (jids: set<string>, patterns: seq<string>)
      ensures jids == ignoredJids && patterns == ignoredPatterns
    {
      jids := ignoredJids;
      patterns := ignoredPatterns;
    }

    /** `loadIgnoredJidsFromString(jidsString)`: every comma-separated part,
        trimmed, is added, empty parts included. */
    method LoadIgnoredJidsFromString(jidsString: string)
      modifies this
      ensures ignoredJids == old(ignoredJids) + Added(TrimmedParts(jidsString))
      ensures ignoredPatterns == old(ignoredPatterns)
    {
      AddAll(TrimmedParts(jidsString));
    }

    /** The `forEach` adding each part in turn. */
    method AddAll(parts: seq<string>)
      modifies this
      ensures ignoredJids == old(ignoredJids) + Added(parts)
      ensures ignoredPatterns == old(ignoredPatterns)
    {
      var k := 0;
      while k < |parts|
        invariant 0 <= k <= |parts|
        invariant ignoredJids == old(ignoredJids) + Added(parts[..k])
        invariant ignoredPatterns == old(ignoredPatterns)
      {
        assert parts[..k + 1][..k] == parts[..k];
        ignoredJids := ignoredJids + {parts[k]};
        k := k + 1;
      }
      assert parts[..k] == parts;
    }
  }

  /** A jid that is not ignored is a user or group chat. */
  lemma NotIgnoredIsStandard(jids: set<string>, patterns: seq<string>, matches: Matcher, jid: string, botJid: Option<string>)
    requires !Ignored(jids, patterns, matches, jid, botJid)
    ensures StandardChat(jid) && jid !in jids
  {
  }

  /** An added jid is ignored afterwards, whatever else holds. */
  method AddThenIgnored(m: JidIgnoreManager, jid: string, botJid: Option<string>, matches: Matcher) returns (r: bool)
    modifies m
    ensures r
  {
    m.AddIgnoredJid(jid);
    r := m.ShouldIgnoreJid(jid, botJid, matches);
  }

  /** After clearing, only the fixed rules remain: a standard chat jid free
      of the reserved words and of the bot's number is not ignored. */
  method ClearedAdmits(m: JidIgnoreManager, jid: string, matches: Matcher) returns (r: bool)
    modifies m
    requires StandardChat(jid) && jid != ""
    requires !Contains(jid, "@newsletter") && !Contains(jid, "announcement")
    requires !Contains(jid, "temp") && !Contains(jid, "invalid")
    ensures !r
  {
    m.ClearIgnoredJids();
    r := m.ShouldIgnoreJid(jid, None, matches);
    assert jid != "status@broadcast" by {
      assert !EndsWith("status@broadcast", "@g.us");
      assert !EndsWith("status@broadcast", "@s.whatsapp.net");
    }
  }

  /** A bot jid that starts with ":" has the empty string as its number,
      which every jid contains, so every jid is ignored. */
  lemma EmptyOwnNumber(jids: set<string>, patterns: seq<string>, matches: Matcher, jid: string, rest: string)
    ensures Ignored(jids, patterns, matches, jid, Some(":" + rest))
  {
    var b := ":" + rest;
    assert BeforeFirst(b, ':') == "";
    assert StartsWith(jid, "");
  }

  /** Every part of a loaded string, trimmed, is ignored afterwards. */
  method LoadThenIgnored(m: JidIgnoreManager, s: string, k: nat, botJid: Option<string>, matches: Matcher) returns (r: bool)
    modifies m
    requires k < |Split(s, ',')|
    ensures r
  {
    m.LoadIgnoredJidsFromString(s);
    AddedParts(TrimmedParts(s));
    r := m.ShouldIgnoreJid(TrimmedParts(s)[k], botJid, matches);
  }
}
