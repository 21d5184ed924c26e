/** `shouldProcessMessage` and `validateGroupMessage` of
    src/services/ai/validation.ts: whether the assistant would answer a
    non-command message. Private chats always pass; a group message passes
    the global group switch, then the whitelist, then needs one of the
    mention signals. The bot's own user id (`socket.user?.id`) is an input. */
module Validation {
  import opened Strings
  import opened Messages
  import opened Environment

  /** `jid.endsWith("@g.us")`. */
  predicate IsGroup(jid: string) {
    EndsWith(jid, "@g.us")
  }

  /** `socket.user?.id?.split(":")[0] || ""`. */
  function BotNumber(botId: Option<string>): (r: string)
    ensures ':' !in r
    ensures botId.Some? ==> StartsWith(botId.value, r) && (r == botId.value || botId.value[|r|] == ':')
    ensures botId.None? ==> r == ""
  {
    if botId.Some? then BeforeFirst(botId.value, ':') else ""
  }

  /** `${botNumber}@s.whatsapp.net`. */
  function BotFullJid(botId: Option<string>): (r: string)
    ensures EndsWith(r, "@s.whatsapp.net") && StartsWith(r, BotNumber(botId))
  {
    var n := BotNumber(botId);
    var r := n + "@s.whatsapp.net";
    assert r[..|n|] == n && r[|r| - |"@s.whatsapp.net"|..] == "@s.whatsapp.net";
    r
  }

  /** The message quotes a message whose participant is the bot. */
  predicate QuotingBot(m: WAMessage, botJid: string) {
    var ci := ContextOf(m);
    ci.Some? && ci.value.participant == Some(botJid)
  }

  /** The bot's full jid is among the message's mentioned jids. */
  predicate MentionedInMessage(m: WAMessage, botJid: string) {
    var ci := ContextOf(m);
    ci.Some? && ci.value.mentionedJid.Some? && botJid in ci.value.mentionedJid.value
  }

  /** Some trigger word occurs in the lowercased text. */
  predicate HasTriggerWord(words: seq<string>, text: string) {
    exists i :: 0 <= i < |words| && Contains(Lower(text), words[i])
  }

  /** One of the signals that the bot is being addressed. */
  predicate Addressed(env: Config, botId: Option<string>, m: WAMessage, text: string) {
    Contains(text, "@" + BotNumber(botId))
    || MentionedInMessage(m, BotFullJid(botId))
    || HasTriggerWord(env.groupTriggerWords, text)
    || Contains(Lower(text), Lower(env.botName))
    || QuotingBot(m, BotFullJid(botId))
  }

  /** `validateGroupMessage(socket, message, text)`. */
  function ValidateGroupMessage(env: Config, botId: Option<string>, m: WAMessage, text: string): (r: bool)
    requires m.key.remoteJid.Some?
    ensures !env.groupChatEnabled ==> !r
    ensures env.groupChatEnabled && !env.groupWhitelistEnabled && m.key.remoteJid.value !in env.groupWhitelist ==> !r
    ensures r <==> (env.groupChatEnabled
      && (env.groupWhitelistEnabled || m.key.remoteJid.value in env.groupWhitelist)
      && Addressed(env, botId, m, text))
  {
    var jid := m.key.remoteJid.value;
    if !env.groupChatEnabled then false
    else if !env.groupWhitelistEnabled && jid !in env.groupWhitelist then false
    else Addressed(env, botId, m, text)
  }

  /** `shouldProcessMessage(socket, message, text)`. The caller has checked
      that the message has a chat jid. */
  function ShouldProcessMessage(env: Config, botId: Option<string>, m: WAMessage, text: string): (r: bool)
    requires m.key.remoteJid.Some?
    ensures !IsGroup(m.key.remoteJid.value) ==> r
    ensures r <==> (!IsGroup(m.key.remoteJid.value)
      || (env.groupChatEnabled
          && (env.groupWhitelistEnabled || m.key.remoteJid.value in env.groupWhitelist)
          && Addressed(env, botId, m, text)))
  {
    if !IsGroup(m.key.remoteJid.value) then true else ValidateGroupMessage(env, botId, m, text)
  }

  /** A group message is refused whenever the group switch is off, whatever
      it says. */
  lemma GroupsDisabled(env: Config, botId: Option<string>, m: WAMessage, text: string)
    requires m.key.remoteJid.Some? && IsGroup(m.key.remoteJid.value)
    ensures !env.groupChatEnabled ==> !ShouldProcessMessage(env, botId, m, text)
  {
  }

  /** With the whitelist variable unset the flag is false, so the whitelist
      is enforced; with the list unset too, every group message is refused. */
  lemma UnsetWhitelistRefusesGroups(vars: Vars, botId: Option<string>, m: WAMessage, text: string)
    requires m.key.remoteJid.Some? && IsGroup(m.key.remoteJid.value)
    requires GroupWhitelistEnabled !in vars && GroupWhitelist !in vars
    ensures !ShouldProcessMessage(EnvOf(vars), botId, m, text)
  {
    WhitelistUnset(vars);
  }

  /** Setting the whitelist variable to "false" switches the whitelist off:
      an enabled group where the bot is @-mentioned passes although it is not listed. */
  lemma WhitelistOffByFalse(vars: Vars, botId: Option<string>, m: WAMessage, text: string)
    requires m.key.remoteJid.Some? && IsGroup(m.key.remoteJid.value)
    requires Var(vars, GroupWhitelistEnabled) == Some("false") && Var(vars, GroupChatEnabled) == Some("true")
    requires Contains(text, "@" + BotNumber(botId))
    ensures ShouldProcessMessage(EnvOf(vars), botId, m, text)
  {
    var env := EnvOf(vars);
    assert env.groupWhitelistEnabled && env.groupChatEnabled;
  }

  /** A trigger word configured in any case and with surrounding spaces
      matches a text that contains it in any case. */
  lemma TriggerWordMatches(v: string, k: nat, text: string)
    requires k < |Split(v, ',')| && Folded(Split(v, ',')[k]) != ""
    requires Contains(Lower(text), Folded(Split(v, ',')[k]))
    ensures HasTriggerWord(TriggerWords(Some(v)), text)
  {
    var parts := Split(v, ',');
    var folded := seq(|parts|, i requires 0 <= i < |parts| => Folded(parts[i]));
    assert folded[k] in folded;
    var words := NonEmpty(folded);
    assert words == TriggerWords(Some(v));
    assert folded[k] in words;
    var i :| 0 <= i < |words| && words[i] == folded[k];
  }
}
