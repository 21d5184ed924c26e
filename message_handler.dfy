/** `getMessageContent`, `getMessageType`, `isCommand` and the routing of
    `messageHandler` in src/handlers/messageHandler.ts. The handler either
    ignores a message, hands its text to the command handler, or asks the
    group-chat gate whether the assistant would answer; the answering call
    itself is commented out in the source, so a non-command message causes no
    reply. */
module MessageHandler {
  import opened Strings
  import opened Messages
  import opened Environment
  import opened Validation

  /** The text-bearing fields `getMessageContent` tries, in order:
      conversation, extended text, image caption, video caption, document caption. */
  function Candidates(m: WAMessage): (r: seq<Option<string>>)
    ensures |r| == 5
  {
    if m.message.None? then [None, None, None, None, None]
    else
      var c := m.message.value;
      [c.conversation,
       if c.extendedText.Some? then c.extendedText.value.text else None,
       if c.image.Some? then c.image.value.caption else None,
       if c.video.Some? then c.video.value.caption else None,
       if c.document.Some? then c.document.value.caption else None]
  }

  /** The first candidate that is a non-empty string. */
  function FirstTruthy(cs: seq<Option<string>>): (r: Option<string>)
    ensures r.Some? ==> exists i :: 0 <= i < |cs| && cs[i] == r && Truthy(cs[i]) && forall j :: 0 <= j < i ==> !Truthy(cs[j])
    ensures r.None? ==> forall i :: 0 <= i < |cs| ==> !Truthy(cs[i])
  {
    if |cs| == 0 then None
    else if Truthy(cs[0]) then cs[0]
    else
      var r := FirstTruthy(cs[1..]);
      if r.Some? then
        var i :| 0 <= i < |cs[1..]| && cs[1..][i] == r && Truthy(cs[1..][i]) && forall j :: 0 <= j < i ==> !Truthy(cs[1..][j]);
        assert cs[i + 1] == r;
        assert forall j :: 0 <= j < i + 1 ==> !Truthy(cs[j]) by {
          forall j | 0 <= j < i + 1 ensures !Truthy(cs[j]) {
            if j > 0 { assert cs[j] == cs[1..][j - 1]; }
          }
        }
        r
      else
        assert forall i :: 1 <= i < |cs| ==> cs[i] == cs[1..][i - 1];
        r
  }

  /** `getMessageContent(message)`: the `||` chain over the candidates, then null. */
  function MessageContent(m: WAMessage): (r: Option<string>)
    ensures r.Some? ==> r.value != ""
    ensures r == FirstTruthy(Candidates(m))
  {
    var cs := Candidates(m);
    if Truthy(cs[0]) then cs[0]
    else if Truthy(cs[1]) then cs[1]
    else if Truthy(cs[2]) then cs[2]
    else if Truthy(cs[3]) then cs[3]
    else if Truthy(cs[4]) then cs[4]
    else None
  }

  /** `getMessageType(message)`: the payload's first property name, or
      "unknown" when there is no payload, no property, or an empty name. */
  function MessageType(m: WAMessage): (r: string)
    ensures r != ""
    ensures m.message.Some? && |m.message.value.fields| > 0 && m.message.value.fields[0] != ""
      ==> r == m.message.value.fields[0]
    ensures m.message.None? || |m.message.value.fields| == 0 || m.message.value.fields[0] == ""
      ==> r == "unknown"
  {
    if m.message.None? then "unknown"
    else if |m.message.value.fields| == 0 then "unknown"
    else if m.message.value.fields[0] == "" then "unknown"
    else m.message.value.fields[0]
  }

  /** `isCommand(text)`. */
  predicate IsCommand(text: string) {
    StartsWith(text, "/")
  }

  /** What `messageHandler` does with a message. */
  datatype Action =
    | Ignore
    | RunCommand(text: string)
    | Consider(text: string, respond: bool)

  /** The message is one the handler skips before reading its text. */
  predicate Skipped(m: WAMessage) {
    m.key.remoteJid == Some("status@broadcast") || m.key.fromMe || !Truthy(m.key.remoteJid)
  }

  /** `messageHandler(socket, message)`: status broadcasts, the bot's own
      messages, messages without a chat and messages without text are
      ignored; slash-prefixed text goes to the command handler; other text
      is put to the group-chat gate. */
  function Route(env: Config, botId: Option<string>, m: WAMessage): (r: Action)
    ensures r.Ignore? <==> Skipped(m) || MessageContent(m).None?
    ensures r.RunCommand? <==> !Skipped(m) && MessageContent(m).Some? && IsCommand(MessageContent(m).value)
    ensures !r.Ignore? ==> Some(r.text) == MessageContent(m)
    ensures r.Consider? ==> !IsCommand(r.text)
    ensures r.Consider? ==> r.respond == ShouldProcessMessage(env, botId, m, r.text)
  {
    if m.key.remoteJid == Some("status@broadcast") then Ignore
    else if !m.key.fromMe && Truthy(m.key.remoteJid) then
      var text := MessageContent(m);
      if text.None? then Ignore
      else if IsCommand(text.value) then RunCommand(text.value)
      else Consider(text.value, ShouldProcessMessage(env, botId, m, text.value))
    else Ignore
  }

  /** The conversation text wins over every caption. */
  lemma ConversationFirst(m: WAMessage)
    requires m.message.Some? && Truthy(m.message.value.conversation)
    ensures MessageContent(m) == m.message.value.conversation
  {
  }

  /** An image's caption is read when there is no conversation or extended
      text, even when a video or document caption is present too. */
  lemma ImageCaptionBeforeVideo(m: WAMessage)
    requires m.message.Some? && !Truthy(m.message.value.conversation)
    requires m.message.value.extendedText.None? && m.message.value.image.Some?
    requires Truthy(m.message.value.image.value.caption)
    ensures MessageContent(m) == m.message.value.image.value.caption
  {
  }

  /** An empty conversation string is skipped like a missing one. */
  lemma EmptyConversationSkipped(m: WAMessage)
    requires m.message.Some? && m.message.value.conversation == Some("")
    ensures MessageContent(m) == FirstTruthy(Candidates(m)[1..])
  {
    var cs := Candidates(m);
    assert !Truthy(cs[0]);
  }

  /** A slash command from someone else in a chat is handed to the command
      handler, and so is never put to the group-chat gate. */
  lemma CommandRouted(env: Config, botId: Option<string>, m: WAMessage, text: string)
    requires Truthy(m.key.remoteJid) && m.key.remoteJid != Some("status@broadcast") && !m.key.fromMe
    requires MessageContent(m) == Some(text) && IsCommand(text)
    ensures Route(env, botId, m) == RunCommand(text)
  {
  }

  /** The bot's own messages are ignored whatever they say. */
  lemma OwnMessagesIgnored(env: Config, botId: Option<string>, m: WAMessage)
    requires m.key.fromMe
    ensures Route(env, botId, m) == Ignore
  {
  }

  /** A private-chat message that is not a command is always accepted by the gate. */
  lemma PrivateTextConsidered(env: Config, botId: Option<string>, m: WAMessage, text: string)
    requires Truthy(m.key.remoteJid) && !IsGroup(m.key.remoteJid.value)
    requires m.key.remoteJid != Some("status@broadcast") && !m.key.fromMe
    requires MessageContent(m) == Some(text) && !IsCommand(text)
    ensures Route(env, botId, m) == Consider(text, true)
  {
  }
}
