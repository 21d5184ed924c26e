/** The shape of an inbound chat message as the bot reads it. Only the fields the
    modelled code inspects are present; every optional field of the protocol
    library's message object is an Option. */
module Messages {
  import opened Strings

  datatype MessageKey = MessageKey(
    remoteJid: Option<string>,
    fromMe: bool,
    id: Option<string>,
    participant: Option<string>)

  /** An image, video or document attachment. */
  datatype Media = Media(caption: Option<string>, mimetype: Option<string>)

  datatype ContextInfo = ContextInfo(
    quotedMessage: Option<Content>,
    mentionedJid: Option<seq<string>>,
    participant: Option<string>,
    stanzaId: Option<string>)

  datatype ExtendedText = ExtendedText(text: Option<string>, contextInfo: Option<ContextInfo>)

  /** The message payload. `fields` lists the payload's own property names in
      insertion order; it also names payload kinds the bot never opens. */
  datatype Content = Content(
    fields: seq<string>,
    conversation: Option<string>,
    extendedText: Option<ExtendedText>,
    image: Option<Media>,
    video: Option<Media>,
    document: Option<Media>)

  datatype WAMessage = WAMessage(key: MessageKey, pushName: Option<string>, message: Option<Content>)

  /** `message.message?.extendedTextMessage?.contextInfo`. */
  function ContextOf(m: WAMessage): Option<ContextInfo> {
    if m.message.Some? && m.message.value.extendedText.Some?
    then m.message.value.extendedText.value.contextInfo
    else None
  }
}
