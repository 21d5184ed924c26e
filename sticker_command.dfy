/** `handleStickerCommand` of src/commands/sticker.ts: which message the
    sticker is made from, the media pre-check, and the replies. Which awaited
    call throws is an input. */
module StickerCommand {
  import opened Strings
  import opened Messages
  import opened Effects

  /** The message holds an image, a video or a document. */
  predicate HasMedia(m: WAMessage) {
    m.message.Some? && (m.message.value.image.Some? || m.message.value.video.Some? || m.message.value.document.Some?)
  }

  /** The message quotes another one: its payload. */
  function Quoted(m: WAMessage): Option<Content> {
    var ci := ContextOf(m);
    if ci.Some? then ci.value.quotedMessage else None
  }

  /** The message carries a list of mentioned jids (any list, empty
      included, is truthy). */
  predicate Mentions(m: WAMessage) {
    var ci := ContextOf(m);
    ci.Some? && ci.value.mentionedJid.Some?
  }

  /** The message rebuilt from a quoting context: the chat, the quoted
      message's id and participant, and the quoted payload. */
  function FromContext(m: WAMessage, ci: ContextInfo): WAMessage {
    var key := MessageKey(m.key.remoteJid, false, ci.stanzaId, ci.participant);
    match ci.quotedMessage
    case Some(q) => WAMessage(key, None, Some(q))
    case None => WAMessage(key, None, None)
  }

  /** Where the handler takes its media from: Some(target), or None when it
      answers `noMediaInMention` instead. */
  function Target(m: WAMessage): (r: Option<WAMessage>)
    ensures Quoted(m).Some? ==> r == Some(m.(message := Quoted(m)))
    ensures Quoted(m).None? && Mentions(m) ==> r.None?
    ensures Quoted(m).None? && !Mentions(m) ==> r == Some(m)
  {
    if Quoted(m).Some? then Some(m.(message := Quoted(m)))
    else if Mentions(m) then
      var ci := ContextOf(m).value;
      if ci.quotedMessage.Some? then Some(FromContext(m, ci)) else None
    else Some(m)
  }

  /** The calls the handler plans when nothing throws. */
  function Plan(m: WAMessage, args: seq<string>): (r: seq<Effect>)
    ensures 1 <= |r| <= 2 && r[0].Reply? && r[0].replacements == []
    ensures |r| == 2 <==> Target(m).Some? && HasMedia(Target(m).value)
    ensures |r| == 2 ==> r[0].path == "sticker.creating" && r[1] == CreateSticker(Target(m).value, m, args)
    ensures |r| == 1 ==> r[0].path == if Target(m).None? then "sticker.noMediaInMention" else "sticker.noMedia"
  {
    match Target(m)
    case None => [Reply("sticker.noMediaInMention", [])]
    case Some(target) =>
      if !HasMedia(target) then [Reply("sticker.noMedia", [])]
      else [Reply("sticker.creating", []), CreateSticker(target, m, args)]
  }

  /** `handleStickerCommand(socket, message)`: any throw is answered with `sticker.error`. */
  function HandleSticker(m: WAMessage, args: seq<string>, failure: Option<Failure>): (r: seq<Effect>)
    ensures !Hits(Plan(m, args), failure) ==> r == Plan(m, args)
    ensures Hits(Plan(m, args), failure) ==>
      r == Plan(m, args)[..failure.value.step + 1] + [Reply("sticker.error", [])]
  {
    TryCatch(Plan(m, args), failure, _ => [Reply("sticker.error", [])])
  }

  /** A sticker is only ever created from a message that holds media. */
  lemma CreatesOnlyFromMedia(m: WAMessage, args: seq<string>, failure: Option<Failure>, i: nat)
    requires i < |HandleSticker(m, args, failure)| && HandleSticker(m, args, failure)[i].CreateSticker?
    ensures HasMedia(HandleSticker(m, args, failure)[i].target)
    ensures i >= 1 && HandleSticker(m, args, failure)[i - 1] == Reply("sticker.creating", [])
  {
    var r := HandleSticker(m, args, failure);
    var plan := Plan(m, args);
    assert i < |plan| && r[i] == plan[i] by {
      if Hits(plan, failure) {
        assert r == plan[..failure.value.step + 1] + [Reply("sticker.error", [])];
      }
    }
    assert i == 1;
  }

  /** A quoted message is the target: the quoting message with the quoted payload. */
  lemma QuotedIsTarget(m: WAMessage, args: seq<string>, q: Content)
    requires Quoted(m) == Some(q) && (q.image.Some? || q.video.Some? || q.document.Some?)
    ensures HandleSticker(m, args, None) == [Reply("sticker.creating", []), CreateSticker(m.(message := Some(q)), m, args)]
  {
  }

  /** Mentions without a quote always end in `noMediaInMention`: the branch's
      own quote check repeats the one that already failed. */
  lemma MentionWithoutQuote(m: WAMessage, args: seq<string>, failure: Option<Failure>)
    requires Quoted(m).None? && Mentions(m)
    ensures HandleSticker(m, args, failure)[0] == Reply("sticker.noMediaInMention", [])
    ensures forall i :: 0 <= i < |HandleSticker(m, args, failure)| ==> !HandleSticker(m, args, failure)[i].CreateSticker?
  {
    var plan := Plan(m, args);
    if Hits(plan, failure) {
      assert HandleSticker(m, args, failure) == [plan[0], Reply("sticker.error", [])];
    }
  }

  /** A message without media, quoted or not, gets `noMedia` and no sticker. */
  lemma NoMediaNoSticker(m: WAMessage, args: seq<string>)
    requires Quoted(m).None? && !Mentions(m) && !HasMedia(m)
    ensures HandleSticker(m, args, None) == [Reply("sticker.noMedia", [])]
  {
  }
}
