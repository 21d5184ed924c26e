/** The classification step of `extractMediaFromMessage` in
    src/utils/message/messageUtils.ts: which attachment of a message is
    downloaded, under which media type, MIME type and file extension. The
    download itself (`downloadMediaMessage`) is not part of this model. */
module MessageUtils {
  import opened Strings
  import opened Messages

  datatype MediaKind = ImageMedia | VideoMedia

  /** The `type`, `mime` and `extension` the function returns with the buffer.
      `extension` is None where `mime.split("/")[1]` is undefined. */
  datatype MediaInfo = MediaInfo(kind: MediaKind, mime: string, extension: Option<string>)

  /** `mime.split("/")[1]`. */
  function Subtype(mime: string): Option<string> {
    var parts := Split(mime, '/');
    if |parts| > 1 then Some(parts[1]) else None
  }

  /** The subtype of "top/sub" is sub. */
  lemma SubtypeOf(top: string, sub: string)
    requires '/' !in top && '/' !in sub
    ensures Subtype(top + "/" + sub) == Some(sub)
  {
    SplitAt(top, '/', sub);
    SplitNone(sub, '/');
  }

  /** A document's optional MIME type starts with p (`mimetype?.startsWith(p)`). */
  predicate MimeStarts(d: Media, p: string) {
    d.mimetype.Some? && StartsWith(d.mimetype.value, p)
  }

  /** A document the function accepts: an image or a video by its MIME type. */
  predicate MediaDocument(c: Content) {
    c.document.Some? && (MimeStarts(c.document.value, "image/") || MimeStarts(c.document.value, "video/"))
  }

  /** `extractMediaFromMessage(message)` up to the download: an image wins
      over a video, a video over a document, and a document counts only with
      an image or video MIME type; anything else gives null. */
  function ExtractMedia(m: WAMessage): (r: Option<MediaInfo>)
    ensures r.Some? <==>
      (m.message.Some? && (m.message.value.image.Some? || m.message.value.video.Some? || MediaDocument(m.message.value)))
    ensures r.Some? && m.message.value.image.Some? ==>
      (r.value.kind == ImageMedia
       && r.value.mime == OrElse(m.message.value.image.value.mimetype, "image/jpeg")
       && r.value.extension == Subtype(r.value.mime))
    ensures r.Some? && m.message.value.image.None? && m.message.value.video.Some? ==>
      (r.value.kind == VideoMedia
       && r.value.mime == OrElse(m.message.value.video.value.mimetype, "video/mp4")
       && r.value.extension == Some("mp4"))
    ensures r.Some? && m.message.value.image.None? && m.message.value.video.None? ==>
      (Some(r.value.mime) == m.message.value.document.value.mimetype
       && (r.value.kind == ImageMedia <==> StartsWith(r.value.mime, "image/"))
       && r.value.extension == Subtype(r.value.mime))
  {
    if m.message.None? then None
    else
      var c := m.message.value;
      if c.image.Some? then
        var mime := OrElse(c.image.value.mimetype, "image/jpeg");
        Some(MediaInfo(ImageMedia, mime, Subtype(mime)))
      else if c.video.Some? then
        Some(MediaInfo(VideoMedia, OrElse(c.video.value.mimetype, "video/mp4"), Some("mp4")))
      else if MediaDocument(c) then
        var mime := c.document.value.mimetype.value;
        Some(MediaInfo(if StartsWith(mime, "image/") then ImageMedia else VideoMedia, mime, Subtype(mime)))
      else None
  }

  /** The default image type's extension is "jpeg". */
  lemma JpegSubtype()
    ensures Subtype("image/jpeg") == Some("jpeg")
  {
    SubtypeOf("image", "jpeg");
    assert "image" + "/" + "jpeg" == "image/jpeg";
  }

  /** An image without a MIME type is taken as JPEG. */
  lemma ImageDefaultsToJpeg(m: WAMessage)
    requires m.message.Some? && m.message.value.image.Some? && !Truthy(m.message.value.image.value.mimetype)
    ensures ExtractMedia(m) == Some(MediaInfo(ImageMedia, "image/jpeg", Some("jpeg")))
  {
    JpegSubtype();
  }

  /** A document with MIME type "video/sub" is a video with extension sub. */
  lemma VideoDocument(m: WAMessage, sub: string)
    requires m.message.Some? && m.message.value.image.None? && m.message.value.video.None?
    requires m.message.value.document.Some? && m.message.value.document.value.mimetype == Some("video/" + sub)
    requires '/' !in sub
    ensures ExtractMedia(m) == Some(MediaInfo(VideoMedia, "video/" + sub, Some(sub)))
  {
    var mime := "video/" + sub;
    assert mime[..6] == "video/";
    assert MimeStarts(m.message.value.document.value, "video/");
    assert !StartsWith(mime, "image/") by { assert mime[0] == 'v' && "image/"[0] == 'i'; }
    SubtypeOf("video", sub);
    assert "video" + "/" + sub == mime;
  }

  /** A document whose MIME type is neither an image's nor a video's, such as
      a PDF, gives nothing to download. */
  lemma OtherDocumentRefused(m: WAMessage, mime: string)
    requires m.message.Some? && m.message.value.image.None? && m.message.value.video.None?
    requires m.message.value.document.Some? && m.message.value.document.value.mimetype == Some(mime)
    requires !StartsWith(mime, "image/") && !StartsWith(mime, "video/")
    ensures ExtractMedia(m).None?
  {
  }

  /** A MIME type without a slash leaves the image extension undefined. */
  lemma SlashlessImageMime(m: WAMessage, mime: string)
    requires m.message.Some? && m.message.value.image.Some?
    requires m.message.value.image.value.mimetype == Some(mime) && mime != "" && '/' !in mime
    ensures ExtractMedia(m) == Some(MediaInfo(ImageMedia, mime, None))
  {
    SplitNone(mime, '/');
  }
}
