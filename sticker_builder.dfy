/** The options of a sticker and the metadata the `Sticker` constructor of
    src/services/stickers/stickerBuilder.ts settles on: unset or falsy
    options take their defaults and the quality is clamped to 10..100.
    Qualities are whole numbers here. */
module StickerBuilder {
  import opened Strings
  import opened StickerUtils

  datatype StickerType = Default | Crop | Full | Circle | Rounded

  datatype Background = Background(r: int, g: int, b: int, alpha: int)

  /** `StickerOptions`: every field may be left out. */
  datatype Options = Options(
    pack: Option<string>,
    author: Option<string>,
    kind: Option<StickerType>,
    quality: Option<int>,
    background: Option<Background>,
    emojis: Option<seq<string>>)

  /** `Required<StickerOptions>`: the metadata the sticker keeps. */
  datatype Metadata = Metadata(
    pack: string,
    author: string,
    kind: StickerType,
    quality: int,
    background: Background,
    emojis: seq<string>)

  const DefaultQuality := 80
  const MinQuality := 10
  const MaxQuality := 100
  const DefaultBackground := Background(0, 0, 0, 0)

  /** `Math.min(Math.max(quality || 80, 10), 100)`. */
  function Quality(q: Option<int>): (r: int)
    ensures MinQuality <= r <= MaxQuality
    ensures (q.None? || q.value == 0) ==> r == DefaultQuality
    ensures q.Some? && MinQuality <= q.value <= MaxQuality ==> r == q.value
    ensures q.Some? && q.value != 0 && q.value < MinQuality ==> r == MinQuality
    ensures q.Some? && q.value > MaxQuality ==> r == MaxQuality
  {
    var given := if q.None? || q.value == 0 then DefaultQuality else q.value;
    var atLeast := if given > MinQuality then given else MinQuality;
    if atLeast < MaxQuality then atLeast else MaxQuality
  }

  /** The metadata `new Sticker(data, options, mime)` stores. */
  function MetadataOf(o: Options): (m: Metadata)
    ensures m.pack == OrElse(o.pack, "") && m.author == OrElse(o.author, "")
    ensures o.kind.None? ==> m.kind == Default
    ensures o.kind.Some? ==> m.kind == o.kind.value
    ensures m.quality == Quality(o.quality)
    ensures o.background.None? ==> m.background == DefaultBackground
    ensures o.background.Some? ==> m.background == o.background.value
    ensures o.emojis.None? ==> m.emojis == []
    ensures o.emojis.Some? ==> m.emojis == o.emojis.value
  {
    Metadata(
      OrElse(o.pack, ""),
      OrElse(o.author, ""),
      if o.kind.Some? then o.kind.value else Default,
      Quality(o.quality),
      if o.background.Some? then o.background.value else DefaultBackground,
      if o.emojis.Some? then o.emojis.value else [])
  }

  /** The metadata given back as options, every field set. */
  function AsOptions(m: Metadata): Options {
    Options(Some(m.pack), Some(m.author), Some(m.kind), Some(m.quality), Some(m.background), Some(m.emojis))
  }

  class Sticker {
    var data: seq<Byte>
    var mime: string
    var metadata: Metadata

    /** `new Sticker(data, options, mime)`. */
    constructor(data: seq<Byte>, options: Options, mime: string)
      ensures this.data == data && this.mime == mime
      ensures metadata == MetadataOf(options)
    {
      this.data := data;
      this.mime := mime;
      metadata := MetadataOf(options);
    }
  }

  /** Settling is idempotent: settled metadata passed again as options is kept. */
  lemma SettledIsFixed(o: Options)
    ensures MetadataOf(AsOptions(MetadataOf(o))) == MetadataOf(o)
  {
  }

  /** Leaving every option out gives the defaults. */
  lemma Defaults()
    ensures MetadataOf(Options(None, None, None, None, None, None))
      == Metadata("", "", Default, 80, Background(0, 0, 0, 0), [])
  {
  }

  /** Clamping keeps the order of qualities. */
  lemma QualityMonotone(a: int, b: int)
    requires 0 < a <= b
    ensures Quality(Some(a)) <= Quality(Some(b))
  {
  }
}
