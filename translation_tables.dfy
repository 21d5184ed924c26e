/** The constant translation tables of src/i18n/translations: the core table of
    each language (en.ts, es.ts, pt.ts) and the per-language tables of the four
    commands (commands/help.ts, audio.ts, sticker.ts, video.ts), in
    declaration order. Non-ASCII characters are written as escapes.

    The top-level keys of every table are complete. The nested tables keep the
    entries the model reads: all of the help tables and of pt's `commands`
    entry; `name`, `description`, `usage` (and, where it exists, `success`) of
    the other command tables; the first entry of the other nested records of
    pt's core table. */
module TranslationTables {

  /** A translation object: a string, or a record of named sub-objects in
      property order. */
  datatype Tree = Text(text: string) | Node(entries: seq<(string, Tree)>)



  /** The `core` entry of EnCore. */
  const EnCoreCore: seq<(string, Tree)> := [
    ("commandError", Text("An error occurred while processing your command. Please try again."))
  ]

  /** The core table of src/i18n/translations/en.ts. */
  const EnCore: seq<(string, Tree)> := [
    ("core", Node(EnCoreCore))
  ]

  /** The `core` entry of EsCore. */
  const EsCoreCore: seq<(string, Tree)> := [
    ("commandError", Text("Ocurri\U{00F3} un error al procesar tu comando. Por favor, int\U{00E9}ntalo de nuevo."))
  ]

  /** The core table of src/i18n/translations/es.ts. */
  const EsCore: seq<(string, Tree)> := [
    ("core", Node(EsCoreCore))
  ]

  /** The `sticker` entry of PtCore. */
  const PtCoreSticker: seq<(string, Tree)> := [
    ("creating", Text("Criando sticker..."))
  ]

  /** The `help` entry of PtCoreCommands. */
  const PtCoreCommandsHelp: seq<(string, Tree)> := [
    ("name", Text("ajuda")),
    ("description", Text("Mostra os comandos dispon\U{00ED}veis e seu uso")),
    ("usage", Text("/ajuda [comando]")),
    ("availableCommands", Text("Comandos Dispon\U{00ED}veis:")),
    ("moreDetails", Text("Para mais detalhes sobre um comando, digite */ajuda [comando]*")),
    ("notFound", Text("Comando n\U{00E3}o encontrado: {command}. Digite /ajuda para ver os comandos dispon\U{00ED}veis."))
  ]

  /** The `sticker` entry of PtCoreCommands. */
  const PtCoreCommandsSticker: seq<(string, Tree)> := [
    ("name", Text("sticker")),
    ("description", Text("Converte m\U{00ED}dia em sticker")),
    ("usage", Text("/sticker ou /s (na legenda de uma imagem ou v\U{00ED}deo)"))
  ]

  /** The `audio` entry of PtCoreCommands. */
  const PtCoreCommandsAudio: seq<(string, Tree)> := [
    ("name", Text("audio")),
    ("description", Text("Baixa um v\U{00ED}deo e envia como \U{00E1}udio")),
    ("usage", Text("/audio [URL do v\U{00ED}deo]"))
  ]

  /** The `video` entry of PtCoreCommands. */
  const PtCoreCommandsVideo: seq<(string, Tree)> := [
    ("name", Text("video")),
    ("description", Text("Baixa e envia um v\U{00ED}deo")),
    ("usage", Text("/video [URL do v\U{00ED}deo]"))
  ]

  /** The `commands` entry of PtCore. */
  const PtCoreCommands: seq<(string, Tree)> := [
    ("help", Node(PtCoreCommandsHelp)),
    ("sticker", Node(PtCoreCommandsSticker)),
    ("audio", Node(PtCoreCommandsAudio)),
    ("video", Node(PtCoreCommandsVideo)),
    ("commandDetails", Text("*{name}*\n{description}\n*Uso:* {usage}"))
  ]

  /** The `video` entry of PtCore. */
  const PtCoreVideo: seq<(string, Tree)> := [
    ("providedUrl", Text("Baixando o v\U{00ED}deo de {url}..."))
  ]

  /** The `audio` entry of PtCore. */
  const PtCoreAudio: seq<(string, Tree)> := [
    ("providedUrl", Text("Baixando o \U{00E1}udio de {url}..."))
  ]

  /** The `media` entry of PtCore. */
  const PtCoreMedia: seq<(string, Tree)> := [
    ("videoSent", Text("Aqui est\U{00E1} o v\U{00ED}deo que voc\U{00EA} pediu!"))
  ]

  /** The core table of src/i18n/translations/pt.ts. */
  const PtCore: seq<(string, Tree)> := [
    ("sticker", Node(PtCoreSticker)),
    ("commands", Node(PtCoreCommands)),
    ("video", Node(PtCoreVideo)),
    ("audio", Node(PtCoreAudio)),
    ("media", Node(PtCoreMedia))
  ]

  /** The en table of src/i18n/translations/commands/help.ts. */
  const HelpEn: seq<(string, Tree)> := [
    ("name", Text("help")),
    ("description", Text("Shows available commands and their usage")),
    ("usage", Text("/help [command]")),
    ("availableCommands", Text("*Available Commands:*")),
    ("moreDetails", Text("For more details about a command, type */help [command]*")),
    ("notFound", Text("Command not found: {command}. Type /help for available commands.")),
    ("commandDetails", Text("*Command details: `{name}`*\n{description}\n\n*Usage:*\n{usage}"))
  ]

  /** The es table of src/i18n/translations/commands/help.ts. */
  const HelpEs: seq<(string, Tree)> := [
    ("name", Text("help")),
    ("description", Text("Muestra los comandos disponibles y su uso")),
    ("usage", Text("/help [comando]")),
    ("availableCommands", Text("*Comandos Disponibles:*")),
    ("moreDetails", Text("Para m\U{00E1}s detalles sobre un comando, escribe */help [comando]*")),
    ("notFound", Text("Comando no encontrado: {command}. Escribe /help para ver los comandos disponibles.")),
    ("commandDetails", Text("*Detalles del comando: `{name}`*\n{description}\n\n*Uso:*\n{usage}"))
  ]

  /** The pt table of src/i18n/translations/commands/help.ts. */
  const HelpPt: seq<(string, Tree)> := [
    ("name", Text("help")),
    ("description", Text("Mostra os comandos dispon\U{00ED}veis e seu uso")),
    ("usage", Text("/help [comando]")),
    ("availableCommands", Text("*Comandos Dispon\U{00ED}veis:*")),
    ("moreDetails", Text("Para mais detalhes sobre um comando, digite */help [comando]*")),
    ("notFound", Text("Comando n\U{00E3}o encontrado: {command}. Digite /help para ver os comandos dispon\U{00ED}veis.")),
    ("commandDetails", Text("*Detalhes do comando: `{name}`*\n{description}\n\n*Uso:*\n{usage}"))
  ]

  /** The en table of src/i18n/translations/commands/audio.ts. */
  const AudioEn: seq<(string, Tree)> := [
    ("name", Text("audio")),
    ("description", Text("Downloads a video and sends it as audio")),
    ("usage", Text("/audio [video URL]"))
  ]

  /** The es table of src/i18n/translations/commands/audio.ts. */
  const AudioEs: seq<(string, Tree)> := [
    ("name", Text("audio")),
    ("description", Text("Descarga un video y lo env\U{00ED}a como audio")),
    ("usage", Text("/audio [URL del video]"))
  ]

  /** The pt table of src/i18n/translations/commands/audio.ts. */
  const AudioPt: seq<(string, Tree)> := [
    ("name", Text("audio")),
    ("description", Text("Baixa um v\U{00ED}deo e o envia como \U{00E1}udio")),
    ("usage", Text("/audio [URL do v\U{00ED}deo]"))
  ]

  /** The en table of src/i18n/translations/commands/sticker.ts. */
  const StickerEn: seq<(string, Tree)> := [
    ("name", Text("sticker")),
    ("description", Text("Converts media to a sticker")),
    ("usage", Text("/sticker or /s (caption on an image or video)")),
    ("success", Text("*Sticker successfully created and sent.*\n"))
  ]

  /** The es table of src/i18n/translations/commands/sticker.ts. */
  const StickerEs: seq<(string, Tree)> := [
    ("name", Text("sticker")),
    ("description", Text("Convierte medios a un sticker")),
    ("usage", Text("/sticker o /s (como caption en una imagen o video)"))
  ]

  /** The pt table of src/i18n/translations/commands/sticker.ts. */
  const StickerPt: seq<(string, Tree)> := [
    ("name", Text("sticker")),
    ("description", Text("Converte m\U{00ED}dia em um sticker")),
    ("usage", Text("/sticker ou /s (como legenda em uma imagem ou v\U{00ED}deo)"))
  ]

  /** The en table of src/i18n/translations/commands/video.ts. */
  const VideoEn: seq<(string, Tree)> := [
    ("name", Text("video")),
    ("description", Text("Downloads a video and sends it")),
    ("usage", Text("/video [video URL]"))
  ]

  /** The es table of src/i18n/translations/commands/video.ts. */
  const VideoEs: seq<(string, Tree)> := [
    ("name", Text("video")),
    ("description", Text("Descarga un video y lo env\U{00ED}a")),
    ("usage", Text("/video [URL del video]"))
  ]

  /** The pt table of src/i18n/translations/commands/video.ts. */
  const VideoPt: seq<(string, Tree)> := [
    ("name", Text("video")),
    ("description", Text("Baixa um v\U{00ED}deo e o envia")),
    ("usage", Text("/video [URL do v\U{00ED}deo]"))
  ]

}
