/** `handleVideoCommand` of src/commands/video.ts. The downloader's result
    and which awaited call throws, with what message, are inputs. */
module VideoCommand {
  import opened Strings
  import opened Effects

  /** What `downloadYouTubeMedia(url, false)` resolves to: a bare path, or a
      file path with the choice of sending it as a document. */
  datatype DownloadResult = PathOnly(path: string) | Downloaded(filePath: string, sendAsFile: bool)

  /** The reply for a download error, chosen by the error's message text. */
  function ErrorReply(message: string): (path: string)
    ensures path in {"video.fileTooLarge", "video.unsupportedFormat", "video.downloadError"}
    ensures path == "video.fileTooLarge" <==> Contains(message, "File too large") || Contains(message, "max-filesize")
    ensures path == "video.downloadError" <==>
      !Contains(message, "File too large") && !Contains(message, "max-filesize")
      && !Contains(message, "No formats found") && !Contains(message, "not available")
  {
    if Contains(message, "File too large") || Contains(message, "max-filesize") then "video.fileTooLarge"
    else if Contains(message, "No formats found") || Contains(message, "not available") then "video.unsupportedFormat"
    else "video.downloadError"
  }

  /** The calls after the download: a status message and the send that
      matches the result's shape. */
  function Deliver(result: DownloadResult): (r: seq<Effect>)
    ensures 1 <= |r| <= 2 && (|r| == 2 <==> result.Downloaded?)
    ensures forall i :: 0 <= i < |r| - 1 ==> r[i].Reply?
    ensures r[|r| - 1].SendVideo? || r[|r| - 1].SendVideoFile?
    ensures r[|r| - 1].path == (if result.PathOnly? then result.path else result.filePath)
    ensures r[|r| - 1].SendVideoFile? <==> result.Downloaded? && result.sendAsFile
    ensures |r| == 2 ==> r[0] == Reply(if result.sendAsFile then "video.downloadCompleteAsFile" else "video.downloadComplete", [])
  {
    match result
    case PathOnly(path) => [SendVideo(path)]
    case Downloaded(filePath, sendAsFile) =>
      if sendAsFile then [Reply("video.downloadCompleteAsFile", []), SendVideoFile(filePath)]
      else [Reply("video.downloadComplete", []), SendVideo(filePath)]
  }

  /** The calls the command plans when nothing throws. */
  function Plan(args: seq<string>, result: DownloadResult): (r: seq<Effect>)
    ensures |r| >= 1 && (|r| == 1 <==> |args| == 0)
    ensures r[0] == if |args| == 0 then Reply("video.noUrl", []) else Reply("video.providedUrl", [("url", args[0])])
    ensures forall i :: 0 <= i < |r| && r[i].Download? ==> i == 1 && |args| > 0 && r[i].url == args[0]
    ensures |args| > 0 ==> r[1] == Download(args[0]) && r[2..] == Deliver(result)
  {
    if |args| == 0 then [Reply("video.noUrl", [])]
    else [Reply("video.providedUrl", [("url", args[0])]), Download(args[0])] + Deliver(result)
  }

  /** `handleVideoCommand(socket, message, args)`. A throw from the first
      reply reaches the outer `catch` (`generalError`); a throw from the
      download or any later call reaches the inner one, whose reply depends
      on the error message. */
  function HandleVideo(args: seq<string>, result: DownloadResult, failure: Option<Failure>): (r: seq<Effect>)
    ensures !Hits(Plan(args, result), failure) ==> r == Plan(args, result)
    ensures Hits(Plan(args, result), failure) && failure.value.step == 0 ==>
      r == [Plan(args, result)[0], Reply("video.generalError", [])]
    ensures Hits(Plan(args, result), failure) && failure.value.step > 0 ==>
      r == Plan(args, result)[..failure.value.step + 1] + [Reply(ErrorReply(failure.value.error), [])]
  {
    var plan := Plan(args, result);
    if Hits(plan, failure) && failure.value.step == 0 then
      TryCatch(plan, failure, _ => [Reply("video.generalError", [])])
    else
      TryCatch(plan, failure, error => [Reply(ErrorReply(error), [])])
  }

  /** Without arguments only `noUrl` is sent and nothing is downloaded. */
  lemma NoUrl(result: DownloadResult, failure: Option<Failure>)
    ensures var r := HandleVideo([], result, failure);
      r[0] == Reply("video.noUrl", []) && forall i :: 0 <= i < |r| ==> !r[i].Download?
  {
    var plan := Plan([], result);
    if Hits(plan, failure) {
      assert HandleVideo([], result, failure) == [Reply("video.noUrl", []), Reply("video.generalError", [])];
    }
  }

  /** With a URL and nothing throwing, `providedUrl` naming the first
      argument comes first, then the download, then the status message and
      the send. */
  lemma WithUrl(args: seq<string>, result: DownloadResult)
    requires |args| > 0
    ensures HandleVideo(args, result, None) == Plan(args, result)
    ensures HandleVideo(args, result, None)[..2] == [Reply("video.providedUrl", [("url", args[0])]), Download(args[0])]
  {
  }

  /** A download that throws ends with the reply its message selects, right
      after the download call, and nothing is sent. */
  lemma DownloadFails(args: seq<string>, result: DownloadResult, error: string)
    requires |args| > 0
    ensures HandleVideo(args, result, Some(Failure(1, error))) ==
      [Reply("video.providedUrl", [("url", args[0])]), Download(args[0]), Reply(ErrorReply(error), [])]
  {
    var plan := Plan(args, result);
    assert plan[..2] == [Reply("video.providedUrl", [("url", args[0])]), Download(args[0])];
  }

  /** A throw from the first reply yields `generalError` and nothing else. */
  lemma FirstReplyFails(args: seq<string>, result: DownloadResult, error: string)
    ensures var first := if |args| == 0 then Reply("video.noUrl", []) else Reply("video.providedUrl", [("url", args[0])]);
      HandleVideo(args, result, Some(Failure(0, error))) == [first, Reply("video.generalError", [])]
  {
    var plan := Plan(args, result);
    assert plan[..1] == [plan[0]];
  }

  /** "File too large" outranks "not available" when both occur. */
  lemma SizeBeforeFormat(a: string, b: string)
    ensures ErrorReply(a + "File too large" + b + "not available") == "video.fileTooLarge"
  {
    ContainsPiece(a, "File too large", b + "not available");
    assert a + "File too large" + (b + "not available") == a + "File too large" + b + "not available";
  }
}
