/** The awaited calls the command handlers make, in the order they make them,
    and what an exception does to that order. A reply is recorded as the
    `t(path, replacements)` call that produces its text; the I18n module says
    what that text is. Which call throws, if any, is an input. */
module Effects {
  import opened Strings
  import opened Messages
  import opened Commands

  datatype Effect =
    | Reply(path: string, replacements: seq<(string, string)>)
    | Execute(run: Invocation)
    | Download(url: string)
    | SendVideo(path: string)
    | SendVideoFile(path: string)
    | CreateSticker(target: WAMessage, original: WAMessage, args: seq<string>)

  /** The awaited call at position `step` of a handler's planned calls throws
      an error with message `error`. */
  datatype Failure = Failure(step: nat, error: string)

  /** The failure hits one of the planned calls. */
  predicate Hits(body: seq<Effect>, failure: Option<Failure>) {
    failure.Some? && failure.value.step < |body|
  }

  /** The calls made before control leaves the `try` block: all of them, or
      those up to and including the one that throws. */
  function Attempted(body: seq<Effect>, failure: Option<Failure>): (r: seq<Effect>)
    ensures r <= body
    ensures Hits(body, failure) ==> |r| == failure.value.step + 1 && r[|r| - 1] == body[failure.value.step]
    ensures !Hits(body, failure) ==> |r| == |body|
  {
    if Hits(body, failure) then body[..failure.value.step + 1] else body
  }

  /** A `try` block whose `catch` makes the calls `recovery(error)`. */
  function TryCatch(body: seq<Effect>, failure: Option<Failure>, recovery: string -> seq<Effect>): (r: seq<Effect>)
    ensures Attempted(body, failure) <= r
    ensures !Hits(body, failure) ==> r == body
    ensures Hits(body, failure) ==>
      |r| == failure.value.step + 1 + |recovery(failure.value.error)| && r[failure.value.step + 1..] == recovery(failure.value.error)
  {
    Attempted(body, failure) + (if Hits(body, failure) then recovery(failure.value.error) else [])
  }

  /** The calls made are a prefix of the plan, followed by the recovery on a failure. */
  lemma TryCatchPrefix(body: seq<Effect>, failure: Option<Failure>, recovery: string -> seq<Effect>)
    ensures var r := TryCatch(body, failure, recovery);
      var n := if Hits(body, failure) then failure.value.step + 1 else |body|;
      n <= |r| && r[..n] == body[..n] && r[n..] == (if Hits(body, failure) then recovery(failure.value.error) else [])
  {
    var r := TryCatch(body, failure, recovery);
    if Hits(body, failure) {
      var n := failure.value.step + 1;
      assert r[..n] == body[..n];
    } else {
      assert body[..|body|] == body;
    }
  }
}
