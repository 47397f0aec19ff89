/**
 * The serial line protocol's outbound kill command, and how the kill
 * requests of one sale reach the port.
 */
module SerialProtocol {
  import opened Wrappers

  const DefaultKillPassword := "00000000"

  /** The frame written to the port to kill `tag`: `KILL:<tag>:<password>` and a newline. */
  function KillFrame(tag: string, password: string): string
  {
    "KILL:" + tag + ":" + password + "\n"
  }

  /** Position of the last ':' in `s`, or -1 when there is none. */
  function LastColon(s: string): (k: int)
    ensures -1 <= k < |s|
    ensures k >= 0 ==> s[k] == ':'
    ensures forall j :: k < j < |s| ==> s[j] != ':'
  {
    if s == [] then -1
    else if s[|s| - 1] == ':' then |s| - 1
    else LastColon(s[..|s| - 1])
  }

  /**
   * A decoder for kill frames that takes the password to be the text after the
   * last ':', so a tag may itself contain ':'.
   */
  function ParseKillFrame(frame: string): Option<(string, string)>
  {
    if |frame| >= 6 && frame[..5] == "KILL:" && frame[|frame| - 1] == '\n' then
      var body := frame[5..|frame| - 1];
      var k := LastColon(body);
      if k < 0 then None else Some((body[..k], body[k + 1..]))
    else None
  }

  /** A kill frame is read back as the tag and password it was built from, whenever the password has no ':'. */
  lemma KillFrameRoundTrip(tag: string, password: string)
    requires forall i :: 0 <= i < |password| ==> password[i] != ':'
    ensures ParseKillFrame(KillFrame(tag, password)) == Some((tag, password))
  {
    var frame := KillFrame(tag, password);
    var body := frame[5..|frame| - 1];
    assert body == tag + ":" + password;
    assert body[|tag|] == ':';
    assert LastColon(body) == |tag|;
    assert body[..|tag|] == tag;
    assert body[|tag| + 1..] == password;
  }

  /** Frames sent when each kill request waits for the previous write to finish: one per tag, in order. */
  function KillFrames(tags: seq<string>, password: string): seq<string>
  {
    if tags == [] then []
    else KillFrames(tags[..|tags| - 1], password) + [KillFrame(tags[|tags| - 1], password)]
  }

  /** Waiting for each write, every tag of the sale gets its own frame, in cart order. */
  lemma {:induction false} KillFramesOnePerTag(tags: seq<string>, password: string)
    ensures |KillFrames(tags, password)| == |tags|
    ensures forall i :: 0 <= i < |tags| ==> KillFrames(tags, password)[i] == KillFrame(tags[i], password)
    decreases |tags|
  {
    if tags != [] {
      KillFramesOnePerTag(tags[..|tags| - 1], password);
    }
  }

  /** What became of one kill request. */
  datatype KillAttempt = Sent(frame: string) | WriteFailed(tag: string)

  /**
   * Kill requests started back to back without waiting: each takes the port's writer
   * and keeps it until its write has completed, which is only after all of them have
   * started. `locked` says whether the writer is already taken.
   */
  function KillWithoutAwait(tags: seq<string>, password: string, locked: bool): (attempts: seq<KillAttempt>)
    ensures |attempts| == |tags|
    decreases |tags|
  {
    if tags == [] then []
    else if locked then [WriteFailed(tags[0])] + KillWithoutAwait(tags[1..], password, true)
    else [Sent(KillFrame(tags[0], password))] + KillWithoutAwait(tags[1..], password, true)
  }

  /** How many attempts reached the port. */
  function SentCount(attempts: seq<KillAttempt>): nat
  {
    if attempts == [] then 0 else (if attempts[0].Sent? then 1 else 0) + SentCount(attempts[1..])
  }

  /** Started back to back, at most the first kill request reaches the port. */
  lemma {:induction false} KillWithoutAwaitSendsAtMostOne(tags: seq<string>, password: string, locked: bool)
    ensures SentCount(KillWithoutAwait(tags, password, locked)) == if locked || tags == [] then 0 else 1
    decreases |tags|
  {
    if tags != [] {
      KillWithoutAwaitSendsAtMostOne(tags[1..], password, true);
    }
  }

  /** A sale of two items: only the first tag's kill frame is written, the second request fails. */
  lemma SecondKillOfSaleFails(a: string, b: string, password: string)
    ensures KillWithoutAwait([a, b], password, false) == [Sent(KillFrame(a, password)), WriteFailed(b)]
    ensures KillFrames([a, b], password) == [KillFrame(a, password), KillFrame(b, password)]
  {
    assert [a, b][1..] == [b];
    assert [a, b][1..][1..] == [];
    assert [a, b][..1] == [a];
    assert [a][..0] == [];
    assert KillFrames([a], password) == [KillFrame(a, password)];
  }
}
