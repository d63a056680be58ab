/** SnackbarHelper.kt: a snackbar message is shown unless the same message
    was last shown at most 2500 ms earlier. */
module Snackbar {
  import opened Common

  /** The de-duplication window, in milliseconds, inclusive. */
  const DEDUPE_MILLIS: int := 2500

  /** The remembered last message and the time it was shown. */
  datatype DedupeState = DedupeState(lastMessage: Option<string>, lastTimestamp: int)

  /** The state the helper starts in: no message, timestamp 0. */
  const INITIAL: DedupeState := DedupeState(None, 0)

  /** The test made with a clock reading `now`: the same message, shown at
      most 2500 ms before `now`. */
  predicate Suppressed(s: DedupeState, message: string, now: int) {
    s.lastMessage.Some? && s.lastMessage.value == message && now - s.lastTimestamp <= DEDUPE_MILLIS
  }

  /** One call on one thread: the clock is read once before the lock and
      once inside it; the message is shown when neither test suppresses it,
      and the state then records it with the second reading. */
  function Shows(s: DedupeState, message: string, now: int, lockedNow: int): bool {
    !Suppressed(s, message, now) && !Suppressed(s, message, lockedNow)
  }

  function After(s: DedupeState, message: string, now: int, lockedNow: int): (t: DedupeState)
    ensures Shows(s, message, now, lockedNow) ==> t == DedupeState(Some(message), lockedNow)
    ensures !Shows(s, message, now, lockedNow) ==> t == s
  {
    if Shows(s, message, now, lockedNow) then DedupeState(Some(message), lockedNow) else s
  }

  /** `SnackbarHelper`, with the host's snackbar queue as `shown`. */
  class SnackbarHelper {
    var lastMessage: Option<string>
    var lastTimestamp: int
    var shown: seq<string>

    function State(): DedupeState
      reads this
    {
      DedupeState(lastMessage, lastTimestamp)
    }

    constructor()
      ensures State() == INITIAL && shown == []
    {
      lastMessage := None;
      lastTimestamp := 0;
      shown := [];
    }

    /** `showIfUnique(host, message)`, with the two clock readings passed
        in. */
    method ShowIfUnique(message: string, now: int, lockedNow: int) returns (didShow: bool)
      modifies this
      ensures didShow <==> Shows(old(State()), message, now, lockedNow)
      ensures State() == After(old(State()), message, now, lockedNow)
      ensures shown == old(shown) + (if didShow then [message] else [])
    {
      if lastMessage.Some? && lastMessage.value == message && now - lastTimestamp <= DEDUPE_MILLIS {
        return false;
      }
      var curPrev := lastMessage;
      var curPrevTs := lastTimestamp;
      if curPrev.Some? && curPrev.value == message && lockedNow - curPrevTs <= DEDUPE_MILLIS {
        return false;
      }
      lastMessage := Some(message);
      lastTimestamp := lockedNow;
      shown := shown + [message];
      return true;
    }
  }

  /** The first call on a fresh helper shows its message, at any time from
      the epoch up to 2500 ms after it included. */
  lemma FirstCallShows(message: string, now: int, lockedNow: int)
    ensures Shows(INITIAL, message, now, lockedNow)
  {
  }

  /** A message other than the last one is shown however little time has
      passed. */
  lemma DifferentMessageShows(s: DedupeState, message: string, now: int, lockedNow: int)
    requires s.lastMessage != Some(message)
    ensures Shows(s, message, now, lockedNow)
    ensures After(s, message, now, lockedNow) == DedupeState(Some(message), lockedNow)
  {
  }

  /** The window is inclusive: the same message 2500 ms later is dropped,
      2501 ms later it is shown again. */
  lemma WindowIsInclusive(message: string, shownAt: int)
    ensures !Shows(DedupeState(Some(message), shownAt), message, shownAt + DEDUPE_MILLIS, shownAt + DEDUPE_MILLIS)
    ensures Shows(DedupeState(Some(message), shownAt), message, shownAt + DEDUPE_MILLIS + 1, shownAt + DEDUPE_MILLIS + 1)
  {
  }

  /** The messages a sequence of single-clock calls shows, in order. */
  function ShownBy(s: DedupeState, message: string, times: seq<int>): seq<string>
    decreases |times|
  {
    if times == [] then []
    else
      var t := times[0];
      (if Shows(s, message, t, t) then [message] else []) + ShownBy(After(s, message, t, t), message, times[1..])
  }

  /** A burst of repeats of the message just shown, all within 2500 ms of it,
      shows nothing more, and the state keeps the first showing's time. */
  lemma {:induction false} BurstIsShownOnce(message: string, shownAt: int, times: seq<int>)
    requires forall i :: 0 <= i < |times| ==> times[i] <= shownAt + DEDUPE_MILLIS
    ensures ShownBy(DedupeState(Some(message), shownAt), message, times) == []
    decreases |times|
  {
    if times != [] {
      var s := DedupeState(Some(message), shownAt);
      assert !Shows(s, message, times[0], times[0]);
      assert After(s, message, times[0], times[0]) == s;
      BurstIsShownOnce(message, shownAt, times[1..]);
    }
  }

  /** Repeating one message at times more than 2500 ms apart shows it every
      time. */
  lemma {:induction false} SpacedRepeatsAllShow(message: string, s: DedupeState, times: seq<int>)
    requires s.lastMessage == Some(message) ==> |times| == 0 || times[0] - s.lastTimestamp > DEDUPE_MILLIS
    requires forall i :: 0 < i < |times| ==> times[i] - times[i - 1] > DEDUPE_MILLIS
    ensures |ShownBy(s, message, times)| == |times|
    decreases |times|
  {
    if times != [] {
      var t := times[0];
      assert Shows(s, message, t, t);
      var s' := After(s, message, t, t);
      assert s' == DedupeState(Some(message), t);
      forall i | 0 < i < |times[1..]| ensures times[1..][i] - times[1..][i - 1] > DEDUPE_MILLIS {
        assert times[1..][i] == times[i + 1] && times[1..][i - 1] == times[i];
      }
      SpacedRepeatsAllShow(message, s', times[1..]);
    }
  }
}
