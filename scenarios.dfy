/**
 * Sequences of user actions and engine events run against one controller,
 * with what the page ends up in. Each controller is built with the browser
 * features the scenario needs, and with both DOM elements present.
 */
module Scenarios {
  import opened Wrappers
  import opened Player

  /**
   * A fatal hls.js error outside the network and media types destroys the
   * engine but leaves it as the current player; selecting another channel
   * then destroys it a second time.
   */
  method FatalErrorThenReselect(first: string, second: string)
    returns (keptAfterError: bool, calls: seq<EngineCall>)
    requires IsHlsUrl(first)
    ensures keptAfterError
    ensures calls == [SourceLoaded(first), MediaAttached, Destroyed, Destroyed]
    ensures CallCount(calls, Destroyed) == 2
  {
    var c := new Controller(true, true, true, false, true);
    c.PlayChannel(first);
    var hls := c.currentPlayer.hls;
    c.OnHlsError(hls, true, "otherError", "internalException");
    keptAfterError := c.currentPlayer == Hls(hls);
    c.PlayChannel(second);
    calls := hls.calls;
    var loaded := [SourceLoaded(first), MediaAttached];
    CallCountAppend([], SourceLoaded(first), Destroyed);
    CallCountAppend([SourceLoaded(first)], MediaAttached, Destroyed);
    CallCountAppend(loaded, Destroyed, Destroyed);
    CallCountAppend(loaded + [Destroyed], Destroyed, Destroyed);
    assert [] + [SourceLoaded(first)] == [SourceLoaded(first)];
    assert loaded + [Destroyed] + [Destroyed] == calls;
  }

  /**
   * Every automatic restart goes through channel selection, which resets the
   * retry counter: an MPEG-TS stream whose playback is rejected every time is
   * restarted after 2000 ms again and again, and the final failure message
   * never appears.
   */
  method RestartAfterEveryRejection(url: string, rounds: nat)
    returns (delays: seq<int>, message: string)
    requires !IsHlsUrl(url)
    ensures |delays| == rounds
    ensures forall k :: 0 <= k < rounds ==> delays[k] == RetryDelayStepMs
    ensures message == ""
  {
    var c := new Controller(true, true, false, false, true);
    c.PlayChannel(url);
    delays := [];
    var n := 0;
    while n < rounds
      invariant 0 <= n <= rounds && |delays| == n
      invariant c.Valid() && c.retryCount == 0 && c.errorText == ""
      invariant fresh(EngineOf(c.currentPlayer))
      invariant forall k :: 0 <= k < n ==> delays[k] == RetryDelayStepMs
    {
      var scheduled := c.OnMpegtsPlay(url, false);
      // the timer fires and replays the same URL
      c.PlayChannel(scheduled.value.url);
      delays := delays + [scheduled.value.delayMs];
      n := n + 1;
    }
    message := c.errorText;
  }

  /**
   * Network errors of one MPEG-TS session that arrive before a restart runs
   * are answered by restarts after 2000, 4000 and 6000 ms; the fourth
   * reports the final failure and schedules nothing.
   */
  method NetworkErrorsWithinOneSession(url: string)
    returns (delays: seq<int>, fourth: Option<ScheduledRetry>, message: string)
    requires !IsHlsUrl(url)
    ensures delays == [2000, 4000, 6000]
    ensures fourth == None
    ensures message == RetriesExhaustedMessage
  {
    var c := new Controller(true, true, false, false, true);
    c.PlayChannel(url);
    var first := c.OnMpegtsError(url, MpegtsNetworkError);
    var second := c.OnMpegtsError(url, MpegtsNetworkError);
    var third := c.OnMpegtsError(url, MpegtsNetworkError);
    fourth := c.OnMpegtsError(url, MpegtsNetworkError);
    delays := [first.value.delayMs, second.value.delayMs, third.value.delayMs];
    message := c.errorText;
  }

  /** Buffer settings changed while nothing plays are stored and configure the next HLS session. */
  method BufferSettingsBeforePlayback(url: string, newBufferLength: int, newMaxBufferLength: int)
    returns (config: HlsConfig)
    requires IsHlsUrl(url)
    ensures config == SessionHlsConfig(newBufferLength, newMaxBufferLength)
  {
    var c := new Controller(true, true, true, false, true);
    c.UpdateBufferSettings(newBufferLength, newMaxBufferLength);
    c.PlayChannel(url);
    config := c.currentPlayer.hls.config;
  }

  /**
   * Buffer settings changed during an HLS session reach the live engine as
   * the maximum length in both buffer fields; the target length is not pushed.
   */
  method BufferSettingsDuringPlayback(url: string, newBufferLength: int, newMaxBufferLength: int)
    returns (config: HlsConfig)
    requires IsHlsUrl(url)
    ensures config.maxBufferLength == newMaxBufferLength
    ensures config.maxMaxBufferLength == newMaxBufferLength
    ensures config == SessionHlsConfig(newMaxBufferLength, newMaxBufferLength)
  {
    var c := new Controller(true, true, true, false, true);
    c.PlayChannel(url);
    c.UpdateBufferSettings(newBufferLength, newMaxBufferLength);
    config := c.currentPlayer.hls.config;
  }

  /**
   * The watchdog asks a stalled hls.js engine to recover; once a fatal error
   * has destroyed the engine it finds no media and asks nothing more.
   */
  method WatchdogBeforeAndAfterFatalError(url: string)
    returns (recoveriesBefore: nat, recoveriesAfter: nat)
    requires IsHlsUrl(url)
    ensures recoveriesBefore == 1 && recoveriesAfter == 1
  {
    var c := new Controller(true, true, true, false, true);
    c.PlayChannel(url);
    var hls := c.currentPlayer.hls;
    c.WatchdogTick(0);
    recoveriesBefore := CallCount(hls.calls, MediaRecovered);
    c.OnHlsError(hls, true, "otherError", "internalException");
    c.WatchdogTick(0);
    recoveriesAfter := CallCount(hls.calls, MediaRecovered);
    var loaded := [SourceLoaded(url), MediaAttached];
    CallCountAppend([], SourceLoaded(url), MediaRecovered);
    CallCountAppend([SourceLoaded(url)], MediaAttached, MediaRecovered);
    CallCountAppend(loaded, MediaRecovered, MediaRecovered);
    CallCountAppend(loaded + [MediaRecovered], Destroyed, MediaRecovered);
    assert [] + [SourceLoaded(url)] == [SourceLoaded(url)];
  }

  /**
   * Native HLS playback assigns the URL to the video element and records
   * no current player, so the next selection has nothing to destroy.
   */
  method NativeFallback(url: string, next: string)
    returns (source: Option<string>, hasPlayer: bool, nextHasPlayer: bool)
    requires IsHlsUrl(url) && IsHlsUrl(next)
    ensures source == Some(url) && !hasPlayer && !nextHasPlayer
  {
    var c := new Controller(true, true, false, true, false);
    c.PlayChannel(url);
    source := c.videoSource;
    hasPlayer := c.currentPlayer != NoPlayer;
    c.PlayChannel(next);
    nextHasPlayer := c.currentPlayer != NoPlayer;
  }

  /**
   * The counter is shared by whatever reports a retryable failure: a late
   * `play()` rejection from the MPEG-TS player of an earlier selection
   * schedules a restart of the old URL, and it uses up one retry of the
   * session that replaced it.
   */
  method StaleRejectionCounts(oldUrl: string, newUrl: string)
    returns (scheduled: Option<ScheduledRetry>, count: nat)
    requires !IsHlsUrl(oldUrl) && !IsHlsUrl(newUrl)
    ensures scheduled == Some(ScheduledRetry(oldUrl, RetryDelayStepMs))
    ensures count == 1
  {
    var c := new Controller(true, true, false, false, true);
    c.PlayChannel(oldUrl);
    c.PlayChannel(newUrl);
    scheduled := c.OnMpegtsPlay(oldUrl, false);
    count := c.retryCount;
  }
}
