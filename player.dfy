/**
 * The session controller of the IPTV player: it owns the single current
 * playback engine (hls.js for HLS manifests, mpegts.js for everything else),
 * restarts MPEG-TS playback after failures with a linear back-off, reacts to
 * engine errors, pushes buffer settings into a live HLS engine, runs the
 * stalled-playback watchdog and writes the single-slot error display.
 *
 * The engines are modelled as objects that record the calls made on them.
 * Browser capabilities and the presence of DOM elements are fixed when the
 * controller is built. Engine and video callbacks are methods the event loop
 * calls; a timer is modelled by the value describing what it would run.
 */
module Player {
  import opened Wrappers
  import opened JsString
  import opened Playlist

  const MaxRetries: nat := 3
  /** The restart after the n-th retry is scheduled `n * RetryDelayStepMs` milliseconds later. */
  const RetryDelayStepMs: nat := 2000
  const DefaultBufferLength: int := 30
  const DefaultMaxBufferLength: int := 60
  const HlsManifestMarker: string := ".m3u8"
  /** The mpegts.js error type that triggers a retry. */
  const MpegtsNetworkError: string := "NetworkError"
  const RetriesExhaustedMessage: string :=
    "Failed to play the channel after multiple attempts. Please try again later."
  const HlsUnsupportedMessage: string := "Your browser does not support HLS"
  const MpegtsUnsupportedMessage: string := "Your browser does not support MPEG-TS"
  const UserAgent: string :=
    "Mozilla/5.0 (Windows NT 10.0; Win64; x64) AppleWebKit/537.36 (KHTML, like Gecko) Chrome/91.0.4472.124 Safari/537.36"

  /** A call made on an engine, as recorded in its log. */
  datatype EngineCall =
    | SourceLoaded(url: string)
    | MediaAttached
    | LoadStarted
    | MediaRecovered
    | Loaded
    | PlayRequested
    | Destroyed

  /** The hls.js configuration fields the player sets. */
  datatype HlsConfig = HlsConfig(
    maxBufferLength: int,
    maxMaxBufferLength: int,
    maxBufferSize: int,
    maxBufferHole: real,
    lowLatencyMode: bool)

  /** The configuration an HLS session starts with: the buffer settings plus fixed tuning. */
  function SessionHlsConfig(bufferLength: int, maxBufferLength: int): HlsConfig {
    HlsConfig(bufferLength, maxBufferLength, 60 * 1000 * 1000, 0.5, true)
  }

  /** The mpegts.js media data source and configuration the player passes. */
  datatype MpegtsConfig = MpegtsConfig(
    mediaType: string,
    url: string,
    isLive: bool,
    enableStashBuffer: bool,
    stashInitialSize: int,
    enableWorker: bool,
    lazyLoad: bool,
    autoCleanupSourceBuffer: bool,
    userAgent: string)

  /** The configuration an MPEG-TS session starts with: live, low-latency ingestion of `url`. */
  function SessionMpegtsConfig(url: string): MpegtsConfig {
    MpegtsConfig("mpegts", url, true, false, 128, true, false, true, UserAgent)
  }

  /** How many times `call` occurs in `log`. */
  function CallCount(log: seq<EngineCall>, call: EngineCall): (n: nat)
    ensures n <= |log|
    ensures n == 0 <==> call !in log
  {
    if log == [] then 0
    else (if log[0] == call then 1 else 0) + CallCount(log[1..], call)
  }

  /** Recording one more call raises the count of that call by one and leaves the others alone. */
  lemma {:induction false} CallCountAppend(log: seq<EngineCall>, next: EngineCall, call: EngineCall)
    ensures CallCount(log + [next], call) == CallCount(log, call) + (if next == call then 1 else 0)
  {
    if log != [] {
      assert (log + [next])[1..] == log[1..] + [next];
      CallCountAppend(log[1..], next, call);
    }
  }

  /** An hls.js instance, seen through its configuration object, its call log and its `media`. */
  class HlsEngine {
    var config: HlsConfig
    var calls: seq<EngineCall>
    /** Whether `media` refers to a video element (hls.js clears it on `destroy`). */
    var mediaAttached: bool

    constructor (config: HlsConfig)
      ensures this.config == config && calls == [] && !mediaAttached
    {
      this.config := config;
      calls := [];
      mediaAttached := false;
    }

    method LoadSource(url: string)
      modifies this
      ensures calls == old(calls) + [SourceLoaded(url)]
      ensures config == old(config) && mediaAttached == old(mediaAttached)
    {
      calls := calls + [SourceLoaded(url)];
    }

    method AttachMedia()
      modifies this
      ensures calls == old(calls) + [MediaAttached]
      ensures config == old(config) && mediaAttached
    {
      calls := calls + [MediaAttached];
      mediaAttached := true;
    }

    /** Reloads from the current position after a network failure. */
    method StartLoad()
      modifies this
      ensures calls == old(calls) + [LoadStarted]
      ensures config == old(config) && mediaAttached == old(mediaAttached)
    {
      calls := calls + [LoadStarted];
    }

    /** Resets the decoding pipeline after a media failure. */
    method RecoverMediaError()
      modifies this
      ensures calls == old(calls) + [MediaRecovered]
      ensures config == old(config) && mediaAttached == old(mediaAttached)
    {
      calls := calls + [MediaRecovered];
    }

    method Destroy()
      modifies this
      ensures calls == old(calls) + [Destroyed]
      ensures config == old(config) && !mediaAttached
    {
      calls := calls + [Destroyed];
      mediaAttached := false;
    }
  }

  /** An mpegts.js player, seen through its fixed configuration and its call log. */
  class MpegtsEngine {
    const config: MpegtsConfig
    var calls: seq<EngineCall>

    constructor (config: MpegtsConfig)
      ensures this.config == config && calls == []
    {
      this.config := config;
      calls := [];
    }

    method AttachMediaElement()
      modifies this
      ensures calls == old(calls) + [MediaAttached]
    {
      calls := calls + [MediaAttached];
    }

    method Load()
      modifies this
      ensures calls == old(calls) + [Loaded]
    {
      calls := calls + [Loaded];
    }

    /** Starts playback; whether the returned promise rejects is reported later, by the event loop. */
    method Play()
      modifies this
      ensures calls == old(calls) + [PlayRequested]
    {
      calls := calls + [PlayRequested];
    }

    method Destroy()
      modifies this
      ensures calls == old(calls) + [Destroyed]
    {
      calls := calls + [Destroyed];
    }
  }

  /** `currentPlayer`: no engine, an hls.js engine, or an mpegts.js engine. */
  datatype CurrentPlayer = NoPlayer | Hls(hls: HlsEngine) | Mpegts(mpegts: MpegtsEngine)

  /** The engine object a player value refers to, as a frame. */
  function EngineOf(player: CurrentPlayer): set<object> {
    match player
    case NoPlayer => {}
    case Hls(e) => {e}
    case Mpegts(e) => {e}
  }

  /** The values of `Hls.ErrorTypes` the player distinguishes; every other type is handled alike. */
  const HlsNetworkError: string := "networkError"
  const HlsMediaError: string := "mediaError"

  /** A restart of `url` that a timer will run after `delayMs` milliseconds. */
  datatype ScheduledRetry = ScheduledRetry(url: string, delayMs: int)

  /** URL classification: a URL containing `.m3u8` anywhere is played as HLS. */
  predicate IsHlsUrl(url: string) {
    Contains(url, HlsManifestMarker)
  }

  /** The test is a substring test: `.m3u8` may sit anywhere in the URL, not only at its end. */
  lemma HlsUrlIff(url: string)
    ensures IsHlsUrl(url) <==> exists i :: OccursAt(url, HlsManifestMarker, i)
  {
    ContainsIff(url, HlsManifestMarker);
  }

  /** A URL with `.m3u8` followed by a query string is still classified as HLS. */
  lemma HlsMarkerAnywhere(before: string, after: string)
    ensures IsHlsUrl(before + HlsManifestMarker + after)
  {
    var url := before + HlsManifestMarker + after;
    assert url[|before|..|before| + |HlsManifestMarker|] == HlsManifestMarker;
    assert OccursAt(url, HlsManifestMarker, |before|);
    HlsUrlIff(url);
  }

  /** The classification examples: an `.m3u8` URL takes the HLS path, a `.ts` URL the MPEG-TS path. */
  lemma ClassificationExamples()
    ensures IsHlsUrl("http://x/y.m3u8")
    ensures !IsHlsUrl("http://x/y.ts")
  {
    HlsMarkerAnywhere("http://x/y", "");
    assert "http://x/y" + HlsManifestMarker + "" == "http://x/y.m3u8";
    var ts := "http://x/y.ts";
    HlsUrlIff(ts);
    forall i | 0 <= i <= |ts| - |HlsManifestMarker| ensures !OccursAt(ts, HlsManifestMarker, i) {
      assert ts[i..i + 5][0] == ts[i];
      assert ts[i] != '.' by {
        assert i in {0, 1, 2, 3, 4, 5, 6, 7, 8};
      }
    }
  }

  /** The module-level state of the player page and the functions that change it. */
  class Controller {
    // Fixed when the page loads: which DOM elements exist and what the browser supports.
    const hasVideoContainer: bool
    const hasErrorElement: bool
    /** `Hls.isSupported()`. */
    const hlsSupported: bool
    /** `video.canPlayType('application/vnd.apple.mpegurl')` is non-empty. */
    const canPlayNativeHls: bool
    /** `mpegts.getFeatureList().mseLivePlayback`. */
    const mseLivePlayback: bool

    var currentPlayer: CurrentPlayer
    var channels: seq<Channel>
    var retryCount: nat
    var bufferLength: int
    var maxBufferLength: int
    /** The text of the error display. */
    var errorText: string
    /** The `src` assigned directly to the video element (native HLS playback), if any. */
    var videoSource: Option<string>

    ghost predicate Valid()
      reads this
    {
      retryCount <= MaxRetries
    }

    /** The error display after writing `message` to it (nothing happens without the element). */
    function Shown(previous: string, message: string): string {
      if hasErrorElement then message else previous
    }

    constructor (hasVideoContainer: bool, hasErrorElement: bool, hlsSupported: bool,
                 canPlayNativeHls: bool, mseLivePlayback: bool)
      ensures Valid()
      ensures this.hasVideoContainer == hasVideoContainer && this.hasErrorElement == hasErrorElement
      ensures this.hlsSupported == hlsSupported && this.canPlayNativeHls == canPlayNativeHls
      ensures this.mseLivePlayback == mseLivePlayback
      ensures currentPlayer == NoPlayer && channels == [] && retryCount == 0
      ensures bufferLength == DefaultBufferLength && maxBufferLength == DefaultMaxBufferLength
      ensures errorText == "" && videoSource == None
    {
      this.hasVideoContainer := hasVideoContainer;
      this.hasErrorElement := hasErrorElement;
      this.hlsSupported := hlsSupported;
      this.canPlayNativeHls := canPlayNativeHls;
      this.mseLivePlayback := mseLivePlayback;
      currentPlayer := NoPlayer;
      channels := [];
      retryCount := 0;
      bufferLength := DefaultBufferLength;
      maxBufferLength := DefaultMaxBufferLength;
      errorText := "";
      videoSource := None;
    }

    // ----- Error reporter -----

    /** `showError`: the single slot takes the new message; the last write wins. */
    method ShowError(message: string)
      modifies this`errorText
      ensures errorText == Shown(old(errorText), message)
    {
      if hasErrorElement {
        errorText := message;
      }
    }

    /** `clearError`: the slot is emptied. */
    method ClearError()
      modifies this`errorText
      ensures errorText == Shown(old(errorText), "")
    {
      if hasErrorElement {
        errorText := "";
      }
    }

    // ----- Playlist loading (the effect of a completed file read or fetch) -----

    /** The channel list is replaced wholesale by the parsed playlist. */
    method LoadPlaylist(content: string)
      modifies this`channels
      ensures channels == Parse(content)
    {
      channels := ParseM3U(content);
    }

    /** A failed fetch is reported; the channel list stays as it was. */
    method ReportLoadFailure(reason: string)
      modifies this`errorText
      ensures errorText == Shown(old(errorText), "Error loading M3U: " + reason)
    {
      ShowError("Error loading M3U: " + reason);
    }

    // ----- Session controller -----

    /**
     * `playChannel`: clears the error, resets the retry counter, destroys and
     * drops the current engine, and then (when the video container exists)
     * starts a new session on a fresh video element, choosing HLS or MPEG-TS
     * by the URL.
     */
    method PlayChannel(url: string)
      requires Valid()
      modifies this, EngineOf(currentPlayer)
      ensures Valid() && retryCount == 0
      ensures channels == old(channels)
      ensures bufferLength == old(bufferLength) && maxBufferLength == old(maxBufferLength)
      // the previous engine is destroyed, once, and otherwise left as it was
      ensures old(currentPlayer).Hls? ==>
                && old(currentPlayer).hls.calls == old(currentPlayer.hls.calls) + [Destroyed]
                && old(currentPlayer).hls.config == old(currentPlayer.hls.config)
                && !old(currentPlayer).hls.mediaAttached
      ensures old(currentPlayer).Mpegts? ==>
                old(currentPlayer).mpegts.calls == old(currentPlayer.mpegts.calls) + [Destroyed]
      // the new current player is the single engine built by this call, or none
      ensures currentPlayer.Hls? <==> hasVideoContainer && IsHlsUrl(url) && hlsSupported
      ensures currentPlayer.Mpegts? <==> hasVideoContainer && !IsHlsUrl(url) && mseLivePlayback
      ensures currentPlayer.Hls? ==>
                && fresh(currentPlayer.hls)
                && currentPlayer.hls.config == SessionHlsConfig(bufferLength, maxBufferLength)
                && currentPlayer.hls.calls == [SourceLoaded(url), MediaAttached]
                && currentPlayer.hls.mediaAttached
      ensures currentPlayer.Mpegts? ==>
                && fresh(currentPlayer.mpegts)
                && currentPlayer.mpegts.config == SessionMpegtsConfig(url)
                && currentPlayer.mpegts.calls == [MediaAttached, Loaded, PlayRequested]
      ensures videoSource ==
                if !hasVideoContainer then old(videoSource)
                else if IsHlsUrl(url) && !hlsSupported && canPlayNativeHls then Some(url)
                else None
      ensures errorText == Shown(old(errorText),
                if hasVideoContainer && IsHlsUrl(url) && !hlsSupported && !canPlayNativeHls
                then HlsUnsupportedMessage
                else if hasVideoContainer && !IsHlsUrl(url) && !mseLivePlayback
                then MpegtsUnsupportedMessage
                else "")
    {
      ClearError();
      retryCount := 0;
      match currentPlayer {
        case NoPlayer =>
        case Hls(e) => e.Destroy();
        case Mpegts(e) => e.Destroy();
      }
      currentPlayer := NoPlayer;
      if !hasVideoContainer {
        return;
      }
      videoSource := None;
      if IsHlsUrl(url) {
        PlayHls(url);
      } else {
        PlayMpegts(url);
      }
    }

    /**
     * `playHLS`: with hls.js, a fresh engine configured from the buffer
     * settings loads the URL and attaches to the video; otherwise native
     * playback gets the URL as `src`; otherwise the error is reported.
     * Only the hls.js branch sets the current player.
     */
    method PlayHls(url: string)
      requires currentPlayer == NoPlayer
      modifies this`currentPlayer, this`videoSource, this`errorText
      ensures currentPlayer.Hls? <==> hlsSupported
      ensures currentPlayer.Hls? ==>
                && fresh(currentPlayer.hls)
                && currentPlayer.hls.config == SessionHlsConfig(bufferLength, maxBufferLength)
                && currentPlayer.hls.calls == [SourceLoaded(url), MediaAttached]
                && currentPlayer.hls.mediaAttached
      ensures !currentPlayer.Hls? ==> currentPlayer == NoPlayer
      ensures videoSource == if !hlsSupported && canPlayNativeHls then Some(url) else old(videoSource)
      ensures errorText ==
                if !hlsSupported && !canPlayNativeHls then Shown(old(errorText), HlsUnsupportedMessage)
                else old(errorText)
    {
      if hlsSupported {
        var hls := new HlsEngine(SessionHlsConfig(bufferLength, maxBufferLength));
        hls.LoadSource(url);
        hls.AttachMedia();
        currentPlayer := Hls(hls);
      } else if canPlayNativeHls {
        videoSource := Some(url);
      } else {
        ShowError(HlsUnsupportedMessage);
      }
    }

    /**
     * `playMPEGTS`: with MSE live playback, a fresh live engine for the URL
     * attaches to the video, loads and plays, and becomes the current player;
     * otherwise the error is reported.
     */
    method PlayMpegts(url: string)
      requires currentPlayer == NoPlayer
      modifies this`currentPlayer, this`errorText
      ensures currentPlayer.Mpegts? <==> mseLivePlayback
      ensures currentPlayer.Mpegts? ==>
                && fresh(currentPlayer.mpegts)
                && currentPlayer.mpegts.config == SessionMpegtsConfig(url)
                && currentPlayer.mpegts.calls == [MediaAttached, Loaded, PlayRequested]
      ensures !currentPlayer.Mpegts? ==> currentPlayer == NoPlayer
      ensures errorText ==
                if mseLivePlayback then old(errorText) else Shown(old(errorText), MpegtsUnsupportedMessage)
    {
      if mseLivePlayback {
        var player := new MpegtsEngine(SessionMpegtsConfig(url));
        player.AttachMediaElement();
        player.Load();
        player.Play();
        currentPlayer := Mpegts(player);
      } else {
        ShowError(MpegtsUnsupportedMessage);
      }
    }

    /**
     * `retryPlayback`: below the limit the counter goes up by one and a
     * restart of the same URL is scheduled after `2000 * retryCount` ms; at
     * the limit the final failure is reported and nothing is scheduled.
     */
    method RetryPlayback(url: string) returns (scheduled: Option<ScheduledRetry>)
      requires Valid()
      modifies this`retryCount, this`errorText
      ensures Valid()
      ensures old(retryCount) < MaxRetries ==>
                && retryCount == old(retryCount) + 1
                && scheduled == Some(ScheduledRetry(url, RetryDelayStepMs * retryCount))
                && errorText == old(errorText)
      ensures old(retryCount) == MaxRetries ==>
                && retryCount == old(retryCount)
                && scheduled == None
                && errorText == Shown(old(errorText), RetriesExhaustedMessage)
    {
      if retryCount < MaxRetries {
        retryCount := retryCount + 1;
        scheduled := Some(ScheduledRetry(url, RetryDelayStepMs * retryCount));
      } else {
        ShowError(RetriesExhaustedMessage);
        scheduled := None;
      }
    }

    // ----- Engine and video callbacks -----

    /**
     * The hls.js ERROR handler of the session that built `hls` (which need
     * not be the current player any more): a non-fatal error changes nothing;
     * a fatal one is reported and answered by `startLoad` (network),
     * `recoverMediaError` (media) or `destroy` (anything else). The current
     * player and the retry counter are never touched.
     */
    method OnHlsError(hls: HlsEngine, fatal: bool, errorType: string, details: string)
      modifies this`errorText, hls
      ensures currentPlayer == old(currentPlayer) && retryCount == old(retryCount)
      ensures hls.config == old(hls.config)
      ensures !fatal ==>
                errorText == old(errorText) && hls.calls == old(hls.calls)
                && hls.mediaAttached == old(hls.mediaAttached)
      ensures fatal && errorType == HlsNetworkError ==>
                && errorText == Shown(old(errorText), "Network error: " + details)
                && hls.calls == old(hls.calls) + [LoadStarted]
                && hls.mediaAttached == old(hls.mediaAttached)
      ensures fatal && errorType == HlsMediaError ==>
                && errorText == Shown(old(errorText), "Media error: " + details)
                && hls.calls == old(hls.calls) + [MediaRecovered]
                && hls.mediaAttached == old(hls.mediaAttached)
      ensures fatal && errorType != HlsNetworkError && errorType != HlsMediaError ==>
                && errorText == Shown(old(errorText), "HLS Error: " + errorType + " - " + details)
                && hls.calls == old(hls.calls) + [Destroyed]
                && !hls.mediaAttached
    {
      if fatal {
        if errorType == HlsNetworkError {
          ShowError("Network error: " + details);
          hls.StartLoad();
        } else if errorType == HlsMediaError {
          ShowError("Media error: " + details);
          hls.RecoverMediaError();
        } else {
          ShowError("HLS Error: " + errorType + " - " + details);
          hls.Destroy();
        }
      }
    }

    /**
     * The `video.play()` call made on MANIFEST_PARSED (hls.js) or on
     * `loadedmetadata` (native HLS): a rejected promise is reported.
     */
    method OnVideoPlay(accepted: bool, reason: string)
      modifies this`errorText
      ensures errorText == if accepted then old(errorText) else Shown(old(errorText), "Playback error: " + reason)
    {
      if !accepted {
        ShowError("Playback error: " + reason);
      }
    }

    /** The outcome of `player.play()` for an MPEG-TS session of `url`: a rejection triggers a retry. */
    method OnMpegtsPlay(url: string, accepted: bool) returns (scheduled: Option<ScheduledRetry>)
      requires Valid()
      modifies this`retryCount, this`errorText
      ensures Valid()
      ensures accepted ==> scheduled == None && retryCount == old(retryCount) && errorText == old(errorText)
      ensures !accepted && old(retryCount) < MaxRetries ==>
                && retryCount == old(retryCount) + 1
                && scheduled == Some(ScheduledRetry(url, RetryDelayStepMs * retryCount))
                && errorText == old(errorText)
      ensures !accepted && old(retryCount) == MaxRetries ==>
                && retryCount == old(retryCount) && scheduled == None
                && errorText == Shown(old(errorText), RetriesExhaustedMessage)
    {
      if accepted {
        scheduled := None;
      } else {
        scheduled := RetryPlayback(url);
      }
    }

    /**
     * The mpegts.js ERROR handler of a session of `url`: `NetworkError`
     * triggers a retry; any other error type is only reported.
     */
    method OnMpegtsError(url: string, error: string) returns (scheduled: Option<ScheduledRetry>)
      requires Valid()
      modifies this`retryCount, this`errorText
      ensures Valid()
      ensures error != MpegtsNetworkError ==>
                && scheduled == None && retryCount == old(retryCount)
                && errorText == Shown(old(errorText), "MPEG-TS Error: " + error)
      ensures error == MpegtsNetworkError && old(retryCount) < MaxRetries ==>
                && retryCount == old(retryCount) + 1
                && scheduled == Some(ScheduledRetry(url, RetryDelayStepMs * retryCount))
                && errorText == old(errorText)
      ensures error == MpegtsNetworkError && old(retryCount) == MaxRetries ==>
                && retryCount == old(retryCount) && scheduled == None
                && errorText == Shown(old(errorText), RetriesExhaustedMessage)
    {
      if error == MpegtsNetworkError {
        scheduled := RetryPlayback(url);
      } else {
        ShowError("MPEG-TS Error: " + error);
        scheduled := None;
      }
    }

    // ----- Buffer policy -----

    /**
     * `updateBufferSettings`: both values are stored; when the current player
     * is an hls.js engine, `maxBufferLength` is written into both of its
     * buffer fields (the target length is not pushed). No other engine is touched.
     */
    method UpdateBufferSettings(newBufferLength: int, newMaxBufferLength: int)
      modifies this`bufferLength, this`maxBufferLength, EngineOf(currentPlayer)
      ensures bufferLength == newBufferLength && maxBufferLength == newMaxBufferLength
      ensures currentPlayer == old(currentPlayer) && retryCount == old(retryCount)
      ensures currentPlayer.Hls? ==>
                && currentPlayer.hls.config == old(currentPlayer.hls.config).(
                     maxBufferLength := newMaxBufferLength,
                     maxMaxBufferLength := newMaxBufferLength)
                && currentPlayer.hls.calls == old(currentPlayer.hls.calls)
                && currentPlayer.hls.mediaAttached == old(currentPlayer.hls.mediaAttached)
      ensures currentPlayer.Mpegts? ==> currentPlayer.mpegts.calls == old(currentPlayer.mpegts.calls)
    {
      bufferLength := newBufferLength;
      maxBufferLength := newMaxBufferLength;
      if currentPlayer.Hls? {
        var hls := currentPlayer.hls;
        hls.config := hls.config.(maxBufferLength := maxBufferLength);
        hls.config := hls.config.(maxMaxBufferLength := maxBufferLength);
      }
    }

    // ----- Stalled-playback monitor -----

    /**
     * One tick of the watchdog, given the `readyState` of the video element:
     * `recoverMediaError` is called exactly when the current player is an
     * hls.js engine with media attached and nothing is loaded (`readyState`
     * 0). A destroyed engine has no media, so the guard fails on it and
     * nothing happens. The player is never destroyed or replaced.
     */
    method WatchdogTick(readyState: int)
      modifies EngineOf(currentPlayer)
      ensures currentPlayer == old(currentPlayer) && retryCount == old(retryCount)
      ensures errorText == old(errorText)
      ensures currentPlayer.Hls? ==>
                && currentPlayer.hls.calls ==
                     (if old(currentPlayer.hls.mediaAttached) && readyState == 0
                      then old(currentPlayer.hls.calls) + [MediaRecovered]
                      else old(currentPlayer.hls.calls))
                && currentPlayer.hls.config == old(currentPlayer.hls.config)
                && currentPlayer.hls.mediaAttached == old(currentPlayer.hls.mediaAttached)
      ensures currentPlayer.Mpegts? ==> currentPlayer.mpegts.calls == old(currentPlayer.mpegts.calls)
    {
      if currentPlayer.Hls? && currentPlayer.hls.mediaAttached && readyState == 0 {
        currentPlayer.hls.RecoverMediaError();
      }
    }
  }
}
