# IPTV browser player: playlist parser and session controller

This project models the core of `app.js`, a browser script that plays IPTV
channels. The script does three things:

- It reads an extended-M3U playlist, a loose subset of the `#EXTINF` tag of
  section 4.3.2.1 of RFC 8216, into an ordered list of `{name, url}` channel
  records.
- It plays one selected channel at a time. URLs containing `.m3u8` go to an
  hls.js engine and everything else goes to an mpegts.js engine.
- It recovers from failures: a linear-back-off retry of MPEG-TS sessions,
  error dispatch for both engines, a stalled-playback watchdog, live buffer
  settings and a single-slot error display.

The Dafny files, one module each:

- `wrappers.dfy`: `Option`, for a JavaScript property that was never set.
- `js_string.dfy`: the string primitives the script uses, over `seq<char>`.
  These are `trim` (with the ECMAScript whitespace and line-terminator set
  written out), `split` on one character, `startsWith` and `includes`. It
  proves that `Split` and `Join` are inverses, characterises `trim`, and shows
  `includes` is a substring test.
- `playlist.dfy`: the parser. `ParseM3U` is the loop of the script. It is
  proved equal to `Parse`, a recursive left-to-right specification with one
  pending name. Lemmas about `Parse` give:
  - the count, order and contents of the records;
  - where each name comes from;
  - a round trip from written entries back to records.
- `player.dfy`: the engines and the controller.
  - `HlsEngine` and `MpegtsEngine` are classes that record every call made on
    them. `HlsEngine` also holds its mutable configuration and whether media
    is attached.
  - `Controller` is a class holding the script's module-level state:
    `currentPlayer`, `channels`, `retryCount` (limit 3), the two buffer
    settings, the error display and the video element's `src`.
  - Browser capabilities and the presence of the video container and the
    error element are fixed when the controller is built.
  - Timers are not run. A scheduled restart is returned as a `ScheduledRetry`
    (URL and delay), and the event loop calls the engine and video callbacks
    as methods.
- `scenarios.dfy`: client methods that run several operations on one
  controller and state the resulting page state.

The model follows the code as written in these places:

- Every automatic restart goes back through channel selection, and channel
  selection resets `retryCount` to 0. So `retryCount` counts the retryable
  reports made since the last channel selection, whichever engine made them.
  The fourth such report shows the final failure message. A stale report
  counts too, such as the late `play()` rejection of an MPEG-TS player that
  has already been destroyed.
- The native HLS fallback assigns `src` and never records a current player.
- A fatal hls.js error that is neither a network error nor a media error
  destroys the engine but leaves it as the current player. The next channel
  selection then destroys it a second time.
- A buffer-settings change writes `maxBufferLength` into both the engine's
  `maxBufferLength` and `maxMaxBufferLength`. The target `bufferLength` is
  never pushed to a live engine.
- A record whose URL had no metadata line before it has no name (`None`). The
  script leaves the property undefined; it does not set it to `""`.
- The watchdog reads `media.readyState` without checking that `media` exists.
  On a destroyed hls.js engine `media` is null, so that callback throws and
  does nothing. The model states this as "nothing happens when no media is
  attached".

## Model

| member | source | states |
|---|---|---|
| JsString.TrimSpec | app.js:81 | `trim` yields a string that neither starts nor ends with whitespace. In the input it is the slice surrounded only by whitespace. |
| JsString.TrimIdempotent | app.js:84 | Trimming a trimmed line changes nothing. |
| JsString.ContainsIff | app.js:138 | `includes` holds exactly when the needle occurs at some position, not only at the end. |
| JsString.JoinSplit | app.js:76 | `split` cuts at every separator and nowhere else. The pieces contain no separator, and joining them gives back the text. |
| JsString.SplitJoin | app.js:76 | Splitting a join of separator-free pieces gives back those pieces. |
| JsString.SplitLast | app.js:83-84 | The last piece of a split is the separator-free suffix after the last separator, or the whole text when there is none. |
| Playlist.ParseM3U | app.js:75-93 | The loop with one pending record returns exactly `Parse(content)`, the left-to-right scan of the lines. |
| Playlist.ParseFromUrls | app.js:80-89 | There is exactly one record per trimmed line starting with `http`, in source order, and each record's url is that trimmed line. |
| Playlist.ParseRecords | app.js:80-89 | The number of records equals the number of URL lines. Record k carries the k-th trimmed URL line, and every url starts with `http`. |
| Playlist.ParseSkips | app.js:80-84 | A stretch without URL lines emits nothing. It leaves pending the name of its last `#EXTINF:` line (a later one overwrites an earlier one), or the previous pending name if there is none. |
| Playlist.ParseNextRecord | app.js:78-88 | The next record takes its name from the most recent `#EXTINF:` line since the previous URL line (absent if none). Scanning then continues with no pending name. |
| Playlist.ParseNoUrl | app.js:82-92 | Lines without a URL line, such as a trailing `#EXTINF:`, yield no record. |
| Playlist.NameOfLastField | app.js:83-84 | The name of a metadata line is the trimmed text after its last comma, or the whole line when it has no comma. |
| Playlist.UrlIsNotExtinf | app.js:82-85 | A URL line is never taken for a metadata line, so the two branches never compete. |
| Playlist.ExtinfLineName | app.js:83-84 | The name read back from `#EXTINF:-1,<name>` is `<name>`, for a trimmed name without commas. |
| Playlist.RenderParse | app.js:75-93 | Parsing a playlist written with one metadata line and one URL line per entry gives back one named record per entry, in order. |
| Playlist.TwoChannelRender | app.js:75-93 | The literal two-channel text, one `#EXTINF:-1,<name>` line before each URL line, is what the writer produces for the two entries. |
| Playlist.TwoChannelExample | app.js:75-93 | The literal two-channel text parses to `Channel A` on its `.m3u8` URL and `Channel B` on its `.ts` URL. |
| Playlist.LoneUrl | app.js:78-88 | A lone URL line yields one record with no name. |
| Player.HlsUrlIff | app.js:138 | A URL is classified as HLS exactly when `.m3u8` occurs somewhere in it. |
| Player.HlsMarkerAnywhere | app.js:138-142 | `.m3u8` followed by anything, for example a query string, still selects the HLS path. |
| Player.ClassificationExamples | app.js:138-142 | An `.m3u8` URL takes the HLS path and a `.ts` URL takes the MPEG-TS path. |
| Player.Controller.constructor | app.js:2-8 | No player, no channels, retry count 0, buffer settings 30 and 60, empty error display. |
| Player.Controller.ShowError | app.js:233-236 | The display holds the new message (last write wins). Without an error element nothing changes. |
| Player.Controller.ClearError | app.js:238-240 | The display is emptied when the element exists. |
| Player.Controller.LoadPlaylist | app.js:52-54 | The channel list is replaced wholesale by the parsed playlist. |
| Player.Controller.ReportLoadFailure | app.js:69-71 | A failed load is reported and the channel list is left as it was. |
| Player.Controller.PlayChannel | app.js:127-143 | See the notes below the table. |
| Player.Controller.PlayHls | app.js:145-186 | With hls.js, a fresh engine is configured from the buffer settings, loads the URL, attaches media and becomes the current player. Otherwise native playback gets `src` and the player is not set. Otherwise the unsupported message is shown. |
| Player.Controller.PlayMpegts | app.js:188-221 | With MSE live playback, a fresh live engine for the URL attaches, loads and plays, and becomes the current player. Otherwise the unsupported message is shown. |
| Player.Controller.RetryPlayback | app.js:223-231 | The count stays at most 3. Below the limit it goes up by exactly one and a restart of the same URL is scheduled after `2000 * retryCount` ms. At the limit the final failure is shown and nothing is scheduled. |
| Player.Controller.OnHlsError | app.js:159-176 | A non-fatal error changes nothing. Fatal `networkError`: a message and `startLoad`. Fatal `mediaError`: a message and `recoverMediaError`. Any other fatal type: a message naming the type, then `destroy`. The current player and the retry count never change. |
| Player.Controller.OnVideoPlay | app.js:156-158 | A rejected `video.play()` shows `Playback error: <reason>`; an accepted one changes nothing. |
| Player.Controller.OnMpegtsPlay | app.js:205-208 | A rejected MPEG-TS `play()` goes through the retry policy; an accepted one changes nothing. |
| Player.Controller.OnMpegtsError | app.js:209-216 | `NetworkError` goes through the retry policy. Any other error type is only shown and schedules nothing. |
| Player.Controller.UpdateBufferSettings | app.js:242-249 | Both values are stored. For an hls.js player, its config gets the new `maxBufferLength` in both buffer fields, and no calls or media change. An MPEG-TS engine is untouched, and no player means no engine. |
| Player.Controller.WatchdogTick | app.js:252-257 | `recoverMediaError` is called exactly when the player is hls.js with media attached and `readyState` is 0. The player, the retry count and the display never change. |
| Scenarios.FatalErrorThenReselect | app.js:127-177 | After a fatal "other" hls.js error the destroyed engine is still the current player. The next selection destroys it again, and its log ends with two `destroy` calls. |
| Scenarios.RestartAfterEveryRejection | app.js:205-227 | An MPEG-TS stream whose playback is always rejected is restarted after 2000 ms every time, any number of times. The final failure message never appears. |
| Scenarios.NetworkErrorsWithinOneSession | app.js:209-231 | Four network errors within one session schedule restarts after 2000, 4000 and 6000 ms. The fourth shows the final failure and schedules nothing. |
| Scenarios.StaleRejectionCounts | app.js:205-227 | A late `play()` rejection from the player of an earlier selection schedules a restart of the old URL after 2000 ms and uses up one retry of the current session. |
| Scenarios.BufferSettingsBeforePlayback | app.js:147-149 | Settings changed while nothing plays configure the next HLS session. |
| Scenarios.BufferSettingsDuringPlayback | app.js:242-249 | Settings changed during an HLS session leave the engine with the new maximum in both buffer fields, whatever the new target length. |
| Scenarios.WatchdogBeforeAndAfterFatalError | app.js:252-257 | The watchdog asks a stalled engine to recover once. After a fatal error destroyed the engine it asks nothing more. |
| Scenarios.NativeFallback | app.js:178-182 | Native HLS playback sets the video `src` and records no current player, before and after the next selection. |

`Player.Controller.PlayChannel` (app.js:127-143) states:

- The error display is cleared and the retry count is 0.
- The previous engine, if any, is destroyed exactly once and otherwise left as it was.
- The new current player is either absent or the single fresh engine built by this call.
- It is hls.js exactly when the video container exists, the URL mentions `.m3u8` and hls.js is supported.
- Otherwise it is mpegts.js exactly when the container exists, the URL does not mention `.m3u8` and MSE live playback is supported.
- The unsupported branches show their message.
- The native branch only sets `src`.

## Left out

- DOM construction and rendering are not modelled: the settings inputs, building the option list and its repeated `change` listener (`displayChannels`), and creating the video element. The fresh video element appears only as the reset of `videoSource`.
- `FileReader` and `fetch` are not modelled, nor the empty-URL check before fetching. Only their effects are: `LoadPlaylist` for a completed read and `ReportLoadFailure` for a failed fetch.
- hls.js and mpegts.js internals are not modelled. The engines only record the calls made on them. hls.js copies its config and mpegts.js keeps its own, which the model does not reflect.
- Timers are not modelled. A restart is returned as a value and the caller runs it. The watchdog is a method called once per tick, with the video element's `readyState` as a parameter.
- `video.play()` and the mpegts.js `play()` promise are inputs. The caller passes whether the call was accepted.
- Search filtering is left out. It relies on Unicode `toLowerCase` and changes only the CSS display of options.
- Console logging is left out.
- `parseInt` on the settings inputs is left out, NaN included. The new settings are integer parameters.
- Player.Controller.PlayChannel: does not state that the old engine is destroyed before the new one is constructed. The model's state records what each engine received, but not the order of calls across two engines.
- Player.Controller.OnHlsError: `data.type` is the error-type string the caller passes. Only `networkError` and `mediaError` are named. The other values of `Hls.ErrorTypes` are not enumerated, since the code treats them alike.
- Option labels are left out with `displayChannels`. Assigning the undefined name of an unnamed record to `textContent` gives an empty label.
