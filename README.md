# 0x40 Hues: a verified model of the show engine, the pack server and its web helpers

0x40 Hues is a music visualiser. The browser side (`hues.js`) has three jobs:

- It loads resource packs ("respacks") of hues, images and songs.
- It keeps the active lists of hues, images and songs.
- It plays a song whose rhythm string drives the show. Each beat character can change the
  colour, the image, or both.

The server side (`respack.go`, `webapp.go`) reads pack directories and zip files. It
resolves each image and song to the URI of a file in the pack. It also serves a pack
selector page with a search box and a show page that configures the browser engine.

This project models that core in Dafny and proves what it promises:

- `wrappers.dfy`: `Option`, `Result` and `Outcome`.
- `text.dfy`: the string helpers both sides rely on: JavaScript `slice`/`charAt`,
  `String.prototype.repeat`, Go's `strings.Contains`, `strings.Count` and `strings.ToLower`
  (ASCII), and decimal numerals.
- `registry.dfy`: the de-duplicating append of `addHues`/`addSongs`/`addImages`.
- `hue_colour.dfy`: the hue colour text (`#?` plus six hex digits).
- `effects.dfy`: the auto-mode names, wrap-around song stepping, the image and hue draws,
  and the beat character table.
- `beat_clock.dfy`: the beat duration, buildup padding, the beat identity of a clock
  time, and the beat string.
- `engine.dfy`: the engine itself, a class whose fields are the engine state. Its methods
  change that state in place and log the events the engine would deliver to listeners.
- `loader.dfy`: the loader's decision rules:
  - the audio format fallback;
  - song media;
  - frame numbering;
  - the animation frame probe;
  - the trailing-slash rule.
- `respack.dfy`: the Go pack, a class with its sections and mounted files:
  - pack IDs from file names;
  - XML type detection;
  - mounting;
  - URI resolution in place;
  - `Open`.
- `webapp.dfy`: the pack search, the relative base path of a page, the choice of packs
  for the show page, and the `mod`/`divide` template functions.

Random draws, the audio clock and every fetch or decode outcome are parameters. Times are
exact reals.

Two places where the code does something other than what its own comments or an obvious
reading suggest are modelled as the code does it:

- `randomHue` shifts the local `index` instead of `newIndex`. The stored index is the raw
  draw: it can repeat the current hue and never picks the last one.
- `randomImage` with a single image already shown passes index 1 to `changeImage`, which
  throws.

A third: the hue loader's `#`-prefix guard compares a boolean with `"#"`, so it never
fires and the stored hex is the text as written.

A fourth: `loadRespack` files a pack even when loading it failed. `.catch(reject)`
turns the failed load into a fulfilled promise, so the `.then` that registers the pack
still runs. The pack is registered partly filled while `loadRespack` rejects.
`loadRespackSongLoop` has the same shape: a failed track leaves the song in the pack
without a loop buffer. `RegisterRespack` models the registration step on its own and
files whatever pack it is given.

## Model

| member | source | states |
|---|---|---|
| Registry.AppendMissing | hues.js:189-204 | The `forEach`/`indexOf`/`push` loop leaves exactly `AppendNew(active, items)`: each item is appended when not already present. |
| Registry.AppendNewProperties | hues.js:189-196 | The earlier active list stays a prefix. An entity is in the result iff it was active or offered. A list without duplicates stays without duplicates. |
| Registry.AppendNewPresent | hues.js:189-196 | Offering only entities that are already active changes nothing. |
| Registry.AppendNewIdempotent | hues.js:176-205 | Repeating an add call with the same items leaves the active list as it was. |
| Registry.Pick | hues.js:198-201 | An index list picks the listed entities in the order given, repetitions included. |
| Registry.Offered | hues.js:198-204 | Without an index list the whole category is offered in its order; with one, the listed entities. |
| HueColour.ParseColour | hues.js:543-559 | Parsing succeeds iff the text is six hex digits (either case) with an optional leading `#`. A rejected text is the error. The stored hex is the text unchanged. Each component is its digit pair's value, at most 255. |
| HueColour.FormatThenParse | hues.js:551-559 | Every `#rrggbb` text written from three components in 0..255 parses back to those components. |
| HueColour.PairRoundTrip | hues.js:555-557 | Two formatted hex digits read back (as `parseInt(_, 16)`) as the component they came from. |
| HueColour.CaseInsensitive | hues.js:551 | `#FF8000` and `ff8000` both parse, to (255, 128, 0). |
| HueColour.RejectedTexts | hues.js:551-555 | Five digits, a doubled `#` and a non-hex letter are all rejected. |
| Effects.AutoModeCode | hues.js:138-150 | A known mode name maps to a code in 0..2. |
| Effects.AutoModeName | hues.js:156-162 | A code has a name iff it is one of 0, 1, 2. |
| Effects.NameAfterCode | hues.js:138-162 | Setting a mode by name and reading it back gives the same name. |
| Effects.CodeAfterName | hues.js:138-162 | Each valid code has a name that selects that code again. |
| Effects.PrevIndex | hues.js:266-273 | One step back stays within the song list for an index inside it. |
| Effects.NextIndex | hues.js:281-288 | One step forward stays within the song list for an index inside it. |
| Effects.PrevNextInverse | hues.js:266-288 | Next then previous, and previous then next, return to the same song. |
| Effects.StepForwardNoWrap | hues.js:281-288 | Before the end of the list, `k` calls of `nextSong` move exactly `k` songs forward. |
| Effects.StepForwardSplit | hues.js:281-288 | `a + b` calls of `nextSong` are `a` calls followed by `b` calls. |
| Effects.StepForwardCycle | hues.js:281-288 | `n` calls of `nextSong` on `n` songs come back to the starting song. |
| Effects.ScaledInRange | hues.js:359 | `Math.floor(Math.random() * m)` lies in [0, m) for m >= 1. |
| Effects.ImagePickExcludesCurrent | hues.js:356-368 | With more than one image and one shown, the drawn index is valid and differs from the current one. |
| Effects.ImagePickFirst | hues.js:358-359 | With no image shown, the drawn index is any valid index. |
| Effects.ImagePickReaches | hues.js:360-364 | Every other image is reachable by some draw in [0, 1): the exclusion leaves no index out. |
| Effects.SingleImagePickOverruns | hues.js:360-364 | With a single image shown, every draw gives index 1, one past the end. |
| Effects.HuePickNeverLast | hues.js:1098-1114 | As written, with a current hue the stored index is the raw draw in [0, n - 1): the last hue is never chosen. |
| Effects.HuePickCanRepeat | hues.js:1103-1110 | As written, some draw keeps the current hue, because the shift moves `index`, not `newIndex`. |
| Effects.BeatAction | hues.js:1117-1192 | The hue changes iff the character is one of `x o - : X O`. The image changes iff the mode is full auto and the character is one of `x o - * =` or the vertical bar. Anything else, no character included, changes nothing. |
| BeatClock.Round | hues.js:1046-1047 | `Math.round` of a non-negative number is the integer within half a unit of it. |
| BeatClock.BeatDuration | hues.js:1039 | `beats` beat durations make up the loop duration exactly; positive for a positive loop. |
| BeatClock.PaddedBuildupRhythm | hues.js:1047-1060 | An existing buildup rhythm is kept as a prefix, padded only with `.`, and never shortened. It reaches at least the buildup beat count, exactly that count when padding was needed. A missing one becomes exactly that many dots. |
| BeatClock.PaddingSettles | hues.js:1047-1060 | Padding an already padded rhythm again changes nothing. |
| BeatClock.LoopOffset | hues.js:1219-1221 | The JavaScript `%` of the elapsed loop time lies in [0, loop duration) and is the elapsed time less whole passes. |
| BeatClock.BeatAt | hues.js:1207-1226 | A buildup beat only before the loop starts and only with a buildup rhythm; a loop beat only from the loop start on; no beat carries no character. |
| BeatClock.LoopBeatInRange | hues.js:1217-1222 | In the loop, with one beat per rhythm character filling the loop, the index names a character of the rhythm and that character is the beat character. |
| BeatClock.BuildupBeat | hues.js:1207-1215 | During the buildup the index counts the whole beats since the buildup started. |
| BeatClock.BuildupIndexMonotone | hues.js:1210-1213 | The buildup beat index never decreases as time advances. |
| BeatClock.LoopIndexPeriodic | hues.js:1217-1222 | One loop duration later the loop beat index is the same. |
| BeatClock.LoopIndexMonotone | hues.js:1217-1222 | Within one pass of the loop the index never decreases. |
| BeatClock.LoopIndexWrapsToZero | hues.js:1217-1222 | At the start of every pass the loop index is 0. |
| BeatClock.FourBeatExample | hues.js:1217-1222 | Rhythm `x---` over a 4 s loop: 2.5 s in is beat 2, character `-`. |
| BeatClock.PadWithRhythmShape | hues.js:1281-1283 | The loop's result is the head followed by whole copies of the rhythm. It is at least `length` long, at most one copy past it, and the head alone when already long enough. |
| HuesEngine.BuildupLength | hues.js:1022-1027 | The buildup lasts a positive time only when a buildup buffer with samples exists. |
| HuesEngine.SongBeatDuration | hues.js:1037-1039 | A song's beat duration is positive. |
| HuesEngine.BeatsFillLoop | hues.js:1037-1039 | One beat per rhythm character fills the song's loop exactly. |
| HuesEngine.PadBuildupRhythm | hues.js:1047-1060 | With a buildup buffer, the song's buildup rhythm becomes the padded rhythm: at least the buildup beat count long, old text as prefix. Without one it is untouched. |
| HuesEngine.Engine.constructor | hues.js:3-50 | The engine starts in full auto with empty lists and no pack. No hue, song or image is selected, and neither index is set. There is no beat, beat duration, buffer, start time, frame handle or event. |
| HuesEngine.Engine.SetAutoMode | hues.js:138-150 | A known name sets its code. An unknown name fails with `Unknown auto mode: <name>` and keeps the mode. |
| HuesEngine.Engine.GetAutoMode | hues.js:156-162 | The returned name selects the current mode again. |
| HuesEngine.Engine.RegisterRespack | hues.js:915-920 | A loaded pack is filed under its name, replacing any pack of that name. |
| HuesEngine.Engine.AddHues | hues.js:176-205 | Unknown pack: `Unknown respack: <name>`. Pack without hues: `Respack does not contain hues: <name>`. Neither error changes the list. Otherwise the active hues become `AppendNew(old, offered)`. |
| HuesEngine.Engine.AddSongs | hues.js:219-248 | As `AddHues` over songs, with its own error texts; the engine invariant is kept. |
| HuesEngine.Engine.AddImages | hues.js:302-331 | As `AddHues` over images, with its own error texts; the engine invariant is kept. |
| HuesEngine.Engine.ChangeImage | hues.js:338-349 | A valid index selects that image and logs `imagechange`. Any other index fails with `Image index <i> out of range` and changes nothing. |
| HuesEngine.Engine.RandomImage | hues.js:356-368 | Succeeds iff the drawn index is valid, then selects it and logs the change; a failure changes nothing. With more than one image, or none shown, it always moves to a new image. With one image shown it always fails. |
| HuesEngine.Engine.RandomHue | hues.js:1098-1114 | As written: the stored index is the raw draw. The hue is the list entry there, or none. The change is logged. With a current hue the index is below the hue count less one. |
| HuesEngine.Engine.DoBeatEffect | hues.js:1117-1192 | The hue index and the shown hue become the drawn ones iff the beat character asks for a hue; otherwise both are kept. The image changes iff the character and mode ask and the pick is valid. The effect fails iff an image change was asked and the pick is invalid. The log gains the hue change, then the image change. |
| HuesEngine.Engine.StopSong | hues.js:990-1009 | Both the loop and the buildup buffer are released. |
| HuesEngine.Engine.StartBeatAnalysis | hues.js:1238-1243 | A frame is requested only when no handle is stored. |
| HuesEngine.Engine.StopBeatAnalysis | hues.js:1245-1255 | The handle is cleared, the beat becomes empty and the empty beat is logged. |
| HuesEngine.Engine.ChangeSong | hues.js:1012-1082 | `StartedSong`: selects the song; beat duration = loop duration / rhythm length. The buildup buffer is kept only when it has samples. The buildup starts now; the loop starts when the buildup ends. The buildup rhythm is padded as `PaddedBuildupRhythm`. Analysis is started and `songchange` logged. The engine invariant is kept. |
| HuesEngine.Engine.SelectSong | hues.js:1015-1018 | The song index and song name the chosen entry. |
| HuesEngine.Engine.ScheduleSong | hues.js:1022-1075 | Beat duration, buildup buffer, and buildup and loop start times as `changeSong` sets them. |
| HuesEngine.Engine.PlaySong | hues.js:256-258 | Runs `changeSong` on the selected song: the selection is unchanged and everything `ChangeSong` promises holds for it. That is the schedule (`StartedSong`), the padded buildup rhythm, the analysis start and the `songchange` event. |
| HuesEngine.Engine.PrevSong | hues.js:266-273 | Runs `changeSong` on the song one before the selection, wrapping to the last; no selection counts as index 0. The schedule, the padded buildup rhythm, the analysis start and the `songchange` event are as `ChangeSong` states. |
| HuesEngine.Engine.NextSong | hues.js:281-288 | Runs `changeSong` on the song one after the selection, wrapping to the first; no selection counts as index 0. The schedule, the padded buildup rhythm, the analysis start and the `songchange` event are as `ChangeSong` states. |
| HuesEngine.Engine.CurrentTiming | hues.js:1203-1222 | The timeline of a playing song has a positive loop and beat duration. |
| HuesEngine.Engine.ProcessBeat | hues.js:1228-1235 | A beat equal to the stored one changes nothing (hue, image and log included) and requests the next frame. A new beat is stored and its effect runs. The hue and image end as `DoBeatEffect` leaves them. Then `beat` is logged and the next frame requested. A throwing effect logs no beat and requests no frame. |
| HuesEngine.Engine.BeatTick | hues.js:1194-1235 | Without a loop buffer: analysis stops, the beat is emptied and logged, and hue and image are kept. Otherwise the stored beat becomes the beat of the clock time. Effects (hue, image, events) and the `beat` event follow only when that beat differs from the previous one; an equal beat keeps hue and image. The engine invariant is kept. |
| HuesEngine.Engine.GetBeatString | hues.js:1257-1287 | Empty without a song. Otherwise the beat-dependent head followed by whole copies of the rhythm, at least `length` (default 256) long. |
| HuesEngine.PlayingLoopBeat | hues.js:1217-1222 | Once the loop has started, a tick's beat is a loop beat naming a rhythm character, and that character's effect runs. |
| HuesEngine.FullAutoImageBeatMoves | hues.js:1117-1126 | In full auto, with several images and one shown, an image beat always moves to another image and never throws. |
| HuesEngine.NoImageBeatOutsideFullAuto | hues.js:1117-1192 | Outside full auto no beat effect throws, and a beat logs one hue change exactly for the hue characters. |
| Loader.LoadTrack | hues.js:598-620 | Fails, with `Could not find any supported audio track formats`, iff `.opus`, `.ogg` and `.mp3` all fail. Otherwise the first format in that order that decodes gives the buffer. |
| Loader.LastFormatSuffices | hues.js:598-620 | When only `.mp3` decodes, the track loads from it. |
| Loader.LoadSongMedia | hues.js:622-658 | The loop track always loads. The buildup loads only when named and non-empty. The song fails when either load fails. It succeeds with both buffers when both loads succeed, and with the loop alone when no buildup is named. |
| Loader.FrameNumber | hues.js:722-725 | The frame number is all digits, at least two of them; from 10 on it is the plain numeral. |
| Loader.FrameNumberValue | hues.js:722-725 | The padded frame number reads back as the frame index. |
| Loader.ProbeAnimation | hues.js:719-777 | Frames 1, 2, ... are fetched until the first 404. The frames before it are the animation, in order. A 404 at frame 1 is the "no frames" error. Any other failure aborts at its frame, with all earlier frames found. |
| Loader.StripTrailingSlash | hues.js:866-868 | One trailing `/` is dropped; a URI without one is unchanged. |
| Respacks.StripTrailingSlashes | respack.go:333 | A prefix of the path without trailing `/`; only slashes were removed. |
| Respacks.AfterLastSlash | respack.go:333 | The suffix after the last `/`, which holds no `/`. |
| Respacks.Base | respack.go:333 | `filepath.Base` is never empty and is either `/` or free of `/`. |
| Respacks.Ext | respack.go:334 | `filepath.Ext` is a suffix of the path, and empty when the path has no `.`. |
| Respacks.ExtShape | respack.go:334 | A non-empty extension starts with `.` and holds no other `.` and no `/`. |
| Respacks.ExtOfName | respack.go:334 | The extension of `stem.ext` is `.ext` when `ext` holds no `.` or `/`. |
| Respacks.TrimSuffix | respack.go:334 | `strings.TrimSuffix` returns a prefix, and removes the suffix exactly when it is present. |
| Respacks.ReplaceSpaces | respack.go:335 | Every space becomes `_`; every other character is kept. |
| Respacks.FilenameToIDShape | respack.go:332-336 | An ID holds no space. It is the base name with its extension cut off, character for character, except that spaces became `_`. |
| Respacks.AfterLastSlashOfElement | respack.go:333 | The text after the last `/` of `dir/name` is `name`. |
| Respacks.BaseOfElement | respack.go:333 | The base name of `dir/name` is `name`. |
| Respacks.FilenameToIDOfPlainName | respack.go:332-336 | A pack directory `dir/name` whose name has no `.` gets the whole name as its ID, spaces as `_`. |
| Respacks.FilenameToIDOfPackFile | respack.go:332-336 | The pack file `dir/stem.ext` gets the ID `stem` with spaces as `_`; only the last extension is cut. |
| Respacks.Classify | respack.go:347-358 | An element name gives Info, Images, Songs or Hues iff it is `info`, `images`, `songs` or `hues` in any case; any other name gives Unknown. |
| Respacks.FirstStartDecides | respack.go:338-361 | The first start element, after only other tokens, decides the type. |
| Respacks.ErrorBeforeStart | respack.go:341-344 | A decoder error before any start element is returned as the error. |
| Respacks.NoStartElement | respack.go:340-344 | A stream without a start element ends in the `EOF` error. |
| Respacks.ClassifyIgnoresCase | respack.go:347 | `INFO` is Info, `Songs` is Songs, and `image` is Unknown. |
| Respacks.DetectXMLType | respack.go:338-361 | The token loop returns exactly the type that the first start element (or error) of the stream decides. |
| Respacks.FirstExtension | respack.go:207-211 | The first extension, in list order, under which the name is a mounted file; every earlier one is missing. |
| Respacks.ResolvedMeaning | respack.go:203-213 | Nothing resolves iff the name is empty or no extension matches. A resolved URI is `ID/name+ext` for the first matching extension. |
| Respacks.ResolvedImageMeaning | respack.go:215-230 | An image resolves iff one of `name`, `name_1`, `name_01`, `name_001` does, and the earliest candidate that resolves wins. |
| Respacks.ResolveEntryChangesOnlyURIs | respack.go:237-251 | Resolution changes nothing but the URIs. An empty buildup never gets a buildup URI. A changed image URI is the resolved one. |
| Respacks.Respack.constructor | respack.go:83-88 | A new pack has its ID from the file name and nothing mounted; a zip pack is named after its ID. |
| Respacks.Respack.ResolveURI | respack.go:203-213 | Returns `(ID/name+ext, true)` for the first mounted extension, and `("", false)` for an empty name or when none matches. |
| Respacks.Respack.ResolveImageURI | respack.go:215-230 | Returns the URI of the earliest resolving candidate name, or `("", false)`. |
| Respacks.Respack.ResolveSongURI | respack.go:232-235 | `resolveURI` over `.opus`, `.ogg`, `.mp3`. |
| Respacks.Respack.ResolveURIs | respack.go:237-251 | In place: every image and song becomes its resolved entry. Counts and all other fields stay. |
| Respacks.Respack.Unmarshal | respack.go:171-201 | A type error is returned and changes nothing. Otherwise the detected section is decoded over its current value and the decoder's error returned. Only a known type that decodes without error is mounted, under its canonical name. Unknown changes nothing and is no error. |
| Respacks.Respack.Open | respack.go:265-272 | A name opens iff it is mounted or is `info.xml`. A mounted name opens its own handler. |
| Respacks.OpenMeaning | respack.go:265-272 | A mounted file is served as mounted. `info.xml` is always served, made up from the ID when not mounted. Any other name fails. |
| WebApp.MatchesQuery | webapp.go:143-156 | The nested loops find a match iff some image name or full name, or some song name or title, contains the query after lower-casing. |
| WebApp.FilterRespacks | webapp.go:136-159 | An empty query returns the packs unchanged. Otherwise: the packs matching the lower-cased query, in order. |
| WebApp.FilteredProperties | webapp.go:141-158 | The result is a subsequence of the packs. A pack is in it iff it is one of the packs and matches. |
| WebApp.FilteredNoDuplicates | webapp.go:141-158 | A pack listed once appears at most once in the result. |
| WebApp.GetView | webapp.go:178-188 | The view carries the given title and data. |
| WebApp.GetViewBase | webapp.go:178-188 | The base is `/` for at most one slash. Otherwise it is `slashes - 1` copies of `../`: 3 characters and one slash per level. |
| WebApp.RepeatUpSlashes | webapp.go:185 | `n` copies of `../` hold `n` slashes. |
| WebApp.RepeatUpSteps | webapp.go:185 | Copy `k` of `../` sits at position `3k`. |
| WebApp.GetViewTwoDeep | webapp.go:178-188 | A page such as `/respack-info/<id>/` gets the base `../../`. |
| WebApp.FirstUnknown | webapp.go:65-71 | The first requested ID that names no pack, with all earlier ones known; none when all are known. |
| WebApp.NoImagesMeansEachEmpty | webapp.go:64-75 | The summed image count of the requested packs is 0 iff each of them has no image. |
| WebApp.RenderRespacks | webapp.go:63-82 | Any unknown ID gives `Unknown respack: <first unknown ID>` and no page. Otherwise the page lists the IDs, plus `builtin_image` exactly when the summed image count is 0, with autoplay. |
| WebApp.GoDivisionMeaning | webapp.go:27 | Go's truncating `/` and `%`: `a == b*q + r`. The remainder is smaller than the divisor in size and takes the dividend's sign. |
| WebApp.Mod | webapp.go:22-24 | `mod(i, j)` holds iff `j` divides `i`. |
| WebApp.Divide | webapp.go:25-27 | `divide(a, b)` truncates toward zero: the remainder is smaller than `b` in size and has the sign of `a`. When `mod(a, b)` holds, `divide(a, b) * b == a`. |
| WebApp.GoRemainderZero | webapp.go:23 | A zero Go remainder is exactly a zero Euclidean remainder, and then the Go quotient is exact. |
| WebApp.GoAgreesWhenNonNegative | webapp.go:23-28 | For a non-negative dividend and positive divisor, Go's division and remainder agree with Euclidean ones. |
| WebApp.GoMultipleExact | webapp.go:24 | A whole multiple leaves no Go remainder. |
| WebApp.EuclidMultipleExact | webapp.go:24 | A whole multiple leaves no Euclidean remainder. |

## Left out

- Browser I/O: `fetch`, `DOMParser`/XPath, `AudioContext` (buffer sources, `decodeAudioData`, start and stop), `requestAnimationFrame`, `<img>` loading and `URL.createObjectURL`. Each fetch, decode or image outcome is a parameter; the frame handle is two flags.
- Promise concurrency in `loadRespack`, `loadRespackSongs` and `loadRespackImages`, and the order of progress events. Only the sequential decision rules are modelled: the first format that decodes, and frames in order up to the first 404.
- The event-listener registry and its callbacks (hues.js:392-423, 476-481). Delivered events are an appended log.
- `Math.random`: each draw is a parameter in [0, 1).
- IEEE floating point: times and durations are exact reals. Rounding that pushes a loop index to `|rhythm|` (where `charAt` gives `""`) is not modelled.
- `loadDefaultRespack`, the `window.huesConfig` bootstrap (hues.js:426-441), `dumpRespackAnimation` (never called) and console logging.
- The parsing of `info.xml`, `hues.xml`, `songs.xml` and `images.xml` in the browser; the loader's dispatch between single images and animations.
- HueColour.ParseColour: the error is the rejected text, not the full message. No `name` is declared in that function, so in the browser the message embeds the global `window.name`.
- Text.ToLower: ASCII letters only. Go's `strings.ToLower` also folds other Unicode letters.
- Go `int` is unbounded here: the 64-bit width of the summed image count, of `mod` and of `divide` is not modelled.
- The zip and directory loaders (`LoadRespackZIP`, `LoadRespackFS`, `loadFSDir`, `loadZipXML`, `loadFSXML`), `Close`, `fileWrapper`, `byteFile` and `fileInfo`. A mounted file is named by its path or held as content.
- `encoding/xml`: the decoder's token stream and the decoding of each section are parameters of `Respacks.Respack.Unmarshal` and `Respacks.DetectXMLType`.
- Respacks.Respack.Open: returns what the handler would open; errors from opening a mounted file are not modelled.
- Respacks.Respack.Name, Respacks.Respack.ImageCount and Respacks.Respack.SongCount: plain field reads. `ImageCount` is what `WebApp.RenderRespacks` sums.
- main.go is not part of this model: directory listing and server start-up.
- HTTP routing, template parsing and execution, `must`, and file streaming in `GetHandlers`. Also the `POST /custom` redirect, whose order follows Go map iteration; `strings.Split` of the pack list; and `strconv.Atoi` of the `song` parameter, whose result is the `defaultSong` argument.
- HuesEngine.Engine.AddHues, HuesEngine.Engine.AddSongs, HuesEngine.Engine.AddImages: an index list is required to stay within the category. The source's comment promises an error for an index outside it, but the code pushes `undefined` instead.
- HuesEngine.Engine.ChangeSong: requires an index within the song list. For any other index the source stops playback and stores the index, then throws on the missing song.
- HuesEngine.Engine.PlaySong, HuesEngine.Engine.PrevSong, HuesEngine.Engine.NextSong: require a selected song or a non-empty list respectively, for the same reason.
- HuesEngine.Engine.StopBeatAnalysis: the cancel call names a property that is never set, so no queued frame is cancelled. Only the handle is cleared.
- HuesEngine.Engine.ChangeSong, HuesEngine.Engine.GetBeatString: a song's rhythm is a non-empty string and its loop buffer holds samples (the `Rhythm` and `LoopAudio` types). The source stores any `<rhythm>` text unchecked. With an empty rhythm, `changeSong` gets an infinite beat duration, and `getBeatString`'s padding loop never terminates.
- Loader.ProbeAnimation: requires some frame to be missing. If the server answers every frame, the source's probe chain never ends.
- HuesEngine.Engine.RegisterRespack: files the pack it is given. The failed-load path of `loadRespack` (hues.js:915-920) is not modelled: the source registers the partly loaded pack anyway, and its songs may lack a loop buffer (hues.js:622-631). The engine's `Song` always holds one.
- HuesEngine.Engine.BeatTick: after an effect throws, the exception leaves the tick; what the animation-frame scheduler then does is not modelled.
