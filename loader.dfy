/** The sequential decision rules of the asset loader (hues.js:573-868): the audio format
    fallback, the song media pair, animation frame numbering, the frame probe and the
    trailing-slash rule for pack URIs. Fetching, decoding and URI encoding are parameters. */
module Loader {
  import opened Wrappers
  import Text

  /** The container formats a track is tried in, in order (hues.js:600-610). */
  const TrackFormats: seq<string> := [".opus", ".ogg", ".mp3"]

  const NoSupportedFormat := "Could not find any supported audio track formats"

  /** `loadRespackSongTrack(uri)`. `fetchDecode(u)` is the outcome of fetching `u` and
      decoding it as audio: the buffer, or None for a network error, a non-2xx status or a
      decode failure. The first format that yields a buffer wins. */
  function LoadTrack<B>(uri: string, fetchDecode: string -> Option<B>): (r: Result<B, string>)
    ensures r.Failure? <==> forall k :: 0 <= k < |TrackFormats| ==> fetchDecode(uri + TrackFormats[k]).None?
    ensures r.Failure? ==> r.error == NoSupportedFormat
    ensures r.Success? ==>
      exists k :: 0 <= k < |TrackFormats| && fetchDecode(uri + TrackFormats[k]) == Some(r.value)
        && forall j :: 0 <= j < k ==> fetchDecode(uri + TrackFormats[j]).None?
  {
    match fetchDecode(uri + ".opus")
    case Some(b) =>
      assert fetchDecode(uri + TrackFormats[0]) == Some(b);
      Success(b)
    case None =>
      match fetchDecode(uri + ".ogg")
      case Some(b) =>
        assert fetchDecode(uri + TrackFormats[1]) == Some(b);
        Success(b)
      case None =>
        match fetchDecode(uri + ".mp3")
        case Some(b) =>
          assert fetchDecode(uri + TrackFormats[2]) == Some(b);
          Success(b)
        case None => Failure(NoSupportedFormat)
  }

  /** If only the last format decodes, the load still succeeds with its buffer. */
  lemma LastFormatSuffices<B>(uri: string, fetchDecode: string -> Option<B>, b: B)
    requires fetchDecode(uri + ".opus").None? && fetchDecode(uri + ".ogg").None?
    requires fetchDecode(uri + ".mp3") == Some(b)
    ensures LoadTrack(uri, fetchDecode) == Success(b)
  {
  }

  /** The URI of a song track: `<pack>/Songs/<encoded name>`, without format extension. */
  function SongTrackUri(packUri: string, encodedName: string): string {
    packUri + "/Songs/" + encodedName
  }

  datatype SongMedia<B> = SongMedia(loopBuffer: B, buildupBuffer: Option<B>)

  /** `loadRespackSongMedia`: the loop track always, the buildup track only when the song
      names a non-empty one (`if (!song["buildup"])`); the song fails if either fails. */
  function LoadSongMedia<B>(packUri: string, loop: string, buildup: Option<string>,
                            encode: string -> string, fetchDecode: string -> Option<B>)
    : (r: Result<SongMedia<B>, string>)
    ensures var loopLoad := LoadTrack(SongTrackUri(packUri, encode(loop)), fetchDecode);
      && (loopLoad.Failure? ==> r.Failure?)
      && (r.Success? ==> loopLoad == Success(r.value.loopBuffer))
    ensures buildup.None? || buildup == Some("") ==>
      (r.Success? <==> LoadTrack(SongTrackUri(packUri, encode(loop)), fetchDecode).Success?)
      && (r.Success? ==> r.value.buildupBuffer.None?)
    ensures buildup.Some? && buildup.value != "" ==>
      var buildupLoad := LoadTrack(SongTrackUri(packUri, encode(buildup.value)), fetchDecode);
      && (buildupLoad.Failure? ==> r.Failure?)
      && (r.Success? ==> r.value.buildupBuffer == Some(buildupLoad.value))
      && (LoadTrack(SongTrackUri(packUri, encode(loop)), fetchDecode).Success? && buildupLoad.Success? ==>
            r == Success(SongMedia(LoadTrack(SongTrackUri(packUri, encode(loop)), fetchDecode).value, Some(buildupLoad.value))))
  {
    var loopLoad := LoadTrack(SongTrackUri(packUri, encode(loop)), fetchDecode);
    if loopLoad.Failure? then Failure(loopLoad.error)
    else if buildup.None? || buildup.value == "" then Success(SongMedia(loopLoad.value, None))
    else
      var buildupLoad := LoadTrack(SongTrackUri(packUri, encode(buildup.value)), fetchDecode);
      if buildupLoad.Failure? then Failure(buildupLoad.error)
      else Success(SongMedia(loopLoad.value, Some(buildupLoad.value)))
  }

  /** The frame number in an animation file name: the decimal index, zero-padded to at
      least two digits (hues.js:722-725). */
  function FrameNumber(i: nat): (r: string)
    ensures |r| >= 2 && forall k :: 0 <= k < |r| ==> Text.IsDigit(r[k])
    ensures i >= 10 ==> r == Text.NatToDecimal(i)
  {
    if i < 10 then "0" + Text.NatToDecimal(i) else Text.NatToDecimal(i)
  }

  /** The padded frame number reads back as the frame index. */
  lemma FrameNumberValue(i: nat)
    ensures Text.DecimalValue(FrameNumber(i)) == i
  {
    var n := Text.NatToDecimal(i);
    Text.DecimalRoundTrip(i);
    if i < 10 {
      var r := FrameNumber(i);
      assert r[..1] == "0" && r[1] == n[0] && n[..0] == [];
    }
  }

  /** `<pack>/Animations/<name>/<name>_<NN>.png` for frame `i` of an image whose encoded name
      is `name`. */
  function FrameUri(packUri: string, name: string, i: nat): string {
    packUri + "/Animations/" + name + "/" + name + "_" + FrameNumber(i) + ".png"
  }

  /** The answer to one frame fetch: the frame, a 404, or any other failure (a network
      error, a non-2xx status other than 404, or an unreadable body). */
  datatype FrameResponse<Blob> = Found(blob: Blob) | NotFound | FetchFailed(status: int)

  /** The outcome of probing an animation: its frames in ascending order, the "no frames"
      error, or the failure that aborted the probe at frame `frame`. */
  datatype ProbeResult<Blob> = Frames(frames: seq<Blob>) | NoFrames | FrameFailed(frame: nat, status: int)

  /** `loadRespackImageAnimation`: fetch frames 1, 2, ... until the first 404. The frames
      before it are the animation; a 404 at frame 1 is an error (no frames); any other
      failure aborts. The probe terminates only because some frame is not found. */
  method ProbeAnimation<Blob>(packUri: string, name: string, fetch: string -> FrameResponse<Blob>)
    returns (r: ProbeResult<Blob>)
    requires exists stop: nat :: 1 <= stop && !fetch(FrameUri(packUri, name, stop)).Found?
    ensures r.NoFrames? <==> fetch(FrameUri(packUri, name, 1)) == NotFound
    ensures r.Frames? ==>
      && |r.frames| >= 1
      && (forall i :: 1 <= i <= |r.frames| ==> fetch(FrameUri(packUri, name, i)) == Found(r.frames[i - 1]))
      && fetch(FrameUri(packUri, name, |r.frames| + 1)) == NotFound
    ensures r.FrameFailed? ==>
      && r.frame >= 1
      && (forall i :: 1 <= i < r.frame ==> fetch(FrameUri(packUri, name, i)).Found?)
      && fetch(FrameUri(packUri, name, r.frame)) == FetchFailed(r.status)
  {
    ghost var stop: nat :| 1 <= stop && !fetch(FrameUri(packUri, name, stop)).Found?;
    var frames: seq<Blob> := [];
    var i: nat := 1;
    while true
      invariant 1 <= i <= stop
      invariant |frames| == i - 1
      invariant forall j :: 1 <= j < i ==> fetch(FrameUri(packUri, name, j)) == Found(frames[j - 1])
      decreases stop - i
    {
      var response := fetch(FrameUri(packUri, name, i));
      match response
      case NotFound =>
        if |frames| == 0 {
          return NoFrames;
        }
        return Frames(frames);
      case FetchFailed(status) =>
        return FrameFailed(i, status);
      case Found(blob) =>
        assert i != stop;
        frames := frames + [blob];
        assert frames[i - 1] == blob;
        i := i + 1;
    }
  }

  /** `loadRespack`'s base URI: one trailing `/` is dropped (hues.js:866-868). */
  function StripTrailingSlash(uri: string): (r: string)
    ensures uri == r + "/" || (r == uri && (uri == "" || uri[|uri| - 1] != '/'))
  {
    if |uri| > 0 && uri[|uri| - 1] == '/' then uri[..|uri| - 1] else uri
  }
}
