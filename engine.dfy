/** The show engine of hues.js: the active hue, image and song lists, the auto mode, song
    scheduling and the per-frame beat analysis that drives hue and image changes.
    Audio playback, animation frames and event listeners are reduced to the state they
    leave behind: buffers and start times, two flags for the frame handle, and a log of
    the events the engine would deliver to its listeners. */
module HuesEngine {
  import opened Wrappers
  import Text
  import Registry
  import HueColour
  import Effects
  import BeatClock

  /** A decoded audio track: its sample count and its duration in seconds. */
  datatype AudioBuffer = AudioBuffer(length: nat, duration: real)

  /** A buffer lasts some time exactly when it holds samples. */
  type Audio = b: AudioBuffer | b.duration >= 0.0 && (b.length > 0 <==> b.duration > 0.0) witness AudioBuffer(0, 0.0)

  /** A loop track always lasts some time. */
  type LoopAudio = b: AudioBuffer | b.length > 0 && b.duration > 0.0 witness AudioBuffer(1, 1.0)

  /** A song's rhythm string has at least one beat. */
  type Rhythm = s: string | |s| > 0 witness "x"

  class Hue {
    const name: string
    const colour: HueColour.Colour

    constructor (name: string, colour: HueColour.Colour)
      ensures this.name == name && this.colour == colour
    {
      this.name := name;
      this.colour := colour;
    }
  }

  class Image {
    const name: string
    /** Present for animations, which are loaded frame by frame. */
    const frameDuration: Option<string>

    constructor (name: string, frameDuration: Option<string>)
      ensures this.name == name && this.frameDuration == frameDuration
    {
      this.name := name;
      this.frameDuration := frameDuration;
    }
  }

  class Song {
    const title: string
    const loop: string
    const buildup: Option<string>
    const rhythm: Rhythm
    const loopBuffer: LoopAudio
    const buildupBuffer: Option<Audio>
    /** Padded in place when the song is started. */
    var buildupRhythm: Option<string>

    constructor (title: string, loop: string, buildup: Option<string>, rhythm: Rhythm,
                 loopBuffer: LoopAudio, buildupBuffer: Option<Audio>, buildupRhythm: Option<string>)
      ensures this.title == title && this.loop == loop && this.buildup == buildup
      ensures this.rhythm == rhythm && this.loopBuffer == loopBuffer
      ensures this.buildupBuffer == buildupBuffer && this.buildupRhythm == buildupRhythm
    {
      this.title := title;
      this.loop := loop;
      this.buildup := buildup;
      this.rhythm := rhythm;
      this.loopBuffer := loopBuffer;
      this.buildupBuffer := buildupBuffer;
      this.buildupRhythm := buildupRhythm;
    }
  }

  /** A loaded resource pack; a category is absent when the pack has no file for it. */
  datatype Respack = Respack(uri: string, name: string, hues: Option<seq<Hue>>,
                             songs: Option<seq<Song>>, images: Option<seq<Image>>)

  /** What the engine tells its listeners. */
  datatype Event =
    | HueChange(index: int, hue: Option<Hue>)
    | ImageChange(image: Image)
    | SongChange(song: Song)
    | BeatChange(beat: BeatClock.Beat)

  /** How long the buildup plays before the loop starts: only a buildup buffer with samples
      is scheduled. */
  function BuildupLength(s: Song): (d: real)
    ensures d >= 0.0
    ensures d > 0.0 ==> s.buildupBuffer.Some? && s.buildupBuffer.value.length > 0
  {
    if s.buildupBuffer.Some? && s.buildupBuffer.value.length > 0 then s.buildupBuffer.value.duration else 0.0
  }

  /** `loopDuration / rhythm.length` for a song: `|rhythm|` beats fill the loop exactly. */
  function SongBeatDuration(s: Song): (d: real)
    ensures d > 0.0
  {
    BeatClock.BeatDuration(s.loopBuffer.duration, |s.rhythm|)
  }

  /** `|rhythm|` beats of the song's beat duration fill its loop exactly. */
  lemma BeatsFillLoop(s: Song)
    ensures SongBeatDuration(s) * |s.rhythm| as real == s.loopBuffer.duration
  {
    var d := BeatClock.BeatDuration(s.loopBuffer.duration, |s.rhythm|);
  }

  /** `Math.round(buildupDuration / beatDuration)`: how many beats the buildup lasts. */
  function BuildupBeats(s: Song): (n: nat)
  {
    var d := SongBeatDuration(s);
    BeatClock.DivLe(0.0, BuildupLength(s), d);
    BeatClock.Round(BuildupLength(s) / d)
  }

  /** The padding step of `changeSong`: a song with a buildup buffer gets a buildup rhythm
      of at least `BuildupBeats` characters, its old text kept as a prefix and the rest
      `.`; a song without one keeps its rhythm. */
  method PadBuildupRhythm(s: Song)
    modifies s
    ensures s.buildupRhythm == (if s.buildupBuffer.Some? then Some(BeatClock.PaddedBuildupRhythm(old(s.buildupRhythm), BuildupBeats(s)))
                                else old(s.buildupRhythm))
    ensures s.buildupBuffer.Some? ==>
      && s.buildupRhythm.Some? && |s.buildupRhythm.value| >= BuildupBeats(s)
      && (old(s.buildupRhythm).Some? ==> old(s.buildupRhythm).value <= s.buildupRhythm.value)
  {
    if s.buildupBuffer.Some? {
      s.buildupRhythm := Some(BeatClock.PaddedBuildupRhythm(s.buildupRhythm, BuildupBeats(s)));
    }
  }

  class Engine {
    var autoMode: int
    var respacks: map<string, Respack>
    var hues: seq<Hue>
    var images: seq<Image>
    var songs: seq<Song>
    var hueIndex: Option<int>
    var hue: Option<Hue>
    var songIndex: Option<int>
    var song: Option<Song>
    var imageIndex: Option<int>
    var image: Option<Image>
    var beatDuration: Option<real>
    var beat: BeatClock.Beat
    var buildupBuffer: Option<Audio>
    var buildupStartTime: Option<real>
    var loopBuffer: Option<LoopAudio>
    var loopStartTime: Option<real>
    /** The stored animation-frame handle is non-null. */
    var analysisHandle: bool
    /** A beat analysis callback is actually queued for the next frame. */
    var framePending: bool
    var events: seq<Event>

    /** The selected song and image are the entries their indices name, and a playing loop
        belongs to the selected song, with the beat duration and start times it set. */
    ghost predicate Valid()
      reads this
    {
      && Effects.Normal <= autoMode <= Effects.FullAuto
      && SongSelected() && ImageSelected() && Scheduled()
    }

    ghost predicate SongSelected()
      reads this`songIndex, this`song, this`songs
    {
      && (songIndex.Some? ==> 0 <= songIndex.value < |songs| && song == Some(songs[songIndex.value]))
      && (songIndex.None? ==> song.None?)
    }

    ghost predicate ImageSelected()
      reads this`imageIndex, this`image, this`images
    {
      && (imageIndex.Some? ==> 0 <= imageIndex.value < |images| && image == Some(images[imageIndex.value]))
      && (imageIndex.None? ==> image.None?)
    }

    ghost predicate Scheduled()
      reads this`loopBuffer, this`song, this`beatDuration, this`buildupStartTime, this`loopStartTime
    {
      loopBuffer.Some? ==>
        && song.Some? && loopBuffer.value == song.value.loopBuffer
        && beatDuration == Some(SongBeatDuration(song.value))
        && buildupStartTime.Some? && loopStartTime.Some?
    }

    constructor ()
      ensures Valid()
      ensures autoMode == Effects.FullAuto && respacks == map[]
      ensures hues == [] && images == [] && songs == []
      ensures hueIndex.None? && hue.None? && songIndex.None? && song.None?
      ensures imageIndex.None? && image.None?
      ensures beatDuration.None? && beat == BeatClock.NoBeat
      ensures loopBuffer.None? && buildupBuffer.None? && !analysisHandle && !framePending
      ensures buildupStartTime.None? && loopStartTime.None?
      ensures events == []
    {
      autoMode := Effects.FullAuto;
      respacks := map[];
      hues, images, songs := [], [], [];
      hueIndex, hue := None, None;
      songIndex, song := None, None;
      imageIndex, image := None, None;
      beatDuration := None;
      beat := BeatClock.NoBeat;
      buildupBuffer, buildupStartTime := None, None;
      loopBuffer, loopStartTime := None, None;
      analysisHandle, framePending := false, false;
      events := [];
    }

    /** `setAutoMode`: a known mode name selects its code; any other name is an error and
        the mode stays as it was. */
    method SetAutoMode(mode: string) returns (outcome: Outcome<string>)
      requires Valid()
      modifies this`autoMode
      ensures Valid()
      ensures Effects.AutoModeCode(mode).Some? ==> outcome.Pass? && autoMode == Effects.AutoModeCode(mode).value
      ensures Effects.AutoModeCode(mode).None? ==>
        outcome == Fail("Unknown auto mode: " + mode) && autoMode == old(autoMode)
    {
      match Effects.AutoModeCode(mode)
      case Some(code) =>
        autoMode := code;
        outcome := Pass;
      case None =>
        outcome := Fail("Unknown auto mode: " + mode);
    }

    /** `getAutoMode`: the name of the current mode, the one that selects it again. */
    function GetAutoMode(): (name: string)
      requires Valid()
      reads this
      ensures Effects.AutoModeCode(name) == Some(autoMode)
    {
      Effects.CodeAfterName(autoMode);
      Effects.AutoModeName(autoMode).value
    }

    /** The end of `loadRespack`: the loaded pack is filed under its name, replacing any
        pack of the same name. */
    method RegisterRespack(pack: Respack)
      modifies this`respacks
      ensures respacks == old(respacks)[pack.name := pack]
    {
      respacks := respacks[pack.name := pack];
    }

    /** `addHues`: an unknown pack or one without hues is an error that adds nothing;
        otherwise each offered hue not already active is appended. */
    method AddHues(name: string, subset: Option<seq<int>>) returns (outcome: Outcome<string>)
      requires subset.Some? && name in respacks && respacks[name].hues.Some? ==>
        Registry.InRange(respacks[name].hues.value, subset.value)
      modifies this`hues
      ensures name !in respacks ==> outcome == Fail("Unknown respack: " + name) && hues == old(hues)
      ensures name in respacks && respacks[name].hues.None? ==>
        outcome == Fail("Respack does not contain hues: " + name) && hues == old(hues)
      ensures name in respacks && respacks[name].hues.Some? ==>
        outcome.Pass? && hues == Registry.AppendNew(old(hues), Registry.Offered(respacks[name].hues.value, subset))
    {
      if name !in respacks {
        return Fail("Unknown respack: " + name);
      }
      var category := respacks[name].hues;
      if category.None? {
        return Fail("Respack does not contain hues: " + name);
      }
      hues := Registry.AppendMissing(hues, Registry.Offered(category.value, subset));
      outcome := Pass;
    }

    /** `addSongs`: as `addHues`, over the songs category. */
    method AddSongs(name: string, subset: Option<seq<int>>) returns (outcome: Outcome<string>)
      requires Valid()
      requires subset.Some? && name in respacks && respacks[name].songs.Some? ==>
        Registry.InRange(respacks[name].songs.value, subset.value)
      modifies this`songs
      ensures Valid()
      ensures name !in respacks ==> outcome == Fail("Unknown respack: " + name) && songs == old(songs)
      ensures name in respacks && respacks[name].songs.None? ==>
        outcome == Fail("Respack does not contain songs: " + name) && songs == old(songs)
      ensures name in respacks && respacks[name].songs.Some? ==>
        outcome.Pass? && songs == Registry.AppendNew(old(songs), Registry.Offered(respacks[name].songs.value, subset))
    {
      if name !in respacks {
        return Fail("Unknown respack: " + name);
      }
      var category := respacks[name].songs;
      if category.None? {
        return Fail("Respack does not contain songs: " + name);
      }
      var offered := Registry.Offered(category.value, subset);
      Registry.AppendNewProperties(songs, offered);
      songs := Registry.AppendMissing(songs, offered);
      outcome := Pass;
    }

    /** `addImages`: as `addHues`, over the images category. */
    method AddImages(name: string, subset: Option<seq<int>>) returns (outcome: Outcome<string>)
      requires Valid()
      requires subset.Some? && name in respacks && respacks[name].images.Some? ==>
        Registry.InRange(respacks[name].images.value, subset.value)
      modifies this`images
      ensures Valid()
      ensures name !in respacks ==> outcome == Fail("Unknown respack: " + name) && images == old(images)
      ensures name in respacks && respacks[name].images.None? ==>
        outcome == Fail("Respack does not contain images: " + name) && images == old(images)
      ensures name in respacks && respacks[name].images.Some? ==>
        outcome.Pass? && images == Registry.AppendNew(old(images), Registry.Offered(respacks[name].images.value, subset))
    {
      if name !in respacks {
        return Fail("Unknown respack: " + name);
      }
      var category := respacks[name].images;
      if category.None? {
        return Fail("Respack does not contain images: " + name);
      }
      var offered := Registry.Offered(category.value, subset);
      Registry.AppendNewProperties(images, offered);
      images := Registry.AppendMissing(images, offered);
      outcome := Pass;
    }

    /** `changeImage`: an index naming an active image selects it and announces it; any
        other index is an error that changes nothing. */
    method ChangeImage(index: int) returns (outcome: Outcome<string>)
      requires ImageSelected()
      modifies this`imageIndex, this`image, this`events
      ensures ImageSelected()
      ensures 0 <= index < |images| ==>
        && outcome.Pass? && imageIndex == Some(index) && image == Some(images[index])
        && events == old(events) + [ImageChange(images[index])]
      ensures !(0 <= index < |images|) ==>
        && outcome == Fail("Image index " + Text.IntToDecimal(index) + " out of range")
        && imageIndex == old(imageIndex) && image == old(image) && events == old(events)
    {
      if !(0 <= index < |images|) {
        return Fail("Image index " + Text.IntToDecimal(index) + " out of range");
      }
      imageIndex := Some(index);
      image := Some(images[index]);
      events := events + [ImageChange(images[index])];
      outcome := Pass;
    }

    /** The index `randomImage` would pass to `changeImage` for a draw. */
    function ImagePickFor(draw: real): int
      reads this`imageIndex, this`images
    {
      Effects.ImagePick(imageIndex, |images|, draw)
    }

    /** `randomImage`: changes to a drawn image other than the current one. With more than
        one image, or none selected yet, this always succeeds and picks a new index; with a
        single image already selected the pick runs past the end and fails. */
    method RandomImage(draw: real) returns (outcome: Outcome<string>)
      requires ImageSelected() && 0.0 <= draw < 1.0
      modifies this`imageIndex, this`image, this`events
      ensures ImageSelected()
      ensures var pick := old(ImagePickFor(draw));
        && (outcome.Pass? <==> 0 <= pick < |images|)
        && (outcome.Pass? ==> imageIndex == Some(pick) && events == old(events) + [ImageChange(images[pick])])
        && (outcome.Fail? ==> imageIndex == old(imageIndex) && events == old(events))
      ensures |images| > 1 || (|images| == 1 && old(imageIndex).None?) ==>
        outcome.Pass? && imageIndex.Some? && imageIndex != old(imageIndex)
      ensures |images| == 1 && old(imageIndex).Some? ==> outcome.Fail?
    {
      var pick := ImagePickFor(draw);
      if imageIndex.Some? && |images| > 1 {
        Effects.ImagePickExcludesCurrent(imageIndex.value, |images|, draw);
      } else if imageIndex.None? && |images| > 0 {
        Effects.ImagePickFirst(|images|, draw);
      } else if imageIndex.Some? && |images| == 1 {
        Effects.SingleImagePickOverruns(draw);
      }
      outcome := ChangeImage(pick);
    }

    /** The hue at an index, or nothing when the index is outside the list. */
    function HueAt(i: int): Option<Hue>
      reads this`hues
    {
      if 0 <= i < |hues| then Some(hues[i]) else None
    }

    /** The index `randomHue` stores for a draw, as written. */
    function HuePickFor(draw: real): int
      reads this`hueIndex, this`hues
    {
      Effects.HuePickAsWritten(hueIndex, |hues|, draw)
    }

    /** `randomHue` as written: the stored index is the raw draw, so with a current hue and
        more than one hue it is below `|hues| - 1` (the last hue is never chosen) and it may
        equal the current index. The change is always announced. */
    method RandomHue(draw: real) returns ()
      requires 0.0 <= draw < 1.0
      modifies this`hueIndex, this`hue, this`events
      ensures hueIndex == Some(old(HuePickFor(draw)))
      ensures hue == HueAt(hueIndex.value)
      ensures events == old(events) + [HueChange(hueIndex.value, hue)]
      ensures old(hueIndex).Some? && |hues| > 1 ==> 0 <= hueIndex.value < |hues| - 1
      ensures old(hueIndex).None? && |hues| > 0 ==> 0 <= hueIndex.value < |hues|
    {
      if hueIndex.Some? && |hues| > 1 {
        Effects.HuePickNeverLast(hueIndex.value, |hues|, draw);
      } else if hueIndex.None? && |hues| > 0 {
        Effects.ScaledInRange(draw, |hues|);
      }
      var newIndex := HuePickFor(draw);
      var h := HueAt(newIndex);
      hueIndex := Some(newIndex);
      hue := h;
      events := events + [HueChange(newIndex, h)];
    }

    /** Whether the effect of a beat character throws: it asks for an image change and the
        image pick falls outside the list. */
    ghost function EffectFails(beatChar: Option<char>, imageDraw: real): bool
      reads this`autoMode, this`imageIndex, this`images
    {
      Effects.BeatAction(beatChar, autoMode).changeImage && !(0 <= ImagePickFor(imageDraw) < |images|)
    }

    /** The events the effect of a beat character announces: the hue change first, then the
        image change unless it throws. */
    ghost function EffectEvents(beatChar: Option<char>, hueDraw: real, imageDraw: real): seq<Event>
      reads this`autoMode, this`hueIndex, this`hues, this`imageIndex, this`images
    {
      var action := Effects.BeatAction(beatChar, autoMode);
      var h := HuePickFor(hueDraw);
      var i := ImagePickFor(imageDraw);
      (if action.changeHue then [HueChange(h, HueAt(h))] else [])
        + (if action.changeImage && 0 <= i < |images| then [ImageChange(images[i])] else [])
    }

    /** The hue index and the hue after the effect of a beat character: the drawn ones
        when the character asks for a hue, the current ones otherwise. */
    ghost function HueAfter(beatChar: Option<char>, hueDraw: real): (Option<int>, Option<Hue>)
      reads this`autoMode, this`hueIndex, this`hue, this`hues
    {
      var h := HuePickFor(hueDraw);
      if Effects.BeatAction(beatChar, autoMode).changeHue then (Some(h), HueAt(h)) else (hueIndex, hue)
    }

    /** The image index after the effect of a beat character: the drawn one when the
        character and the mode ask for an image and the pick is valid, the current one
        otherwise. */
    ghost function ImageIndexAfter(beatChar: Option<char>, imageDraw: real): Option<int>
      reads this`autoMode, this`imageIndex, this`images
    {
      var i := ImagePickFor(imageDraw);
      if Effects.BeatAction(beatChar, autoMode).changeImage && 0 <= i < |images| then Some(i) else imageIndex
    }

    /** `doBeatEffect`: a new hue when the character asks for one, then a new image when
        the character and the mode ask for one. */
    method DoBeatEffect(beatChar: Option<char>, hueDraw: real, imageDraw: real) returns (outcome: Outcome<string>)
      requires ImageSelected() && 0.0 <= hueDraw < 1.0 && 0.0 <= imageDraw < 1.0
      modifies this`hueIndex, this`hue, this`imageIndex, this`image, this`events
      ensures ImageSelected()
      ensures (hueIndex, hue) == old(HueAfter(beatChar, hueDraw))
      ensures imageIndex == old(ImageIndexAfter(beatChar, imageDraw))
      ensures outcome.Fail? <==> old(EffectFails(beatChar, imageDraw))
      ensures events == old(events) + old(EffectEvents(beatChar, hueDraw, imageDraw))
    {
      var action := Effects.BeatAction(beatChar, autoMode);
      outcome := Pass;
      if action.changeHue {
        RandomHue(hueDraw);
      }
      if action.changeImage {
        outcome := RandomImage(imageDraw);
      }
    }

    /** `stopSong`: both tracks stop and their buffers are released. */
    method StopSong()
      modifies this`loopBuffer, this`buildupBuffer
      ensures loopBuffer.None? && buildupBuffer.None?
    {
      loopBuffer := None;
      buildupBuffer := None;
    }

    /** `startBeatAnalysis`: a frame is requested only when no handle is stored. */
    method StartBeatAnalysis()
      modifies this`analysisHandle, this`framePending
      ensures old(analysisHandle) ==> analysisHandle && framePending == old(framePending)
      ensures !old(analysisHandle) ==> analysisHandle && framePending
    {
      if !analysisHandle {
        analysisHandle := true;
        framePending := true;
      }
    }

    /** `stopBeatAnalysis`: the handle is cleared and the empty beat announced. The cancel
        call names a property that is never set, so it cancels nothing. */
    method StopBeatAnalysis()
      modifies this`analysisHandle, this`beat, this`events
      ensures !analysisHandle && beat == BeatClock.NoBeat
      ensures events == old(events) + [BeatChange(BeatClock.NoBeat)]
    {
      analysisHandle := false;
      beat := BeatClock.NoBeat;
      events := events + [BeatChange(BeatClock.NoBeat)];
    }

    /** The schedule `changeSong(index)` sets up at clock time `now`: the song selected,
        the beat duration derived from its loop, the buildup starting now (its buffer kept
        only when it has samples) and the loop starting when the buildup ends. */
    ghost predicate StartedSong(index: int, now: real)
      requires 0 <= index < |songs|
      reads this
    {
      var s := songs[index];
      && songIndex == Some(index) && song == Some(s)
      && beatDuration == Some(SongBeatDuration(s))
      && loopBuffer == Some(s.loopBuffer)
      && buildupBuffer == (if BuildupLength(s) > 0.0 then s.buildupBuffer else None)
      && buildupStartTime == Some(now)
      && loopStartTime == Some(now + BuildupLength(s))
    }

    /** `changeSong`: stops playback, selects the song, derives the beat duration from the
        loop, pads or creates the buildup rhythm when the song has a buildup buffer,
        schedules the loop right after the buildup and announces the song. */
    method ChangeSong(index: int, now: real)
      requires Valid() && 0 <= index < |songs|
      modifies this`loopBuffer, this`buildupBuffer, this`songIndex, this`song, this`beatDuration
      modifies this`buildupStartTime, this`loopStartTime, this`analysisHandle, this`framePending, this`events
      modifies songs[index]
      ensures Valid()
      ensures StartedSong(index, now)
      ensures events == old(events) + [SongChange(songs[index])]
      ensures var s := songs[index];
        s.buildupRhythm == (if s.buildupBuffer.Some? then Some(BeatClock.PaddedBuildupRhythm(old(s.buildupRhythm), BuildupBeats(s)))
                            else old(s.buildupRhythm))
      ensures old(analysisHandle) ==> analysisHandle && framePending == old(framePending)
      ensures !old(analysisHandle) ==> analysisHandle && framePending
    {
      StopSong();
      var s := songs[index];
      SelectSong(index);
      PadBuildupRhythm(s);
      ScheduleSong(s, now);
      StartBeatAnalysis();
      events := events + [SongChange(s)];
    }

    /** The selection step of `changeSong`. */
    method SelectSong(index: int)
      requires 0 <= index < |songs|
      modifies this`songIndex, this`song
      ensures songIndex == Some(index) && song == Some(songs[index])
      ensures SongSelected()
    {
      songIndex := Some(index);
      song := Some(songs[index]);
    }

    /** The scheduling half of `changeSong` for the selected song `s`: the beat duration,
        the buildup starting now (its buffer kept only when it has samples) and the loop
        starting when the buildup ends. */
    method ScheduleSong(s: Song, now: real)
      requires song == Some(s)
      modifies this`loopBuffer, this`buildupBuffer, this`beatDuration, this`buildupStartTime, this`loopStartTime
      ensures Scheduled()
      ensures beatDuration == Some(SongBeatDuration(s))
      ensures loopBuffer == Some(s.loopBuffer)
      ensures buildupBuffer == (if BuildupLength(s) > 0.0 then s.buildupBuffer else None)
      ensures buildupStartTime == Some(now) && loopStartTime == Some(now + BuildupLength(s))
    {
      beatDuration := Some(SongBeatDuration(s));
      var buildupStart := now;
      var loopStart := buildupStart + BuildupLength(s);
      buildupBuffer := None;
      if BuildupLength(s) > 0.0 {
        buildupBuffer := s.buildupBuffer;
      }
      loopBuffer := Some(s.loopBuffer);
      buildupStartTime := Some(buildupStart);
      loopStartTime := Some(loopStart);
    }

    /** `playSong`: restarts the selected song. */
    method PlaySong(now: real)
      requires Valid() && songIndex.Some?
      modifies this`loopBuffer, this`buildupBuffer, this`songIndex, this`song, this`beatDuration
      modifies this`buildupStartTime, this`loopStartTime, this`analysisHandle, this`framePending, this`events
      modifies songs
      ensures Valid()
      ensures songIndex == old(songIndex) && StartedSong(songIndex.value, now)
      ensures events == old(events) + [SongChange(song.value)]
      ensures var s := songs[songIndex.value];
        s.buildupRhythm == (if s.buildupBuffer.Some? then Some(BeatClock.PaddedBuildupRhythm(old(s.buildupRhythm), BuildupBeats(s)))
                            else old(s.buildupRhythm))
      ensures old(analysisHandle) ==> analysisHandle && framePending == old(framePending)
      ensures !old(analysisHandle) ==> analysisHandle && framePending
    {
      ChangeSong(songIndex.value, now);
    }

    /** `prevSong`: starts the song before the selected one, wrapping to the last; with no
        selection the index counts as 0, so the last song starts. */
    method PrevSong(now: real)
      requires Valid() && |songs| > 0
      modifies this`loopBuffer, this`buildupBuffer, this`songIndex, this`song, this`beatDuration
      modifies this`buildupStartTime, this`loopStartTime, this`analysisHandle, this`framePending, this`events
      modifies songs
      ensures Valid()
      ensures songIndex == Some(Effects.PrevIndex(old(songIndex).GetOr(0), |songs|))
      ensures 0 <= songIndex.value < |songs| && StartedSong(songIndex.value, now)
      ensures events == old(events) + [SongChange(songs[songIndex.value])]
      ensures var s := songs[songIndex.value];
        s.buildupRhythm == (if s.buildupBuffer.Some? then Some(BeatClock.PaddedBuildupRhythm(old(s.buildupRhythm), BuildupBeats(s)))
                            else old(s.buildupRhythm))
      ensures old(analysisHandle) ==> analysisHandle && framePending == old(framePending)
      ensures !old(analysisHandle) ==> analysisHandle && framePending
    {
      var i := Effects.PrevIndex(songIndex.GetOr(0), |songs|);
      ChangeSong(i, now);
    }

    /** `nextSong`: starts the song after the selected one, wrapping to the first; with no
        selection the index counts as 0, so the second song (or the only one) starts. */
    method NextSong(now: real)
      requires Valid() && |songs| > 0
      modifies this`loopBuffer, this`buildupBuffer, this`songIndex, this`song, this`beatDuration
      modifies this`buildupStartTime, this`loopStartTime, this`analysisHandle, this`framePending, this`events
      modifies songs
      ensures Valid()
      ensures songIndex == Some(Effects.NextIndex(old(songIndex).GetOr(0), |songs|))
      ensures 0 <= songIndex.value < |songs| && StartedSong(songIndex.value, now)
      ensures events == old(events) + [SongChange(songs[songIndex.value])]
      ensures var s := songs[songIndex.value];
        s.buildupRhythm == (if s.buildupBuffer.Some? then Some(BeatClock.PaddedBuildupRhythm(old(s.buildupRhythm), BuildupBeats(s)))
                            else old(s.buildupRhythm))
      ensures old(analysisHandle) ==> analysisHandle && framePending == old(framePending)
      ensures !old(analysisHandle) ==> analysisHandle && framePending
    {
      var i := Effects.NextIndex(songIndex.GetOr(0), |songs|);
      ChangeSong(i, now);
    }

    /** A song is scheduled: its loop buffer, a positive beat duration and both start
        times are set. */
    ghost predicate Playing()
      reads this`loopBuffer, this`song, this`beatDuration, this`buildupStartTime, this`loopStartTime
    {
      && loopBuffer.Some? && song.Some? && beatDuration.Some? && beatDuration.value > 0.0
      && buildupStartTime.Some? && loopStartTime.Some?
    }

    /** The timeline of the playing song. */
    function CurrentTiming(): (timing: BeatClock.Timing)
      requires Playing()
      reads this`loopBuffer, this`song, this`beatDuration, this`buildupStartTime, this`loopStartTime
      ensures timing.Valid()
    {
      BeatClock.Timing(buildupStartTime.value, loopStartTime.value, loopBuffer.value.duration, beatDuration.value)
    }

    /** `beatAnalyze`'s beat identity and beat character for a clock time while the song plays. */
    function BeatNow(now: real): (BeatClock.Beat, Option<char>)
      requires Playing()
      reads this`loopBuffer, this`song, this`beatDuration, this`buildupStartTime, this`loopStartTime, song.value
    {
      BeatClock.BeatAt(now, CurrentTiming(), song.value.rhythm, song.value.buildupRhythm)
    }

    /** The rest of a frame once the beat for the current time is known: a beat equal to
        the stored one changes nothing; a new beat is stored, its effect runs and, unless
        the effect throws, the beat is announced. A throwing effect leaves the frame before
        the next one is requested, while the stale handle stays stored. */
    method ProcessBeat(next: BeatClock.Beat, beatChar: Option<char>, hueDraw: real, imageDraw: real)
      returns (outcome: Outcome<string>)
      requires ImageSelected() && 0.0 <= hueDraw < 1.0 && 0.0 <= imageDraw < 1.0
      modifies this`beat, this`events, this`hueIndex, this`hue, this`imageIndex, this`image
      modifies this`analysisHandle, this`framePending
      ensures ImageSelected() && beat == next
      ensures next == old(beat) ==>
        && outcome.Pass? && events == old(events)
        && hueIndex == old(hueIndex) && hue == old(hue) && imageIndex == old(imageIndex)
      ensures next != old(beat) ==>
        && (hueIndex, hue) == old(HueAfter(beatChar, hueDraw))
        && imageIndex == old(ImageIndexAfter(beatChar, imageDraw))
        && (outcome.Fail? <==> old(EffectFails(beatChar, imageDraw)))
        && events == old(events) + old(EffectEvents(beatChar, hueDraw, imageDraw))
             + (if outcome.Pass? then [BeatChange(next)] else [])
      ensures outcome.Pass? ==> analysisHandle && framePending
      ensures outcome.Fail? ==> analysisHandle == old(analysisHandle) && !framePending
    {
      outcome := Pass;
      if next != beat {
        beat := next;
        outcome := DoBeatEffect(beatChar, hueDraw, imageDraw);
        if outcome.Fail? {
          framePending := false;
          return;
        }
        events := events + [BeatChange(next)];
      }
      analysisHandle, framePending := true, true;
    }

    /** One frame of `beatAnalyze` at clock time `now`. Without a loop buffer analysis
        stops and the empty beat is announced; otherwise the beat for `now` is processed. */
    method BeatTick(now: real, hueDraw: real, imageDraw: real) returns (outcome: Outcome<string>)
      requires Valid() && framePending
      requires 0.0 <= hueDraw < 1.0 && 0.0 <= imageDraw < 1.0
      modifies this`beat, this`events, this`hueIndex, this`hue, this`imageIndex, this`image
      modifies this`analysisHandle, this`framePending
      ensures Valid()
      ensures old(loopBuffer).None? ==>
        && outcome.Pass? && beat == BeatClock.NoBeat && !analysisHandle && !framePending
        && events == old(events) + [BeatChange(BeatClock.NoBeat)]
        && hueIndex == old(hueIndex) && hue == old(hue) && imageIndex == old(imageIndex)
      ensures old(loopBuffer).Some? ==>
        && beat == old(BeatNow(now)).0
        && (beat == old(beat) ==>
              && outcome.Pass? && events == old(events) && analysisHandle && framePending
              && hueIndex == old(hueIndex) && hue == old(hue) && imageIndex == old(imageIndex))
        && (beat != old(beat) ==>
              && (hueIndex, hue) == old(HueAfter(BeatNow(now).1, hueDraw))
              && imageIndex == old(ImageIndexAfter(BeatNow(now).1, imageDraw))
              && (outcome.Fail? <==> old(EffectFails(BeatNow(now).1, imageDraw)))
              && events == old(events) + old(EffectEvents(BeatNow(now).1, hueDraw, imageDraw))
                   + (if outcome.Pass? then [BeatChange(beat)] else []))
        && (outcome.Pass? ==> analysisHandle && framePending)
        && (outcome.Fail? ==> analysisHandle == old(analysisHandle) && !framePending)
    {
      if loopBuffer.None? {
        framePending := false;
        StopBeatAnalysis();
        return Pass;
      }
      var (next, beatChar) := BeatNow(now);
      outcome := ProcessBeat(next, beatChar, hueDraw, imageDraw);
    }

    /** `getBeatString`: the rhythm ahead of the current beat, extended by whole copies of
        the loop rhythm to at least `length` characters (256 when not given); empty when no
        song is selected. */
    method GetBeatString(length: Option<int>) returns (r: string)
      requires Valid()
      ensures song.None? ==> r == ""
      ensures song.Some? ==>
        var s := song.value;
        && r == BeatClock.PadWithRhythm(BeatClock.BeatStringHead(s.rhythm, s.buildupRhythm, beat), s.rhythm, length.GetOr(256))
        && BeatClock.BeatStringHead(s.rhythm, s.buildupRhythm, beat) <= r
        && |r| >= length.GetOr(256)
    {
      r := "";
      var target := length.GetOr(256);
      if song.None? {
        return;
      }
      var s := song.value;
      var head := BeatClock.BeatStringHead(s.rhythm, s.buildupRhythm, beat);
      BeatClock.PadWithRhythmShape(head, s.rhythm, target);
      r := head;
      while |r| < target
        invariant BeatClock.PadWithRhythm(r, s.rhythm, target) == BeatClock.PadWithRhythm(head, s.rhythm, target)
        decreases target - |r|
      {
        r := r + s.rhythm;
      }
    }
  }

  /** Once the loop has started, the beat a tick stores is a loop beat naming a character
      of the rhythm, and that character is the one whose effect runs. */
  lemma PlayingLoopBeat(e: Engine, now: real)
    requires e.Valid() && e.loopBuffer.Some? && now >= e.loopStartTime.value
    ensures var (beat, beatChar) := e.BeatNow(now);
      && beat.buildup.None? && beat.loop.Some?
      && 0 <= beat.loop.value < |e.song.value.rhythm|
      && beatChar == Some(e.song.value.rhythm[beat.loop.value])
  {
    BeatsFillLoop(e.song.value);
    BeatClock.LoopBeatInRange(now, e.CurrentTiming(), e.song.value.rhythm, e.song.value.buildupRhythm);
  }

  /** With at least two images and one already shown, a full-auto image beat always
      moves to a different image and never throws. */
  lemma FullAutoImageBeatMoves(e: Engine, beatChar: char, imageDraw: real)
    requires e.Valid() && e.autoMode == Effects.FullAuto && beatChar in Effects.ImageChars
    requires |e.images| > 1 && e.imageIndex.Some? && 0.0 <= imageDraw < 1.0
    ensures !e.EffectFails(Some(beatChar), imageDraw)
    ensures e.ImagePickFor(imageDraw) != e.imageIndex.value
  {
    Effects.ImagePickExcludesCurrent(e.imageIndex.value, |e.images|, imageDraw);
  }

  /** Outside full auto no beat character changes the image, so no beat effect throws. */
  lemma NoImageBeatOutsideFullAuto(e: Engine, beatChar: Option<char>, hueDraw: real, imageDraw: real)
    requires e.autoMode != Effects.FullAuto
    ensures !e.EffectFails(beatChar, imageDraw)
    ensures |e.EffectEvents(beatChar, hueDraw, imageDraw)| == (if beatChar.Some? && beatChar.value in Effects.HueChars then 1 else 0)
  {
  }
}
