/** The server's resource pack (respack.go): the decoded `info.xml`, `images.xml`,
    `songs.xml` and `hues.xml` sections, the table of mounted files by base name, and the
    rules that resolve each image and song to the URI of one of those files. */
module Respacks {
  import opened Wrappers
  import Text

  /** The kind of a pack XML file, told apart by its first start element. */
  datatype XMLType = Unknown | Info | Images | Songs | Hues

  datatype InfoSection = InfoSection(name: string, author: string, description: string, link: string)

  /** One `<image>`; `uri` is never decoded, only resolved. */
  datatype ImageEntry = ImageEntry(
    uri: string, name: string, fullName: string, centerPixel: Option<int>, align: string,
    frameDuration: Option<int>, beatsPerAnim: Option<int>)

  /** One `<song>`; `uri` and `buildupUri` are never decoded, only resolved. */
  datatype SongEntry = SongEntry(
    uri: string, name: string, title: string, rhythm: string, buildupUri: string,
    buildup: string, buildupRhythm: string, charsPerBeat: Option<int>)

  datatype HueEntry = HueEntry(name: string, color: string)

  /** What a mounted file handler opens: a file of the archive or directory, by its path,
      or XML content held in memory. */
  datatype FileSource = PackFile(path: string) | Content(text: string)

  /** One token of an XML decoder: a start element with its local name, any other token,
      or the error that ends the stream (`EOF` at its end). */
  datatype Token = StartElement(local: string) | OtherToken | TokenError(message: string)

  /** What `xml.Unmarshal` leaves in a section: decoding works on the existing value, so a
      failed decode may leave it partly updated. */
  datatype Decoded<T> = Decoded(value: T, error: Option<string>)

  /** The decoding of each section, from the file content and the section's current value. */
  datatype Decoders = Decoders(
    info: (string, InfoSection) -> Decoded<InfoSection>,
    images: (string, seq<ImageEntry>) -> Decoded<seq<ImageEntry>>,
    songs: (string, seq<SongEntry>) -> Decoded<seq<SongEntry>>,
    hues: (string, seq<HueEntry>) -> Decoded<seq<HueEntry>>)

  // ---------------------------------------------------------------- file names

  /** `path` without its trailing `/` characters. */
  function StripTrailingSlashes(path: string): (r: string)
    ensures r <= path
    ensures r == [] || r[|r| - 1] != '/'
    ensures forall k :: |r| <= k < |path| ==> path[k] == '/'
  {
    if path != [] && path[|path| - 1] == '/' then StripTrailingSlashes(path[..|path| - 1]) else path
  }

  /** The text after the last `/` of `path` (all of it when there is none). */
  function AfterLastSlash(path: string): (r: string)
    ensures |r| <= |path| && r == path[|path| - |r|..]
    ensures '/' !in r
    ensures |r| < |path| ==> path[|path| - |r| - 1] == '/'
  {
    if path == [] || path[|path| - 1] == '/' then []
    else AfterLastSlash(path[..|path| - 1]) + [path[|path| - 1]]
  }

  /** `filepath.Base` on `/`-separated paths: the last element, `.` for the empty path and
      `/` for a path of slashes only. */
  function Base(path: string): (r: string)
    ensures r != []
    ensures r == "/" || '/' !in r
  {
    if path == [] then "."
    else
      var last := AfterLastSlash(StripTrailingSlashes(path));
      if last == [] then "/" else last
  }

  /** `filepath.Ext`: the suffix from the final `.` of the last element, or nothing. */
  function Ext(path: string): (r: string)
    ensures |r| <= |path| && r == path[|path| - |r|..]
    ensures '.' !in path ==> r == []
  {
    if path == [] || path[|path| - 1] == '/' then []
    else if path[|path| - 1] == '.' then "."
    else
      var e := Ext(path[..|path| - 1]);
      if e == [] then [] else e + [path[|path| - 1]]
  }

  /** A non-empty extension starts at a `.` and holds no other `.` and no `/`: it is cut
      at the last dot of the last element. */
  lemma {:induction false} ExtShape(path: string)
    ensures var r := Ext(path);
      r == [] || (r[0] == '.' && '.' !in r[1..] && '/' !in r)
  {
    if path != [] && path[|path| - 1] != '/' && path[|path| - 1] != '.' {
      var init := path[..|path| - 1];
      ExtShape(init);
      var e := Ext(init);
      if e != [] {
        assert (e + [path[|path| - 1]])[1..] == e[1..] + [path[|path| - 1]];
      }
    }
  }

  /** `strings.TrimSuffix`. */
  function TrimSuffix(s: string, suffix: string): (r: string)
    ensures r <= s
    ensures |suffix| <= |s| && s[|s| - |suffix|..] == suffix ==> r + suffix == s
  {
    if |suffix| <= |s| && s[|s| - |suffix|..] == suffix then s[..|s| - |suffix|] else s
  }

  /** `strings.ReplaceAll(s, " ", "_")`. */
  function ReplaceSpaces(s: string): (r: string)
    ensures |r| == |s|
    ensures forall k :: 0 <= k < |s| ==> r[k] == if s[k] == ' ' then '_' else s[k]
  {
    seq(|s|, k requires 0 <= k < |s| => if s[k] == ' ' then '_' else s[k])
  }

  /** `respackFilenameToID` (respack.go:332-336): the base name without its extension,
      spaces turned into underscores. */
  function FilenameToID(filename: string): (id: string)
  {
    var base := Base(filename);
    ReplaceSpaces(TrimSuffix(base, Ext(base)))
  }

  /** An ID holds no space, and it is exactly the base name with its final extension cut
      off, character for character except that spaces became `_`. */
  lemma FilenameToIDShape(filename: string)
    ensures var base := Base(filename);
      && ' ' !in FilenameToID(filename)
      && |FilenameToID(filename)| + |Ext(base)| == |base|
      && forall k :: 0 <= k < |FilenameToID(filename)| ==>
           FilenameToID(filename)[k] == if base[k] == ' ' then '_' else base[k]
  {
    var base := Base(filename);
    var ext := Ext(base);
    var trimmed := TrimSuffix(base, ext);
    assert trimmed + ext == base;
    var id := ReplaceSpaces(trimmed);
    assert id == FilenameToID(filename);
    assert forall k :: 0 <= k < |trimmed| ==> trimmed[k] == base[k];
  }

  /** The last element of a path is whatever follows its last `/`. */
  lemma {:induction false} AfterLastSlashOfElement(dir: string, name: string)
    requires '/' !in name
    ensures AfterLastSlash(dir + "/" + name) == name
    decreases |name|
  {
    if name == [] {
      assert (dir + "/" + name)[|dir + "/" + name| - 1] == '/';
    } else {
      var init := name[..|name| - 1];
      AfterLastSlashOfElement(dir, init);
      assert (dir + "/" + name)[..|dir + "/" + name| - 1] == dir + "/" + init;
      assert init + [name[|name| - 1]] == name;
    }
  }

  /** The extension of a name is the part after its last `.`. */
  lemma {:induction false} ExtOfName(stem: string, ext: string)
    requires '/' !in ext && '.' !in ext
    ensures Ext(stem + "." + ext) == "." + ext
    decreases |ext|
  {
    if ext == [] {
      assert stem + "." + ext == stem + ".";
    } else {
      var init := ext[..|ext| - 1];
      var c := ext[|ext| - 1];
      assert ext == init + [c];
      ExtOfName(stem, init);
      ExtStep(stem + "." + init, c);
      assert stem + "." + ext == (stem + "." + init) + [c];
      assert "." + ext == ("." + init) + [c];
    }
  }

  /** A character other than `/` and `.` extends an existing extension. */
  lemma ExtStep(prefix: string, c: char)
    requires c != '/' && c != '.' && Ext(prefix) != []
    ensures Ext(prefix + [c]) == Ext(prefix) + [c]
  {
    assert (prefix + [c])[..|prefix|] == prefix;
  }

  /** The base name of `<dir>/<name>` is `name` when `name` is a non-empty element. */
  lemma BaseOfElement(dir: string, name: string)
    requires name != [] && '/' !in name
    ensures Base(dir + "/" + name) == name
  {
    var path := dir + "/" + name;
    assert path[|path| - 1] == name[|name| - 1];
    assert StripTrailingSlashes(path) == path;
    AfterLastSlashOfElement(dir, name);
  }

  /** A pack directory `<dir>/<name>` whose name has no `.` gets the whole name as its ID,
      spaces turned into `_`. */
  lemma FilenameToIDOfPlainName(dir: string, name: string)
    requires name != [] && '/' !in name && '.' !in name
    ensures FilenameToID(dir + "/" + name) == ReplaceSpaces(name)
  {
    BaseOfElement(dir, name);
    assert TrimSuffix(name, Ext(name)) == name;
  }

  /** A pack file `<dir>/<stem>.<ext>` gets the ID `<stem>` with spaces turned into `_`;
      only the last extension is cut, so a stem may keep dots of its own. */
  lemma FilenameToIDOfPackFile(dir: string, stem: string, ext: string)
    requires '/' !in stem && '/' !in ext && '.' !in ext
    ensures FilenameToID(dir + "/" + stem + "." + ext) == ReplaceSpaces(stem)
  {
    var name := stem + "." + ext;
    assert dir + "/" + stem + "." + ext == dir + "/" + name;
    assert Base(dir + "/" + name) == name by {
      assert '/' !in name by {
        forall k | 0 <= k < |name| ensures name[k] != '/' {
          if k < |stem| { assert name[k] == stem[k]; }
          else if k > |stem| { assert name[k] == ext[k - |stem| - 1]; }
        }
      }
      BaseOfElement(dir, name);
    }
    assert TrimSuffix(name, Ext(name)) == stem by {
      ExtOfName(stem, ext);
    }
  }

  // ---------------------------------------------------------------- XML type

  /** The type named by a start element, compared case-insensitively; any other element
      gives `Unknown`. */
  function Classify(local: string): (t: XMLType)
    ensures t == Info <==> Text.ToLower(local) == "info"
    ensures t == Images <==> Text.ToLower(local) == "images"
    ensures t == Songs <==> Text.ToLower(local) == "songs"
    ensures t == Hues <==> Text.ToLower(local) == "hues"
  {
    match Text.ToLower(local)
    case "info" => Info
    case "images" => Images
    case "songs" => Songs
    case "hues" => Hues
    case _ => Unknown
  }

  /** What the decoder stream of a file says its type is: the first start element decides;
      an error, or the end of the stream, before any start element is the error. */
  function TypeOf(tokens: seq<Token>): Result<XMLType, string> {
    if tokens == [] then Failure("EOF")
    else match tokens[0]
      case StartElement(local) => Success(Classify(local))
      case TokenError(message) => Failure(message)
      case OtherToken => TypeOf(tokens[1..])
  }

  /** The first start element decides the type when only other tokens come before it. */
  lemma {:induction false} FirstStartDecides(tokens: seq<Token>, k: nat)
    requires k < |tokens| && tokens[k].StartElement?
    requires forall j :: 0 <= j < k ==> tokens[j] == OtherToken
    ensures TypeOf(tokens) == Success(Classify(tokens[k].local))
  {
    if k > 0 {
      FirstStartDecides(tokens[1..], k - 1);
    }
  }

  /** A decoder error before any start element is returned as the error. */
  lemma {:induction false} ErrorBeforeStart(tokens: seq<Token>, k: nat)
    requires k < |tokens| && tokens[k].TokenError?
    requires forall j :: 0 <= j < k ==> tokens[j] == OtherToken
    ensures TypeOf(tokens) == Failure(tokens[k].message)
  {
    if k > 0 {
      ErrorBeforeStart(tokens[1..], k - 1);
    }
  }

  /** A stream without any start element or error ends in `EOF`. */
  lemma {:induction false} NoStartElement(tokens: seq<Token>)
    requires forall j :: 0 <= j < |tokens| ==> tokens[j] == OtherToken
    ensures TypeOf(tokens) == Failure("EOF")
  {
    if tokens != [] {
      NoStartElement(tokens[1..]);
    }
  }

  /** The element name decides regardless of case. */
  lemma ClassifyIgnoresCase()
    ensures Classify("INFO") == Info && Classify("Songs") == Songs && Classify("image") == Unknown
  {
    assert Text.ToLower("INFO") == "info";
    assert Text.ToLower("Songs") == "songs";
    assert Text.ToLower("image") == "image";
  }

  /** `detectXMLType` (respack.go:338-361): read tokens until a start element or an error. */
  method DetectXMLType(tokens: seq<Token>) returns (r: Result<XMLType, string>)
    ensures r == TypeOf(tokens)
  {
    var i := 0;
    while i < |tokens|
      invariant 0 <= i <= |tokens|
      invariant TypeOf(tokens[i..]) == TypeOf(tokens)
    {
      match tokens[i]
      case StartElement(local) =>
        return Success(Classify(local));
      case TokenError(message) =>
        return Failure(message);
      case OtherToken =>
        assert tokens[i..][1..] == tokens[i + 1..];
        i := i + 1;
    }
    return Failure("EOF");
  }

  /** The file name under which a decoded file of type `t` is mounted; none for `Unknown`. */
  function MountName(t: XMLType): string {
    match t
    case Info => "info.xml"
    case Images => "images.xml"
    case Songs => "songs.xml"
    case Hues => "hues.xml"
    case Unknown => ""
  }

  // ---------------------------------------------------------------- URI resolution

  const ImageExtensions: seq<string> := [".png", ".jpg", ".gif"]
  const SongExtensions: seq<string> := [".opus", ".ogg", ".mp3"]

  /** The names tried for an image file, in order. */
  function ImageCandidates(name: string): seq<string> {
    [name, name + "_1", name + "_01", name + "_001"]
  }

  /** The position of the first extension, from position `from` on, under which `name` is
      a mounted file. */
  function FirstExtension(files: map<string, FileSource>, name: string, exts: seq<string>, from: nat): (r: Option<nat>)
    requires from <= |exts|
    ensures r.Some? ==> from <= r.value < |exts| && name + exts[r.value] in files
    ensures r.Some? ==> forall j :: from <= j < r.value ==> name + exts[j] !in files
    ensures r.None? ==> forall j :: from <= j < |exts| ==> name + exts[j] !in files
    decreases |exts| - from
  {
    if from == |exts| then None
    else if name + exts[from] in files then Some(from)
    else FirstExtension(files, name, exts, from + 1)
  }

  /** The URI of `name` under the first extension that names a mounted file; nothing for
      the empty name. */
  function Resolved(files: map<string, FileSource>, id: string, name: string, exts: seq<string>): Option<string> {
    if name == [] then None
    else match FirstExtension(files, name, exts, 0)
      case Some(k) => Some(id + "/" + name + exts[k])
      case None => None
  }

  /** The URI of an image: the first candidate name that resolves. */
  function ResolvedImage(files: map<string, FileSource>, id: string, name: string): Option<string> {
    var c := ImageCandidates(name);
    if Resolved(files, id, c[0], ImageExtensions).Some? then Resolved(files, id, c[0], ImageExtensions)
    else if Resolved(files, id, c[1], ImageExtensions).Some? then Resolved(files, id, c[1], ImageExtensions)
    else if Resolved(files, id, c[2], ImageExtensions).Some? then Resolved(files, id, c[2], ImageExtensions)
    else Resolved(files, id, c[3], ImageExtensions)
  }

  /** A resolved URI names a mounted file under the pack's ID, and every extension listed
      before the chosen one is missing; nothing resolves when the name is empty or no
      extension matches. */
  lemma ResolvedMeaning(files: map<string, FileSource>, id: string, name: string, exts: seq<string>)
    ensures Resolved(files, id, name, exts).None? <==>
      name == [] || forall j :: 0 <= j < |exts| ==> name + exts[j] !in files
    ensures Resolved(files, id, name, exts).Some? ==>
      exists k :: 0 <= k < |exts| && name + exts[k] in files
        && (forall j :: 0 <= j < k ==> name + exts[j] !in files)
        && Resolved(files, id, name, exts).value == id + "/" + name + exts[k]
  {
    var r := FirstExtension(files, name, exts, 0);
    if name != [] && r.Some? {
      var k := r.value;
      assert name + exts[k] in files;
    }
  }

  /** The earliest image candidate wins: a later candidate is used only when every earlier
      one fails to resolve. */
  lemma ResolvedImageMeaning(files: map<string, FileSource>, id: string, name: string)
    ensures ResolvedImage(files, id, name).Some? <==>
      exists c :: 0 <= c < 4 && Resolved(files, id, ImageCandidates(name)[c], ImageExtensions).Some?
    ensures forall c ::
              (&& 0 <= c < 4
               && Resolved(files, id, ImageCandidates(name)[c], ImageExtensions).Some?
               && (forall d :: 0 <= d < c ==> Resolved(files, id, ImageCandidates(name)[d], ImageExtensions).None?))
              ==> ResolvedImage(files, id, name) == Resolved(files, id, ImageCandidates(name)[c], ImageExtensions)
  {
  }

  /** `resolveURIs` on one image: the URI is set when the image resolves. */
  function ResolveImageEntry(files: map<string, FileSource>, id: string, e: ImageEntry): ImageEntry {
    match ResolvedImage(files, id, e.name)
    case Some(uri) => e.(uri := uri)
    case None => e
  }

  /** `resolveURIs` on one song: the URI and the buildup URI are each set when they resolve. */
  function ResolveSongEntry(files: map<string, FileSource>, id: string, e: SongEntry): SongEntry {
    var withUri := match Resolved(files, id, e.name, SongExtensions)
      case Some(uri) => e.(uri := uri)
      case None => e;
    match Resolved(files, id, e.buildup, SongExtensions)
    case Some(uri) => withUri.(buildupUri := uri)
    case None => withUri
  }

  /** Resolution touches nothing but the URIs, and an empty buildup never gets one. */
  lemma ResolveEntryChangesOnlyURIs(files: map<string, FileSource>, id: string, image: ImageEntry, song: SongEntry)
    ensures ResolveImageEntry(files, id, image).(uri := image.uri) == image
    ensures ResolveSongEntry(files, id, song).(uri := song.uri, buildupUri := song.buildupUri) == song
    ensures song.buildup == [] ==> ResolveSongEntry(files, id, song).buildupUri == song.buildupUri
    ensures ResolveImageEntry(files, id, image).uri != image.uri ==>
      ResolvedImage(files, id, image.name) == Some(ResolveImageEntry(files, id, image).uri)
  {
  }

  // ---------------------------------------------------------------- the pack

  /** A loaded pack. `id` is fixed when the pack is created; the sections and the mounted
      files are filled in while its files are read. */
  class Respack {
    const id: string
    var info: InfoSection
    var images: seq<ImageEntry>
    var songs: seq<SongEntry>
    var hues: seq<HueEntry>
    var fileHandlers: map<string, FileSource>

    /** A pack read from `path` (respack.go:83-88, 114-117): its ID comes from the file
        name, nothing is mounted yet, and a pack read from a zip file is named after its
        ID until an `info.xml` says otherwise. */
    constructor (path: string, fromZip: bool)
      ensures id == FilenameToID(path)
      ensures info == InfoSection(if fromZip then id else "", "", "", "")
      ensures images == [] && songs == [] && hues == [] && fileHandlers == map[]
    {
      id := FilenameToID(path);
      info := InfoSection(if fromZip then FilenameToID(path) else "", "", "", "");
      images, songs, hues := [], [], [];
      fileHandlers := map[];
    }

    function Name(): string
      reads this`info
    {
      info.name
    }

    function ImageCount(): nat
      reads this`images
    {
      |images|
    }

    function SongCount(): nat
      reads this`songs
    {
      |songs|
    }

    /** `resolveURI` (respack.go:203-213): the URI of the first extension, in list order,
        under which `name` is mounted. */
    method ResolveURI(name: string, exts: seq<string>) returns (uri: string, ok: bool)
      ensures ok <==> Resolved(fileHandlers, id, name, exts).Some?
      ensures ok ==> uri == Resolved(fileHandlers, id, name, exts).value
      ensures !ok ==> uri == ""
    {
      if name == "" {
        return "", false;
      }
      for i := 0 to |exts|
        invariant FirstExtension(fileHandlers, name, exts, i) == FirstExtension(fileHandlers, name, exts, 0)
      {
        if name + exts[i] in fileHandlers {
          return id + "/" + name + exts[i], true;
        }
      }
      return "", false;
    }

    /** `resolveImageURI` (respack.go:215-230): `name`, `name_1`, `name_01`, `name_001`,
        each under `.png`, `.jpg`, `.gif`. */
    method ResolveImageURI(name: string) returns (uri: string, ok: bool)
      ensures ok <==> ResolvedImage(fileHandlers, id, name).Some?
      ensures ok ==> uri == ResolvedImage(fileHandlers, id, name).value
      ensures !ok ==> uri == ""
    {
      uri, ok := ResolveURI(name, ImageExtensions);
      if ok {
        return;
      }
      uri, ok := ResolveURI(name + "_1", ImageExtensions);
      if ok {
        return;
      }
      uri, ok := ResolveURI(name + "_01", ImageExtensions);
      if ok {
        return;
      }
      uri, ok := ResolveURI(name + "_001", ImageExtensions);
      if ok {
        return;
      }
      return "", false;
    }

    /** `resolveSongURI` (respack.go:232-235): `.opus`, then `.ogg`, then `.mp3`. */
    method ResolveSongURI(name: string) returns (uri: string, ok: bool)
      ensures ok <==> Resolved(fileHandlers, id, name, SongExtensions).Some?
      ensures ok ==> uri == Resolved(fileHandlers, id, name, SongExtensions).value
      ensures !ok ==> uri == ""
    {
      uri, ok := ResolveURI(name, SongExtensions);
    }

    /** `resolveURIs` (respack.go:237-251): every entry that resolves gets its URI, in
        place; counts and all other fields stay. */
    method ResolveURIs()
      modifies this`images, this`songs
      ensures |images| == |old(images)| && |songs| == |old(songs)|
      ensures forall i :: 0 <= i < |images| ==> images[i] == ResolveImageEntry(fileHandlers, id, old(images)[i])
      ensures forall i :: 0 <= i < |songs| ==> songs[i] == ResolveSongEntry(fileHandlers, id, old(songs)[i])
    {
      for i := 0 to |images|
        invariant |images| == |old(images)|
        invariant forall j :: 0 <= j < i ==> images[j] == ResolveImageEntry(fileHandlers, id, old(images)[j])
        invariant forall j :: i <= j < |images| ==> images[j] == old(images)[j]
        invariant songs == old(songs)
      {
        var uri, ok := ResolveImageURI(images[i].name);
        if ok {
          images := images[i := images[i].(uri := uri)];
        }
      }
      ghost var resolvedImages := images;
      for i := 0 to |songs|
        invariant images == resolvedImages
        invariant |songs| == |old(songs)|
        invariant forall j :: 0 <= j < i ==> songs[j] == ResolveSongEntry(fileHandlers, id, old(songs)[j])
        invariant forall j :: i <= j < |songs| ==> songs[j] == old(songs)[j]
      {
        var uri, ok := ResolveSongURI(songs[i].name);
        if ok {
          songs := songs[i := songs[i].(uri := uri)];
        }
        var buildupUri, buildupOk := ResolveSongURI(songs[i].buildup);
        if buildupOk {
          songs := songs[i := songs[i].(buildupUri := buildupUri)];
        }
      }
    }

    /** `unmarshal` (respack.go:171-201): the file's type picks the section it is decoded
        into; a known type that decodes without error is mounted under its canonical name.
        An `Unknown` file changes nothing and is no error. */
    method Unmarshal(content: string, tokens: seq<Token>, decoders: Decoders) returns (err: Option<string>)
      modifies this`info, this`images, this`songs, this`hues, this`fileHandlers
      ensures TypeOf(tokens).Failure? ==>
        && err == Some(TypeOf(tokens).error)
        && info == old(info) && images == old(images) && songs == old(songs) && hues == old(hues)
        && fileHandlers == old(fileHandlers)
      ensures TypeOf(tokens).Success? ==>
        var t := TypeOf(tokens).value;
        && info == (if t == Info then decoders.info(content, old(info)).value else old(info))
        && images == (if t == Images then decoders.images(content, old(images)).value else old(images))
        && songs == (if t == Songs then decoders.songs(content, old(songs)).value else old(songs))
        && hues == (if t == Hues then decoders.hues(content, old(hues)).value else old(hues))
        && err == (match t
                   case Info => decoders.info(content, old(info)).error
                   case Images => decoders.images(content, old(images)).error
                   case Songs => decoders.songs(content, old(songs)).error
                   case Hues => decoders.hues(content, old(hues)).error
                   case Unknown => None)
        && fileHandlers == (if err.None? && t != Unknown then old(fileHandlers)[MountName(t) := Content(content)]
                            else old(fileHandlers))
    {
      var detected := DetectXMLType(tokens);
      if detected.Failure? {
        return Some(detected.error);
      }
      var mountFile := "";
      err := None;
      match detected.value {
        case Info =>
          mountFile := "info.xml";
          var d := decoders.info(content, info);
          info, err := d.value, d.error;
        case Images =>
          mountFile := "images.xml";
          var d := decoders.images(content, images);
          images, err := d.value, d.error;
        case Songs =>
          mountFile := "songs.xml";
          var d := decoders.songs(content, songs);
          songs, err := d.value, d.error;
        case Hues =>
          mountFile := "hues.xml";
          var d := decoders.hues(content, hues);
          hues, err := d.value, d.error;
        case Unknown =>
      }
      if err.None? && mountFile != "" {
        fileHandlers := fileHandlers[mountFile := Content(content)];
      }
    }

    /** `Open` (respack.go:265-272): a mounted file wins; otherwise `info.xml` is made up
        from the pack's ID, and any other name is not found. */
    function Open(name: string): (r: Result<FileSource, string>)
      reads this`fileHandlers
      ensures r.Success? <==> name in fileHandlers || name == "info.xml"
      ensures name in fileHandlers ==> r == Success(fileHandlers[name])
    {
      if name in fileHandlers then Success(fileHandlers[name])
      else if name == "info.xml" then Success(Content(SynthesizedInfo(id)))
      else Failure("not found")
    }
  }

  /** The `info.xml` served for a pack that has none. */
  function SynthesizedInfo(id: string): string {
    "<info><name>" + id + "</name></info>"
  }

  /** Every pack serves an `info.xml`; a name that is neither mounted nor `info.xml` is not
      found; a mounted file is served as mounted. */
  lemma OpenMeaning(rp: Respack, name: string)
    ensures rp.Open("info.xml").Success?
    ensures name in rp.fileHandlers ==> rp.Open(name) == Success(rp.fileHandlers[name])
    ensures rp.Open(name).Failure? <==> name !in rp.fileHandlers && name != "info.xml"
    ensures "info.xml" !in rp.fileHandlers ==> rp.Open("info.xml") == Success(Content(SynthesizedInfo(rp.id)))
  {
  }
}
