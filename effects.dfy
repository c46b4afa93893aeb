/** The selection rules of the show engine as plain values: the auto-mode names
    (hues.js:138-162), wrap-around song stepping (hues.js:266-288), the index drawn by
    `randomImage` (hues.js:356-368) and by `randomHue` (hues.js:1098-1114), and the beat
    character table of `doBeatEffect` (hues.js:1117-1192). */
module Effects {
  import opened Wrappers

  /** Auto-mode codes: never change image, change on song start or loop, follow the rhythm. */
  const Normal := 0
  const Auto := 1
  const FullAuto := 2

  /** `setAutoMode`'s switch: the code for a mode name, or nothing for an unknown name. */
  function AutoModeCode(name: string): (r: Option<int>)
    ensures r.Some? ==> Normal <= r.value <= FullAuto
  {
    if name == "normal" then Some(Normal)
    else if name == "auto" then Some(Auto)
    else if name == "full auto" then Some(FullAuto)
    else None
  }

  /** `getAutoMode`'s switch: the name of a code; any other code falls out of the switch
      and yields `undefined`. */
  function AutoModeName(code: int): (r: Option<string>)
    ensures r.Some? <==> Normal <= code <= FullAuto
  {
    if code == Normal then Some("normal")
    else if code == Auto then Some("auto")
    else if code == FullAuto then Some("full auto")
    else None
  }

  /** Setting a mode by name and reading it back gives the same name. */
  lemma NameAfterCode(name: string)
    requires AutoModeCode(name).Some?
    ensures AutoModeName(AutoModeCode(name).value) == Some(name)
  {
  }

  /** Each valid code has a name that sets it again. */
  lemma CodeAfterName(code: int)
    requires Normal <= code <= FullAuto
    ensures AutoModeName(code).Some? && AutoModeCode(AutoModeName(code).value) == Some(code)
  {
  }

  /** `prevSong`: one back, from the first song to the last. */
  function PrevIndex(i: int, n: nat): (r: int)
    ensures 0 <= i < n ==> 0 <= r < n
  {
    if i - 1 < 0 then n - 1 else i - 1
  }

  /** `nextSong`: one forward, from the last song to the first. */
  function NextIndex(i: int, n: nat): (r: int)
    ensures 0 <= i < n ==> 0 <= r < n
  {
    if i + 1 >= n then 0 else i + 1
  }

  /** Stepping forward and then back returns to the same song, and so does back then forward. */
  lemma PrevNextInverse(i: int, n: nat)
    requires 0 <= i < n
    ensures PrevIndex(NextIndex(i, n), n) == i
    ensures NextIndex(PrevIndex(i, n), n) == i
  {
  }

  /** The song index after `k` calls of `nextSong`. */
  function StepForward(i: int, n: nat, k: nat): int {
    if k == 0 then i else NextIndex(StepForward(i, n, k - 1), n)
  }

  /** Before the end of the list, each step moves exactly one song forward. */
  lemma {:induction false} StepForwardNoWrap(i: int, n: nat, k: nat)
    requires 0 <= i && i + k < n
    ensures StepForward(i, n, k) == i + k
  {
    if k > 0 {
      StepForwardNoWrap(i, n, k - 1);
    }
  }

  /** Steps compose: `a + b` steps are `a` steps followed by `b` steps. */
  lemma {:induction false} StepForwardSplit(i: int, n: nat, a: nat, b: nat)
    ensures StepForward(i, n, a + b) == StepForward(StepForward(i, n, a), n, b)
  {
    if b > 0 {
      StepForwardSplit(i, n, a, b - 1);
    }
  }

  /** `n` calls of `nextSong` come back to the song they started from. */
  lemma StepForwardCycle(i: int, n: nat)
    requires 0 <= i < n
    ensures StepForward(i, n, n) == i
  {
    StepForwardSplit(i, n, n - 1 - i, i + 1);
    StepForwardNoWrap(i, n, n - 1 - i);
    assert StepForward(i, n, n - i) == 0;
    StepForwardSplit(n - 1, n, 1, i);
    StepForwardNoWrap(0, n, i);
  }

  /** `Math.floor(draw * m)` for a draw of `Math.random()`. */
  function Scaled(draw: real, m: int): int {
    (draw * m as real).Floor
  }

  lemma ScaledInRange(draw: real, m: int)
    requires 0.0 <= draw < 1.0 && m >= 1
    ensures 0 <= Scaled(draw, m) < m
  {
    assert 0.0 <= draw * m as real;
    assert draw * m as real < m as real by {
      assert (1.0 - draw) * m as real > 0.0;
    }
  }

  /** The index `randomImage` hands to `changeImage` for `n` images, the current selection
      and a draw in [0, 1): with a selection it draws from n - 1 slots and skips over the
      current index. */
  function ImagePick(current: Option<int>, n: nat, draw: real): int {
    match current
    case None => Scaled(draw, n)
    case Some(c) =>
      var i := Scaled(draw, n - 1);
      if i >= c then i + 1 else i
  }

  /** With more than one image and a current one, the pick is another valid index. */
  lemma ImagePickExcludesCurrent(c: int, n: nat, draw: real)
    requires 0.0 <= draw < 1.0 && n > 1 && 0 <= c < n
    ensures 0 <= ImagePick(Some(c), n, draw) < n
    ensures ImagePick(Some(c), n, draw) != c
  {
    ScaledInRange(draw, n - 1);
  }

  /** Without a current image the pick is any valid index. */
  lemma ImagePickFirst(n: nat, draw: real)
    requires 0.0 <= draw < 1.0 && n > 0
    ensures 0 <= ImagePick(None, n, draw) < n
  {
    ScaledInRange(draw, n);
  }

  /** Every other image can be drawn: the exclusion leaves no index unreachable. */
  lemma ImagePickReaches(c: int, n: nat, j: int)
    requires n > 1 && 0 <= c < n && 0 <= j < n && j != c
    ensures var slot := if j < c then j else j - 1;
      var draw := slot as real / (n - 1) as real;
      0.0 <= draw < 1.0 && ImagePick(Some(c), n, draw) == j
  {
    var slot := if j < c then j else j - 1;
    var draw := slot as real / (n - 1) as real;
    assert draw * (n - 1) as real == slot as real;
  }

  /** With a single image already shown the shifted pick is 1, an index past the end. */
  lemma SingleImagePickOverruns(draw: real)
    requires 0.0 <= draw < 1.0
    ensures ImagePick(Some(0), 1, draw) == 1
  {
  }

  /** The index `randomHue` stores, as written: the draw is shifted past the current
      index only in the local `index` (hues.js:1106-1107), so the stored index is the raw
      draw from n - 1 slots. */
  function HuePickAsWritten(current: Option<int>, n: nat, draw: real): int {
    match current
    case None => Scaled(draw, n)
    case Some(c) => Scaled(draw, n - 1)
  }

  /** With a current hue the new index is the unshifted draw: it lies in [0, n - 1), so
      the last hue is never chosen. */
  lemma HuePickNeverLast(c: int, n: nat, draw: real)
    requires 0.0 <= draw < 1.0 && n > 1
    ensures 0 <= HuePickAsWritten(Some(c), n, draw) < n - 1
  {
    ScaledInRange(draw, n - 1);
  }

  /** The pick can repeat the current hue: the draw that lands on slot `c` keeps it. */
  lemma HuePickCanRepeat(c: int, n: nat)
    requires 0 <= c < n - 1
    ensures var draw := c as real / (n - 1) as real;
      0.0 <= draw < 1.0 && HuePickAsWritten(Some(c), n, draw) == c
  {
    var draw := c as real / (n - 1) as real;
    assert draw * (n - 1) as real == c as real;
  }

  /** What one beat character asks for: a new hue, a new image, both or neither. */
  datatype Action = Action(changeHue: bool, changeImage: bool)

  /** Beat characters that change the hue. */
  const HueChars: set<char> := {'x', 'o', '-', ':', 'X', 'O'}
  /** Beat characters that change the image in full-auto mode. */
  const ImageChars: set<char> := {'x', 'o', '-', '|', '*', '='}

  /** The switch of `doBeatEffect`. No character (charAt past the end gives "") and any
      unlisted character, `+` and `~` included, do nothing. */
  function BeatAction(beatChar: Option<char>, autoMode: int): (a: Action)
    ensures a.changeHue <==> beatChar.Some? && beatChar.value in HueChars
    ensures a.changeImage <==> autoMode == FullAuto && beatChar.Some? && beatChar.value in ImageChars
  {
    match beatChar
    case None => Action(false, false)
    case Some(c) =>
      match c
      case 'x' => Action(true, autoMode == FullAuto)   // vertical blur
      case 'o' => Action(true, autoMode == FullAuto)   // horizontal blur
      case '-' => Action(true, autoMode == FullAuto)   // no blur
      case '+' => Action(false, false)                 // blackout
      case '|' => Action(false, autoMode == FullAuto)  // short blackout
      case ':' => Action(true, false)                  // colour only
      case '*' => Action(false, autoMode == FullAuto)  // image only
      case 'X' => Action(true, false)                  // vertical blur only
      case 'O' => Action(true, false)                  // horizontal blur only
      case '~' => Action(false, false)                 // fade colour
      case '=' => Action(false, autoMode == FullAuto)  // fade and change image
      case _ => Action(false, false)
  }
}
