# ImageSequenceCanvasPlayer in Dafny

A model of the core of `ImageSequenceCanvasPlayer.js`, a flipbook player. It
draws a sequence of still images onto a canvas, one frame per timer tick. The
model covers three parts of the class:

- **The filename-sequence expander** `obURLsToArray` turns a `{from, to}` pair
  such as `img001.png` / `img120.png` into the list of frame filenames:
  - each name is split at its last run of digits;
  - the pair is refused (an empty list) when a name is missing, has no digits,
    the surrounding text differs, or the zero padding is ambiguous;
  - otherwise the numbers are enumerated, zero-padded to the width of `from`'s
    digits (modules `Digits`, `FilenameParts`, `FrameNames`, `FileSequence`).
- **The object-fit geometry** of `drawImageWithObjectFit` computes the size an
  image is drawn at for `cover`, `contain` or any other mode, and where it is
  anchored for a position string such as `"left top"` (module `Geometry`).
- **The load and playback state machine** counts image loads, fires the ready
  actions, and handles `play`, `pause`, `resume`, `togglePlay` and the timer
  callback `playFrame` (module `Playback`).

Notes on how the model is built:

- The regular expressions of `lastNumber`, `basenameBefore` and `basenameAfter`
  are modelled by explicit scans. Lemmas characterise each scan as the match
  the expression returns.
- Every loop of the source is a method proved against a specification
  function:
  - the `for` loop filling `out` (`FrameNames.EmitFrames`);
  - the `forEach` over position tokens (`Geometry.DrawImageWithObjectFit`).
- The player is a class. Its methods update the source's fields, and each
  method is proved equal to a step function on a `Snapshot` of those fields.
  The multi-step properties are proved about the step functions.
- Observable effects are appended to an event log `events`:
  - the callbacks `onLoadProgress`, `onLoad`, `onFrameChange` and `onLoop`;
  - the canvas calls `clearRect` and `drawImage`.
- The pending timer (`animationFrameId`) is a boolean `tickPending`. The timer
  firing is the method `Tick`.
- A `TypeError` raised part-way through a call is the result `thrown`. The
  state changes made before the error are kept.

Three behaviours of the code are worth stating outright, since the model
follows them exactly:

- **Leading zeros.** Line 97 refuses a pair when *either* digit run starts
  with `'0'` and the widths differ, so `img0.png` / `img10.png` is refused
  (`FilenameParts.LeadingZeroOnFirstOnly`).
- **Fill mode.** Lines 151-152 and 157 keep the image's natural size for every
  mode other than `cover` and `contain`, `fill` included.
- **Errors.** Lines 203 and 127 read an image that may not exist, and reading
  its size then raises a `TypeError`. The model exposes both as `thrown`:
  - `renderFrame` at an index with no image;
  - `sizeToFirstImage` with an invalid `firstFrameIndex`.

## Model

| member | source | states |
|---|---|---|
| Digits.ParseDecimal | ImageSequenceCanvasPlayer.js:102-103 | `parseInt` of a digit string; its value is below 10^length |
| Digits.ToDecimal | ImageSequenceCanvasPlayer.js:105 | `i + ""` is a canonical numeral: digits only, no leading zero unless it is `"0"` |
| Digits.PadStart | ImageSequenceCanvasPlayer.js:105 | `padStart(width, "0")`: length is max(width, length), the original text is the suffix, and everything before it is `'0'` (never truncates) |
| Digits.ParseToDecimal | ImageSequenceCanvasPlayer.js:102-105 | reading back the printed number gives the number |
| Digits.ToDecimalOfCanonical | ImageSequenceCanvasPlayer.js:102-105 | printing the value of a canonical numeral gives the numeral back |
| Digits.PadParseRoundTrip | ImageSequenceCanvasPlayer.js:102-105 | padding the printed `parseInt(a)` to `a.length` gives `a` back, for any digit string `a` |
| Digits.ZeroPadValue | ImageSequenceCanvasPlayer.js:105 | leading zeros keep a digit string all digits and do not change its value |
| Digits.PaddedNumber | ImageSequenceCanvasPlayer.js:105 | a padded frame number is all digits, denotes `i`, is at least the pad width, and is exactly `i + ""` when longer than the width |
| Digits.CanonicalLengthMonotone | ImageSequenceCanvasPlayer.js:102-105 | the smaller of two canonical numerals never has more digits |
| FilenameParts.LastDigitRun | ImageSequenceCanvasPlayer.js:66-70 | the scan finds nothing exactly when the name has no digit, and otherwise finds the last maximal digit run |
| FilenameParts.LastDigitRunUnique | ImageSequenceCanvasPlayer.js:66-70 | the last maximal digit run is unique, so the scan returns exactly it |
| FilenameParts.LastDigitRunIsRegexMatch | ImageSequenceCanvasPlayer.js:67 | the scan's run is the first match of `\d+(?!.*\d)`: no match without digits; otherwise every match starts no earlier and ends at the same place |
| FilenameParts.LastNumber | ImageSequenceCanvasPlayer.js:66-70 | `lastNumber` is `""` exactly when the name has no digit, and is all digits |
| FilenameParts.LastIndexOfIsLast | ImageSequenceCanvasPlayer.js:72 | the greedy `.*(?=num)` stops at the last occurrence of `num`: it occurs there and nowhere further right |
| FilenameParts.BasenameBefore | ImageSequenceCanvasPlayer.js:71-75 | `.*(?=num)` is a prefix of the name; it is `""` when `num` does not occur, and otherwise `num` occurs right after it and nowhere further right |
| FilenameParts.BasenameAfter | ImageSequenceCanvasPlayer.js:76-80 | `[^num]+$` is a suffix of the name with no character of `num`, and the character before it, if any, belongs to `num` |
| FilenameParts.BasenameAfterFrom | ImageSequenceCanvasPlayer.js:76-80 | when the last character of `num` in the name is at `m - 1`, `basenameAfter` is exactly the text from `m` on |
| FilenameParts.BeforeLastRun | ImageSequenceCanvasPlayer.js:71-75 | `basenameBefore(name, lastNumber(name))` is the text before the last digit run |
| FilenameParts.AfterLastRun | ImageSequenceCanvasPlayer.js:76-80 | `basenameAfter(name, lastNumber(name))` is the text after the last digit run |
| FilenameParts.SplitAtLastRun | ImageSequenceCanvasPlayer.js:66-80 | for a name with a digit, `lastNumber`, `basenameBefore` and `basenameAfter` are the run, the text before it and the text after it |
| FilenameParts.Validate | ImageSequenceCanvasPlayer.js:62-101 | on success both digit strings are non-empty digit strings |
| FilenameParts.ValidateCases | ImageSequenceCanvasPlayer.js:62-101 | each rejection holds exactly under its condition, checked in the source's order (missing name, no digit in `from`, no digit in `to`, different prefix or suffix, leading zero on either run with different widths), and success gives the template of prefix, both runs and suffix |
| FilenameParts.PartsReassemble | ImageSequenceCanvasPlayer.js:91-92 | a name is its prefix, last digit run and suffix concatenated |
| FilenameParts.TemplateReassembles | ImageSequenceCanvasPlayer.js:91-96 | an accepted pair is the template with each name's own digits in the middle |
| FilenameParts.SplitOf | ImageSequenceCanvasPlayer.js:66-80 | a name made of a prefix not ending in a digit, a digit run and a digit-free suffix splits into exactly those three parts |
| FilenameParts.LeadingZeroOnFirstOnly | ImageSequenceCanvasPlayer.js:97-101 | `img0.png` / `img10.png` is refused for its leading zero, although only one side has one |
| FilenameParts.LeadingZeroShorterLast | ImageSequenceCanvasPlayer.js:97-101 | `img01.png` / `img1.png` is refused for its leading zero |
| FilenameParts.PaddedPairAccepted | ImageSequenceCanvasPlayer.js:91-101 | `img01.png` / `img10.png` is accepted with prefix `img`, digits `01` and `10`, and suffix `.png` |
| FrameNames.InRangeIffBelowCount | ImageSequenceCanvasPlayer.js:104 | `numA + k * every <= numB` exactly when `k` is below the frame count |
| FrameNames.FrameCountClosedForm | ImageSequenceCanvasPlayer.js:104 | the loop runs `(numB - numA) / every + 1` times when `numA <= numB`, otherwise not at all |
| FrameNames.Expand | ImageSequenceCanvasPlayer.js:56-107 | a refused pair gives `[]`; an accepted pair gives exactly as many names as the loop runs from `numA` to `numB` |
| FrameNames.ExpandIsFrames | ImageSequenceCanvasPlayer.js:62-107 | an accepted pair expands to the frames of its template |
| FrameNames.NonEmptyExpandValidates | ImageSequenceCanvasPlayer.js:62-101 | a non-empty result comes from an accepted pair |
| FrameNames.EmitFrames | ImageSequenceCanvasPlayer.js:104-105 | the loop pushes exactly the frames of the template: one name per `numA + k * every` up to `numB` |
| FrameNames.FramesEmpty | ImageSequenceCanvasPlayer.js:104 | an accepted pair gives no frames exactly when `numA > numB` |
| FrameNames.FramesStart | ImageSequenceCanvasPlayer.js:104-105 | the first frame is `before + a + after` |
| FrameNames.FramesEnd | ImageSequenceCanvasPlayer.js:97-105 | with step 1 and the leading-zero rule satisfied, the last frame is `before + b + after` |
| FrameNames.FramesElement | ImageSequenceCanvasPlayer.js:104-105 | frame `k` is `before + d + after`, where `d` is all digits, denotes `numA + k * every`, is at least `a.length` wide and has no padding beyond that width |
| FrameNames.FramesRange | ImageSequenceCanvasPlayer.js:104 | the last frame number is the largest `numA + k * every` not beyond `numB` |
| FileSequence.ObUrlsToArray | ImageSequenceCanvasPlayer.js:56-107 | the result is `[]` for a refused pair, and otherwise the frames of the pair's template |
| FileSequence.ExpandEmpty | ImageSequenceCanvasPlayer.js:62-104 | the result is empty exactly when the pair is refused or `numA > numB` |
| FileSequence.ExpandStartsWithFirst | ImageSequenceCanvasPlayer.js:102-105 | a non-empty result starts with `from` itself |
| FileSequence.ExpandEndsWithLast | ImageSequenceCanvasPlayer.js:97-105 | with `every = 1` a non-empty result ends with `to` itself |
| Geometry.FitSize | ImageSequenceCanvasPlayer.js:151-168 | `cover` and `contain` keep the image's aspect ratio and match one canvas side exactly; every other mode, `fill` included, keeps the natural size |
| Geometry.HeightMatched | ImageSequenceCanvasPlayer.js:161-162 | the scaled size has the image's ratio and the canvas height |
| Geometry.WidthMatched | ImageSequenceCanvasPlayer.js:165-166 | the scaled size has the image's ratio and the canvas width |
| Geometry.CoverCovers | ImageSequenceCanvasPlayer.js:157-168 | `cover` is at least the canvas size on both sides |
| Geometry.ContainFits | ImageSequenceCanvasPlayer.js:157-168 | `contain` is at most the canvas size on both sides |
| Geometry.MatchingRatioFillsCanvas | ImageSequenceCanvasPlayer.js:157-168 | an image with the canvas's proportions is drawn at exactly the canvas size in both modes |
| Geometry.SplitOn | ImageSequenceCanvasPlayer.js:171 | `split(' ')` gives at least one piece and no piece contains a space |
| Geometry.JoinSplit | ImageSequenceCanvasPlayer.js:171 | joining the pieces with spaces gives the string back |
| Geometry.SplitJoin | ImageSequenceCanvasPlayer.js:171 | pieces without spaces come back unchanged from splitting their join |
| Geometry.FoldConcat | ImageSequenceCanvasPlayer.js:172-197 | processing two token lists in turn is processing their concatenation |
| Geometry.Anchor | ImageSequenceCanvasPlayer.js:171-197 | whatever the tokens, `posX` ends at 0, the full horizontal slack or half of it, and `posY` likewise |
| Geometry.Placed | ImageSequenceCanvasPlayer.js:146-200 | the drawn rectangle has positive sides and, on each axis, is flush with one side of the canvas or centred on it |
| Geometry.PlacedCoversCanvas | ImageSequenceCanvasPlayer.js:146-200 | under `cover` the drawn image covers the whole canvas for every position string |
| Geometry.PlacedInsideCanvas | ImageSequenceCanvasPlayer.js:146-200 | under `contain` the drawn image lies inside the canvas for every position string |
| Geometry.DrawImageWithObjectFit | ImageSequenceCanvasPlayer.js:146-200 | the token loop leaves `posX`/`posY` at the anchor of the split position string, and the drawn size is the fit size |
| Geometry.AnchorPair | ImageSequenceCanvasPlayer.js:149-197 | one horizontal and one vertical keyword, in either order, give `posX` of 0, half the slack or the slack, and `posY` likewise, independently |
| Geometry.PlacedPair | ImageSequenceCanvasPlayer.js:146-200 | the same for the option strings `"h v"` and `"v h"` |
| Geometry.SingleKeyword | ImageSequenceCanvasPlayer.js:149-185 | a lone `left`, `right`, `top` or `bottom` moves one axis and leaves the other at 0 |
| Geometry.CenterAlone | ImageSequenceCanvasPlayer.js:186-194 | a lone `center` centres on both axes |
| Geometry.UnknownTokenIgnored | ImageSequenceCanvasPlayer.js:172-197 | inserting a token that is not a keyword anywhere changes nothing |
| Geometry.CoverExample | ImageSequenceCanvasPlayer.js:146-200 | a 200x100 image under `cover`, `center center` on a 100x100 canvas is drawn at (-50, 0), 200x100 |
| Geometry.ContainExample | ImageSequenceCanvasPlayer.js:146-200 | the same image under `contain` is drawn at (0, 25), 100x50 |
| Playback.RenderStep | ImageSequenceCanvasPlayer.js:202-208 | `renderFrame(i)` fails exactly when there is no image `i`; then it only clears the canvas, and otherwise it clears, draws frame `i` at `Placed(...)` and reports `i` to `onFrameChange`; only the event log changes |
| Playback.PauseStep | ImageSequenceCanvasPlayer.js:241-249 | after `pause()` the player is not playing; when playing, the pending tick is cancelled; when not playing, nothing changes |
| Playback.PlayFrameStep | ImageSequenceCanvasPlayer.js:218-232 | a tick fails exactly when the current index has no image, leaving the player playing with nothing pending; otherwise afterwards it is playing exactly when a tick is pending; the invariant is kept |
| Playback.PlayStep | ImageSequenceCanvasPlayer.js:210-235 | `play()` while playing changes nothing; otherwise it fails exactly when the current index has no image; it keeps the invariant, and keeps "playing exactly when a tick is pending" when it does not fail |
| Playback.ResumeStep | ImageSequenceCanvasPlayer.js:251-258 | `resume()` while playing changes nothing; it keeps the invariant, only appends events, and keeps "playing exactly when a tick is pending" when it does not fail |
| Playback.ToggleStep | ImageSequenceCanvasPlayer.js:237-239 | `togglePlay()` while playing stops without failing and cancels the tick; it keeps the invariant, only appends events, and keeps "playing exactly when a tick is pending" when it does not fail |
| Playback.TickStep | ImageSequenceCanvasPlayer.js:218-232 | a pending tick never fails, and afterwards the player is playing exactly when a tick is pending |
| Playback.ReadyStep | ImageSequenceCanvasPlayer.js:126-142 | the ready actions fail at once (changing nothing) when `sizeToFirstImage` names a missing image; otherwise the canvas ends at the first image's size when `sizeToFirstImage` is set (unchanged otherwise), and `onLoad` comes first and only once |
| Playback.LoadStep | ImageSequenceCanvasPlayer.js:119-144 | each completion adds 1 to the count and first reports progress `count / N` |
| Playback.PlayIsTick | ImageSequenceCanvasPlayer.js:210-234 | `play()` from a stopped player at an existing frame is exactly one timer tick: draw, advance, then wrap, stop or arm the next tick |
| Playback.PlayStarts | ImageSequenceCanvasPlayer.js:210-234 | `play()` from a stopped player at a frame before the last draws that frame, advances the index and arms the next tick |
| Playback.ReadyRendersFirst | ImageSequenceCanvasPlayer.js:126-142 | with `renderFirstImageOnLoad` and an existing first frame: resize, `onLoad`, draw `firstFrameIndex` on the resized canvas, then `play()` exactly when `playOnLoad` is set |
| Playback.ReadyRenderFails | ImageSequenceCanvasPlayer.js:132-138 | with `renderFirstImageOnLoad` and a missing first frame: `onLoad`, then the failed draw that only clears the canvas, and no `play()` |
| Playback.ReadyWithoutRender | ImageSequenceCanvasPlayer.js:126-142 | without `renderFirstImageOnLoad`: resize, `onLoad`, then `play()` exactly when `playOnLoad` is set |
| Playback.RunNotifications | ImageSequenceCanvasPlayer.js:202-208 | drawing frames `lo .. hi - 1` reports exactly those indices to `onFrameChange`, in order, and no loop |
| Playback.RunNotificationsStep | ImageSequenceCanvasPlayer.js:202-208 | frame `lo` in front of frames `lo + 1 .. hi - 1` reports `lo .. hi - 1` and no loop |
| Playback.TicksAdvance | ImageSequenceCanvasPlayer.js:218-231 | `j` ticks before the last frame draw the next `j` frames in order and leave the next tick pending |
| Playback.TicksAdvanceStep | ImageSequenceCanvasPlayer.js:218-231 | one tick before the last frame followed by `j - 1` more draws the next `j` frames |
| Playback.LastTickLoops | ImageSequenceCanvasPlayer.js:221-224 | with `loop` on, the tick at the last frame draws it, calls `onLoop` and returns to frame 0 |
| Playback.LastTickStops | ImageSequenceCanvasPlayer.js:221-227 | with `loop` off, the tick at the last frame draws it, leaves the index at `N` and pauses |
| Playback.LoopCycle | ImageSequenceCanvasPlayer.js:218-231 | with `loop` on, `N` ticks from frame 0 report frames `0 .. N-1` in order and call `onLoop` exactly once, ending at frame 0 with a tick pending |
| Playback.RunToEnd | ImageSequenceCanvasPlayer.js:218-249 | with `loop` off, `N` ticks from frame 0 draw every frame and stop: not playing, nothing pending, index `N` |
| Playback.PlayAfterEndFails | ImageSequenceCanvasPlayer.js:202-235 | `play()` after a run has ended fails after clearing the canvas, and leaves the player marked as playing with nothing pending |
| Playback.PlayWithoutFramesFails | ImageSequenceCanvasPlayer.js:202-235 | with no frames, `play()` fails the same way |
| Playback.StuckAfterFailure | ImageSequenceCanvasPlayer.js:210-258 | after such a failure, `play()` and `resume()` do nothing and `togglePlay()` only pauses |
| Playback.ResumeIsPlay | ImageSequenceCanvasPlayer.js:251-258 | `resume()` behaves exactly as `play()` |
| Playback.ToggleDelegates | ImageSequenceCanvasPlayer.js:237-239 | `togglePlay()` is `pause()` when playing and `play()` otherwise |
| Playback.LoadNotLast | ImageSequenceCanvasPlayer.js:119-125 | a completion that does not make the count equal `N` only counts and reports progress |
| Playback.LoadLast | ImageSequenceCanvasPlayer.js:125-143 | the completion that makes the count equal `N` runs the ready actions |
| Playback.LoadAddsReady | ImageSequenceCanvasPlayer.js:119-144 | one completion calls `onLoad` once exactly when it makes the count equal `N` and the ready actions can start, and otherwise not at all |
| Playback.LoadsReadyOnce | ImageSequenceCanvasPlayer.js:119-144 | over any number of completions, `onLoad` is called once if the count passes `N` and the ready actions can start, and never otherwise |
| Playback.NoFramesNeverReady | ImageSequenceCanvasPlayer.js:125 | with no images, `onLoad` is never called |
| Playback.Player.constructor | ImageSequenceCanvasPlayer.js:13-55 | the filenames come from the list or from `obURLsToArray(info)` with step 1; the index starts at `firstFrameIndex`, and nothing is loaded, playing or pending |
| Playback.Player.RenderFrame | ImageSequenceCanvasPlayer.js:202-208 | the method's effect equals `RenderStep` |
| Playback.Player.Pause | ImageSequenceCanvasPlayer.js:241-249 | the method's effect equals `PauseStep` |
| Playback.Player.PlayFrame | ImageSequenceCanvasPlayer.js:218-232 | the method's effect equals `PlayFrameStep` |
| Playback.Player.Play | ImageSequenceCanvasPlayer.js:210-235 | the method's effect equals `PlayStep` |
| Playback.Player.Resume | ImageSequenceCanvasPlayer.js:251-258 | the method's effect equals `ResumeStep` |
| Playback.Player.TogglePlay | ImageSequenceCanvasPlayer.js:237-239 | the method's effect equals `ToggleStep` |
| Playback.Player.Tick | ImageSequenceCanvasPlayer.js:231 | the timer firing has the effect of `TickStep` |
| Playback.Player.HandleImageLoad | ImageSequenceCanvasPlayer.js:119-144 | the method's effect equals `LoadStep` |
| Playback.Player.RunReadyActions | ImageSequenceCanvasPlayer.js:126-142 | the ready actions' effect equals `ReadyStep` |

## Left out

- DOM and canvas plumbing is not modelled: `querySelector`, `createElement`, `getContext`, the `width`/`height` options and `parent`. The canvas is a size. `clearRect` and `drawImage` are events carrying the computed rectangle.
- Image loading (`loadImages`, `new Image()`, `crossOrigin`, `onload` wiring) is not modelled. Each image's natural size is a function given to the constructor, assumed positive. Each completion is a call of `HandleImageLoad`.
- Failed image loads, which never call `handleImageLoad`, are simply the absence of that call.
- Drawing an image that has not finished decoding (natural size 0) is not modelled.
- `setTimeout`/`clearTimeout` are replaced by the boolean `tickPending` and the method `Tick`. `framesPerSecond` only sets the timer period, so it is not modelled.
- The `delay` argument of `play`, `pause`, `resume` and `togglePlay` is not modelled. It only defers the call to a later callback.
- The callbacks are not modelled as optional. Every callback appears in the event log whether or not it is set.
- `Geometry.FitSize`: sizes are exact positive reals. IEEE-754 rounding and the `NaN`/`Infinity` results of a zero-sized canvas or image are not modelled.
- `Digits.ParseDecimal`: numbers are unbounded. Neither `parseInt`'s loss of precision above 2^53 nor the exponent notation `i + ""` uses from 10^21 is modelled.
- `FilenameParts.BasenameBefore`: `.` in `.*(?=num)` does not match line terminators, and the model ignores this. Filenames are assumed to contain none.
- `FileSequence.ObUrlsToArray`: `every` must be an integer of at least 1. With `every <= 0` and `numA <= numB` the source never terminates; non-integer steps are not modelled.
- A missing `from`/`to` (`undefined`) is modelled as the empty string, which the source treats the same way (line 62).
- The text of the `console.warn` messages is not modelled. The reason for each refusal is the `Rejection` value.
- The optional `width`/`height` options written back by `sizeToFirstImage` (lines 128-129) are not modelled. Only the canvas size is kept.
- The callbacks are assumed not to call back into the player. In the source, `onFrameChange` (line 206) and `onLoop` (line 224) run inside `playFrame`, before the next tick is armed at line 231. A callback that calls `pause()` there would leave a tick armed while the player is not playing, and a later `play()` would then start a second chain of ticks. The model does not capture this, and the proofs that "playing exactly when a tick is pending" is preserved rely on this assumption.
