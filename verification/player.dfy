/**
 * The load-and-playback state machine of ImageSequenceCanvasPlayer
 * (ImageSequenceCanvasPlayer.js:119-144, 202-258): counting image loads,
 * drawing frames, and the play / pause / resume / toggle transitions driven by
 * a timer.
 *
 * Each transition is given twice: as a step function on a `Snapshot` of the
 * player's fields, where the properties are proved, and as a method of the
 * class `Player` that updates the fields the way the source does and is
 * proved to agree with its step function.
 */
module Playback {
  import opened Geometry
  import FrameNames
  import FileSequence

  /** The options the state machine reads (defaults at lines 15-33). */
  datatype Config = Config(
    imageFillMode: string,
    objectPosition: string,
    playOnLoad: bool,
    renderFirstImageOnLoad: bool,
    sizeToFirstImage: bool,
    loop: bool,
    firstFrameIndex: int)

  /** The second constructor argument: a list of filenames or a `{from, to}` pair (lines 45-46). */
  datatype FrameSource = Urls(list: seq<string>) | Pattern(from: string, to: string)

  function SourceUrls(src: FrameSource): seq<string> {
    match src
    case Urls(list) => list
    case Pattern(from, to) => FrameNames.Expand(from, to, 1)
  }

  /** What the player does that can be observed from outside, in order. */
  datatype Event =
    | LoadProgress(loaded: nat, total: nat)  // onLoadProgress(loaded / total), line 122
    | Loaded                                 // onLoad, line 133
    | Cleared                                // clearRect, line 147
    | Drawn(frame: int, rect: Rect)          // drawImage, line 199
    | FrameChanged(frame: int)               // onFrameChange, line 206
    | Looped                                 // onLoop, line 224

  /** What stays fixed: the options, the filenames, and each image's natural size. */
  datatype Setup = Setup(config: Config, urls: seq<string>, naturalSize: string -> Size)

  ghost predicate SetupOk(e: Setup) {
    forall u :: Positive(e.naturalSize(u))
  }

  /**
   * The player's mutable fields. `tickPending` stands for `animationFrameId`
   * naming a timer that has not fired or been cleared.
   */
  datatype Snapshot = Snapshot(
    canvas: Size,
    loadedImagesCount: nat,
    currentFrameIndex: int,
    isPlaying: bool,
    tickPending: bool,
    events: seq<Event>)

  /** A pending tick belongs to a playing player and points at a frame that exists. */
  predicate Inv(e: Setup, s: Snapshot) {
    Positive(s.canvas) && (s.tickPending ==> s.isPlaying && 0 <= s.currentFrameIndex < |e.urls|)
  }

  /** Between callbacks the player is playing exactly when a tick is pending. */
  predicate Scheduled(s: Snapshot) {
    s.isPlaying == s.tickPending
  }

  /** The state after a call, and whether the call ended in a `TypeError`. */
  datatype Outcome = Outcome(state: Snapshot, thrown: bool)

  /** `events` extended by `tail`, with no `onLoad` call among the new events. */
  predicate ExtendsWithoutLoad(before: seq<Event>, after: seq<Event>) {
    |before| <= |after| && after[..|before|] == before && Loaded !in after[|before|..]
  }

  /** The observable effect of drawing frame `i`. */
  function FrameEvents(e: Setup, canvas: Size, i: int): seq<Event>
    requires SetupOk(e) && Positive(canvas) && 0 <= i < |e.urls|
  {
    var img := e.naturalSize(e.urls[i]);
    [Cleared, Drawn(i, Placed(e.config.imageFillMode, e.config.objectPosition, canvas, img)), FrameChanged(i)]
  }

  /**
   * `renderFrame(i)` (lines 202-208): an index without an image clears the
   * canvas and then fails reading the missing image's width.
   */
  function RenderStep(e: Setup, s: Snapshot, i: int): (o: Outcome)
    requires SetupOk(e) && Positive(s.canvas)
    ensures o.thrown <==> !(0 <= i < |e.urls|)
    ensures o.state == s.(events := o.state.events)
    ensures ExtendsWithoutLoad(s.events, o.state.events)
    ensures !o.thrown ==> o.state.events == s.events + FrameEvents(e, s.canvas, i)
    ensures o.thrown ==> o.state.events == s.events + [Cleared]
  {
    if 0 <= i < |e.urls| then Outcome(s.(events := s.events + FrameEvents(e, s.canvas, i)), false)
    else Outcome(s.(events := s.events + [Cleared]), true)
  }

  /** `pause()` (lines 241-249): stop and cancel the pending tick, if playing. */
  function PauseStep(s: Snapshot): (r: Snapshot)
    ensures !r.isPlaying
    ensures s.isPlaying ==> r == s.(isPlaying := false, tickPending := false)
    ensures !s.isPlaying ==> r == s
  {
    if !s.isPlaying then s else s.(isPlaying := false, tickPending := false)
  }

  /**
   * The timer callback `playFrame` (lines 218-232): draw the current frame,
   * advance, and at the end either wrap to frame 0 or pause; otherwise arm the
   * next tick.
   */
  function PlayFrameStep(e: Setup, s: Snapshot): (o: Outcome)
    requires SetupOk(e) && Positive(s.canvas) && s.isPlaying && !s.tickPending
    ensures Inv(e, o.state)
    ensures ExtendsWithoutLoad(s.events, o.state.events)
    ensures o.state.canvas == s.canvas && o.state.loadedImagesCount == s.loadedImagesCount
    ensures o.thrown <==> !(0 <= s.currentFrameIndex < |e.urls|)
    ensures o.thrown ==> o.state.isPlaying && !o.state.tickPending
    ensures !o.thrown ==> Scheduled(o.state)
  {
    var r := RenderStep(e, s, s.currentFrameIndex);
    if r.thrown then r
    else
      var next := s.currentFrameIndex + 1;
      if next >= |e.urls| then
        if e.config.loop then
          Outcome(r.state.(currentFrameIndex := 0, events := r.state.events + [Looped], tickPending := true), false)
        else
          Outcome(PauseStep(r.state.(currentFrameIndex := next)), false)
      else
        Outcome(r.state.(currentFrameIndex := next, tickPending := true), false)
  }

  /** `play()` (lines 210-235): nothing if already playing, else start and run the first tick at once. */
  function PlayStep(e: Setup, s: Snapshot): (o: Outcome)
    requires SetupOk(e) && Inv(e, s)
    ensures Inv(e, o.state)
    ensures ExtendsWithoutLoad(s.events, o.state.events)
    ensures o.state.canvas == s.canvas && o.state.loadedImagesCount == s.loadedImagesCount
    ensures s.isPlaying ==> o == Outcome(s, false)
    ensures !s.isPlaying ==> (o.thrown <==> !(0 <= s.currentFrameIndex < |e.urls|))
    ensures Scheduled(s) && !o.thrown ==> Scheduled(o.state)
  {
    if s.isPlaying then Outcome(s, false) else PlayFrameStep(e, s.(isPlaying := true))
  }

  /** `resume()` (lines 251-258): nothing if playing, else `play()`. */
  function ResumeStep(e: Setup, s: Snapshot): (o: Outcome)
    requires SetupOk(e) && Inv(e, s)
    ensures Inv(e, o.state)
    ensures ExtendsWithoutLoad(s.events, o.state.events)
    ensures o.state.canvas == s.canvas && o.state.loadedImagesCount == s.loadedImagesCount
    ensures s.isPlaying ==> o == Outcome(s, false)
    ensures Scheduled(s) && !o.thrown ==> Scheduled(o.state)
  {
    if s.isPlaying then Outcome(s, false) else PlayStep(e, s)
  }

  /** `togglePlay()` (lines 237-239): `pause()` when playing, `play()` otherwise. */
  function ToggleStep(e: Setup, s: Snapshot): (o: Outcome)
    requires SetupOk(e) && Inv(e, s)
    ensures Inv(e, o.state)
    ensures ExtendsWithoutLoad(s.events, o.state.events)
    ensures o.state.canvas == s.canvas && o.state.loadedImagesCount == s.loadedImagesCount
    ensures s.isPlaying ==> !o.thrown && !o.state.isPlaying && !o.state.tickPending
    ensures Scheduled(s) && !o.thrown ==> Scheduled(o.state)
  {
    if s.isPlaying then Outcome(PauseStep(s), false) else PlayStep(e, s)
  }

  /** The pending timer fires (line 231): it is no longer pending, and `playFrame` runs. */
  function TickStep(e: Setup, s: Snapshot): (o: Outcome)
    requires SetupOk(e) && Inv(e, s) && s.tickPending
    ensures Inv(e, o.state) && !o.thrown && Scheduled(o.state)
    ensures ExtendsWithoutLoad(s.events, o.state.events)
  {
    PlayFrameStep(e, s.(tickPending := false))
  }

  /** `sizeToFirstImage` asks for the size of an image that does not exist (line 127). */
  predicate SizeTrap(e: Setup) {
    e.config.sizeToFirstImage && !(0 <= e.config.firstFrameIndex < |e.urls|)
  }

  /** The canvas size once `sizeToFirstImage` has been applied (lines 126-130). */
  function ReadyCanvas(e: Setup, s: Snapshot): Size
    requires !SizeTrap(e)
  {
    if e.config.sizeToFirstImage then e.naturalSize(e.urls[e.config.firstFrameIndex]) else s.canvas
  }

  /** The ready actions (lines 126-142), run when the last image has loaded. */
  function ReadyStep(e: Setup, s: Snapshot): (o: Outcome)
    requires SetupOk(e) && Inv(e, s)
    ensures Inv(e, o.state)
    ensures o.state.loadedImagesCount == s.loadedImagesCount
    ensures SizeTrap(e) ==> o == Outcome(s, true)
    ensures !SizeTrap(e) ==> o.state.canvas == ReadyCanvas(e, s)
    ensures !SizeTrap(e) ==>
      (|o.state.events| > |s.events| && o.state.events[..|s.events| + 1] == s.events + [Loaded]
       && ExtendsWithoutLoad(s.events + [Loaded], o.state.events))
    ensures Scheduled(s) && !o.thrown ==> Scheduled(o.state)
  {
    var first := e.config.firstFrameIndex;
    if SizeTrap(e) then Outcome(s, true)
    else
      var sized := s.(canvas := ReadyCanvas(e, s));
      var announced := sized.(events := sized.events + [Loaded]);
      var rendered := if e.config.renderFirstImageOnLoad then RenderStep(e, announced, first)
                      else Outcome(announced, false);
      if rendered.thrown || !e.config.playOnLoad then rendered
      else PlayStep(e, rendered.state)
  }

  /** The state once an image has been counted and its progress reported (lines 120-123). */
  function Counted(e: Setup, s: Snapshot): Snapshot {
    s.(loadedImagesCount := s.loadedImagesCount + 1,
       events := s.events + [LoadProgress(s.loadedImagesCount + 1, |e.urls|)])
  }

  /** `handleImageLoad` (lines 119-144): count the image, report progress, and on the last one run the ready actions. */
  function LoadStep(e: Setup, s: Snapshot): (o: Outcome)
    requires SetupOk(e) && Inv(e, s)
    ensures Inv(e, o.state)
    ensures o.state.loadedImagesCount == s.loadedImagesCount + 1
    ensures |o.state.events| > |s.events|
    ensures o.state.events[..|s.events| + 1] == s.events + [LoadProgress(s.loadedImagesCount + 1, |e.urls|)]
    ensures Scheduled(s) && !o.thrown ==> Scheduled(o.state)
  {
    var counted := Counted(e, s);
    if counted.loadedImagesCount == |e.urls| then ReadyStep(e, counted) else Outcome(counted, false)
  }

  /** The state after `n` timer firings, stopping early when nothing is pending. */
  function Ticks(e: Setup, s: Snapshot, n: nat): (r: Snapshot)
    requires SetupOk(e) && Inv(e, s)
    ensures Inv(e, r)
    decreases n
  {
    if n == 0 || !s.tickPending then s else Ticks(e, TickStep(e, s).state, n - 1)
  }

  /** The state after `n` image loads, each one a separate callback. */
  function Loads(e: Setup, s: Snapshot, n: nat): (r: Snapshot)
    requires SetupOk(e) && Inv(e, s)
    ensures Inv(e, r)
    decreases n
  {
    if n == 0 then s else Loads(e, LoadStep(e, s).state, n - 1)
  }

  /** The events of drawing frames `lo .. hi - 1` in order. */
  function Run(e: Setup, canvas: Size, lo: int, hi: int): seq<Event>
    requires SetupOk(e) && Positive(canvas) && 0 <= lo && hi <= |e.urls|
    decreases hi - lo
  {
    if lo >= hi then [] else FrameEvents(e, canvas, lo) + Run(e, canvas, lo + 1, hi)
  }

  /** The indices reported through `onFrameChange`, in order. */
  function FrameChanges(evs: seq<Event>): seq<int> {
    if evs == [] then []
    else (if evs[0].FrameChanged? then [evs[0].frame] else []) + FrameChanges(evs[1..])
  }

  /** How many times `onLoop` is called. */
  function LoopCount(evs: seq<Event>): nat {
    multiset(evs)[Looped]
  }

  /** How many times `onLoad` is called. */
  function LoadCount(evs: seq<Event>): nat {
    multiset(evs)[Loaded]
  }

  function Range(lo: int, hi: int): seq<int>
    decreases hi - lo
  {
    if lo >= hi then [] else [lo] + Range(lo + 1, hi)
  }

  lemma {:induction false} FrameChangesConcat(a: seq<Event>, b: seq<Event>)
    ensures FrameChanges(a + b) == FrameChanges(a) + FrameChanges(b)
  {
    if a == [] {
      assert a + b == b;
    } else {
      var h := if a[0].FrameChanged? then [a[0].frame] else [];
      assert (a + b)[1..] == a[1..] + b;
      assert FrameChanges(a + b) == h + FrameChanges(a[1..] + b);
      assert FrameChanges(a) == h + FrameChanges(a[1..]);
      FrameChangesConcat(a[1..], b);
    }
  }

  lemma FrameChangesOne(x: Event)
    ensures FrameChanges([x]) == if x.FrameChanged? then [x.frame] else []
  {
    assert [x][1..] == [];
  }

  /** Drawing frames `lo .. hi - 1` reports exactly those indices, in order, and never loops. */
  lemma {:induction false} RunNotifications(e: Setup, canvas: Size, lo: int, hi: int)
    requires SetupOk(e) && Positive(canvas) && 0 <= lo && hi <= |e.urls|
    ensures FrameChanges(Run(e, canvas, lo, hi)) == Range(lo, hi)
    ensures LoopCount(Run(e, canvas, lo, hi)) == 0
    decreases hi - lo
  {
    if lo < hi {
      RunNotifications(e, canvas, lo + 1, hi);
      RunNotificationsStep(e, canvas, lo, hi);
    }
  }

  /** The inductive step of `RunNotifications`: frame `lo` in front of the later frames. */
  lemma RunNotificationsStep(e: Setup, canvas: Size, lo: int, hi: int)
    requires SetupOk(e) && Positive(canvas) && 0 <= lo < hi <= |e.urls|
    requires FrameChanges(Run(e, canvas, lo + 1, hi)) == Range(lo + 1, hi)
    requires LoopCount(Run(e, canvas, lo + 1, hi)) == 0
    ensures FrameChanges(Run(e, canvas, lo, hi)) == Range(lo, hi)
    ensures LoopCount(Run(e, canvas, lo, hi)) == 0
  {
    RunFirst(e, canvas, lo, hi);
    FrameEventsNotify(e, canvas, lo);
    NotifyCons(FrameEvents(e, canvas, lo), Run(e, canvas, lo + 1, hi), lo, hi);
  }

  /** One frame's report followed by the reports of the frames after it. */
  lemma NotifyCons(head: seq<Event>, rest: seq<Event>, lo: int, hi: int)
    requires lo < hi && FrameChanges(head) == [lo] && LoopCount(head) == 0
    requires FrameChanges(rest) == Range(lo + 1, hi) && LoopCount(rest) == 0
    ensures FrameChanges(head + rest) == Range(lo, hi) && LoopCount(head + rest) == 0
  {
    FrameChangesConcat(head, rest);
    assert multiset(head + rest) == multiset(head) + multiset(rest);
  }

  /** Drawing one frame reports its index once and never loops. */
  lemma FrameEventsNotify(e: Setup, canvas: Size, i: int)
    requires SetupOk(e) && Positive(canvas) && 0 <= i < |e.urls|
    ensures FrameChanges(FrameEvents(e, canvas, i)) == [i]
    ensures LoopCount(FrameEvents(e, canvas, i)) == 0
  {
    DrawNotify(i, FrameEvents(e, canvas, i)[1].rect);
  }

  lemma DrawNotify(i: int, r: Rect)
    ensures FrameChanges([Cleared, Drawn(i, r), FrameChanged(i)]) == [i]
    ensures LoopCount([Cleared, Drawn(i, r), FrameChanged(i)]) == 0
  {
    var xs := [Cleared, Drawn(i, r), FrameChanged(i)];
    assert xs[1..] == [Drawn(i, r), FrameChanged(i)];
    assert xs[1..][1..] == [FrameChanged(i)];
    FrameChangesOne(FrameChanged(i));
    assert FrameChanges(xs[1..]) == [i];
  }

  /** One tick from a frame that is not the last draws it and moves on to the next. */
  lemma TickMiddle(e: Setup, s: Snapshot)
    requires SetupOk(e) && Inv(e, s) && s.tickPending && s.currentFrameIndex + 1 < |e.urls|
    ensures TickStep(e, s).state == s.(currentFrameIndex := s.currentFrameIndex + 1,
      events := s.events + FrameEvents(e, s.canvas, s.currentFrameIndex))
  {
  }

  /**
   * `j` ticks from frame `i`, staying before the last frame, draw frames
   * `i .. i + j - 1` and leave the next tick pending at frame `i + j`.
   */
  lemma {:induction false} TicksAdvance(e: Setup, s: Snapshot, j: nat)
    requires SetupOk(e) && Inv(e, s) && s.tickPending
    requires s.currentFrameIndex + j < |e.urls|
    decreases j
    ensures Ticks(e, s, j) == s.(currentFrameIndex := s.currentFrameIndex + j,
      events := s.events + Run(e, s.canvas, s.currentFrameIndex, s.currentFrameIndex + j))
  {
    var i := s.currentFrameIndex;
    if j == 0 {
      assert s.events + Run(e, s.canvas, i, i) == s.events;
    } else {
      TickMiddle(e, s);
      TicksAdvance(e, TickStep(e, s).state, j - 1);
      TicksAdvanceStep(e, s, j);
    }
  }

  /** The inductive step of `TicksAdvance`: the first tick, then the `j - 1` after it. */
  lemma TicksAdvanceStep(e: Setup, s: Snapshot, j: nat)
    requires SetupOk(e) && Inv(e, s) && s.tickPending && j > 0
    requires s.currentFrameIndex + j < |e.urls|
    requires var s1 := TickStep(e, s).state;
      Ticks(e, s1, j - 1) == s1.(currentFrameIndex := s1.currentFrameIndex + j - 1,
        events := s1.events + Run(e, s1.canvas, s1.currentFrameIndex, s1.currentFrameIndex + j - 1))
    ensures Ticks(e, s, j) == s.(currentFrameIndex := s.currentFrameIndex + j,
      events := s.events + Run(e, s.canvas, s.currentFrameIndex, s.currentFrameIndex + j))
  {
    var i := s.currentFrameIndex;
    var s1 := TickStep(e, s).state;
    TicksFirst(e, s, j);
    TickMiddle(e, s);
    RunFirst(e, s.canvas, i, i + j);
    var head, rest := FrameEvents(e, s.canvas, i), Run(e, s.canvas, i + 1, i + j);
    assert s1.canvas == s.canvas && s1.currentFrameIndex == i + 1 && s1.events == s.events + head;
    assert s.events + head + rest == s.events + (head + rest);
  }

  lemma TicksFirst(e: Setup, s: Snapshot, j: nat)
    requires SetupOk(e) && Inv(e, s) && s.tickPending && j > 0
    ensures Ticks(e, s, j) == Ticks(e, TickStep(e, s).state, j - 1)
  {
  }

  lemma RunFirst(e: Setup, canvas: Size, lo: int, hi: int)
    requires SetupOk(e) && Positive(canvas) && 0 <= lo < hi <= |e.urls|
    ensures Run(e, canvas, lo, hi) == FrameEvents(e, canvas, lo) + Run(e, canvas, lo + 1, hi)
  {
  }

  lemma {:induction false} TicksSplit(e: Setup, s: Snapshot, a: nat, b: nat)
    requires SetupOk(e) && Inv(e, s)
    ensures Ticks(e, s, a + b) == Ticks(e, Ticks(e, s, a), b)
    decreases a
  {
    if a > 0 && s.tickPending {
      TicksSplit(e, TickStep(e, s).state, a - 1, b);
    } else if a == 0 {
    } else {
      TicksNothingPending(e, s, b);
      TicksNothingPending(e, s, a + b);
    }
  }

  lemma TicksNothingPending(e: Setup, s: Snapshot, n: nat)
    requires SetupOk(e) && Inv(e, s) && !s.tickPending
    ensures Ticks(e, s, n) == s
    decreases n
  {
  }

  /** With `loop` on, the tick at the last frame draws it, calls `onLoop` and goes back to frame 0. */
  lemma LastTickLoops(e: Setup, s: Snapshot)
    requires SetupOk(e) && Inv(e, s) && s.tickPending && s.currentFrameIndex == |e.urls| - 1
    requires e.config.loop
    ensures TickStep(e, s).state == s.(currentFrameIndex := 0,
      events := s.events + FrameEvents(e, s.canvas, |e.urls| - 1) + [Looped])
  {
  }

  /** With `loop` off, the tick at the last frame draws it, moves past the end and pauses. */
  lemma LastTickStops(e: Setup, s: Snapshot)
    requires SetupOk(e) && Inv(e, s) && s.tickPending && s.currentFrameIndex == |e.urls| - 1
    requires !e.config.loop
    ensures TickStep(e, s).state == s.(currentFrameIndex := |e.urls|, isPlaying := false, tickPending := false,
      events := s.events + FrameEvents(e, s.canvas, |e.urls| - 1))
  {
  }

  /** A full cycle reports every frame once, in order, and one loop. */
  lemma CycleNotifications(e: Setup, canvas: Size)
    requires SetupOk(e) && Positive(canvas)
    ensures FrameChanges(Run(e, canvas, 0, |e.urls|) + [Looped]) == Range(0, |e.urls|)
    ensures LoopCount(Run(e, canvas, 0, |e.urls|) + [Looped]) == 1
  {
    var run := Run(e, canvas, 0, |e.urls|);
    RunNotifications(e, canvas, 0, |e.urls|);
    FrameChangesConcat(run, [Looped]);
    FrameChangesOne(Looped);
    assert LoopCount(run + [Looped]) == LoopCount(run) + LoopCount([Looped]);
  }

  /**
   * With `loop` on, `N` ticks from frame 0 draw every frame once, in order,
   * call `onLoop` once, and end back at frame 0 with the next tick pending.
   */
  lemma LoopCycle(e: Setup, s: Snapshot)
    requires SetupOk(e) && Inv(e, s) && s.tickPending && s.currentFrameIndex == 0
    requires e.config.loop
    ensures var n := |e.urls|;
      var added := Run(e, s.canvas, 0, n) + [Looped];
      && Ticks(e, s, n) == s.(events := s.events + added)
      && FrameChanges(added) == Range(0, n)
      && LoopCount(added) == 1
  {
    CycleState(e, s);
    CycleNotifications(e, s.canvas);
  }

  lemma CycleState(e: Setup, s: Snapshot)
    requires SetupOk(e) && Inv(e, s) && s.tickPending && s.currentFrameIndex == 0
    requires e.config.loop
    ensures Ticks(e, s, |e.urls|) == s.(events := s.events + (Run(e, s.canvas, 0, |e.urls|) + [Looped]))
  {
    var n := |e.urls|;
    TicksSplit(e, s, n - 1, 1);
    TicksAdvance(e, s, n - 1);
    var last := Ticks(e, s, n - 1);
    OneTick(e, last);
    LastTickLoops(e, last);
    RunLast(e, s.canvas, 0, n);
    var fin := TickStep(e, last).state;
    assert fin.events == s.events + (Run(e, s.canvas, 0, n) + [Looped]);
    assert fin == s.(events := fin.events);
  }

  lemma OneTick(e: Setup, s: Snapshot)
    requires SetupOk(e) && Inv(e, s) && s.tickPending
    ensures Ticks(e, s, 1) == TickStep(e, s).state
  {
  }

  /** A run is its first part followed by its last frame. */
  lemma {:induction false} RunLast(e: Setup, canvas: Size, lo: int, hi: int)
    requires SetupOk(e) && Positive(canvas) && 0 <= lo < hi <= |e.urls|
    ensures Run(e, canvas, lo, hi) == Run(e, canvas, lo, hi - 1) + FrameEvents(e, canvas, hi - 1)
    decreases hi - lo
  {
    if lo < hi - 1 {
      RunLast(e, canvas, lo + 1, hi);
    }
  }

  /**
   * With `loop` off, `N` ticks from frame 0 draw every frame once and stop:
   * not playing, nothing pending, and the index left at `N`.
   */
  lemma RunToEnd(e: Setup, s: Snapshot)
    requires SetupOk(e) && Inv(e, s) && s.tickPending && s.currentFrameIndex == 0
    requires !e.config.loop
    ensures var n := |e.urls|;
      Ticks(e, s, n) == s.(currentFrameIndex := n, isPlaying := false, tickPending := false,
        events := s.events + Run(e, s.canvas, 0, n))
  {
    var n := |e.urls|;
    TicksSplit(e, s, n - 1, 1);
    TicksAdvance(e, s, n - 1);
    var last := Ticks(e, s, n - 1);
    assert Ticks(e, last, 1) == TickStep(e, last).state;
    LastTickStops(e, last);
    RunLast(e, s.canvas, 0, n);
  }

  /**
   * After a run has ended, `play()` draws frame `N`, which has no image: the
   * call fails after clearing the canvas, and leaves the player marked as
   * playing with no tick pending.
   */
  lemma PlayAfterEndFails(e: Setup, s: Snapshot)
    requires SetupOk(e) && Inv(e, s) && s.tickPending && s.currentFrameIndex == 0
    requires !e.config.loop
    ensures var ended := Ticks(e, s, |e.urls|);
      var o := PlayStep(e, ended);
      o.thrown && o.state == ended.(isPlaying := true, events := ended.events + [Cleared])
  {
    RunToEnd(e, s);
  }

  /** With no frames at all, `play()` fails the same way. */
  lemma PlayWithoutFramesFails(e: Setup, s: Snapshot)
    requires SetupOk(e) && Inv(e, s) && !s.isPlaying && |e.urls| == 0
    ensures var o := PlayStep(e, s);
      o.thrown && o.state == s.(isPlaying := true, events := s.events + [Cleared])
  {
  }

  /**
   * After such a failure the player is stuck: `play()` and `resume()` do
   * nothing because it counts as playing, and only `pause()` (or
   * `togglePlay()`) clears it.
   */
  lemma StuckAfterFailure(e: Setup, s: Snapshot)
    requires SetupOk(e) && Inv(e, s) && !s.isPlaying
    requires PlayStep(e, s).thrown
    ensures var t := PlayStep(e, s).state;
      && t.isPlaying && !t.tickPending
      && PlayStep(e, t) == Outcome(t, false)
      && ResumeStep(e, t) == Outcome(t, false)
      && ToggleStep(e, t) == Outcome(t.(isPlaying := false), false)
  {
  }

  /** `resume()` behaves exactly as `play()`. */
  lemma ResumeIsPlay(e: Setup, s: Snapshot)
    requires SetupOk(e) && Inv(e, s)
    ensures ResumeStep(e, s) == PlayStep(e, s)
  {
  }

  /** `togglePlay()` is `pause()` when playing and `play()` otherwise. */
  lemma ToggleDelegates(e: Setup, s: Snapshot)
    requires SetupOk(e) && Inv(e, s)
    ensures s.isPlaying ==> ToggleStep(e, s) == Outcome(PauseStep(s), false)
    ensures !s.isPlaying ==> ToggleStep(e, s) == PlayStep(e, s)
  {
  }

  /** A load that does not complete the set only counts and reports progress. */
  lemma LoadNotLast(e: Setup, s: Snapshot)
    requires SetupOk(e) && Inv(e, s) && s.loadedImagesCount + 1 != |e.urls|
    ensures LoadStep(e, s) == Outcome(Counted(e, s), false)
  {
  }

  /** The load that completes the set goes on to the ready actions. */
  lemma LoadLast(e: Setup, s: Snapshot)
    requires SetupOk(e) && Inv(e, s) && s.loadedImagesCount + 1 == |e.urls|
    ensures LoadStep(e, s) == ReadyStep(e, Counted(e, s))
  {
  }

  /** `play()` from a stopped player on a frame that exists is exactly one timer tick. */
  lemma PlayIsTick(e: Setup, s: Snapshot)
    requires SetupOk(e) && Inv(e, s) && !s.isPlaying && 0 <= s.currentFrameIndex < |e.urls|
    ensures PlayStep(e, s) == TickStep(e, s.(isPlaying := true, tickPending := true))
  {
  }

  /** `play()` from a stopped player on a frame before the last draws it and moves on, with the next tick pending. */
  lemma PlayStarts(e: Setup, s: Snapshot)
    requires SetupOk(e) && Inv(e, s) && !s.isPlaying
    requires 0 <= s.currentFrameIndex && s.currentFrameIndex + 1 < |e.urls|
    ensures PlayStep(e, s) == Outcome(s.(isPlaying := true, tickPending := true,
      currentFrameIndex := s.currentFrameIndex + 1,
      events := s.events + FrameEvents(e, s.canvas, s.currentFrameIndex)), false)
  {
    TickMiddle(e, s.(isPlaying := true, tickPending := true));
  }

  /**
   * The ready actions with `renderFirstImageOnLoad` and an existing first frame:
   * `onLoad`, then the first frame is drawn on the resized canvas, then `play()`
   * runs if `playOnLoad` is set.
   */
  lemma ReadyRendersFirst(e: Setup, s: Snapshot)
    requires SetupOk(e) && Inv(e, s) && !SizeTrap(e)
    requires e.config.renderFirstImageOnLoad && 0 <= e.config.firstFrameIndex < |e.urls|
    ensures var c := ReadyCanvas(e, s);
      var shown := s.(canvas := c, events := s.events + [Loaded] + FrameEvents(e, c, e.config.firstFrameIndex));
      ReadyStep(e, s) == if e.config.playOnLoad then PlayStep(e, shown) else Outcome(shown, false)
  {
  }

  /** The ready actions asked to draw a first frame that does not exist: `onLoad`, then the failed draw. */
  lemma ReadyRenderFails(e: Setup, s: Snapshot)
    requires SetupOk(e) && Inv(e, s) && !SizeTrap(e)
    requires e.config.renderFirstImageOnLoad && !(0 <= e.config.firstFrameIndex < |e.urls|)
    ensures ReadyStep(e, s) == Outcome(s.(events := s.events + [Loaded, Cleared]), true)
  {
  }

  /** The ready actions without `renderFirstImageOnLoad`: resize, `onLoad`, and `play()` if `playOnLoad` is set. */
  lemma ReadyWithoutRender(e: Setup, s: Snapshot)
    requires SetupOk(e) && Inv(e, s) && !SizeTrap(e) && !e.config.renderFirstImageOnLoad
    ensures var announced := s.(canvas := ReadyCanvas(e, s), events := s.events + [Loaded]);
      ReadyStep(e, s) == if e.config.playOnLoad then PlayStep(e, announced) else Outcome(announced, false)
  {
  }

  lemma TailCount(before: seq<Event>, after: seq<Event>)
    requires ExtendsWithoutLoad(before, after)
    ensures LoadCount(after) == LoadCount(before)
  {
    assert after == before + after[|before|..];
  }

  /** The ready actions call `onLoad` once, unless they fail before reaching it. */
  lemma ReadyAddsLoad(e: Setup, s: Snapshot)
    requires SetupOk(e) && Inv(e, s)
    ensures LoadCount(ReadyStep(e, s).state.events) == LoadCount(s.events) + if SizeTrap(e) then 0 else 1
  {
    if !SizeTrap(e) {
      var after := ReadyStep(e, s).state.events;
      TailCount(s.events + [Loaded], after);
      assert LoadCount(s.events + [Loaded]) == LoadCount(s.events) + 1;
    }
  }

  /** The number of `onLoad` calls one load adds: one exactly when it completes the set and the ready actions can start. */
  lemma LoadAddsReady(e: Setup, s: Snapshot)
    requires SetupOk(e) && Inv(e, s)
    ensures LoadCount(LoadStep(e, s).state.events) == LoadCount(s.events) +
      if s.loadedImagesCount + 1 == |e.urls| && !SizeTrap(e) then 1 else 0
  {
    var n := s.loadedImagesCount + 1;
    var counted := Counted(e, s);
    assert LoadCount(counted.events) == LoadCount(s.events);
    if n == |e.urls| {
      LoadLast(e, s);
      ReadyAddsLoad(e, counted);
    } else {
      LoadNotLast(e, s);
    }
  }

  /**
   * `n` loads starting from `c` loaded images call `onLoad` once if the count
   * passes through `N` on the way and the ready actions can start, and never
   * otherwise.
   */
  lemma {:induction false} LoadsReadyOnce(e: Setup, s: Snapshot, n: nat)
    requires SetupOk(e) && Inv(e, s)
    ensures var c := s.loadedImagesCount;
      LoadCount(Loads(e, s, n).events) == LoadCount(s.events) +
        if c < |e.urls| <= c + n && !SizeTrap(e) then 1 else 0
    decreases n
  {
    if n > 0 {
      var t := LoadStep(e, s).state;
      LoadsFirst(e, s, n);
      LoadAddsReady(e, s);
      LoadsReadyOnce(e, t, n - 1);
      OnceArith(s.loadedImagesCount, |e.urls|, n, SizeTrap(e),
        LoadCount(s.events), LoadCount(t.events), LoadCount(Loads(e, t, n - 1).events));
    }
  }

  /** The counting step of `LoadsReadyOnce`: reaching `N` now, or later, or never. */
  lemma OnceArith(c: nat, total: nat, n: nat, trap: bool, k0: int, k1: int, k2: int)
    requires n > 0
    requires k1 == k0 + if c + 1 == total && !trap then 1 else 0
    requires k2 == k1 + if c + 1 < total <= c + n && !trap then 1 else 0
    ensures k2 == k0 + if c < total <= c + n && !trap then 1 else 0
  {
  }

  lemma LoadsFirst(e: Setup, s: Snapshot, n: nat)
    requires SetupOk(e) && Inv(e, s) && n > 0
    ensures Loads(e, s, n) == Loads(e, LoadStep(e, s).state, n - 1)
  {
  }

  /** With no images the ready actions never run: the count starts at 0 and only grows. */
  lemma NoFramesNeverReady(e: Setup, s: Snapshot, n: nat)
    requires SetupOk(e) && Inv(e, s) && |e.urls| == 0
    ensures LoadCount(Loads(e, s, n).events) == LoadCount(s.events)
  {
    LoadsReadyOnce(e, s, n);
  }

  /**
   * The player object. Its methods change the fields the way the source does,
   * and each one is proved to agree with its step function above.
   */
  class Player {
    const config: Config
    const imageUrls: seq<string>
    const naturalSize: string -> Size
    var canvas: Size
    var loadedImagesCount: nat
    var currentFrameIndex: int
    var isPlaying: bool
    var tickPending: bool
    var events: seq<Event>

    function Env(): Setup {
      Setup(config, imageUrls, naturalSize)
    }

    function State(): Snapshot
      reads this
    {
      Snapshot(canvas, loadedImagesCount, currentFrameIndex, isPlaying, tickPending, events)
    }

    ghost predicate Valid()
      reads this
    {
      SetupOk(Env()) && Inv(Env(), State())
    }

    /** The constructor (lines 13-55) once the DOM is set up: nothing loaded, nothing playing. */
    constructor(canvasSize: Size, source: FrameSource, options: Config, sizes: string -> Size)
      requires Positive(canvasSize) && forall u :: Positive(sizes(u))
      ensures Valid()
      ensures config == options && imageUrls == SourceUrls(source) && naturalSize == sizes
      ensures State() == Snapshot(canvasSize, 0, options.firstFrameIndex, false, false, [])
    {
      var urls: seq<string>;
      match source {
        case Urls(list) =>
          urls := list;
        case Pattern(from, to) =>
          urls := FileSequence.ObUrlsToArray(from, to, 1);
      }
      config := options;
      imageUrls := urls;
      naturalSize := sizes;
      canvas := canvasSize;
      loadedImagesCount := 0;
      currentFrameIndex := options.firstFrameIndex;
      isPlaying := false;
      tickPending := false;
      events := [];
    }

    method RenderFrame(frameIndex: int) returns (thrown: bool)
      requires Valid()
      modifies this`events
      ensures Valid()
      ensures Outcome(State(), thrown) == RenderStep(Env(), old(State()), frameIndex)
    {
      events := events + [Cleared];
      if !(0 <= frameIndex < |imageUrls|) {
        return true;
      }
      var rect := DrawImageWithObjectFit(canvas, naturalSize(imageUrls[frameIndex]),
        config.imageFillMode, config.objectPosition);
      events := events + [Drawn(frameIndex, rect), FrameChanged(frameIndex)];
      thrown := false;
    }

    method Pause()
      requires Valid()
      modifies this`isPlaying, this`tickPending
      ensures Valid()
      ensures State() == PauseStep(old(State()))
    {
      if !isPlaying {
        return;
      }
      tickPending := false;
      isPlaying := false;
    }

    method PlayFrame() returns (thrown: bool)
      requires Valid() && isPlaying && !tickPending
      modifies this
      ensures Valid()
      ensures Outcome(State(), thrown) == PlayFrameStep(Env(), old(State()))
    {
      thrown := RenderFrame(currentFrameIndex);
      if thrown {
        return;
      }
      currentFrameIndex := currentFrameIndex + 1;
      if currentFrameIndex >= |imageUrls| {
        if config.loop {
          currentFrameIndex := 0;
          events := events + [Looped];
        } else {
          Pause();
          return;
        }
      }
      tickPending := true;
    }

    method Play() returns (thrown: bool)
      requires Valid()
      modifies this
      ensures Valid()
      ensures Outcome(State(), thrown) == PlayStep(Env(), old(State()))
    {
      if isPlaying {
        return false;
      }
      isPlaying := true;
      thrown := PlayFrame();
    }

    method Resume() returns (thrown: bool)
      requires Valid()
      modifies this
      ensures Valid()
      ensures Outcome(State(), thrown) == ResumeStep(Env(), old(State()))
    {
      if isPlaying {
        return false;
      }
      thrown := Play();
    }

    method TogglePlay() returns (thrown: bool)
      requires Valid()
      modifies this
      ensures Valid()
      ensures Outcome(State(), thrown) == ToggleStep(Env(), old(State()))
    {
      if isPlaying {
        Pause();
        thrown := false;
      } else {
        thrown := Play();
      }
    }

    /** The pending timer fires. */
    method Tick()
      requires Valid() && tickPending
      modifies this
      ensures Valid()
      ensures State() == TickStep(Env(), old(State())).state
    {
      tickPending := false;
      var thrown := PlayFrame();
    }

    method HandleImageLoad() returns (thrown: bool)
      requires Valid()
      modifies this
      ensures Valid()
      ensures Outcome(State(), thrown) == LoadStep(Env(), old(State()))
    {
      thrown := false;
      loadedImagesCount := loadedImagesCount + 1;
      events := events + [LoadProgress(loadedImagesCount, |imageUrls|)];
      if loadedImagesCount == |imageUrls| {
        thrown := RunReadyActions();
      }
    }

    /** Lines 126-142 of `handleImageLoad`, once the last image has loaded. */
    method RunReadyActions() returns (thrown: bool)
      requires Valid()
      modifies this
      ensures Valid()
      ensures Outcome(State(), thrown) == ReadyStep(Env(), old(State()))
    {
      thrown := false;
      if config.sizeToFirstImage {
        if !(0 <= config.firstFrameIndex < |imageUrls|) {
          return true;
        }
        canvas := naturalSize(imageUrls[config.firstFrameIndex]);
      }
      events := events + [Loaded];
      if config.renderFirstImageOnLoad {
        thrown := RenderFrame(config.firstFrameIndex);
        if thrown {
          return;
        }
      }
      if config.playOnLoad {
        thrown := Play();
      }
    }
  }
}
