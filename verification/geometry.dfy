/**
 * The size and position arithmetic of `drawImageWithObjectFit`
 * (ImageSequenceCanvasPlayer.js:146-200): how large the image is drawn for an
 * `imageFillMode`, and where it is anchored for an `objectPosition` string.
 * Sizes are exact reals; the canvas calls themselves are not modelled.
 */
module Geometry {

  datatype Size = Size(w: real, h: real)

  /** The rectangle handed to `drawImage`: offset and drawn size. */
  datatype Rect = Rect(x: real, y: real, w: real, h: real)

  datatype Offset = Offset(x: real, y: real)

  predicate Positive(s: Size) {
    s.w > 0.0 && s.h > 0.0
  }

  /** `w / h == img.w / img.h`, stated without division. */
  predicate SameRatio(s: Size, img: Size) {
    s.w * img.h == s.h * img.w
  }

  /**
   * The drawn size (lines 151-168). `cover` and `contain` compare the image and
   * canvas ratios to choose the canvas side the image is scaled to; every other
   * mode, `fill` included, keeps the natural size.
   */
  function FitSize(fit: string, canvas: Size, img: Size): (r: Size)
    requires Positive(canvas) && Positive(img)
    ensures Positive(r)
    ensures fit == "cover" || fit == "contain" ==>
      SameRatio(r, img) && (r.w == canvas.w || r.h == canvas.h)
    ensures fit != "cover" && fit != "contain" ==> r == img
  {
    if fit == "contain" || fit == "cover" then
      var doCover := fit == "cover";
      var canvasRatio := canvas.w / canvas.h;
      var imgRatio := img.w / img.h;
      if (imgRatio > canvasRatio && doCover) || (imgRatio < canvasRatio && !doCover) then
        HeightMatched(canvas, img)
      else
        WidthMatched(canvas, img)
    else
      img
  }

  /** The image scaled so its height is the canvas height (lines 161-162). */
  function HeightMatched(canvas: Size, img: Size): (r: Size)
    requires Positive(canvas) && Positive(img)
    ensures Positive(r) && SameRatio(r, img) && r.h == canvas.h
  {
    var r := Size(canvas.h * (img.w / img.h), canvas.h);
    assert r.w * img.h == canvas.h * img.w;
    r
  }

  /** The image scaled so its width is the canvas width (lines 165-166). */
  function WidthMatched(canvas: Size, img: Size): (r: Size)
    requires Positive(canvas) && Positive(img)
    ensures Positive(r) && SameRatio(r, img) && r.w == canvas.w
  {
    var r := Size(canvas.w, canvas.w / (img.w / img.h));
    assert r.h * img.w == canvas.w * img.h;
    r
  }

  /** `a.w / a.h > b.w / b.h`, stated without division. */
  lemma RatioOrder(a: Size, b: Size)
    requires Positive(a) && Positive(b)
    ensures a.w / a.h > b.w / b.h <==> a.w * b.h > b.w * a.h
    ensures a.w / a.h < b.w / b.h <==> a.w * b.h < b.w * a.h
  {
    var ra, rb := a.w / a.h, b.w / b.h;
    assert a.w == ra * a.h && b.w == rb * b.h;
    assert a.w * b.h == ra * (a.h * b.h) && b.w * a.h == rb * (a.h * b.h);
  }

  /** A ratio-preserving size as high as the canvas is at least as wide when the image is relatively wider. */
  lemma ScaledSides(canvas: Size, img: Size, r: Size)
    requires Positive(canvas) && Positive(img) && Positive(r) && SameRatio(r, img)
    ensures r.h == canvas.h ==> (r.w >= canvas.w <==> img.w * canvas.h >= canvas.w * img.h)
    ensures r.w == canvas.w ==> (r.h >= canvas.h <==> img.w * canvas.h <= canvas.w * img.h)
  {
    if r.h == canvas.h {
      assert r.w * img.h == canvas.h * img.w;
      if r.w >= canvas.w {
        assert r.w * img.h >= canvas.w * img.h;
      }
    }
    if r.w == canvas.w {
      assert canvas.w * img.h == r.h * img.w;
      if r.h >= canvas.h {
        assert r.h * img.w >= canvas.h * img.w;
      }
    }
  }

  /** `cover` fills the canvas: the drawn image is at least as large on both sides. */
  lemma CoverCovers(canvas: Size, img: Size)
    requires Positive(canvas) && Positive(img)
    ensures var r := FitSize("cover", canvas, img);
      r.w >= canvas.w && r.h >= canvas.h
  {
    var r := FitSize("cover", canvas, img);
    RatioOrder(img, canvas);
    ScaledSides(canvas, img, r);
  }

  /** `contain` fits inside the canvas: the drawn image is at most as large on both sides. */
  lemma ContainFits(canvas: Size, img: Size)
    requires Positive(canvas) && Positive(img)
    ensures var r := FitSize("contain", canvas, img);
      r.w <= canvas.w && r.h <= canvas.h
  {
    var r := FitSize("contain", canvas, img);
    RatioOrder(img, canvas);
    ScaledSides(canvas, img, r);
    if r.h == canvas.h {
      assert r.w * img.h == canvas.h * img.w <= canvas.w * img.h;
    } else {
      assert r.h * img.w == canvas.w * img.h <= canvas.h * img.w;
    }
  }

  /** When the image already has the canvas's proportions, both modes draw it at exactly the canvas size. */
  lemma MatchingRatioFillsCanvas(fit: string, canvas: Size, img: Size)
    requires Positive(canvas) && Positive(img) && SameRatio(canvas, img)
    requires fit == "cover" || fit == "contain"
    ensures FitSize(fit, canvas, img) == canvas
  {
    SameRatioSides(FitSize(fit, canvas, img), canvas, img);
  }

  /** Two sizes with the image's ratio agree on one side exactly when they agree on the other. */
  lemma SameRatioSides(r: Size, canvas: Size, img: Size)
    requires Positive(img) && SameRatio(r, img) && SameRatio(canvas, img)
    ensures r.w == canvas.w <==> r.h == canvas.h
  {
    assert (r.w - canvas.w) * img.h == (r.h - canvas.h) * img.w;
  }

  /**
   * `objectPosition.split(' ')` (line 171): the pieces between single spaces,
   * empty pieces included, so there is always at least one.
   */
  function SplitOn(s: string, sep: char): (parts: seq<string>)
    ensures |parts| >= 1
    ensures forall i :: 0 <= i < |parts| ==> sep !in parts[i]
  {
    if s == [] then [[]]
    else
      var rest := SplitOn(s[1..], sep);
      if s[0] == sep then [[]] + rest
      else [[s[0]] + rest[0]] + rest[1..]
  }

  /** The inverse of `SplitOn`: the pieces glued back with the separator. */
  function Join(parts: seq<string>, sep: char): string
    requires |parts| >= 1
  {
    if |parts| == 1 then parts[0] else parts[0] + [sep] + Join(parts[1..], sep)
  }

  /** Splitting loses nothing: joining the pieces gives the string back. */
  lemma {:induction false} JoinSplit(s: string, sep: char)
    ensures Join(SplitOn(s, sep), sep) == s
  {
    if s != [] {
      var rest := SplitOn(s[1..], sep);
      JoinSplit(s[1..], sep);
      if s[0] != sep {
        var parts := SplitOn(s, sep);
        assert parts[1..] == rest[1..];
        if |rest| > 1 {
          assert Join(rest, sep) == rest[0] + [sep] + Join(rest[1..], sep);
        }
      }
    }
  }

  /** A piece without the separator followed by the separator splits off as one piece. */
  lemma {:induction false} SplitPrefix(p: string, s: string, sep: char)
    requires sep !in p
    ensures SplitOn(p + [sep] + s, sep) == [p] + SplitOn(s, sep)
    ensures SplitOn(p, sep) == [p]
  {
    if p == [] {
      assert p + [sep] + s == [sep] + s;
      assert ([sep] + s)[1..] == s;
    } else {
      SplitPrefix(p[1..], s, sep);
      assert (p + [sep] + s)[1..] == p[1..] + [sep] + s;
      assert [p[0]] + p[1..] == p;
    }
  }

  /** Pieces without the separator come back from their join unchanged. */
  lemma {:induction false} SplitJoin(parts: seq<string>, sep: char)
    requires |parts| >= 1
    requires forall i :: 0 <= i < |parts| ==> sep !in parts[i]
    ensures SplitOn(Join(parts, sep), sep) == parts
  {
    if |parts| == 1 {
      SplitPrefix(parts[0], [], sep);
    } else {
      SplitJoin(parts[1..], sep);
      SplitPrefix(parts[0], Join(parts[1..], sep), sep);
      assert [parts[0]] + parts[1..] == parts;
    }
  }

  /** Which axes the token list names: `positions.includes(...)` at lines 187 and 189. */
  datatype Mentions = Mentions(leftOrRight: bool, topOrBottom: bool)

  function MentionsOf(positions: seq<string>): Mentions {
    Mentions("left" in positions || "right" in positions, "top" in positions || "bottom" in positions)
  }

  /**
   * One step of the `forEach` (lines 173-196): the new offset after token `tok`,
   * with `slack` the canvas size minus the drawn size on each axis.
   */
  function Step(m: Mentions, tok: string, o: Offset, slack: Offset): Offset {
    if tok == "left" then o.(x := 0.0)
    else if tok == "right" then o.(x := slack.x)
    else if tok == "top" then o.(y := 0.0)
    else if tok == "bottom" then o.(y := slack.y)
    else if tok == "center" then
      if m.leftOrRight then o.(y := slack.y / 2.0)
      else if m.topOrBottom then o.(x := slack.x / 2.0)
      else Offset(slack.x / 2.0, slack.y / 2.0)
    else o
  }

  /** An offset on one axis that a keyword can produce: flush, centred, or flush with the far side. */
  predicate OnAxis(v: real, slack: real) {
    v == 0.0 || v == slack || v == slack / 2.0
  }

  /** The tokens `toks` applied in order, starting from `o`. */
  function Fold(m: Mentions, toks: seq<string>, o: Offset, slack: Offset): (r: Offset)
    ensures OnAxis(o.x, slack.x) && OnAxis(o.y, slack.y) ==> OnAxis(r.x, slack.x) && OnAxis(r.y, slack.y)
  {
    if toks == [] then o else Fold(m, toks[1..], Step(m, toks[0], o, slack), slack)
  }

  /** Folding over two lists in turn is folding over their concatenation. */
  lemma {:induction false} FoldConcat(m: Mentions, a: seq<string>, b: seq<string>, o: Offset, slack: Offset)
    ensures Fold(m, a + b, o, slack) == Fold(m, b, Fold(m, a, o, slack), slack)
  {
    if a == [] {
      assert a + b == b;
    } else {
      assert (a + b)[1..] == a[1..] + b;
      FoldConcat(m, a[1..], b, Step(m, a[0], o, slack), slack);
    }
  }

  /** The offset for the token list, from `posX = posY = 0` (lines 149-150). */
  function Anchor(positions: seq<string>, slack: Offset): (o: Offset)
    ensures OnAxis(o.x, slack.x) && OnAxis(o.y, slack.y)
  {
    Fold(MentionsOf(positions), positions, Offset(0.0, 0.0), slack)
  }

  /**
   * The rectangle drawn for a fit mode and a position string: the fit size
   * (`DrawImageWithObjectFit` states it), placed flush with one side or
   * centred on each axis.
   */
  function Placed(fit: string, position: string, canvas: Size, img: Size): (r: Rect)
    requires Positive(canvas) && Positive(img)
    ensures r.w > 0.0 && r.h > 0.0
    ensures OnAxis(r.x, canvas.w - r.w) && OnAxis(r.y, canvas.h - r.h)
  {
    var s := FitSize(fit, canvas, img);
    var o := Anchor(SplitOn(position, ' '), Offset(canvas.w - s.w, canvas.h - s.h));
    Rect(o.x, o.y, s.w, s.h)
  }

  /**
   * `drawImageWithObjectFit` (lines 146-200) without the drawing: the fit size,
   * then the position tokens applied one by one to `posX` and `posY`.
   */
  method DrawImageWithObjectFit(canvas: Size, img: Size, objectFit: string, objectPosition: string)
    returns (r: Rect)
    requires Positive(canvas) && Positive(img)
    ensures r == Placed(objectFit, objectPosition, canvas, img)
    ensures r.w == FitSize(objectFit, canvas, img).w && r.h == FitSize(objectFit, canvas, img).h
  {
    var posX, posY := 0.0, 0.0;
    var size := FitSize(objectFit, canvas, img);
    var positions := SplitOn(objectPosition, ' ');
    var slack := Offset(canvas.w - size.w, canvas.h - size.h);
    var m := MentionsOf(positions);
    for i := 0 to |positions|
      invariant Offset(posX, posY) == Fold(m, positions[..i], Offset(0.0, 0.0), slack)
    {
      var pos := positions[i];
      if pos == "left" {
        posX := 0.0;
      } else if pos == "right" {
        posX := canvas.w - size.w;
      } else if pos == "top" {
        posY := 0.0;
      } else if pos == "bottom" {
        posY := canvas.h - size.h;
      } else if pos == "center" {
        if "left" in positions || "right" in positions {
          posY := (canvas.h - size.h) / 2.0;
        } else if "top" in positions || "bottom" in positions {
          posX := (canvas.w - size.w) / 2.0;
        } else {
          posX := (canvas.w - size.w) / 2.0;
          posY := (canvas.h - size.h) / 2.0;
        }
      }
      FoldConcat(m, positions[..i], [pos], Offset(0.0, 0.0), slack);
      assert positions[..i + 1] == positions[..i] + [pos];
    }
    assert positions[..|positions|] == positions;
    r := Rect(posX, posY, size.w, size.h);
  }

  predicate Horizontal(tok: string) {
    tok == "left" || tok == "center" || tok == "right"
  }

  predicate Vertical(tok: string) {
    tok == "top" || tok == "center" || tok == "bottom"
  }

  /** Where a horizontal keyword puts the image on its axis: flush, centred or flush with the far side. */
  function HOffset(tok: string, slack: real): real {
    if tok == "left" then 0.0 else if tok == "right" then slack else slack / 2.0
  }

  function VOffset(tok: string, slack: real): real {
    if tok == "top" then 0.0 else if tok == "bottom" then slack else slack / 2.0
  }

  /** Under `cover` the image covers the whole canvas, whatever the position string. */
  lemma PlacedCoversCanvas(position: string, canvas: Size, img: Size)
    requires Positive(canvas) && Positive(img)
    ensures var r := Placed("cover", position, canvas, img);
      r.x <= 0.0 && r.x + r.w >= canvas.w && r.y <= 0.0 && r.y + r.h >= canvas.h
  {
    CoverCovers(canvas, img);
  }

  /** Under `contain` the image lies inside the canvas, whatever the position string. */
  lemma PlacedInsideCanvas(position: string, canvas: Size, img: Size)
    requires Positive(canvas) && Positive(img)
    ensures var r := Placed("contain", position, canvas, img);
      0.0 <= r.x && r.x + r.w <= canvas.w && 0.0 <= r.y && r.y + r.h <= canvas.h
  {
    ContainFits(canvas, img);
  }

  /**
   * A horizontal and a vertical keyword, in either order, set the two offsets
   * independently.
   */
  lemma AnchorPair(h: string, v: string, slack: Offset)
    requires Horizontal(h) && Vertical(v)
    ensures Anchor([h, v], slack) == Offset(HOffset(h, slack.x), VOffset(v, slack.y))
    ensures Anchor([v, h], slack) == Offset(HOffset(h, slack.x), VOffset(v, slack.y))
  {
    var o := Offset(0.0, 0.0);
    var hv, vh := MentionsOf([h, v]), MentionsOf([v, h]);
    TwoTokens(hv, h, v, o, slack);
    TwoTokens(vh, v, h, o, slack);
  }

  lemma OneToken(m: Mentions, a: string, o: Offset, slack: Offset)
    ensures Fold(m, [a], o, slack) == Step(m, a, o, slack)
  {
    assert [a][1..] == [];
    assert Fold(m, [a], o, slack) == Fold(m, [], Step(m, a, o, slack), slack);
  }

  lemma TwoTokens(m: Mentions, a: string, b: string, o: Offset, slack: Offset)
    ensures Fold(m, [a, b], o, slack) == Step(m, b, Step(m, a, o, slack), slack)
  {
    assert [a, b][1..] == [b];
    assert Fold(m, [a, b], o, slack) == Fold(m, [b], Step(m, a, o, slack), slack);
    OneToken(m, b, Step(m, a, o, slack), slack);
  }

  /** The same, written as the option string `"<h> <v>"` or `"<v> <h>"`. */
  lemma PlacedPair(fit: string, h: string, v: string, canvas: Size, img: Size)
    requires Positive(canvas) && Positive(img)
    requires Horizontal(h) && Vertical(v)
    ensures var s := FitSize(fit, canvas, img);
      var want := Rect(HOffset(h, canvas.w - s.w), VOffset(v, canvas.h - s.h), s.w, s.h);
      Placed(fit, h + " " + v, canvas, img) == want && Placed(fit, v + " " + h, canvas, img) == want
  {
    var s := FitSize(fit, canvas, img);
    AnchorPair(h, v, Offset(canvas.w - s.w, canvas.h - s.h));
    assert Join([h, v], ' ') == h + " " + v;
    assert Join([v, h], ' ') == v + " " + h;
    SplitJoin([h, v], ' ');
    SplitJoin([v, h], ' ');
  }

  /** A lone keyword other than `center` moves one axis and leaves the other at 0. */
  lemma SingleKeyword(tok: string, slack: Offset)
    requires tok in ["left", "right", "top", "bottom"]
    ensures Horizontal(tok) ==> Anchor([tok], slack) == Offset(HOffset(tok, slack.x), 0.0)
    ensures Vertical(tok) ==> Anchor([tok], slack) == Offset(0.0, VOffset(tok, slack.y))
  {
    OneToken(MentionsOf([tok]), tok, Offset(0.0, 0.0), slack);
  }

  /** A lone `center` centres on both axes. */
  lemma CenterAlone(slack: Offset)
    ensures Anchor(["center"], slack) == Offset(slack.x / 2.0, slack.y / 2.0)
  {
    OneToken(MentionsOf(["center"]), "center", Offset(0.0, 0.0), slack);
  }

  /** The defaults `cover` and `center center`: a 200x100 image on a 100x100 canvas overhangs 50 on each side. */
  lemma CoverExample()
    ensures Placed("cover", "center center", Size(100.0, 100.0), Size(200.0, 100.0)) == Rect(-50.0, 0.0, 200.0, 100.0)
  {
    CoverExampleBranch();
    CoverExampleHeight();
    CenterCenter();
    AnchorPair("center", "center", Offset(-100.0, 0.0));
  }

  lemma CoverExampleBranch()
    ensures FitSize("cover", Size(100.0, 100.0), Size(200.0, 100.0)) == HeightMatched(Size(100.0, 100.0), Size(200.0, 100.0))
  {
    assert 200.0 / 100.0 == 2.0;
  }

  lemma CoverExampleHeight()
    ensures HeightMatched(Size(100.0, 100.0), Size(200.0, 100.0)) == Size(200.0, 100.0)
  {
  }

  /** The default position string splits into two `center` tokens. */
  lemma CenterCenter()
    ensures SplitOn("center center", ' ') == ["center", "center"]
  {
    assert Join(["center", "center"], ' ') == "center center";
    SplitJoin(["center", "center"], ' ');
  }

  /** With `contain` the same image is letterboxed: 25 free above and below. */
  lemma ContainExample()
    ensures Placed("contain", "center center", Size(100.0, 100.0), Size(200.0, 100.0)) == Rect(0.0, 25.0, 100.0, 50.0)
  {
    var canvas, img := Size(100.0, 100.0), Size(200.0, 100.0);
    assert FitSize("contain", canvas, img) == WidthMatched(canvas, img) == Size(100.0, 50.0);
    CenterCenter();
    AnchorPair("center", "center", Offset(0.0, 50.0));
  }

  predicate Keyword(tok: string) {
    tok in ["left", "right", "top", "bottom", "center"]
  }

  /** A token that is not a keyword changes nothing, wherever it stands. */
  lemma UnknownTokenIgnored(pre: seq<string>, u: string, post: seq<string>, slack: Offset)
    requires !Keyword(u)
    ensures Anchor(pre + [u] + post, slack) == Anchor(pre + post, slack)
  {
    var o := Offset(0.0, 0.0);
    var m := MentionsOf(pre + post);
    assert MentionsOf(pre + [u] + post) == m by {
      forall k | k in ["left", "right", "top", "bottom"]
        ensures k in pre + [u] + post <==> k in pre + post
      {
        assert k in pre + [u] + post <==> k in pre || k == u || k in post;
      }
    }
    FoldConcat(m, pre + [u], post, o, slack);
    FoldConcat(m, pre, [u], o, slack);
    FoldConcat(m, pre, post, o, slack);
    OneToken(m, u, Fold(m, pre, o, slack), slack);
  }
}
