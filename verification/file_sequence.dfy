/**
 * The filename-sequence expander `obURLsToArray` of ImageSequenceCanvasPlayer:
 * `{from, to}` becomes the list of frame filenames between them, or nothing
 * when the pair is refused.
 */
module FileSequence {
  import opened Wrappers
  import opened Digits
  import opened FilenameParts
  import opened FrameNames

  /**
   * `obURLsToArray(info, every)` (line 56-107): validate the pair, then emit one
   * name for each `i` from `numA` to `numB` stepping by `every`.
   */
  method ObUrlsToArray(first: string, last: string, every: nat) returns (out: seq<string>)
    requires every >= 1
    ensures out == Expand(first, last, every)
  {
    var v := Validate(first, last);
    if v.Failure? {
      return [];
    }
    ExpandIsFrames(first, last, every, v.value);
    out := EmitFrames(v.value, every);
  }

  /** A pair is either refused, or yields nothing only because `from`'s number exceeds `to`'s. */
  lemma ExpandEmpty(first: string, last: string, every: nat)
    requires every >= 1
    ensures Expand(first, last, every) == [] <==>
      Validate(first, last).Failure?
      || ParseDecimal(Validate(first, last).value.a) > ParseDecimal(Validate(first, last).value.b)
  {
    var v := Validate(first, last);
    if v.Success? {
      ExpandIsFrames(first, last, every, v.value);
      FramesEmpty(v.value, every);
    }
  }

  /** The first generated name is `from` itself. */
  lemma ExpandStartsWithFirst(first: string, last: string, every: nat)
    requires every >= 1 && Expand(first, last, every) != []
    ensures Expand(first, last, every)[0] == first
  {
    NonEmptyExpandValidates(first, last, every);
    var t := Validate(first, last).value;
    ExpandIsFrames(first, last, every, t);
    FirstOfAccepted(first, last, every, t);
  }

  lemma FirstOfAccepted(first: string, last: string, every: nat, t: Template)
    requires every >= 1 && Validate(first, last) == Success(t) && Frames(t, every) != []
    ensures Frames(t, every)[0] == first
  {
    TemplateReassembles(first, last);
    FramesStart(t, every);
  }

  /** With step 1 the last generated name is `to` itself. */
  lemma ExpandEndsWithLast(first: string, last: string)
    requires Expand(first, last, 1) != []
    ensures Expand(first, last, 1)[|Expand(first, last, 1)| - 1] == last
  {
    NonEmptyExpandValidates(first, last, 1);
    LastOfAccepted(first, last, Validate(first, last).value);
  }

  lemma LastOfAccepted(first: string, last: string, t: Template)
    requires Validate(first, last) == Success(t)
    ensures var xs := Expand(first, last, 1); xs != [] ==> xs[|xs| - 1] == last
  {
    ExpandIsFrames(first, last, 1, t);
    if Frames(t, 1) != [] {
      TemplateReassembles(first, last);
      FramesEnd(t);
    }
  }
}
