/**
 * The names `obURLsToArray` generates from a validated template: the numbers
 * `numA, numA + every, ...` up to `numB`, each zero-padded to the width of
 * `from`'s digits and put back between the shared prefix and suffix.
 */
module FrameNames {
  import opened Wrappers
  import opened Digits
  import opened FilenameParts

  /** How many `i` satisfy `numA <= i <= numB` with `i == numA + k * every`. */
  function FrameCount(numA: nat, numB: nat, every: nat): nat
    requires every >= 1
    decreases numB + 1 - numA
  {
    if numA <= numB then 1 + FrameCount(numA + every, numB, every) else 0
  }

  /** The `k`-th number of the loop is within range exactly when `k` is below the frame count. */
  lemma {:induction false} InRangeIffBelowCount(numA: nat, numB: nat, every: nat, k: nat)
    requires every >= 1
    ensures numA + k * every <= numB <==> k < FrameCount(numA, numB, every)
    decreases numB + 1 - numA
  {
    if numA <= numB && k > 0 {
      InRangeIffBelowCount(numA + every, numB, every, k - 1);
      assert numA + k * every == numA + every + (k - 1) * every;
    } else if k > 0 {
      assert k * every >= 0;
    }
  }

  /** The count in closed form: `(numB - numA) / every + 1` numbers when `numA <= numB`, none otherwise. */
  lemma FrameCountClosedForm(numA: nat, numB: nat, every: nat)
    requires every >= 1
    ensures FrameCount(numA, numB, every) == if numA <= numB then (numB - numA) / every + 1 else 0
  {
    if numA <= numB {
      var q := (numB - numA) / every;
      assert q * every <= numB - numA < q * every + every;
      NextMultiple(q, every);
      InRangeIffBelowCount(numA, numB, every, q);
      InRangeIffBelowCount(numA, numB, every, q + 1);
    } else {
      InRangeIffBelowCount(numA, numB, every, 0);
    }
  }

  lemma NextMultiple(k: nat, every: nat)
    ensures (k + 1) * every == k * every + every
  {
  }

  /** The frame name for number `i`: line 105. */
  function FrameName(t: Template, i: nat): string {
    t.before + PadStart(ToDecimal(i), |t.a|) + t.after
  }

  /** The names for `numA, numA + every, ...` up to `numB`, in closed form. */
  function Frames(t: Template, every: nat): seq<string>
    requires every >= 1 && AllDigits(t.a) && AllDigits(t.b)
  {
    var numA, numB := ParseDecimal(t.a), ParseDecimal(t.b);
    var n := FrameCount(numA, numB, every);
    seq(n, k requires 0 <= k < n => FrameName(t, numA + k * every))
  }

  /**
   * The list of filenames the source returns: nothing for a refused pair, and
   * otherwise one name per iteration of the loop from `numA` to `numB`.
   */
  function Expand(first: string, last: string, every: nat): (r: seq<string>)
    requires every >= 1
    ensures Validate(first, last).Failure? ==> r == []
    ensures Validate(first, last).Success? ==>
      var t := Validate(first, last).value;
      |r| == FrameCount(ParseDecimal(t.a), ParseDecimal(t.b), every)
  {
    match Validate(first, last)
    case Failure(_) => []
    case Success(t) => Frames(t, every)
  }

  /** A pair that validates expands to the frames of its template. */
  lemma ExpandIsFrames(first: string, last: string, every: nat, t: Template)
    requires every >= 1 && Validate(first, last) == Success(t)
    ensures |t.a| >= 1 && AllDigits(t.a) && AllDigits(t.b)
    ensures Expand(first, last, every) == Frames(t, every)
  {
  }

  /** A non-empty expansion comes from a pair that validates. */
  lemma NonEmptyExpandValidates(first: string, last: string, every: nat)
    requires every >= 1 && Expand(first, last, every) != []
    ensures Validate(first, last).Success?
  {
  }

  /** The loop of lines 102-105. */
  method EmitFrames(t: Template, every: nat) returns (out: seq<string>)
    requires every >= 1 && AllDigits(t.a) && AllDigits(t.b)
    ensures out == Frames(t, every)
  {
    out := [];
    var numA, numB := ParseDecimal(t.a), ParseDecimal(t.b);
    var i := numA;
    while i <= numB
      invariant i == numA + |out| * every
      invariant |out| <= FrameCount(numA, numB, every)
      invariant forall k :: 0 <= k < |out| ==> out[k] == FrameName(t, numA + k * every)
      decreases numB - i
    {
      InRangeIffBelowCount(numA, numB, every, |out|);
      NextMultiple(|out|, every);
      out := out + [FrameName(t, i)];
      i := i + every;
    }
    InRangeIffBelowCount(numA, numB, every, |out|);
  }

  /** The frame list is empty exactly when `from`'s number exceeds `to`'s. */
  lemma FramesEmpty(t: Template, every: nat)
    requires every >= 1 && AllDigits(t.a) && AllDigits(t.b)
    ensures Frames(t, every) == [] <==> ParseDecimal(t.a) > ParseDecimal(t.b)
  {
    var numA, numB := ParseDecimal(t.a), ParseDecimal(t.b);
    if numA <= numB {
      assert |Frames(t, every)| > 0;
    }
  }

  /** The first frame is `before + a + after`: `from`'s digits come back unchanged. */
  lemma FramesStart(t: Template, every: nat)
    requires every >= 1 && |t.a| >= 1 && AllDigits(t.a) && AllDigits(t.b) && Frames(t, every) != []
    ensures Frames(t, every)[0] == t.before + t.a + t.after
  {
    assert Frames(t, every)[0] == FrameName(t, ParseDecimal(t.a));
    PadParseRoundTrip(t.a);
  }

  /** With step 1 the last frame is `before + b + after` whenever the template could come from a pair. */
  lemma FramesEnd(t: Template)
    requires |t.a| >= 1 && |t.b| >= 1 && AllDigits(t.a) && AllDigits(t.b)
    requires t.a[0] == '0' || t.b[0] == '0' ==> |t.a| == |t.b|
    requires Frames(t, 1) != []
    ensures Frames(t, 1)[|Frames(t, 1)| - 1] == t.before + t.b + t.after
  {
    var numA, numB := ParseDecimal(t.a), ParseDecimal(t.b);
    var xs := Frames(t, 1);
    InRangeIffBelowCount(numA, numB, 1, numB - numA);
    InRangeIffBelowCount(numA, numB, 1, numB - numA + 1);
    assert |xs| == numB - numA + 1;
    assert xs[|xs| - 1] == FrameName(t, numB);
    if |t.a| == |t.b| {
      PadParseRoundTrip(t.b);
    } else {
      CanonicalLengthMonotone(t.a, t.b);
      ToDecimalOfCanonical(t.b);
    }
  }

  /**
   * Every frame is `before + d + after` where the digits `d` denote
   * `numA + k * every`, are at least as wide as `from`'s number, and carry no
   * padding beyond that width.
   */
  lemma FramesElement(t: Template, every: nat, k: nat)
    requires every >= 1 && |t.a| >= 1 && AllDigits(t.a) && AllDigits(t.b) && k < |Frames(t, every)|
    ensures var name := Frames(t, every)[k];
      var d := name[|t.before|..|name| - |t.after|];
      && |name| >= |t.before| + |t.a| + |t.after|
      && name == t.before + d + t.after
      && AllDigits(d) && ParseDecimal(d) == ParseDecimal(t.a) + k * every
      && (|d| > |t.a| ==> d[0] != '0')
  {
    var n := ParseDecimal(t.a) + k * every;
    assert Frames(t, every)[k] == FrameName(t, n);
    PaddedNumber(n, |t.a|);
    var d := PadStart(ToDecimal(n), |t.a|);
    var name := FrameName(t, n);
    assert name[|t.before|..|name| - |t.after|] == d;
  }

  /** The frame numbers stop at the largest `numA + k * every` not beyond `numB`. */
  lemma FramesRange(t: Template, every: nat)
    requires every >= 1 && AllDigits(t.a) && AllDigits(t.b) && Frames(t, every) != []
    ensures var numA, numB, n := ParseDecimal(t.a), ParseDecimal(t.b), |Frames(t, every)|;
      numA + (n - 1) * every <= numB < numA + n * every
  {
    var numA, numB, n := ParseDecimal(t.a), ParseDecimal(t.b), |Frames(t, every)|;
    InRangeIffBelowCount(numA, numB, every, n - 1);
    InRangeIffBelowCount(numA, numB, every, n);
  }
}
