/**
 * The filename analysis of `obURLsToArray` in ImageSequenceCanvasPlayer: each
 * name is split around its last run of digits, and a `{from, to}` pair is
 * accepted when both names share the text around that run.
 */
module FilenameParts {
  import opened Wrappers
  import opened Digits

  predicate NoDigit(s: string) {
    forall i :: 0 <= i < |s| ==> !IsDigit(s[i])
  }

  /** `s[start..end]` is the last maximal run of digits in `s`. */
  ghost predicate IsLastDigitRun(s: string, start: nat, end: nat) {
    && start < end <= |s|
    && (forall i :: start <= i < end ==> IsDigit(s[i]))
    && (start == 0 || !IsDigit(s[start - 1]))
    && (forall i :: end <= i < |s| ==> !IsDigit(s[i]))
  }

  /** A match of the pattern `\d+(?!.*\d)` over `s[p..q]`: digits with no digit anywhere after them. */
  ghost predicate LookaheadMatch(s: string, p: nat, q: nat) {
    && p < q <= |s|
    && (forall i :: p <= i < q ==> IsDigit(s[i]))
    && (forall i :: q <= i < |s| ==> !IsDigit(s[i]))
  }

  datatype Run = Run(start: nat, end: nat)

  /** The index just past the last digit of `s`, or 0 when `s` has no digit. */
  function LastDigitEnd(s: string): (e: nat)
    ensures e <= |s|
    ensures forall i :: e <= i < |s| ==> !IsDigit(s[i])
    ensures e > 0 ==> IsDigit(s[e - 1])
  {
    if s == [] then 0
    else if IsDigit(s[|s| - 1]) then |s|
    else LastDigitEnd(s[..|s| - 1])
  }

  /** Where the run of digits that ends at `e` begins. */
  function RunStart(s: string, e: nat): (b: nat)
    requires e <= |s|
    ensures b <= e
    ensures forall i :: b <= i < e ==> IsDigit(s[i])
    ensures b == 0 || !IsDigit(s[b - 1])
    decreases e
  {
    if e == 0 || !IsDigit(s[e - 1]) then e else RunStart(s, e - 1)
  }

  /** A right-to-left scan for the last maximal digit run. */
  function LastDigitRun(s: string): (r: Option<Run>)
    ensures r.None? <==> NoDigit(s)
    ensures r.Some? ==> IsLastDigitRun(s, r.value.start, r.value.end)
  {
    var e := LastDigitEnd(s);
    if e == 0 then None else Some(Run(RunStart(s, e), e))
  }

  /** The last digit run of a string is unique, so the scan finds exactly it. */
  lemma LastDigitRunUnique(s: string, start: nat, end: nat)
    requires IsLastDigitRun(s, start, end)
    ensures LastDigitRun(s) == Some(Run(start, end))
  {
    assert IsDigit(s[start]);
    var r := LastDigitRun(s).value;
    assert IsDigit(s[end - 1]) && IsDigit(s[r.end - 1]);
    if start > 0 {
      assert !IsDigit(s[start - 1]);
    }
    if r.start > 0 {
      assert !IsDigit(s[r.start - 1]);
    }
  }

  /**
   * The scan gives the match the source's regular expression `\d+(?!.*\d)`
   * returns first: the leftmost match, and at that start the only possible end.
   * A string without digits has no match at all.
   */
  lemma LastDigitRunIsRegexMatch(s: string)
    ensures LastDigitRun(s).None? ==> forall p: nat, q: nat :: !LookaheadMatch(s, p, q)
    ensures LastDigitRun(s).Some? ==>
      var r := LastDigitRun(s).value;
      && LookaheadMatch(s, r.start, r.end)
      && forall p: nat, q: nat :: LookaheadMatch(s, p, q) ==> r.start <= p && q == r.end
  {
    if LastDigitRun(s).None? {
      forall p: nat, q: nat ensures !LookaheadMatch(s, p, q) {
        if p < q <= |s| {
          assert !IsDigit(s[p]);
        }
      }
    } else {
      var r := LastDigitRun(s).value;
      forall p: nat, q: nat | LookaheadMatch(s, p, q) ensures r.start <= p && q == r.end {
        assert IsDigit(s[q - 1]) && IsDigit(s[r.end - 1]);
        if r.start > 0 {
          assert !IsDigit(s[r.start - 1]);
        }
      }
    }
  }

  /** `lastNumber` (line 66-70): the last digit run of `s`, or "" when `s` has no digit. */
  function LastNumber(s: string): (n: string)
    ensures n == "" <==> NoDigit(s)
    ensures AllDigits(n)
  {
    match LastDigitRun(s)
    case None => ""
    case Some(r) => s[r.start..r.end]
  }

  predicate OccursAt(s: string, pat: string, p: nat) {
    p + |pat| <= |s| && s[p..p + |pat|] == pat
  }

  /** The last position at which `pat` occurs in `s`. */
  function LastIndexOf(s: string, pat: string): Option<nat>
    decreases |s|
  {
    if |pat| > |s| then None
    else if s[|s| - |pat|..] == pat then Some(|s| - |pat|)
    else LastIndexOf(s[..|s| - 1], pat)
  }

  /** `LastIndexOf` finds an occurrence, and none lies further right; it finds nothing only when there is no occurrence. */
  lemma {:induction false} LastIndexOfIsLast(s: string, pat: string)
    ensures LastIndexOf(s, pat).None? ==> forall p: nat :: !OccursAt(s, pat, p)
    ensures LastIndexOf(s, pat).Some? ==>
      var p := LastIndexOf(s, pat).value;
      OccursAt(s, pat, p) && forall q: nat :: OccursAt(s, pat, q) ==> q <= p
    decreases |s|
  {
    if |pat| <= |s| && s[|s| - |pat|..] != pat {
      var s' := s[..|s| - 1];
      LastIndexOfIsLast(s', pat);
      forall q: nat | OccursAt(s, pat, q) ensures OccursAt(s', pat, q) {
        assert q + |pat| != |s|;
        assert s'[q..q + |pat|] == s[q..q + |pat|];
      }
      if LastIndexOf(s', pat).Some? {
        var p := LastIndexOf(s', pat).value;
        assert s'[p..p + |pat|] == s[p..p + |pat|];
      }
    }
  }

  /**
   * `basenameBefore` (line 71-75): the greedy match of `.*(?=num)`, i.e.
   * everything before the last occurrence of `num`, or "" when `num` does not occur.
   */
  function BasenameBefore(s: string, num: string): (r: string)
    ensures |r| <= |s| && r == s[..|r|]
    ensures (forall q: nat :: !OccursAt(s, num, q)) ==> r == ""
    ensures (exists q: nat :: OccursAt(s, num, q)) ==>
      OccursAt(s, num, |r|) && forall q: nat :: OccursAt(s, num, q) ==> q <= |r|
  {
    LastIndexOfIsLast(s, num);
    match LastIndexOf(s, num)
    case None => ""
    case Some(p) => s[..p]
  }

  /**
   * `basenameAfter` (line 76-80): the match of `[^num]+$`, the longest suffix
   * of `s` with no character of `num`; "" when `s` ends in one of them.
   */
  function BasenameAfter(s: string, num: string): (r: string)
    ensures |r| <= |s| && r == s[|s| - |r|..]
    ensures forall i :: 0 <= i < |r| ==> r[i] !in num
    ensures |r| < |s| ==> s[|s| - |r| - 1] in num
  {
    if s == [] || s[|s| - 1] in num then []
    else
      var r := BasenameAfter(s[..|s| - 1], num) + [s[|s| - 1]];
      assert s[..|s| - 1][|s| - |r|..] + [s[|s| - 1]] == s[|s| - |r|..];
      r
  }

  /** When `s[m - 1]` is one of `num`'s characters and nothing after it is, the match starts at `m`. */
  lemma {:induction false} BasenameAfterFrom(s: string, num: string, m: nat)
    requires 0 < m <= |s| && s[m - 1] in num
    requires forall i :: m <= i < |s| ==> s[i] !in num
    ensures BasenameAfter(s, num) == s[m..]
    decreases |s| - m
  {
    if m < |s| {
      var s' := s[..|s| - 1];
      BasenameAfterFrom(s', num, m);
      assert s'[m..] + [s[|s| - 1]] == s[m..];
    }
  }

  /** The three helpers split a name with a digit into the text before, the digits of, and the text after its last digit run. */
  lemma SplitAtLastRun(s: string)
    requires !NoDigit(s)
    ensures var r := LastDigitRun(s).value;
      && LastNumber(s) == s[r.start..r.end]
      && BasenameBefore(s, LastNumber(s)) == s[..r.start]
      && BasenameAfter(s, LastNumber(s)) == s[r.end..]
  {
    var r := LastDigitRun(s).value;
    BeforeLastRun(s, r);
    AfterLastRun(s, r);
  }

  lemma BeforeLastRun(s: string, r: Run)
    requires LastDigitRun(s) == Some(r)
    ensures BasenameBefore(s, s[r.start..r.end]) == s[..r.start]
  {
    var num := s[r.start..r.end];
    assert OccursAt(s, num, r.start);
    LastIndexOfIsLast(s, num);
    var p := LastIndexOf(s, num).value;
    assert s[p..p + |num|][|num| - 1] == s[p + |num| - 1];
    assert IsDigit(s[p + |num| - 1]);
    assert num[|num| - 1] == s[r.end - 1];
  }

  lemma AfterLastRun(s: string, r: Run)
    requires LastDigitRun(s) == Some(r)
    ensures BasenameAfter(s, s[r.start..r.end]) == s[r.end..]
  {
    var num := s[r.start..r.end];
    assert num[|num| - 1] == s[r.end - 1];
    forall c | c in num ensures IsDigit(c) {
      var k :| 0 <= k < |num| && num[k] == c;
    }
    forall i | r.end <= i < |s| ensures s[i] !in num {
      assert !IsDigit(s[i]);
    }
    BasenameAfterFrom(s, num, r.end);
  }

  /** Why a `{from, to}` pair is refused; each reason makes the source warn and return []. */
  datatype Rejection =
    | MissingName       // line 62-65
    | FirstHasNoNumber  // line 81-85
    | LastHasNoNumber   // line 86-90
    | BasenameMismatch  // line 91-96
    | LeadingZeroWidth  // line 97-101

  /** The shared name template and the two digit strings. */
  datatype Template = Template(before: string, a: string, b: string, after: string)

  /** The checks of lines 62-101, in the source's order. */
  function Validate(first: string, last: string): (r: Result<Template, Rejection>)
    ensures r.Success? ==> |r.value.a| >= 1 && AllDigits(r.value.a) && |r.value.b| >= 1 && AllDigits(r.value.b)
    ensures r.Success? && (r.value.a[0] == '0' || r.value.b[0] == '0') ==> |r.value.a| == |r.value.b|
  {
    if first == "" || last == "" then Failure(MissingName)
    else
      var a := LastNumber(first);
      if a == "" then Failure(FirstHasNoNumber)
      else
        var b := LastNumber(last);
        if b == "" then Failure(LastHasNoNumber)
        else
          var before := BasenameBefore(first, a);
          var after := BasenameAfter(first, a);
          if before != BasenameBefore(last, b) || after != BasenameAfter(last, b) then Failure(BasenameMismatch)
          else if (a[0] == '0' || b[0] == '0') && |a| != |b| then Failure(LeadingZeroWidth)
          else Success(Template(before, a, b, after))
  }

  /** Text before the last digit run of a name that has one. */
  function Prefix(s: string): string
    requires !NoDigit(s)
  {
    s[..LastDigitRun(s).value.start]
  }

  /** The last digit run of a name that has one. */
  function Number(s: string): string
    requires !NoDigit(s)
  {
    var r := LastDigitRun(s).value;
    s[r.start..r.end]
  }

  /** Text after the last digit run of a name that has one. */
  function Suffix(s: string): string
    requires !NoDigit(s)
  {
    s[LastDigitRun(s).value.end..]
  }

  /**
   * The rejection rules stated on the split of each name at its last digit run.
   * The leading-zero rule rejects when EITHER run starts with '0' and the widths differ.
   */
  lemma ValidateCases(first: string, last: string)
    ensures Validate(first, last) == Failure(MissingName) <==> first == "" || last == ""
    ensures Validate(first, last) == Failure(FirstHasNoNumber) <==> first != "" && last != "" && NoDigit(first)
    ensures Validate(first, last) == Failure(LastHasNoNumber) <==>
      first != "" && last != "" && !NoDigit(first) && NoDigit(last)
    ensures Validate(first, last) == Failure(BasenameMismatch) <==>
      !NoDigit(first) && !NoDigit(last) && (Prefix(first) != Prefix(last) || Suffix(first) != Suffix(last))
    ensures Validate(first, last) == Failure(LeadingZeroWidth) <==>
      && !NoDigit(first) && !NoDigit(last)
      && Prefix(first) == Prefix(last) && Suffix(first) == Suffix(last)
      && (Number(first)[0] == '0' || Number(last)[0] == '0') && |Number(first)| != |Number(last)|
    ensures Validate(first, last).Success? ==>
      && !NoDigit(first) && !NoDigit(last)
      && Validate(first, last).value == Template(Prefix(first), Number(first), Number(last), Suffix(first))
  {
    if first == "" || last == "" {
    } else if NoDigit(first) {
      assert LastNumber(first) == "";
    } else if NoDigit(last) {
      assert LastNumber(first) != "" && LastNumber(last) == "";
    } else {
      SplitAtLastRun(first);
      SplitAtLastRun(last);
    }
  }

  /** A name with a digit is its prefix, last digit run and suffix, in order. */
  lemma PartsReassemble(s: string)
    requires !NoDigit(s)
    ensures s == Prefix(s) + Number(s) + Suffix(s)
  {
    var r := LastDigitRun(s).value;
    assert s == s[..r.start] + s[r.start..r.end] + s[r.end..];
  }

  /** Both names are the template with their own digits in the middle. */
  lemma TemplateReassembles(first: string, last: string)
    requires Validate(first, last).Success?
    ensures var t := Validate(first, last).value;
      first == t.before + t.a + t.after && last == t.before + t.b + t.after
  {
    ValidateCases(first, last);
    PartsReassemble(first);
    PartsReassemble(last);
  }

  /** The split of a name built from a prefix not ending in a digit, digits, and a digit-free suffix. */
  lemma SplitOf(s: string, before: string, num: string, after: string)
    requires s == before + num + after
    requires |num| >= 1 && AllDigits(num) && NoDigit(after)
    requires before == "" || !IsDigit(before[|before| - 1])
    ensures !NoDigit(s) && Prefix(s) == before && Number(s) == num && Suffix(s) == after
  {
    var start, end := |before|, |before| + |num|;
    assert s[..start] == before && s[start..end] == num && s[end..] == after;
    forall i | start <= i < end ensures IsDigit(s[i]) {
      assert s[i] == num[i - start];
    }
    forall i | end <= i < |s| ensures !IsDigit(s[i]) {
      assert s[i] == after[i - end];
    }
    LastDigitRunUnique(s, start, end);
  }

  /** A leading zero on `from` alone is enough to refuse names of different widths. */
  lemma LeadingZeroOnFirstOnly()
    ensures Validate("img0.png", "img10.png") == Failure(LeadingZeroWidth)
  {
    SplitOf("img0.png", "img", "0", ".png");
    SplitOf("img10.png", "img", "10", ".png");
    ValidateCases("img0.png", "img10.png");
  }

  /** A leading zero on `from` with a shorter `to` is refused too. */
  lemma LeadingZeroShorterLast()
    ensures Validate("img01.png", "img1.png") == Failure(LeadingZeroWidth)
  {
    SplitOf("img01.png", "img", "01", ".png");
    SplitOf("img1.png", "img", "1", ".png");
    ValidateCases("img01.png", "img1.png");
  }

  /** Names of equal width are accepted whatever their leading digits. */
  lemma PaddedPairAccepted()
    ensures Validate("img01.png", "img10.png") == Success(Template("img", "01", "10", ".png"))
  {
    SplitOf("img01.png", "img", "01", ".png");
    SplitOf("img10.png", "img", "10", ".png");
    ValidateCases("img01.png", "img10.png");
  }
}
