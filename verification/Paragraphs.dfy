/**
 Paragraph locators of extracted text: the identifier `p<page>-p<paragraph>` and the rule that the
 paragraphs of each page are numbered without gaps.
 */
module Paragraphs {
  import opened Common
  import opened Decimal
  import opened Utf16

  const LOWER_P: Unit := 0x70
  const HYPHEN: Unit := 0x2D

  function ParagraphIdText(page: nat, paragraph: nat): Text {
    [LOWER_P] + PrintNat(page) + ([HYPHEN, LOWER_P] + PrintNat(paragraph))
  }

  predicate IsPositiveNumeral(t: Text) {
    AllDigits(t) && t != [] && t[0] != ZERO
  }

  /** The two groups of `^p([1-9]\d*)-p([1-9]\d*)$`, as numbers. */
  function MatchParagraphId(t: Text): Option<(nat, nat)> {
    if t == [] || t[0] != LOWER_P then None
    else
      var n := Digits(t[1..]);
      var page, rest := t[1..][..n], t[1..][n..];
      if !IsPositiveNumeral(page) || |rest| < 2 || rest[0] != HYPHEN || rest[1] != LOWER_P then None
      else
        var paragraph := rest[2..];
        if !IsPositiveNumeral(paragraph) then None else Some((DigitsValue(page), DigitsValue(paragraph)))
  }

  lemma MatchOfText(page: nat, paragraph: nat)
    requires page >= 1 && paragraph >= 1
    ensures MatchParagraphId(ParagraphIdText(page, paragraph)) == Some((page, paragraph))
  {
    var t := ParagraphIdText(page, paragraph);
    var tail := [HYPHEN, LOWER_P] + PrintNat(paragraph);
    PrintedIsPositive(page);
    PrintedIsPositive(paragraph);
    DigitsOfPrefix(PrintNat(page), tail);
    assert t[1..] == PrintNat(page) + tail;
    assert t[1..][..|PrintNat(page)|] == PrintNat(page) && t[1..][|PrintNat(page)|..] == tail;
    assert tail[2..] == PrintNat(paragraph);
  }

  lemma PrintedIsPositive(n: nat)
    requires n >= 1
    ensures IsPositiveNumeral(PrintNat(n)) && DigitsValue(PrintNat(n)) == n
  {
    PrintNatDigits(n);
  }

  lemma PositiveNumeral(t: Text)
    requires IsPositiveNumeral(t)
    ensures DigitsValue(t) >= 1 && PrintNat(DigitsValue(t)) == t
  {
    PrintOfDigitsValue(t);
  }

  lemma Assembled(t: Text, page: Text, rest: Text)
    requires t != [] && t[0] == LOWER_P && t[1..] == page + rest
    requires |rest| >= 2 && rest[0] == HYPHEN && rest[1] == LOWER_P
    ensures t == [LOWER_P] + page + ([HYPHEN, LOWER_P] + rest[2..])
  {
    assert t == [LOWER_P] + t[1..];
    assert rest == [HYPHEN, LOWER_P] + rest[2..];
  }

  lemma TextOfMatch(t: Text)
    requires MatchParagraphId(t).Some?
    ensures MatchParagraphId(t).value.0 >= 1 && MatchParagraphId(t).value.1 >= 1
    ensures t == ParagraphIdText(MatchParagraphId(t).value.0, MatchParagraphId(t).value.1)
  {
    var n := Digits(t[1..]);
    var page, rest := t[1..][..n], t[1..][n..];
    PositiveNumeral(page);
    PositiveNumeral(rest[2..]);
    Assembled(t, page, rest);
  }

  /** The identifier is exactly the printed form of one pair of positive numbers. */
  lemma MatchedExactly(t: Text, page: nat, paragraph: nat)
    ensures MatchParagraphId(t) == Some((page, paragraph)) <==>
            page >= 1 && paragraph >= 1 && t == ParagraphIdText(page, paragraph)
  {
    if MatchParagraphId(t).Some? {
      TextOfMatch(t);
    }
    if page >= 1 && paragraph >= 1 {
      MatchOfText(page, paragraph);
    }
  }

  // ---- Numbering. ----

  ghost predicate OnPage(pages: seq<nat>, numbers: seq<nat>, page: nat, number: nat)
    requires |pages| == |numbers|
  {
    exists j :: 0 <= j < |pages| && pages[j] == page && numbers[j] == number
  }

  /**
   Pages come in order; on each page numbers never go down, start at one and leave none out. One
   paragraph may fill several entries.
   */
  ghost predicate Gapless(pages: seq<nat>, numbers: seq<nat>) {
    && |pages| == |numbers|
    && (forall i, j :: 0 <= i < j < |pages| ==> pages[i] <= pages[j])
    && (forall i, j :: 0 <= i < j < |pages| && pages[i] == pages[j] ==> numbers[i] <= numbers[j])
    && (forall i :: 0 <= i < |pages| ==> numbers[i] >= 1)
    && (forall i, k :: 0 <= i < |pages| && 1 <= k <= numbers[i] ==> OnPage(pages, numbers, pages[i], k))
  }

  /** The test one loop iteration makes, on two neighbouring entries. */
  predicate StepOk(pages: seq<nat>, numbers: seq<nat>, i: nat)
    requires |pages| == |numbers| && i < |pages|
  {
    if i == 0 then numbers[i] == 1
    else if pages[i] != pages[i - 1] then pages[i - 1] < pages[i] && numbers[i] == 1
    else numbers[i] == numbers[i - 1] || numbers[i] == numbers[i - 1] + 1
  }

  predicate Stepwise(pages: seq<nat>, numbers: seq<nat>) {
    && |pages| == |numbers|
    && forall i :: 0 <= i < |pages| ==> StepOk(pages, numbers, i)
  }

  lemma {:induction false} StepwiseOrders(pages: seq<nat>, numbers: seq<nat>, i: nat, j: nat)
    requires Stepwise(pages, numbers) && i <= j < |pages|
    ensures pages[i] <= pages[j]
    ensures pages[i] == pages[j] ==> numbers[i] <= numbers[j]
    decreases j
  {
    if i < j {
      assert StepOk(pages, numbers, j);
      StepwiseOrders(pages, numbers, i, j - 1);
    }
  }

  lemma {:induction false} StepwiseStartsAtOne(pages: seq<nat>, numbers: seq<nat>, i: nat)
    requires Stepwise(pages, numbers) && i < |pages|
    ensures 1 <= numbers[i] <= i + 1
  {
    assert StepOk(pages, numbers, i);
    if i > 0 {
      StepwiseStartsAtOne(pages, numbers, i - 1);
    }
  }

  lemma {:induction false} StepwiseSkipsNone(pages: seq<nat>, numbers: seq<nat>, i: nat, k: nat)
    requires Stepwise(pages, numbers) && i < |pages| && 1 <= k <= numbers[i]
    ensures OnPage(pages, numbers, pages[i], k)
  {
    assert StepOk(pages, numbers, i);
    if k < numbers[i] {
      StepwiseSkipsNone(pages, numbers, i - 1, k);
    }
  }

  lemma StepwiseIsGapless(pages: seq<nat>, numbers: seq<nat>)
    requires Stepwise(pages, numbers)
    ensures Gapless(pages, numbers)
  {
    forall i, j | 0 <= i < j < |pages|
      ensures pages[i] <= pages[j] && (pages[i] == pages[j] ==> numbers[i] <= numbers[j])
    {
      StepwiseOrders(pages, numbers, i, j);
    }
    forall i | 0 <= i < |pages| ensures numbers[i] >= 1 {
      StepwiseStartsAtOne(pages, numbers, i);
    }
    forall i, k | 0 <= i < |pages| && 1 <= k <= numbers[i] ensures OnPage(pages, numbers, pages[i], k) {
      StepwiseSkipsNone(pages, numbers, i, k);
    }
  }

  lemma GaplessIsStepwise(pages: seq<nat>, numbers: seq<nat>)
    requires Gapless(pages, numbers)
    ensures Stepwise(pages, numbers)
  {
    forall i | 0 <= i < |pages| ensures StepOk(pages, numbers, i) {
      if i == 0 || pages[i] != pages[i - 1] {
        FirstOnPage(pages, numbers, i);
      } else {
        NextOnPage(pages, numbers, i);
      }
    }
  }

  lemma FirstOnPage(pages: seq<nat>, numbers: seq<nat>, i: nat)
    requires Gapless(pages, numbers) && i < |pages| && (i == 0 || pages[i] != pages[i - 1])
    ensures numbers[i] == 1
  {
    assert OnPage(pages, numbers, pages[i], 1);
    var j :| 0 <= j < |pages| && pages[j] == pages[i] && numbers[j] == 1;
    assert i <= j;
  }

  lemma NextOnPage(pages: seq<nat>, numbers: seq<nat>, i: nat)
    requires Gapless(pages, numbers) && 0 < i < |pages| && pages[i] == pages[i - 1]
    ensures numbers[i - 1] <= numbers[i] <= numbers[i - 1] + 1
  {
    var k := numbers[i - 1] + 1;
    if k <= numbers[i] {
      assert OnPage(pages, numbers, pages[i], k);
      var j :| 0 <= j < |pages| && pages[j] == pages[i] && numbers[j] == k;
      assert i <= j;
    }
  }

  /** The loop's neighbour test decides the declarative rule. */
  lemma NeighbourTestDecides(pages: seq<nat>, numbers: seq<nat>)
    ensures Stepwise(pages, numbers) <==> Gapless(pages, numbers)
  {
    if Stepwise(pages, numbers) {
      StepwiseIsGapless(pages, numbers);
    } else if Gapless(pages, numbers) {
      GaplessIsStepwise(pages, numbers);
    }
  }

  ghost predicate HoldsOneTo(pages: seq<nat>, numbers: seq<nat>, page: nat, k: nat)
    requires |pages| == |numbers|
  {
    forall m: nat :: OnPage(pages, numbers, page, m) <==> 1 <= m <= k
  }

  /** On every page that has entries the numbers present are exactly 1 to some k. */
  lemma PageHoldsOneToK(pages: seq<nat>, numbers: seq<nat>, i: nat)
    requires Gapless(pages, numbers) && i < |pages|
    ensures exists k: nat :: 1 <= k <= |pages| && HoldsOneTo(pages, numbers, pages[i], k)
  {
    GaplessIsStepwise(pages, numbers);
    var last := i;
    while last + 1 < |pages| && pages[last + 1] == pages[i]
      invariant i <= last < |pages| && pages[last] == pages[i]
    {
      last := last + 1;
    }
    var k := numbers[last];
    StepwiseStartsAtOne(pages, numbers, last);
    forall m: nat ensures OnPage(pages, numbers, pages[i], m) <==> 1 <= m <= k {
      if OnPage(pages, numbers, pages[i], m) {
        var j :| 0 <= j < |pages| && pages[j] == pages[i] && numbers[j] == m;
      }
    }
    assert HoldsOneTo(pages, numbers, pages[i], k);
  }
}
