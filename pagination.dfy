/**
 * Pagination: how many result pages `count_page` reports and which locator `run` hands to
 * `next_page` on each iteration.
 */
module Pagination {
  import opened Wrappers
  import opened Text

  /** The XPath of the pagination links that `run` passes to `count_page`. */
  const PaginationXPath: string := "//li[@class='css-1v1l206 eu4oa1w0']/a"

  const ButtonPrefix: string := "[contains(text(), '"
  const ButtonSuffix: string := "' )]"

  /**
   * `count_page`: given the visible texts of the pagination elements, the number of them
   * that are numeric (a count, not the largest pageLabel).
   */
  function CountPage(texts: seq<string>): (r: nat)
    ensures r <= |texts|
    ensures r == |texts| <==> forall i :: 0 <= i < |texts| ==> IsNumeric(texts[i])
    ensures r == 0 <==> forall i :: 0 <= i < |texts| ==> !IsNumeric(texts[i])
  {
    if texts == [] then 0
    else
      var init := texts[..|texts| - 1];
      assert forall i :: 0 <= i < |init| ==> init[i] == texts[i];
      CountPage(init) + if IsNumeric(texts[|texts| - 1]) then 1 else 0
  }

  /** The positions of the numeric pagination texts. */
  ghost function NumericIndices(texts: seq<string>): set<nat> {
    set i: nat | i < |texts| && IsNumeric(texts[i])
  }

  /** The count is the number of positions holding a numeric text. */
  lemma {:induction false} CountPageIsCardinality(texts: seq<string>)
    ensures CountPage(texts) == |NumericIndices(texts)|
  {
    if texts != [] {
      var n := |texts| - 1;
      var init := texts[..n];
      CountPageIsCardinality(init);
      var before := NumericIndices(init);
      assert n !in before;
      if IsNumeric(texts[n]) {
        assert NumericIndices(texts) == before + {n};
      } else {
        assert NumericIndices(texts) == before;
      }
    }
  }

  /** Counting is additive over the concatenation of two lists of texts. */
  lemma {:induction false} CountPageAppend(a: seq<string>, b: seq<string>)
    ensures CountPage(a + b) == CountPage(a) + CountPage(b)
  {
    if b == [] {
      assert a + b == a;
    } else {
      var n := |b| - 1;
      assert (a + b)[..|a + b| - 1] == a + b[..n];
      CountPageAppend(a, b[..n]);
    }
  }

  /** Labels `1`, `2`, `10` and a `Next` arrow count as three pages, not ten. */
  lemma CountIsNotMaximum()
    ensures CountPage(["1", "2", "10", "Next"]) == 3
  {
    assert !IsNumeric("Next") by { assert !IsDigit("Next"[0]); }
  }

  /** When the labels are exactly `1` .. `k`, the count is k. */
  lemma {:induction false} CountOfConsecutiveLabels(k: nat)
    ensures CountPage(seq(k, i requires 0 <= i => Decimal(i + 1))) == k
  {
    var labels := seq(k, i requires 0 <= i => Decimal(i + 1));
    assert forall i :: 0 <= i < |labels| ==> IsNumeric(labels[i]);
  }

  /**
   * The locator `run` passes to `next_page` on iteration i, for `pageLabel == i + 1`:
   * the pagination link whose text contains the decimal pageLabel.
   */
  function PageButton(pageLabel: nat): string {
    PaginationXPath + ButtonPrefix + Decimal(pageLabel) + ButtonSuffix
  }

  /** Reads the pageLabel back out of a page-button locator; None for any other string. */
  function LabelOf(locator: string): Option<nat>
  {
    var head := PaginationXPath + ButtonPrefix;
    if |locator| < |head| + |ButtonSuffix| then None
    else if locator[..|head|] != head || locator[|locator| - |ButtonSuffix|..] != ButtonSuffix then None
    else
      var digits := locator[|head|..|locator| - |ButtonSuffix|];
      if IsNumeric(digits) then Some(DigitsValue(digits)) else None
  }

  /** The locator of every pageLabel names that pageLabel, so distinct labels give distinct locators. */
  lemma LabelOfPageButton(pageLabel: nat)
    ensures LabelOf(PageButton(pageLabel)) == Some(pageLabel)
  {
    var head := PaginationXPath + ButtonPrefix;
    var d := Decimal(pageLabel);
    var loc := PageButton(pageLabel);
    assert loc == head + d + ButtonSuffix;
    assert loc[..|head|] == head;
    assert loc[|loc| - |ButtonSuffix|..] == ButtonSuffix;
    assert loc[|head|..|loc| - |ButtonSuffix|] == d;
    DecimalRoundTrip(pageLabel);
  }

  lemma PageButtonInjective(l1: nat, l2: nat)
    requires PageButton(l1) == PageButton(l2)
    ensures l1 == l2
  {
    LabelOfPageButton(l1);
    LabelOfPageButton(l2);
  }
}
