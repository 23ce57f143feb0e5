/**
 * The keyword metrics of the hint evaluator: how many required keywords a
 * hint mentions, whether it avoids every forbidden keyword, and how many of
 * the three expected section headings it contains. All comparisons ignore
 * ASCII case.
 */
module Evaluator {
  import opened Seqs
  import opened Text

  /** The fields of a test case that the keyword metrics read. */
  datatype TestCase = TestCase(mustMention: seq<string>, mustNotMention: seq<string>)

  /** The three scores, each a fraction between 0 and 1. */
  datatype BasicMetrics = BasicMetrics(mentionsRequired: real, avoidsProblems: real, hasStructure: real)

  /** The section headings of a well-formed hint. */
  const Sections: seq<string> := ["assessment", "what's working", "level up"]

  /** The lower-cased response mentions the keyword, ignoring case. */
  predicate Mentions(lowerResponse: string, keyword: string) {
    Contains(lowerResponse, Lower(keyword))
  }

  /** The fraction `count / total`, or 1 when there is nothing to count. */
  function Fraction(count: nat, total: nat): real {
    if total == 0 then 1.0 else count as real / total as real
  }

  /** `evaluateBasicMetrics`: each of the three scores is a fraction between 0 and 1. */
  function EvaluateBasicMetrics(testCase: TestCase, response: string): (m: BasicMetrics)
    ensures 0.0 <= m.mentionsRequired <= 1.0
    ensures m.avoidsProblems == 0.0 || m.avoidsProblems == 1.0
    ensures 0.0 <= m.hasStructure <= 1.0
  {
    var lowerResponse := Lower(response);
    var mentioned := Filter(keyword => Mentions(lowerResponse, keyword), testCase.mustMention);
    var avoids := forall i :: 0 <= i < |testCase.mustNotMention| ==> !Mentions(lowerResponse, testCase.mustNotMention[i]);
    var found := Filter(section => Contains(lowerResponse, section), Sections);
    FractionBounds(|mentioned|, |testCase.mustMention|);
    BasicMetrics(
      Fraction(|mentioned|, |testCase.mustMention|),
      if avoids then 1.0 else 0.0,
      |found| as real / |Sections| as real)
  }

  /** A filter keeps every element exactly when each satisfies the predicate, and none exactly when none does. */
  lemma {:induction false} FilterKeepsAll<T>(p: T -> bool, s: seq<T>)
    ensures |Filter(p, s)| == |s| <==> forall i :: 0 <= i < |s| ==> p(s[i])
    ensures |Filter(p, s)| == 0 <==> forall i :: 0 <= i < |s| ==> !p(s[i])
  {
    if s != [] {
      var init := s[..|s| - 1];
      FilterKeepsAll(p, init);
      assert Filter(p, s) == Filter(p, init) + (if p(s[|s| - 1]) then [s[|s| - 1]] else []);
      if forall i :: 0 <= i < |s| ==> p(s[i]) {
        assert forall i :: 0 <= i < |init| ==> p(init[i]) by {
          forall i | 0 <= i < |init| ensures p(init[i]) {
            assert init[i] == s[i];
          }
        }
      }
      if forall i :: 0 <= i < |init| ==> p(init[i]) {
        assert forall i :: 0 <= i < |s| - 1 ==> p(s[i]) by {
          forall i | 0 <= i < |s| - 1 ensures p(s[i]) {
            assert init[i] == s[i];
          }
        }
      }
      if forall i :: 0 <= i < |s| ==> !p(s[i]) {
        forall i | 0 <= i < |init| ensures !p(init[i]) {
          assert init[i] == s[i];
        }
      }
      if forall i :: 0 <= i < |init| ==> !p(init[i]) {
        forall i | 0 <= i < |s| - 1 ensures !p(s[i]) {
          assert init[i] == s[i];
        }
      }
    }
  }

  /** A fraction of a non-empty whole lies in 0..1, is 1 for all of it and 0 for none of it. */
  lemma FractionBounds(count: nat, total: nat)
    requires count <= total
    ensures 0.0 <= Fraction(count, total) <= 1.0
    ensures Fraction(count, total) == 1.0 <==> count == total
    ensures total > 0 ==> (Fraction(count, total) == 0.0 <==> count == 0)
  {
    if total > 0 {
      var f := count as real / total as real;
      assert f * total as real == count as real;
      assert (1.0 - f) * total as real == total as real - count as real;
    }
  }

  /**
   * `mentionsRequired` is 1 when nothing is required; otherwise it lies in
   * 0..1, is 1 exactly when every required keyword is mentioned, and 0
   * exactly when none is.
   */
  lemma MentionsRequiredMeaning(testCase: TestCase, response: string)
    ensures var score := EvaluateBasicMetrics(testCase, response).mentionsRequired;
      var required := testCase.mustMention;
      && 0.0 <= score <= 1.0
      && (|required| == 0 ==> score == 1.0)
      && (score == 1.0 <==> forall i :: 0 <= i < |required| ==> Mentions(Lower(response), required[i]))
      && (|required| > 0 ==> (score == 0.0 <==> forall i :: 0 <= i < |required| ==> !Mentions(Lower(response), required[i])))
  {
    var lowerResponse := Lower(response);
    var p := keyword => Mentions(lowerResponse, keyword);
    var mentioned := Filter(p, testCase.mustMention);
    FilterKeepsAll(p, testCase.mustMention);
    FractionBounds(|mentioned|, |testCase.mustMention|);
  }

  /** `avoidsProblems` is 1 when no forbidden keyword is mentioned and 0 otherwise. */
  lemma AvoidsProblemsMeaning(testCase: TestCase, response: string)
    ensures var score := EvaluateBasicMetrics(testCase, response).avoidsProblems;
      && (score == 1.0 || score == 0.0)
      && (score == 1.0 <==> forall i :: 0 <= i < |testCase.mustNotMention| ==> !Mentions(Lower(response), testCase.mustNotMention[i]))
  {
  }

  /**
   * `hasStructure` is the share of the three headings found: 0, 1/3, 2/3
   * or 1, and 1 exactly when all three appear.
   */
  lemma HasStructureMeaning(testCase: TestCase, response: string)
    ensures var score := EvaluateBasicMetrics(testCase, response).hasStructure;
      && (score == 0.0 || score == 1.0 / 3.0 || score == 2.0 / 3.0 || score == 1.0)
      && (score == 1.0 <==> forall i :: 0 <= i < |Sections| ==> Contains(Lower(response), Sections[i]))
  {
    var lowerResponse := Lower(response);
    var p := section => Contains(lowerResponse, section);
    FilterKeepsAll(p, Sections);
    var found := |Filter(p, Sections)|;
    assert found <= 3;
    assert found == 0 || found == 1 || found == 2 || found == 3;
  }

  /** Lower-casing the response first changes none of the metrics. */
  lemma MetricsIgnoreResponseCase(testCase: TestCase, response: string)
    ensures EvaluateBasicMetrics(testCase, Lower(response)) == EvaluateBasicMetrics(testCase, response)
  {
    LowerIdempotent(response);
  }
}
