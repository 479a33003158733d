/** `calculateResults` and `getAxisSideLabel`: per-axis aggregation of the
    answers into a percentage and a qualitative lean. */
module Scoring {
  import opened QuizData
  import opened Text

  /** One row of the results table. `caption` is the source's `label`. */
  datatype AxisResult = AxisResult(
    caption: string,
    percent: int,
    direction: string,
    highSide: string,
    lowSide: string,
    highMeans: string,
    lowMeans: string)

  /** What one answer adds to its axis: the value moved from 1..5 to 0..4,
      turned around for a reversed question. */
  function Contribution(q: Question, v: int): (n: int)
    ensures 1 <= v <= 5 ==> 0 <= n <= 4
  {
    var n := v - 1;
    if q.reverse then 4 - n else n
  }

  /** Answering `6 - v` to a question with the opposite `reverse` flag
      contributes exactly what answering `v` does. */
  lemma FlippedQuestionSameContribution(q: Question, v: int)
    ensures Contribution(q.(reverse := !q.reverse), 6 - v) == Contribution(q, v)
  {
  }

  /** Question `j` was answered and is scored on axis `k`. */
  predicate CountsFor(axes: seq<Axis>, qs: seq<Question>, ans: seq<Answer>, j: int, k: int)
    requires 0 <= j < |qs| == |ans|
  {
    ans[j].Some? && AxisIndexOf(axes, qs[j].axis) == k
  }

  /** `count` of axis `k` after the questions `qs` with answers `ans` have been processed. */
  function AxisCount(axes: seq<Axis>, qs: seq<Question>, ans: seq<Answer>, k: int): (c: int)
    requires |qs| == |ans|
    ensures 0 <= c <= |qs|
    decreases |qs|
  {
    if |qs| == 0 then 0
    else
      var m := |qs| - 1;
      AxisCount(axes, qs[..m], ans[..m], k) + (if CountsFor(axes, qs, ans, m, k) then 1 else 0)
  }

  /** `raw` of axis `k` after the questions `qs` with answers `ans` have been
      processed; with answers in 1..5 it is at most 4 per counted answer. */
  function AxisRaw(axes: seq<Axis>, qs: seq<Question>, ans: seq<Answer>, k: int): (raw: int)
    requires |qs| == |ans| && ValidAnswers(ans)
    ensures 0 <= raw <= 4 * AxisCount(axes, qs, ans, k)
    decreases |qs|
  {
    if |qs| == 0 then 0
    else
      var m := |qs| - 1;
      assert ValidAnswer(ans[m]);
      AxisRaw(axes, qs[..m], ans[..m], k)
        + (if CountsFor(axes, qs, ans, m, k) then Contribution(qs[m], ans[m].value) else 0)
  }

  /** No answered question is scored on axis `k` exactly when its count is zero. */
  lemma {:induction false} CountZeroIff(axes: seq<Axis>, qs: seq<Question>, ans: seq<Answer>, k: int)
    requires |qs| == |ans|
    ensures AxisCount(axes, qs, ans, k) == 0 <==> forall j :: 0 <= j < |qs| ==> !CountsFor(axes, qs, ans, j, k)
    decreases |qs|
  {
    if |qs| > 0 {
      var m := |qs| - 1;
      CountZeroIff(axes, qs[..m], ans[..m], k);
      forall j | 0 <= j < m
        ensures CountsFor(axes, qs, ans, j, k) == CountsFor(axes, qs[..m], ans[..m], j, k)
      {
      }
    }
  }

  /** Raw and count of every axis depend on each question only through whether
      it counts for the axis and what it contributes. */
  lemma {:induction false} TallyCongruence(axes: seq<Axis>, qs: seq<Question>, ans: seq<Answer>,
                                           qs': seq<Question>, ans': seq<Answer>, k: int)
    requires |qs| == |ans| == |qs'| == |ans'|
    requires ValidAnswers(ans) && ValidAnswers(ans')
    requires forall j :: 0 <= j < |qs| ==> CountsFor(axes, qs, ans, j, k) == CountsFor(axes, qs', ans', j, k)
    requires forall j :: 0 <= j < |qs| && CountsFor(axes, qs, ans, j, k) && CountsFor(axes, qs', ans', j, k) ==>
      Contribution(qs[j], ans[j].value) == Contribution(qs'[j], ans'[j].value)
    ensures AxisCount(axes, qs, ans, k) == AxisCount(axes, qs', ans', k)
    ensures AxisRaw(axes, qs, ans, k) == AxisRaw(axes, qs', ans', k)
    decreases |qs|
  {
    if |qs| > 0 {
      var m := |qs| - 1;
      forall j | 0 <= j < m
        ensures CountsFor(axes, qs[..m], ans[..m], j, k) == CountsFor(axes, qs'[..m], ans'[..m], j, k)
      {
        assert CountsFor(axes, qs, ans, j, k) == CountsFor(axes, qs', ans', j, k);
      }
      forall j | 0 <= j < m && CountsFor(axes, qs[..m], ans[..m], j, k) && CountsFor(axes, qs'[..m], ans'[..m], j, k)
        ensures Contribution(qs[..m][j], ans[..m][j].value) == Contribution(qs'[..m][j], ans'[..m][j].value)
      {
        assert CountsFor(axes, qs, ans, j, k) && CountsFor(axes, qs', ans', j, k);
      }
      TallyCongruence(axes, qs[..m], ans[..m], qs'[..m], ans'[..m], k);
    }
  }

  /** `Math.round(raw / (4 * count) * 100)` in exact arithmetic, 0 for an empty axis:
      the integer nearest to `25 * raw / count`, halves rounded up. */
  function Percent(raw: int, count: int): (p: int)
    requires 0 <= raw <= 4 * count
    ensures count == 0 ==> p == 0
    ensures count > 0 ==> 2 * count * p <= 50 * raw + count < 2 * count * (p + 1)
    ensures 0 <= p <= 100
  {
    if count == 0 then 0
    else
      RoundingBounds(raw, count);
      (50 * raw + count) / (2 * count)
  }

  /** The quotient in `Percent` brackets `50 * raw + count` and stays within 0..100. */
  lemma RoundingBounds(raw: int, count: int)
    requires 0 < count && 0 <= raw <= 4 * count
    ensures var p := (50 * raw + count) / (2 * count);
      0 <= p <= 100 && 2 * count * p <= 50 * raw + count < 2 * count * (p + 1)
  {
    var a, b := 50 * raw + count, 2 * count;
    var p := a / b;
    Bracket(a, b);
    assert a < 101 * b;
    if p > 100 {
      Monotone(b, 101, p);
    }
    if p < 0 {
      Monotone(b, p + 1, 0);
    }
  }

  /** Floor division of a non-negative number brackets it between consecutive multiples. */
  lemma Bracket(a: int, b: int)
    requires 0 <= a && 0 < b
    ensures b * (a / b) <= a < b * (a / b + 1)
  {
    var p, r := a / b, a % b;
    assert a == b * p + r && 0 <= r < b;
    assert b * (p + 1) == b * p + b;
  }

  lemma Monotone(c: int, x: int, y: int)
    requires 0 < c && x <= y
    ensures c * x <= c * y
  {
    assert c * y - c * x == c * (y - x);
  }

  /** `getAxisSideLabel(axisLabel, isHighSide)`: a side name never starts or
      ends with whitespace. */
  function SideLabel(caption: string, isHighSide: bool): (name: string)
    ensures name == [] || (!IsWhitespace(name[0]) && !IsWhitespace(name[|name| - 1]))
  {
    var parts := Split(caption, " vs ");
    if |parts| == 2 then
      if isHighSide then Trim(parts[0]) else Trim(parts[1])
    else
      if isHighSide then "High-end position" else "Low-end position"
  }

  /** A caption "<a> vs <b>" with a single separator names its sides by the trimmed halves. */
  lemma SideLabelsOfPair(a: string, b: string)
    requires forall j :: 0 <= j < |a| ==> !OccursAt(a + " vs ", " vs ", j)
    requires !Contains(b, " vs ")
    ensures SideLabel(a + " vs " + b, true) == Trim(a)
    ensures SideLabel(a + " vs " + b, false) == Trim(b)
  {
    SplitInTwo(a, " vs ", b);
  }

  /** A caption without the separator gets the generic side names. */
  lemma SideLabelsWithoutSeparator(caption: string)
    requires !Contains(caption, " vs ")
    ensures SideLabel(caption, true) == "High-end position"
    ensures SideLabel(caption, false) == "Low-end position"
  {
    SplitAbsent(caption, " vs ");
  }

  /** A caption with two separators, such as "A vs B vs C", splits into more
      than two parts and so gets the generic side names too. */
  lemma SideLabelsOfThreeOrMore(a: string, b: string, c: string)
    requires forall j :: 0 <= j < |a| ==> !OccursAt(a + " vs ", " vs ", j)
    requires forall j :: 0 <= j < |b| ==> !OccursAt(b + " vs ", " vs ", j)
    ensures SideLabel(a + " vs " + b + " vs " + c, true) == "High-end position"
    ensures SideLabel(a + " vs " + b + " vs " + c, false) == "Low-end position"
  {
    SplitAtTwo(a, " vs ", b, c);
  }

  /** `Math.abs(percent - 50)`: how far a percentage is from the midpoint. */
  function Offset(percent: int): (d: nat)
    ensures d == 0 <==> percent == 50
    ensures percent + d == 50 || percent - d == 50
  {
    if percent >= 50 then percent - 50 else 50 - percent
  }

  /** The strength word for a distance from the midpoint: Strong from 35,
      Moderate from 20, Slight below. */
  function Strength(offset: int): (word: string)
    ensures word == "Strong" <==> offset >= 35
    ensures word == "Moderate" <==> 20 <= offset < 35
    ensures word == "Slight" <==> offset < 20
  {
    if offset >= 35 then "Strong" else if offset >= 20 then "Moderate" else "Slight"
  }

  /** The qualitative lean of a percentage between the named sides: "Balanced
      midpoint" at 50 and at no other percentage. */
  function Direction(percent: int, highSide: string, lowSide: string): (lean: string)
    ensures lean == "Balanced midpoint" <==> percent == 50
  {
    if percent == 50 then "Balanced midpoint"
    else
      var word := Strength(Offset(percent));
      var lean := word + " lean toward " + (if percent >= 50 then highSide else lowSide);
      assert lean[0] == word[0] != "Balanced midpoint"[0];
      lean
  }

  /** Mirroring a percentage about 50 keeps the strength and swaps the sides. */
  lemma DirectionMirror(d: int, highSide: string, lowSide: string)
    ensures Direction(50 + d, highSide, lowSide) == Direction(50 - d, lowSide, highSide)
  {
  }

  /** The strength thresholds: at least 35 away is Strong, at least 20 Moderate,
      else Slight, toward the side the percentage is on. */
  lemma StrengthOfOffset(percent: int, highSide: string, lowSide: string)
    requires percent != 50
    ensures Offset(percent) >= 35 ==>
      Direction(percent, highSide, lowSide) == "Strong lean toward " + (if percent > 50 then highSide else lowSide)
    ensures 20 <= Offset(percent) < 35 ==>
      Direction(percent, highSide, lowSide) == "Moderate lean toward " + (if percent > 50 then highSide else lowSide)
    ensures Offset(percent) < 20 ==>
      Direction(percent, highSide, lowSide) == "Slight lean toward " + (if percent > 50 then highSide else lowSide)
  {
    var side := if percent > 50 then highSide else lowSide;
    var word := Strength(Offset(percent));
    LeanOf(percent, highSide, lowSide, word, side);
    LeanPhrases(side);
  }

  /** Away from the midpoint, the lean is the strength word and the side. */
  lemma LeanOf(percent: int, highSide: string, lowSide: string, word: string, side: string)
    requires percent != 50 && word == Strength(Offset(percent))
    requires side == if percent > 50 then highSide else lowSide
    ensures Direction(percent, highSide, lowSide) == word + " lean toward " + side
  {
  }

  /** Each strength word followed by " lean toward " and a side, as one phrase. */
  lemma LeanPhrases(side: string)
    ensures "Strong" + " lean toward " + side == "Strong lean toward " + side
    ensures "Moderate" + " lean toward " + side == "Moderate lean toward " + side
    ensures "Slight" + " lean toward " + side == "Slight lean toward " + side
  {
    assert "Strong" + " lean toward " == "Strong lean toward ";
    assert "Moderate" + " lean toward " == "Moderate lean toward ";
    assert "Slight" + " lean toward " == "Slight lean toward ";
  }

  /** The row `calculateResults` builds for an axis with the given totals:
      it carries the axis's caption and meanings, and its lean is the lean of
      its own percentage between its own side names. */
  function Row(axis: Axis, raw: int, count: int): (r: AxisResult)
    requires 0 <= raw <= 4 * count
    ensures r.caption == axis.caption && r.highMeans == axis.highMeans && r.lowMeans == axis.lowMeans
    ensures 0 <= r.percent <= 100
    ensures r.direction == Direction(r.percent, r.highSide, r.lowSide)
  {
    var percent := Percent(raw, count);
    var highSide := SideLabel(axis.caption, true);
    var lowSide := SideLabel(axis.caption, false);
    AxisResult(axis.caption, percent, Direction(percent, highSide, lowSide),
               highSide, lowSide, axis.highMeans, axis.lowMeans)
  }

  /** The results of `calculateResults`: one row per axis, in axis order,
      each with a percentage in [0, 100]. */
  function Scores(bank: Bank, answers: seq<Answer>): (rs: seq<AxisResult>)
    requires |answers| == |bank.questions| && ValidAnswers(answers)
    ensures |rs| == |bank.axes|
    ensures forall k :: 0 <= k < |rs| ==>
      && rs[k].caption == bank.axes[k].caption
      && rs[k].highMeans == bank.axes[k].highMeans
      && rs[k].lowMeans == bank.axes[k].lowMeans
      && 0 <= rs[k].percent <= 100
  {
    seq(|bank.axes|, k requires 0 <= k < |bank.axes| =>
      Row(bank.axes[k], AxisRaw(bank.axes, bank.questions, answers, k),
          AxisCount(bank.axes, bank.questions, answers, k)))
  }

  /** An axis on which no question has been answered scores 0 and leans
      strongly toward its low side. */
  lemma UnansweredAxis(bank: Bank, answers: seq<Answer>, k: int)
    requires |answers| == |bank.questions| && ValidAnswers(answers)
    requires 0 <= k < |bank.axes|
    requires forall j :: 0 <= j < |answers| && answers[j].Some? ==> AxisIndexOf(bank.axes, bank.questions[j].axis) != k
    ensures Scores(bank, answers)[k].percent == 0
    ensures Scores(bank, answers)[k].direction == "Strong lean toward " + Scores(bank, answers)[k].lowSide
  {
    var axes, qs := bank.axes, bank.questions;
    assert forall j :: 0 <= j < |qs| ==> !CountsFor(axes, qs, answers, j, k);
    CountZeroIff(axes, qs, answers, k);
    var raw, count := AxisRaw(axes, qs, answers, k), AxisCount(axes, qs, answers, k);
    assert count == 0 && raw == 0;
    var row := Row(axes[k], raw, count);
    assert Scores(bank, answers)[k] == row;
    assert row.percent == 0;
    ZeroLeansLow(row.percent, row.highSide, row.lowSide);
  }

  /** 0 percent is a strong lean toward the low side. */
  lemma ZeroLeansLow(percent: int, highSide: string, lowSide: string)
    requires percent == 0
    ensures Direction(percent, highSide, lowSide) == "Strong lean toward " + lowSide
  {
  }

  /** Turning question `i` around (its `reverse` flag) and recording `6 - v`
      instead of `v` leaves every result unchanged. */
  lemma ReverseInvariance(bank: Bank, answers: seq<Answer>, i: int)
    requires |answers| == |bank.questions| && ValidAnswers(answers)
    requires 0 <= i < |answers| && answers[i].Some?
    ensures var q := bank.questions[i];
      Scores(bank.(questions := bank.questions[i := q.(reverse := !q.reverse)]),
             answers[i := Some(6 - answers[i].value)])
      == Scores(bank, answers)
  {
    var q := bank.questions[i];
    var qs' := bank.questions[i := q.(reverse := !q.reverse)];
    var ans' := answers[i := Some(6 - answers[i].value)];
    assert ValidAnswer(answers[i]);
    forall k | 0 <= k < |bank.axes|
      ensures AxisCount(bank.axes, qs', ans', k) == AxisCount(bank.axes, bank.questions, answers, k)
      ensures AxisRaw(bank.axes, qs', ans', k) == AxisRaw(bank.axes, bank.questions, answers, k)
    {
      FlippedQuestionSameContribution(q, answers[i].value);
      TallyCongruence(bank.axes, qs', ans', bank.questions, answers, k);
    }
  }

  /** Processing question `i` adds its contribution and one to the totals of
      its own axis, if it was answered, and changes no other axis. */
  lemma TallyStep(axes: seq<Axis>, qs: seq<Question>, ans: seq<Answer>, i: int)
    requires 0 <= i < |qs| == |ans| && ValidAnswers(ans)
    ensures forall k ::
      && AxisCount(axes, qs[..i + 1], ans[..i + 1], k) == AxisCount(axes, qs[..i], ans[..i], k)
           + (if ans[i].Some? && AxisIndexOf(axes, qs[i].axis) == k then 1 else 0)
      && AxisRaw(axes, qs[..i + 1], ans[..i + 1], k) == AxisRaw(axes, qs[..i], ans[..i], k)
           + (if ans[i].Some? && AxisIndexOf(axes, qs[i].axis) == k then Contribution(qs[i], ans[i].value) else 0)
  {
    var q1, a1 := qs[..i + 1], ans[..i + 1];
    assert q1[..i] == qs[..i] && a1[..i] == ans[..i];
    assert q1[i] == qs[i] && a1[i] == ans[i];
  }

  /** `calculateResults`: one pass over the questions adding each answered
      question's contribution to its axis, then one row per axis. */
  method CalculateResults(bank: Bank, answers: seq<Answer>) returns (results: seq<AxisResult>)
    requires AxesResolved(bank)
    requires |answers| == |bank.questions| && ValidAnswers(answers)
    ensures results == Scores(bank, answers)
  {
    var axes, qs := bank.axes, bank.questions;
    var raws := seq(|axes|, _ => 0);
    var counts := seq(|axes|, _ => 0);
    var i := 0;
    while i < |qs|
      invariant 0 <= i <= |qs|
      invariant |raws| == |counts| == |axes|
      invariant forall k :: 0 <= k < |axes| ==>
        raws[k] == AxisRaw(axes, qs[..i], answers[..i], k) && counts[k] == AxisCount(axes, qs[..i], answers[..i], k)
    {
      var answer := answers[i];
      if answer.Some? {
        var n := answer.value - 1;
        if qs[i].reverse {
          n := 4 - n;
        }
        var target := AxisIndexOf(axes, qs[i].axis);
        raws := raws[target := raws[target] + n];
        counts := counts[target := counts[target] + 1];
      }
      TallyStep(axes, qs, answers, i);
      i := i + 1;
    }
    assert qs[..i] == qs && answers[..i] == answers;
    results := seq(|axes|, k requires 0 <= k < |axes| => Row(axes[k], raws[k], counts[k]));
  }
}
