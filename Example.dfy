/** A worked example: one axis "Order vs Civil Liberties", a plain and a
    reversed question on it, answered 5 and 1. */
module Example {
  import opened Text
  import opened QuizData
  import opened Scoring
  import opened Persona

  const OrderAxis := Axis("order", "Order vs Civil Liberties", "Order first", "Liberties first")

  const TwoQuestions := Bank(
    [LikertOption(1, "Strongly disagree"), LikertOption(2, "Disagree"), LikertOption(3, "Neutral"),
     LikertOption(4, "Agree"), LikertOption(5, "Strongly agree")],
    [OrderAxis],
    [Question("q1", "order", false), Question("q2", "order", true)])

  /** An occurrence matches the fragment character by character. */
  lemma OccursAtChar(s: string, sub: string, i: int, k: int)
    requires OccursAt(s, sub, i) && 0 <= k < |sub|
    ensures s[i + k] == sub[k]
  {
    assert s[i..i + |sub|][k] == s[i + k];
  }

  lemma CaptionParts()
    ensures "Order" + " vs " + "Civil Liberties" == OrderAxis.caption
  {
  }

  /** Neither half of the caption holds the separator. */
  lemma HalvesWithoutSeparator()
    ensures forall j :: 0 <= j < |"Order"| ==> !OccursAt("Order" + " vs ", " vs ", j)
    ensures !Contains("Civil Liberties", " vs ")
  {
    var a, b := "Order", "Civil Liberties";
    forall j | 0 <= j < |a| ensures !OccursAt(a + " vs ", " vs ", j) {
      if OccursAt(a + " vs ", " vs ", j) {
        OccursAtChar(a + " vs ", " vs ", j, 0);
        OccursAtChar(a + " vs ", " vs ", j, 1);
      }
    }
    forall i | 0 <= i <= |b| ensures !OccursAt(b, " vs ", i) {
      if OccursAt(b, " vs ", i) {
        OccursAtChar(b, " vs ", i, 0);
        OccursAtChar(b, " vs ", i, 1);
      }
    }
  }

  /** The caption splits into its two halves, trimmed. */
  lemma OrderHalves(caption: string, a: string, b: string)
    requires a == "Order" && b == "Civil Liberties" && caption == OrderAxis.caption
    ensures SideLabel(caption, true) == Trim(a)
    ensures SideLabel(caption, false) == Trim(b)
  {
    CaptionParts();
    HalvesWithoutSeparator();
    assert caption == a + " vs " + b;
    SideLabelsOfPair(a, b);
  }

  /** Neither half has whitespace to trim. */
  lemma HalvesTrimmed(a: string, b: string)
    requires a == "Order" && b == "Civil Liberties"
    ensures Trim(a) == a && Trim(b) == b
  {
    TrimOfTrimmed(a);
    TrimOfTrimmed(b);
  }

  /** The sides of the axis are "Order" and "Civil Liberties". */
  lemma OrderSides(caption: string, a: string, b: string)
    requires a == "Order" && b == "Civil Liberties" && caption == OrderAxis.caption
    ensures SideLabel(caption, true) == a
    ensures SideLabel(caption, false) == b
  {
    OrderHalves(caption, a, b);
    HalvesTrimmed(a, b);
  }

  /** Both questions count for the one axis: count 2, raw 4 + 4 = 8. */
  lemma Totals(bank: Bank, answers: seq<Answer>)
    requires bank == TwoQuestions && answers == [Some(5), Some(1)]
    ensures ValidAnswers(answers)
    ensures AxisCount(bank.axes, bank.questions, answers, 0) == 2
    ensures AxisRaw(bank.axes, bank.questions, answers, 0) == 8
  {
    var axes, qs := bank.axes, bank.questions;
    assert AxisIndexOf(axes, "order") == 0;
    assert qs[..1] == [qs[0]] && answers[..1] == [answers[0]];
  }

  /** The row for raw 8 out of 8: 100 percent, a strong lean toward Order. */
  lemma FullRow(axis: Axis, raw: int, count: int)
    requires axis == OrderAxis && raw == 8 && count == 2
    ensures Row(axis, raw, count).percent == 100
    ensures Row(axis, raw, count).direction == "Strong lean toward Order"
    ensures Row(axis, raw, count).caption == OrderAxis.caption
  {
    FullPercent(raw, count);
    OrderSides(axis.caption, "Order", "Civil Liberties");
    StrongLean(Percent(raw, count), SideLabel(axis.caption, true), SideLabel(axis.caption, false));
  }

  /** 8 points out of a possible 8 round to 100 percent. */
  lemma FullPercent(raw: int, count: int)
    requires raw == 8 && count == 2
    ensures Percent(raw, count) == 100
  {
  }

  /** 100 percent is a strong lean toward the high side. */
  lemma StrongLean(p: int, highSide: string, lowSide: string)
    requires p == 100 && highSide == "Order"
    ensures Direction(p, highSide, lowSide) == "Strong lean toward Order"
  {
  }

  /** A high score on the order axis is the Orderkeeper archetype. */
  lemma Orderkeeper(row: AxisResult)
    requires row.caption == OrderAxis.caption && row.percent >= 50
    ensures Archetype(row) == "Orderkeeper"
  {
    assert OccursAt(row.caption, Archetypes[0].0, 0);
  }

  /** With a single row, that row names both halves of the persona. */
  lemma SingleRowPersona(rs: seq<AxisResult>)
    requires |rs| == 1 && rs[0].caption == OrderAxis.caption && rs[0].percent >= 50
    ensures GeneratePersona(rs).name == "Orderkeeper / Orderkeeper"
  {
    var name := Archetype(rs[0]);
    Orderkeeper(rs[0]);
    NamedTwice(rs, name);
    Doubled(name);
  }

  /** The persona name of an Orderkeeper on both axes. */
  lemma Doubled(name: string)
    requires name == "Orderkeeper"
    ensures name + " / " + name == "Orderkeeper / Orderkeeper"
  {
  }

  /** A single row with archetype `name` gives the persona "name / name". */
  lemma NamedTwice(rs: seq<AxisResult>, name: string)
    requires |rs| == 1 && Archetype(rs[0]) == name
    ensures GeneratePersona(rs).name == name + " / " + name
  {
    assert Leaders(rs, 0, 0);
  }

  /** Raw 8 out of 8 gives 100 percent, a strong lean toward Order, and the
      single axis names both halves of the persona. */
  lemma EndToEnd(bank: Bank, answers: seq<Answer>)
    requires bank == TwoQuestions && answers == [Some(5), Some(1)]
    ensures ValidAnswers(answers) && |Scores(bank, answers)| == 1
    ensures Scores(bank, answers)[0].percent == 100
    ensures Scores(bank, answers)[0].direction == "Strong lean toward Order"
    ensures GeneratePersona(Scores(bank, answers)).name == "Orderkeeper / Orderkeeper"
  {
    Totals(bank, answers);
    var rs := Scores(bank, answers);
    var raw, count := AxisRaw(bank.axes, bank.questions, answers, 0), AxisCount(bank.axes, bank.questions, answers, 0);
    assert rs[0] == Row(bank.axes[0], raw, count);
    FullRow(bank.axes[0], raw, count);
    SingleRowPersona(rs);
  }
}
