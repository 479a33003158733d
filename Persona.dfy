/** `generatePersona`: rank the axis results by distance from the midpoint
    with a stable sort, and name the persona after the two highest-ranked axes. */
module Persona {
  import opened Text
  import opened Scoring

  datatype PersonaResult = PersonaResult(name: string, summary: string)

  /** `Math.abs(r.percent - 50)`. */
  function Distance(r: AxisResult): nat {
    Offset(r.percent)
  }

  /** The order a stable sort by descending distance leaves the rows in: row
      `a` precedes row `b` when it is farther from the midpoint, or as far and
      earlier in the input. */
  predicate Before(rs: seq<AxisResult>, a: int, b: int)
    requires 0 <= a < |rs| && 0 <= b < |rs|
  {
    Distance(rs[a]) > Distance(rs[b]) || (Distance(rs[a]) == Distance(rs[b]) && a < b)
  }

  /** `s` lists row indices, each preceding the next in the ranking order. */
  predicate Ranked(rs: seq<AxisResult>, s: seq<int>) {
    && (forall i :: 0 <= i < |s| ==> 0 <= s[i] < |rs|)
    && (forall i, j :: 0 <= i < j < |s| ==> Before(rs, s[i], s[j]))
  }

  /** One insertion step: index `x` goes before the first index it precedes. */
  function Insert(rs: seq<AxisResult>, x: int, s: seq<int>): (r: seq<int>)
    requires 0 <= x < |rs| && Ranked(rs, s) && x !in s
    ensures |r| == |s| + 1
    ensures forall y :: y in r <==> y == x || y in s
    ensures Ranked(rs, r)
    decreases |s|
  {
    if |s| == 0 then [x]
    else if Before(rs, x, s[0]) then [x] + s
    else
      RankedTail(rs, s);
      var t := Insert(rs, x, s[1..]);
      RankedCons(rs, s[0], t);
      [s[0]] + t
  }

  /** The tail of a ranking is a ranking that the head precedes throughout. */
  lemma RankedTail(rs: seq<AxisResult>, s: seq<int>)
    requires Ranked(rs, s) && |s| > 0
    ensures Ranked(rs, s[1..])
    ensures forall y :: y in s[1..] ==> Before(rs, s[0], y)
  {
    forall y | y in s[1..]
      ensures Before(rs, s[0], y)
    {
      var j :| 0 <= j < |s[1..]| && s[1..][j] == y;
      assert s[j + 1] == y;
    }
  }

  /** A row that precedes every index of a ranking can head it. */
  lemma RankedCons(rs: seq<AxisResult>, h: int, t: seq<int>)
    requires 0 <= h < |rs| && Ranked(rs, t)
    requires forall y :: y in t ==> Before(rs, h, y)
    ensures Ranked(rs, [h] + t)
  {
    var r := [h] + t;
    forall i, j | 0 <= i < j < |r|
      ensures Before(rs, r[i], r[j])
    {
      if i == 0 {
        assert r[j] == t[j - 1] && t[j - 1] in t;
      } else {
        assert r[i] == t[i - 1] && r[j] == t[j - 1];
      }
    }
  }

  /** The first `m` row indices, stably sorted by descending distance. */
  function RankPrefix(rs: seq<AxisResult>, m: int): (r: seq<int>)
    requires 0 <= m <= |rs|
    ensures |r| == m
    ensures forall y :: y in r <==> 0 <= y < m
    ensures Ranked(rs, r)
  {
    if m == 0 then [] else Insert(rs, m - 1, RankPrefix(rs, m - 1))
  }

  /** `results.map(...).sort((a, b) => b.distance - a.distance)`, as row indices. */
  function Rank(rs: seq<AxisResult>): (r: seq<int>)
    ensures |r| == |rs|
    ensures forall y :: y in r <==> 0 <= y < |rs|
    ensures Ranked(rs, r)
  {
    RankPrefix(rs, |rs|)
  }

  /** Row `p` precedes every other row: it is farthest from the midpoint, and
      the earliest of the rows that are as far. */
  predicate IsTop(rs: seq<AxisResult>, p: int) {
    0 <= p < |rs| && forall j :: 0 <= j < |rs| && j != p ==> Before(rs, p, j)
  }

  /** `ranked[0]`, the primary axis. */
  function PrimaryIndex(rs: seq<AxisResult>): (p: int)
    requires |rs| > 0
    ensures IsTop(rs, p)
  {
    var r := Rank(rs);
    assert r[0] in r;
    forall j | 0 <= j < |rs| && j != r[0]
      ensures Before(rs, r[0], j)
    {
      assert j in r;
      var k :| 0 <= k < |r| && r[k] == j;
    }
    r[0]
  }

  /** `ranked[1] || ranked[0]`, the secondary axis: the row that precedes all
      but the primary, or the primary itself when there is a single row. */
  function SecondaryIndex(rs: seq<AxisResult>): (s: int)
    requires |rs| > 0
    ensures 0 <= s < |rs|
    ensures |rs| == 1 ==> s == PrimaryIndex(rs)
    ensures |rs| > 1 ==> IsRunnerUp(rs, PrimaryIndex(rs), s)
  {
    var r := Rank(rs);
    if |r| > 1 then
      assert r[1] in r;
      forall j | 0 <= j < |rs| && j != r[1] && j != r[0]
        ensures Before(rs, r[1], j)
      {
        assert j in r;
        var k :| 0 <= k < |r| && r[k] == j;
      }
      r[1]
    else
      r[0]
  }

  /** No two rows precede each other. */
  lemma BeforeAsymmetric(rs: seq<AxisResult>, a: int, b: int)
    requires 0 <= a < |rs| && 0 <= b < |rs|
    ensures Before(rs, a, b) ==> !Before(rs, b, a)
  {
  }

  /** Two rows that both precede all others are the same row. */
  lemma TopIsUnique(rs: seq<AxisResult>, p: int, q: int)
    requires IsTop(rs, p) && IsTop(rs, q)
    ensures p == q
  {
    BeforeAsymmetric(rs, p, q);
  }

  /** Row `s` precedes every row other than itself and `p`. */
  predicate IsRunnerUp(rs: seq<AxisResult>, p: int, s: int) {
    0 <= s < |rs| && s != p && forall j :: 0 <= j < |rs| && j != s && j != p ==> Before(rs, s, j)
  }

  /** Given the top row, the row that precedes all the rest is unique. */
  lemma RunnerUpIsUnique(rs: seq<AxisResult>, p: int, s: int, t: int)
    requires IsRunnerUp(rs, p, s) && IsRunnerUp(rs, p, t)
    ensures s == t
  {
    BeforeAsymmetric(rs, s, t);
  }

  /** The archetype lookup, tried in order: a caption fragment, then the
      archetype for a high score and the one for a low score. */
  const Archetypes: seq<(string, string, string)> := [
    ("Order vs Civil Liberties", "Orderkeeper", "Liberty Guard"),
    ("Institutional Trust", "Institutionalist", "Skeptic"),
    ("Economic Role of Government", "Public Steward", "Market Advocate"),
    ("Pluralism vs Majoritarianism", "Majoritarian", "Pluralist"),
    ("National Identity vs Cosmopolitanism", "National Traditionalist", "Civic Cosmopolitan"),
    ("Populism", "Populist Challenger", "Technocratic Gradualist"),
    ("Social & Cultural Traditionalism", "Cultural Traditionalist", "Social Liberal"),
    ("Group Hierarchy vs Egalitarianism", "Hierarchy Realist", "Equality Advocate")
  ]

  /** The first entry of `table` whose fragment occurs in `caption` decides the
      archetype; with none, the generic leaner. */
  function Lookup(table: seq<(string, string, string)>, caption: string, high: bool): (name: string)
    ensures forall i :: (0 <= i < |table| && Contains(caption, table[i].0)
      && (forall j :: 0 <= j < i ==> !Contains(caption, table[j].0))) ==>
      name == if high then table[i].1 else table[i].2
    ensures (forall i :: 0 <= i < |table| ==> !Contains(caption, table[i].0)) ==>
      name == if high then "High-Side Leaner" else "Low-Side Leaner"
  {
    if |table| == 0 then
      if high then "High-Side Leaner" else "Low-Side Leaner"
    else if Contains(caption, table[0].0) then
      if high then table[0].1 else table[0].2
    else
      var name := Lookup(table[1..], caption, high);
      assert forall i :: 1 <= i < |table| ==> table[1..][i - 1] == table[i];
      name
  }

  /** `archetypeFromRow(row)`: it depends on the row's caption and on whether
      its percentage is at least 50, and on nothing else. */
  function Archetype(row: AxisResult): string {
    Lookup(Archetypes, row.caption, row.percent >= 50)
  }

  /** Row `p` is the primary axis and row `s` the secondary: `p` precedes every
      other row, and `s` precedes every row but `p`, or is `p` when there is
      a single row. */
  predicate Leaders(rs: seq<AxisResult>, p: int, s: int) {
    && IsTop(rs, p)
    && (|rs| == 1 ==> s == p)
    && (|rs| > 1 ==> IsRunnerUp(rs, p, s))
  }

  /** `generatePersona(results)`: named and summarised after the row farthest
      from the midpoint (the earliest such row on ties) and the row that
      precedes all remaining rows; with a single row, after that row twice. */
  function GeneratePersona(results: seq<AxisResult>): (persona: PersonaResult)
    requires |results| > 0
    ensures forall p, s :: Leaders(results, p, s) ==>
      && persona.name == Archetype(results[p]) + " / " + Archetype(results[s])
      && persona.summary ==
           "Strongest tilt: " + results[p].direction + ". Secondary tilt: " + results[s].direction + "."
  {
    var p0, s0 := PrimaryIndex(results), SecondaryIndex(results);
    assert forall p, s :: Leaders(results, p, s) ==> p == p0 && s == s0 by {
      forall p, s | Leaders(results, p, s)
        ensures p == p0 && s == s0
      {
        TopIsUnique(results, p, p0);
        if |results| > 1 {
          RunnerUpIsUnique(results, p, s, s0);
        }
      }
    }
    var primary := results[p0];
    var secondary := results[s0];
    PersonaResult(
      Archetype(primary) + " / " + Archetype(secondary),
      "Strongest tilt: " + primary.direction + ". Secondary tilt: " + secondary.direction + ".")
  }

  /** Rows with the same caption on the same side of 50 get the same archetype. */
  lemma ArchetypeBySide(a: AxisResult, b: AxisResult)
    requires a.caption == b.caption && (a.percent >= 50 <==> b.percent >= 50)
    ensures Archetype(a) == Archetype(b)
  {
  }
}
