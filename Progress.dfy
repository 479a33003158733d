/** The persisted progress snapshot: what `saveProgress` writes under the
    storage key, and how `loadProgress` validates and sanitises what it reads back.
    Stored JSON is modelled by the shapes that matter to the loader. */
module Progress {
  import opened QuizData

  /** A stored answer slot. `Num(n)` is any stored value whose `Number(v)` is
      the integer `n`; `Other` is any non-null value whose `Number(v)` is not an
      integer (NaN, a fraction, ...). */
  datatype StoredSlot = Null | Num(n: int) | Other

  /** The stored `answers` member: an array of slots, or anything else. */
  datatype StoredList = NotAList | List(slots: seq<StoredSlot>)

  /** The stored `currentIndex` member: an integer, or anything else (missing included). */
  datatype StoredIndex = Integer(i: int) | NotInteger

  /** The item under the storage key: text that does not parse to an object
      (including the empty string and `null`), or a parsed snapshot. */
  datatype Blob = Unparsable | Snapshot(answers: StoredList, currentIndex: StoredIndex)

  /** One slot as `loadProgress` re-validates it: only integers 1..5 survive. */
  function SanitizeSlot(v: StoredSlot): (r: Answer)
    ensures ValidAnswer(r)
    ensures r.Some? <==> v.Num? && 1 <= v.n <= 5
    ensures r.Some? ==> r.value == v.n
  {
    match v
    case Null => None
    case Num(n) => if 1 <= n <= 5 then Some(n) else None
    case Other => None
  }

  /** The whole stored answer array, slot by slot. */
  function Sanitize(slots: seq<StoredSlot>): (r: seq<Answer>)
    ensures |r| == |slots| && ValidAnswers(r)
  {
    seq(|slots|, i requires 0 <= i < |slots| => SanitizeSlot(slots[i]))
  }

  /** The stored cursor as `loadProgress` restores it into `[0, n-1]`. */
  function ClampCursor(c: StoredIndex, n: nat): (r: int)
    requires n > 0
    ensures 0 <= r < n
    ensures c.NotInteger? ==> r == 0
    ensures c.Integer? && c.i < 0 ==> r == 0
    ensures c.Integer? && 0 <= c.i < n ==> r == c.i
    ensures c.Integer? && n <= c.i ==> r == n - 1
  {
    match c
    case NotInteger => 0
    case Integer(i) => if i < 0 then 0 else if i > n - 1 then n - 1 else i
  }

  /** A stored item is used at all only when it parses, its `answers` is an
      array, and that array has one slot per question. */
  predicate Usable(stored: Option<Blob>, n: nat) {
    && stored.Some?
    && stored.value.Snapshot?
    && stored.value.answers.List?
    && |stored.value.answers.slots| == n
  }

  /** `state.answers.some((v) => v !== null)`. */
  predicate HasAnyAnswer(answers: seq<Answer>) {
    exists i :: 0 <= i < |answers| && answers[i].Some?
  }

  /** `answers.findIndex((v) => v === null)`: the first unanswered slot, or -1. */
  function FindUnanswered(answers: seq<Answer>): (r: int)
    ensures -1 <= r < |answers|
    ensures r == -1 <==> forall i :: 0 <= i < |answers| ==> answers[i].Some?
    ensures r >= 0 ==> answers[r].None? && forall i :: 0 <= i < r ==> answers[i].Some?
  {
    if |answers| == 0 then -1
    else if answers[0].None? then 0
    else
      var k := FindUnanswered(answers[1..]);
      if k == -1 then -1 else k + 1
  }

  /** `firstUnansweredIndex`: the first unanswered slot, or the last slot when every one is answered. */
  function FirstUnansweredIndex(answers: seq<Answer>): (r: int)
    requires |answers| > 0
    ensures 0 <= r < |answers|
    ensures (exists i :: 0 <= i < |answers| && answers[i].None?) ==>
      answers[r].None? && forall i :: 0 <= i < r ==> answers[i].Some?
    ensures (forall i :: 0 <= i < |answers| ==> answers[i].Some?) ==> r == |answers| - 1
  {
    var idx := FindUnanswered(answers);
    if idx == -1 then |answers| - 1 else idx
  }

  /** `JSON.stringify` of one slot as `saveProgress` writes it; the loader
      restores every valid slot from it unchanged. */
  function EncodeSlot(a: Answer): (v: StoredSlot)
    ensures ValidAnswer(a) ==> SanitizeSlot(v) == a
  {
    match a
    case None => Null
    case Some(v) => Num(v)
  }

  /** The snapshot `saveProgress` writes for a state: always usable by the
      loader for the same number of questions, with a cursor that survives
      clamping whenever it is on a question. */
  function Encode(answers: seq<Answer>, cursor: int): (b: Blob)
    ensures Usable(Some(b), |answers|)
    ensures 0 <= cursor < |answers| ==> ClampCursor(b.currentIndex, |answers|) == cursor
  {
    Snapshot(List(seq(|answers|, i requires 0 <= i < |answers| => EncodeSlot(answers[i]))), Integer(cursor))
  }

  /** What a snapshot written by `saveProgress` restores to: exactly the state
      that was saved, for every valid state. */
  lemma {:induction false} SaveThenLoad(answers: seq<Answer>, cursor: int)
    requires |answers| > 0 && ValidAnswers(answers) && 0 <= cursor < |answers|
    ensures Usable(Some(Encode(answers, cursor)), |answers|)
    ensures Sanitize(Encode(answers, cursor).answers.slots) == answers
    ensures ClampCursor(Encode(answers, cursor).currentIndex, |answers|) == cursor
  {
    var slots := Encode(answers, cursor).answers.slots;
    forall i | 0 <= i < |answers|
      ensures Sanitize(slots)[i] == answers[i]
    {
      assert ValidAnswer(answers[i]);
    }
  }

  /** Sanitising a stored array keeps what it can: a stored array with one
      integer in range and junk elsewhere restores that integer only. */
  lemma SanitizeExample()
    ensures Sanitize([Num(7), Num(-1), Other, Num(3), Null]) == [None, None, None, Some(3), None]
  {
  }
}
