# politicalc quiz core, modelled in Dafny

politicalc is a browser quiz. The user answers a bank of statements on a
five-point Likert scale. Each statement belongs to an ideological axis and
may be reverse-scored. This project models the logic of `app.js` behind the
pages:

- the session state (the answer slots and the current question);
- saving that state to local storage and restoring it;
- the navigation handlers (Start, Resume, Start over, Back, Next, Edit,
  Back from the review list, Show results, Retake);
- per-axis scoring into a percentage and a qualitative lean;
- the side names taken from an axis caption "<high> vs <low>";
- the persona built from the two axes farthest from the midpoint.

Modules, one file each:

- `Text`: JavaScript's `trim`, `includes`, `indexOf` and `split` on strings.
- `QuizData`: the question bank, answer slots, and the `axisIndex` lookup.
- `Progress`: the stored snapshot; what `saveProgress` writes and how
  `loadProgress` validates and sanitises it.
- `Scoring`: `calculateResults` and `getAxisSideLabel`. `calculateResults`
  is a method with the source's accumulation loop, proved equal to the
  specification function `Scores`.
- `Persona`: `generatePersona`. The stable sort is modelled as an insertion
  sort on row indices under the order "farther from 50 first, earlier row
  first on ties", which is the order a stable descending sort produces.
- `Session`: the class `QuizSession`. Its fields are the state the handlers
  update in place (`answers`, `cursor`) and the item in local storage
  (`stored`).
- `Example`: a worked bank with one axis and two questions, scored end to end.

Design decisions:

- Stored JSON is modelled by the shapes the loader tells apart. A slot is
  `Null`, `Num(n)` or `Other`:
  - `Num(n)` is any value whose `Number(v)` coercion is the integer `n`;
  - `Other` is any value whose coercion is not an integer.

  The stored item is either `Unparsable` or a `Snapshot` whose `answers` may
  not be an array and whose `currentIndex` may not be an integer. The empty
  string, `null`, text that is not JSON, and JSON without an `answers`
  member all end in the same `return false`, so they share one case.
- `Math.round(raw / (4 * count) * 100)` is computed in exact arithmetic as
  `(50 * raw + count) / (2 * count)`: the integer nearest to
  `25 * raw / count`, halves rounded up.
- `axisIndex[id]` is the last axis with that id, because later assignments
  overwrite earlier ones.

## Model

| member | source | states |
|---|---|---|
| QuizData.AxisIndexOf | app.js:197-200 | the index recorded for an id is the last axis carrying it; -1 exactly when no axis carries it |
| QuizData.AxesResolved | app.js:211 | every question names an axis of the bank, so `axes[axisIndex[question.axis]]` exists (a predicate: the definition is the statement) |
| QuizData.WellFormedHasAxes | app.js:197-214 | a bank whose questions all resolve to an axis has at least one axis, so the results list is not empty |
| Progress.SanitizeSlot | app.js:78-82 | a stored slot restores to an answer exactly when it coerces to an integer from 1 to 5, and then to that integer |
| Progress.Sanitize | app.js:78-82 | the restored array has one valid slot per stored slot |
| Progress.SanitizeExample | app.js:78-82 | out-of-range integers, non-integers and nulls become unanswered; an in-range integer survives |
| Progress.ClampCursor | app.js:84-86 | the restored cursor is in `[0, n-1]`: 0 for a non-integer or negative index, `n-1` above the range, the stored index inside it |
| Progress.Usable | app.js:68-76 | a stored item is used only when it parses, its `answers` is an array, and that array has one slot per question (a predicate: the definition is the statement) |
| Progress.HasAnyAnswer | app.js:88 | `some((v) => v !== null)`: some slot is answered (a predicate) |
| Progress.FindUnanswered | app.js:101 | `findIndex` over null slots: -1 exactly when every slot is answered, otherwise the first unanswered slot |
| Progress.FirstUnansweredIndex | app.js:100-103 | the first unanswered slot when there is one, the last slot when all are answered; always a valid index |
| Progress.EncodeSlot | app.js:59-63 | a slot written by `saveProgress` restores unchanged through the loader's per-slot check whenever it is a valid answer |
| Progress.Encode | app.js:58-64 | the snapshot written for a state is always usable by the loader for the same number of questions, and a cursor on a question survives clamping |
| Progress.SaveThenLoad | app.js:58-92 | a snapshot written by `saveProgress` for a valid state passes every check of `loadProgress` and restores exactly that state |
| Session.Unanswered | app.js:95 | `new Array(n).fill(null)` has n slots and no answer |
| Session.AllAnswered | app.js:494 | `!answers.includes(null)`: every slot is answered (a predicate) |
| Session.NoAnswerIsUnanswered | app.js:448-451 | a state without any answer is already the cleared state, so clearing it changes no slot |
| Session.QuizSession.constructor | app.js:521-523 | after loading the bank, every slot is unanswered and the cursor is 0; storage is whatever the browser holds |
| Session.QuizSession.SaveProgress | app.js:58-64 | storage then holds the snapshot of the current answers and cursor; the state is unchanged |
| Session.QuizSession.LoadProgress | app.js:66-92 | an unusable item leaves the state alone and reports false; a usable one restores the sanitised answers and clamped cursor and reports whether any answer is present |
| Session.QuizSession.ClearProgress | app.js:94-98 | all slots unanswered, cursor 0, storage item removed |
| Session.QuizSession.StartOver | app.js:457-462 | a confirmed start-over clears the progress; a declined one changes nothing |
| Session.QuizSession.Choose | app.js:124-127 | the chosen option's value is recorded in the current slot only, and the new state is saved |
| Session.QuizSession.StartQuiz | app.js:439-443 | the cursor moves to the first unanswered question (the last when all are answered) and the state is saved; this is also the Resume handler (app.js:455) |
| Session.QuizSession.Start | app.js:448-453 | a session without answers is cleared and starts at question 0; otherwise it starts at the first unanswered question; either way it is saved |
| Session.QuizSession.Back | app.js:464-470 | one question back and saved, unless already at the first question, where nothing changes |
| Session.QuizSession.Next | app.js:472-485 | refused exactly on an unanswered question; the review list exactly on the answered last question; otherwise one question forward and saved |
| Session.QuizSession.EditQuestion | app.js:164-167 | the cursor moves to the chosen question and the state is saved |
| Session.QuizSession.ReviewBack | app.js:487-490 | the cursor moves to the first unanswered question; storage is not touched |
| Session.QuizSession.ShowResults | app.js:492-500 | with any slot unanswered, the cursor moves to the first one and nothing else changes; otherwise the results are `Scores` of the answers and the persona is generated from them |
| Scoring.Contribution | app.js:206-209 | an answer from 1 to 5 contributes 0 to 4 points |
| Scoring.FlippedQuestionSameContribution | app.js:206-209 | answering `6 - v` to the reversed question contributes what answering `v` does |
| Scoring.AxisCount | app.js:202-214 | an axis's count never exceeds the number of questions processed |
| Scoring.AxisRaw | app.js:202-214 | an axis's raw total is between 0 and 4 points per counted answer |
| Scoring.CountZeroIff | app.js:202-214 | an axis's count is 0 exactly when no answered question is scored on it |
| Scoring.TallyCongruence | app.js:202-214 | the totals of an axis depend on each question only through whether it counts for the axis and what it contributes |
| Scoring.Percent | app.js:217-218 | 0 for an axis with no answers; otherwise the nearest integer to `100 * raw / (4 * count)`, halves up, always within 0..100 |
| Scoring.SideLabel | app.js:179-185 | `getAxisSideLabel`: a side name never starts or ends with whitespace; which name is chosen is stated by the three lemmas below |
| Scoring.SideLabelsOfPair | app.js:179-185 | a caption "a vs b" with a single separator names its high side `trim(a)` and its low side `trim(b)` |
| Scoring.SideLabelsWithoutSeparator | app.js:179-185 | a caption without " vs " gets the sides "High-end position" and "Low-end position" |
| Scoring.SideLabelsOfThreeOrMore | app.js:179-185 | a caption with two separators, such as "A vs B vs C", splits into more than two parts and also gets "High-end position" and "Low-end position" |
| Scoring.Offset | app.js:222 | `Math.abs(percent - 50)`: a non-negative d with percent = 50 + d or 50 - d, and 0 only at 50 |
| Scoring.Strength | app.js:223 | the word is "Strong" exactly from 35 points off, "Moderate" exactly from 20 up to 34, "Slight" exactly below 20 |
| Scoring.Direction | app.js:221-224 | the lean is "Balanced midpoint" at 50 percent and nowhere else |
| Scoring.StrengthOfOffset | app.js:221-224 | away from 50 the lean is Strong from 35 points off, Moderate from 20, Slight below 20, toward the side the percentage is on |
| Scoring.DirectionMirror | app.js:221-224 | mirroring a percentage about 50 while swapping the side names leaves the lean unchanged |
| Scoring.ZeroLeansLow | app.js:221-224 | 0 percent is a strong lean toward the low side |
| Scoring.Row | app.js:216-235 | a row carries its axis's caption and meanings, a percentage in 0..100, and the lean of that percentage between its own side names |
| Scoring.Scores | app.js:216-235 | one row per axis in axis order, carrying that axis's caption and meanings, with a percentage in 0..100 |
| Scoring.UnansweredAxis | app.js:216-224 | an axis on which no question was answered scores 0 and leans strongly toward its low side |
| Scoring.ReverseInvariance | app.js:202-214 | reversing a question while answering it `6 - v` instead of `v` leaves every result unchanged |
| Scoring.CalculateResults | app.js:187-236 | the accumulation loop over the questions yields exactly `Scores` of the bank and the answers |
| Text.TrimStart | app.js:182 | drops the longest whitespace prefix: the result is a suffix of the input starting with a non-whitespace character, or empty |
| Text.TrimEnd | app.js:182 | drops the longest whitespace suffix: the result is a prefix of the input ending with a non-whitespace character, or empty |
| Text.Trim | app.js:182 | `trim` is never longer than its input and neither starts nor ends with whitespace |
| Text.TrimIsCut | app.js:182 | `trim` returns the slice left after cutting whitespace off both ends |
| Text.TrimIdempotent | app.js:182 | trimming twice is trimming once |
| Text.IndexOf | app.js:180 | the first position where the separator occurs; -1 exactly when it does not occur |
| Text.Contains | app.js:248-255 | `includes`: the fragment occurs at some position (a predicate: the definition is the statement) |
| Text.Split | app.js:180 | `split` with a non-empty separator returns at least one part; joining the parts with the separator gives the input back; no part contains the separator |
| Text.SplitFirst | app.js:180 | when the first occurrence of the separator follows `a`, the parts are `a` followed by the parts of the rest |
| Text.SplitAtTwo | app.js:180-181 | a string with two separators, each the first after the text before it, splits into at least three parts |
| Text.SplitInTwo | app.js:180-182 | a string made of two halves around a single separator splits into exactly those two halves |
| Text.SplitAbsent | app.js:180-184 | a string without the separator splits into itself alone |
| Persona.Insert | app.js:239-241 | one insertion step keeps the index list ranked and adds exactly the new index |
| Persona.RankPrefix | app.js:239-241 | the sorted list holds each row index exactly once, ranked by distance descending, with ties in input order |
| Persona.Rank | app.js:239-241 | the sorted list is a permutation of all row indices, ranked by distance descending with ties in input order |
| Persona.PrimaryIndex | app.js:243 | `ranked[0]` is the row farthest from 50, the earliest such row on ties |
| Persona.SecondaryIndex | app.js:244 | `ranked[1] \|\| ranked[0]`: with one row, the primary; otherwise the row that precedes every row but the primary |
| Persona.TopIsUnique | app.js:239-243 | only one row can precede all others |
| Persona.RunnerUpIsUnique | app.js:239-244 | given the top row, only one row can precede all the rest |
| Persona.Lookup | app.js:246-257 | the first caption fragment found decides the archetype (high or low by the side); with none found, the generic leaner |
| Persona.Archetype | app.js:246-257 | `archetypeFromRow`: `Lookup` over the eight caption fragments of app.js:248-255, high when the percentage is at least 50 (its statement is `Lookup`'s contract and `ArchetypeBySide`) |
| Persona.GeneratePersona | app.js:238-263 | for the row that precedes every other (the farthest from 50, the earliest on ties) and the row that precedes every other but that one (or that row again when it is alone), the name is their archetypes joined by " / " and the summary quotes their leans |
| Persona.ArchetypeBySide | app.js:246-257 | the archetype depends only on the caption and on which side of 50 the percentage falls |
| Example.Totals | app.js:202-214 | in the worked bank, answers 5 and then 1 to the reversed question count 2 answers for 8 points |
| Example.FullRow | app.js:216-235 | the worked axis scores 100 percent, "Strong lean toward Order" |
| Example.OrderSides | app.js:179-185 | the caption "Order vs Civil Liberties" has the sides "Order" and "Civil Liberties" |
| Example.Orderkeeper | app.js:248 | a high score on that axis is the Orderkeeper archetype |
| Example.SingleRowPersona | app.js:238-262 | a single high row on that axis makes the persona "Orderkeeper / Orderkeeper" |
| Example.EndToEnd | app.js:187-262 | the worked bank and answers give one row at 100 percent, a strong lean toward Order, and the persona "Orderkeeper / Orderkeeper" |

## Left out

- Rendering and the DOM are not modelled: `showView`, `renderQuestion`, `renderReview`, `renderResults`, the results table and the Chart.js radar chart. `getLikertLabel` only feeds the review list's text, so it is not modelled either.
- The ordering shown in `renderResults` and the results summary text are display only, so they are not modelled.
- `exportResultsPdf` is not modelled. It drives external canvas and PDF libraries.
- `init` is modelled only from the point where the bank is loaded (the constructor). The `fetch`, the JSON parse of the bank, the error view and the Retry button are I/O, so the bank is a parameter.
- Local storage and JSON are abstracted. `JSON.stringify`/`JSON.parse` and `Number()` coercion appear as the `Blob` and `StoredSlot` shapes.
- A failing `setItem` (a full quota, for example) is not modelled. The source does not catch it either, so a save always succeeds here.
- The confirmation dialog of Start over is a parameter (`confirmed`).
- Retake (app.js:502-505) is `ClearProgress` followed by the start view, so it has no member of its own.
- Scoring.Percent: exact rational arithmetic replaces the floating-point `raw / max * 100`. The two can round differently where the floating-point product lands just below a `.5` that is exact in rationals. For example, 29 points over 50 answers is 14.5 exactly (rounded up to 15), but 29 / 200 is not exactly representable in binary floating point.
- Scoring.CalculateResults: requires every question's axis to resolve. In the source, a question naming a missing axis throws a TypeError at `target.raw`.
- Session.QuizSession.ShowResults: requires `Valid()`, which includes a well-formed bank. The source never checks the bank; it assumes every option value is 1..5 and every question names an axis.
- The source does not save on Back from the review list, on Show results redirecting to an unanswered question, or on Next at the last question. The model keeps those state changes unsaved, as the code does.
