# SM-2 card scheduler

A model of the scheduling core of a small flash-card server (`server.js`). A
card row carries `repetitions`, `ease_factor`, `interval_days` and
`last_reviewed`. Reviewing a card with a quality from 0 to 5 applies a
simplified SuperMemo SM-2 step and writes the result back with today's date;
fetching the review set returns, read-only, at most ten cards whose last review
plus interval has been reached, oldest review first; creating a card refuses
missing or empty text.

Modules:

- `Wrappers` (`wrappers.dfy`): `Option` and `Result`.
- `Sm2` (`sm2.dfy`): the review step as a pure function `Next` over a
  `Schedule` value, with the ease floor, reset on failure, interval growth,
  monotonicity in the rating, and the invariant kept by every run of reviews.
- `DueSet` (`due_set.dfy`): the due-set query as filter, sort and take over a
  sequence of `CardRow` values, dates being whole day numbers.
- `Cards` (`cards.dfy`): the table as a class `Deck` holding `Card` objects
  whose scheduling fields are updated in place, and the three handlers with
  their guards. `Card.Review` is the imperative body of the review handler,
  proved against `Sm2.Next`.

The ease factor is an exact `real`, and `Math.round(x)` is `floor(x + 1/2)`.
The date the database calls `CURRENT_DATE` is a parameter `today`.

Points where the code behaves differently from what a reader of standard SM-2
or of the handlers' own comments might expect; the model follows the code:

- A card whose `last_reviewed` is NULL fails the SQL comparison and is never
  due (`DueSet.NeverReviewedNeverSelected`), so a card that has never been
  reviewed is never offered for review, rather than being offered first.
- The query has no secondary sort key, so only a non-decreasing order of
  `last_reviewed` is promised; cards reviewed on the same day come in no
  particular order, not by id.
- A JSON `null` quality passes the guard: `null < 0` and `null > 5` are both
  false, and `null < 3` is true, so it acts as rating 0
  (`Cards.AcceptedQuality`), although the guard is commented as accepting only
  a number from 0 to 5.
- The ease floor of 1.3 is applied only on success, so a card starting below
  it keeps its ease through failures (`Sm2.FailureKeepsLowEase`), and an
  interval of at least one day is guaranteed only from consistent states
  (`Sm2.Consistent`), which include every card starting at zero repetitions.

## Model

| member | source | states |
|---|---|---|
| `Sm2.Round` | server.js:125 | `Math.round`: the result is the integer within half a unit of x, halves rounded up |
| `Sm2.NextEase` | server.js:116-117 | the new ease is max(1.3, ease + delta): at least both, equal to ease + delta when that is not below 1.3, and exactly 1.3 otherwise |
| `Sm2.EaseDeltaValues` | server.js:116 | the SM-2 adjustment is +0.1 for rating 5, 0 for 4 and -0.14 for 3 |
| `Sm2.Next` | server.js:103-128 | a rating below 3 resets to (0, same ease, 1 day); a rating of 3 or more adds exactly one repetition and leaves the ease at or above 1.3; the body picks the interval from the repetition count before the increment (0 gives 1, 1 gives 6, otherwise the rounded product), whose properties are the interval lemmas below |
| `Sm2.FailureIdempotent` | server.js:110-112 | two failed reviews in a row give the same state as one |
| `Sm2.FailureKeepsLowEase` | server.js:110-117 | a failed review keeps an ease below 1.3 unchanged: the floor is applied only on success |
| `Sm2.EaseFloorPreserved` | server.js:110-117 | an ease at or above 1.3 stays there after any review |
| `Sm2.EaseMonotoneInQuality` | server.js:116-117 | among ratings 3 to 5, a higher rating never gives a lower ease |
| `Sm2.GrownMonotone` | server.js:125 | for a non-negative interval, a larger ease never gives a shorter rounded product |
| `Sm2.GrownAtLeast` | server.js:117-125 | with an ease of at least 1.3 the rounded product is at least the interval, and larger when the interval is two days or more |
| `Sm2.IntervalGrowth` | server.js:116-126 | a success with at least two prior repetitions never shortens a non-negative interval, and lengthens one of two days or more |
| `Sm2.IntervalMonotoneInQuality` | server.js:110-127 | for a consistent card, a higher rating never gives a shorter interval, failures included |
| `Sm2.NextKeepsConsistent` | server.js:110-127 | one review keeps "repetitions >= 0, and >= 1 implies interval >= 1" and leaves an interval of at least one day |
| `Sm2.ReplayKeepsConsistent` | server.js:103-139 | every run of reviews from a consistent state (such as zero repetitions) stays consistent, ends with an interval of at least one day, and keeps an ease at the floor at or above it |
| `Sm2.WorkedExamples` | server.js:103-128 | (0, 2.5, 0) rated 4, 4, 5 goes to (1, 2.5, 1), (2, 2.5, 6), (3, 2.6, 16); a rating of 1 resets; an ease of 1.3 rated 3 stays floored at 1.3 |
| `DueSet.Due` | server.js:75 | counted with multiplicity, the kept rows are exactly the rows with a last review and last review + interval <= today |
| `DueSet.Insert` | server.js:75 | inserting into an ordered sequence keeps it ordered by last review and adds exactly that row |
| `DueSet.SortByDay` | server.js:75 | the ORDER BY result is ordered by last review, oldest first, and is a permutation of its input |
| `DueSet.SelectDue` | server.js:75 | every returned row is due and comes from the table, the result is ordered by last review and is a sub-multiset of the table, and its length is min(10, number of due rows) |
| `DueSet.SelectDueKeepsOldest` | server.js:75 | a due row left out (more copies due than returned) is left out only when ten rows are returned, and no returned row was reviewed later than it |
| `DueSet.CutOffNoEarlier` | server.js:75 | in an ordered sequence, an element beyond the first k is no earlier than any of the first k |
| `DueSet.NeverReviewedNeverSelected` | server.js:75 | a row whose last review is NULL is never returned |
| `DueSet.DueExample` | server.js:75 | on day 100, of a never-reviewed card, one reviewed on day 95 with 3 days and one reviewed on day 99 with 10 days, only the second is returned |
| `Cards.AcceptedQuality` | server.js:91-93 | a missing quality or a number outside 0 to 5 is refused; an accepted number is kept as is and is within 0 to 5; a JSON null is accepted and read as rating 0, a failing rating |
| `Cards.Find` | server.js:97-101 | the position found holds the card with that id; none is found exactly when no card has that id |
| `Cards.Card.Review` | server.js:103-139 | the card's scheduling columns become `Sm2.Next` of the old ones and `last_reviewed` becomes today; id, front and back are constants |
| `Cards.Deck.AddCard` | server.js:47-60 | missing or empty front or back is refused with the table unchanged; otherwise exactly one fresh row with that text and a new id is appended |
| `Cards.Deck.Review` | server.js:86-139 | an unacceptable quality is refused exactly when the guard says so, an unknown id gives not-found, both leave every row unchanged; otherwise only the card with that id takes the next SM-2 state and today's date |
| `Cards.Deck.FetchDue` | server.js:69-77 | the result is `DueSet.SelectDue` of the current rows, and no card is modified |

## Left out

- HTTP plumbing: Express setup, middleware, static files, the `/` route, `app.listen`, status codes, JSON bodies and error logging (server.js:1-41, server.js:152-154); the handlers return an outcome value instead.
- The PostgreSQL pool and its SSL configuration, and database failures: the table is an in-memory object and every query succeeds.
- Floating point: the ease factor is an exact real, so `parseFloat` of the numeric column and rounding artefacts of doubles are not modelled.
- Concurrency: the read-modify-write between the SELECT and the UPDATE of a review is atomic in the model; concurrent reviews of one card are not modelled.
- Schema defaults: the column defaults of a new row are not visible, so `Cards.Deck.AddCard` takes the initial schedule and `last_reviewed` as parameters, and ids are unique by a serial counter (`Cards.Deck.Valid`) rather than by a primary-key constraint.
- NULL scheduling columns: `repetitions`, `ease_factor` and `interval_days` are always present in the model.
- Cards.AcceptedQuality: only a missing field, JSON null and integers are modelled; non-integer numbers, strings and other JSON values that JavaScript's loose comparisons would let through are not.
- Cards.Deck.AddCard: only a missing field and a string are modelled for front and back; other JSON values (false, 0, objects) that JavaScript's truthiness test treats differently are not.
- The browser client (public/js/app.js): DOM updates, fetch calls, timers and the client-side review list are user-interface code.
