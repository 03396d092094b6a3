/**
 * The cards table and the three API handlers of server.js that touch it:
 * POST /api/cards (insert with an empty-text guard), PUT /api/cards/:id/review
 * (quality and not-found guards, then the SM-2 step written back in place) and
 * GET /api/cards/review (the due-set query, read-only).
 */
module Cards {
  import opened Wrappers
  import opened Sm2
  import opened DueSet

  /** The `quality` field of the request body as it can arrive from a JSON client. */
  datatype QualityInput = Absent | Null | Number(n: int)

  /**
   * The guard of the review handler, `quality === undefined || quality < 0 ||
   * quality > 5`, followed by the numeric reading of the rating. A JSON null is
   * compared as 0 by the relational operators, so it passes and is rated 0.
   */
  function AcceptedQuality(input: QualityInput): (q: Option<int>)
    ensures q.Some? ==> InRange(q.value)
    ensures q.None? <==> input.Absent? || (input.Number? && !InRange(input.n))
    ensures input.Number? && q.Some? ==> q.value == input.n
    ensures input.Null? ==> q == Some(0)
  {
    match input
    case Absent => None
    case Null => Some(0)
    case Number(n) => if 0 <= n <= 5 then Some(n) else None
  }

  /** The `!front || !back` test: text that is missing or empty is refused. */
  predicate Present(text: Option<string>) {
    text.Some? && text.value != ""
  }

  datatype CreateError = MissingText
  datatype ReviewOutcome = Updated | InvalidQuality | NotFound

  /** One row of the cards table; only the scheduling columns ever change. */
  class Card {
    const id: int
    const front: string
    const back: string
    var repetitions: int
    var easeFactor: real
    var intervalDays: int
    var lastReviewed: Option<int>

    constructor (id: int, front: string, back: string, init: Schedule, lastReviewed: Option<int>)
      ensures this.id == id && this.front == front && this.back == back
      ensures State() == init && this.lastReviewed == lastReviewed
    {
      this.id, this.front, this.back := id, front, back;
      repetitions, easeFactor, intervalDays := init.repetitions, init.easeFactor, init.intervalDays;
      this.lastReviewed := lastReviewed;
    }

    /** The scheduling columns. */
    function State(): Schedule
      reads this
    {
      Schedule(repetitions, easeFactor, intervalDays)
    }

    /** The whole row as a value. */
    function Row(): CardRow
      reads this
    {
      CardRow(id, front, back, State(), lastReviewed)
    }

    /**
     * The body of the review handler once the card is loaded: copy the columns
     * into locals, apply the SM-2 step, and write them back with the review date.
     */
    method Review(quality: int, today: int)
      requires InRange(quality)
      modifies this
      ensures State() == Next(old(State()), quality)
      ensures lastReviewed == Some(today)
    {
      var newRepetitions := repetitions;
      var newEaseFactor := easeFactor;
      var newIntervalDays := intervalDays;
      if quality < PassingQuality {
        newRepetitions := 0;
        newIntervalDays := 1;
      } else {
        newEaseFactor := newEaseFactor + EaseDelta(quality);
        if newEaseFactor < MinEase {
          newEaseFactor := MinEase;
        }
        if newRepetitions == 0 {
          newIntervalDays := 1;
        } else if newRepetitions == 1 {
          newIntervalDays := 6;
        } else {
          newIntervalDays := Round(newIntervalDays as real * newEaseFactor);
        }
        newRepetitions := newRepetitions + 1;
      }
      lastReviewed := Some(today);
      repetitions, easeFactor, intervalDays := newRepetitions, newEaseFactor, newIntervalDays;
    }
  }

  /** The position of the card with the given id (`WHERE id = $1`), if there is one. */
  function Find(cards: seq<Card>, id: int): (k: Option<nat>)
    ensures k.Some? ==> k.value < |cards| && cards[k.value].id == id
    ensures k.None? <==> forall i :: 0 <= i < |cards| ==> cards[i].id != id
  {
    if cards == [] then None
    else if cards[0].id == id then Some(0)
    else match Find(cards[1..], id)
      case None => None
      case Some(k) => Some(k + 1)
  }

  /** The rows of a list of cards, as values. */
  function RowsOf(cards: seq<Card>): (rows: seq<CardRow>)
    reads set c | c in cards
    ensures |rows| == |cards|
    ensures forall i :: 0 <= i < |cards| ==> rows[i] == cards[i].Row()
  {
    if cards == [] then [] else [cards[0].Row()] + RowsOf(cards[1..])
  }

  /** The cards table. Ids are assigned from a serial counter and are unique. */
  class Deck {
    var cards: seq<Card>
    var nextId: int

    ghost predicate Valid()
      reads this
    {
      && (forall i, j :: 0 <= i < j < |cards| ==> cards[i].id != cards[j].id)
      && (forall i :: 0 <= i < |cards| ==> cards[i].id < nextId)
    }

    constructor ()
      ensures Valid() && cards == []
    {
      cards, nextId := [], 1;
    }

    /**
     * POST /api/cards. Missing or empty text is refused and nothing is inserted;
     * otherwise one new row is appended. The schema's column defaults are not
     * visible, so the initial scheduling columns are a parameter.
     */
    method AddCard(front: Option<string>, back: Option<string>, init: Schedule, initLastReviewed: Option<int>)
      returns (r: Result<Card, CreateError>)
      requires Valid()
      modifies this
      ensures Valid()
      ensures r.Failure? <==> !Present(front) || !Present(back)
      ensures r.Failure? ==> cards == old(cards)
      ensures r.Success? ==>
                && fresh(r.value)
                && cards == old(cards) + [r.value]
                && r.value.front == front.value && r.value.back == back.value
                && r.value.State() == init && r.value.lastReviewed == initLastReviewed
                && forall i :: 0 <= i < |old(cards)| ==> old(cards)[i].id != r.value.id
    {
      if !Present(front) || !Present(back) {
        return Failure(MissingText);
      }
      var card := new Card(nextId, front.value, back.value, init, initLastReviewed);
      cards := cards + [card];
      nextId := nextId + 1;
      r := Success(card);
    }

    /**
     * PUT /api/cards/:id/review. An unacceptable quality is refused before the
     * table is read, an unknown id is refused before anything is written, and in
     * both cases every row is left as it was. Otherwise exactly the card with
     * that id takes the next SM-2 state and today's date.
     */
    method Review(id: int, quality: QualityInput, today: int) returns (r: ReviewOutcome)
      requires Valid()
      modifies set c | c in cards
      ensures r == InvalidQuality <==> AcceptedQuality(quality).None?
      ensures r == NotFound <==> AcceptedQuality(quality).Some? && Find(cards, id).None?
      ensures r != Updated ==> forall i :: 0 <= i < |cards| ==> cards[i].Row() == old(cards[i].Row())
      ensures r == Updated ==>
                var k := Find(cards, id).value;
                && cards[k].State() == Next(old(cards[k].State()), AcceptedQuality(quality).value)
                && cards[k].lastReviewed == Some(today)
                && forall i :: 0 <= i < |cards| && i != k ==> cards[i].Row() == old(cards[i].Row())
    {
      var q := AcceptedQuality(quality);
      if q.None? {
        return InvalidQuality;
      }
      var found := Find(cards, id);
      if found.None? {
        return NotFound;
      }
      var k := found.value;
      cards[k].Review(q.value, today);
      r := Updated;
    }

    /** GET /api/cards/review: the due set of the current rows; nothing is modified. */
    method FetchDue(today: int) returns (due: seq<CardRow>)
      ensures due == SelectDue(RowsOf(cards), today)
    {
      due := SelectDue(RowsOf(cards), today);
    }
  }
}
