/** `StolenCardService`: the set of card numbers reported stolen. The
    repository is the set itself; entity ids are not modelled. */
module StolenCards {
  import opened Base
  import Validation
  import Text

  /** `addStolenCard`: the number must pass the Luhn check, then must not
      already be listed; on success the set gains exactly that number. */
  function AddStolenCard(cards: set<string>, number: string): (r: Step<set<string>, string>)
    ensures r.out.Ok? <==> Validation.LuhnValid(number) && number !in cards
    ensures r.out.Ok? ==> r.out.value == number && r.next == cards + {number}
    ensures r.out.Err? ==> r.next == cards
    ensures !Validation.LuhnValid(number) ==> r.out == Err(BadRequest)
    ensures Validation.LuhnValid(number) && number in cards ==> r.out == Err(Conflict)
  {
    if !Validation.LuhnValid(number) then Step(cards, Err(BadRequest))
    else if number in cards then Step(cards, Err(Conflict))
    else Step(cards + {number}, Ok(number))
  }

  function RemovedMessage(number: string): string {
    "Card " + number + " successfully removed!"
  }

  /** `deleteStolenCard`: the Luhn check first, then the number must be
      listed; on success the set loses exactly that number. */
  function DeleteStolenCard(cards: set<string>, number: string): (r: Step<set<string>, string>)
    ensures r.out.Ok? <==> Validation.LuhnValid(number) && number in cards
    ensures r.out.Ok? ==> r.out.value == RemovedMessage(number) && r.next == cards - {number}
    ensures r.out.Err? ==> r.next == cards
    ensures !Validation.LuhnValid(number) ==> r.out == Err(BadRequest)
    ensures Validation.LuhnValid(number) && number !in cards ==> r.out == Err(NotFound)
  {
    if !Validation.LuhnValid(number) then Step(cards, Err(BadRequest))
    else if number !in cards then Step(cards, Err(NotFound))
    else Step(cards - {number}, Ok(RemovedMessage(number)))
  }

  /** `isCardStolen`: plain membership, with no format check. For a valid
      number it agrees with the add and delete operations: a stolen number
      is one an add rejects as a conflict and a delete removes. */
  predicate IsCardStolen(cards: set<string>, number: string)
    ensures Validation.LuhnValid(number) ==>
      (IsCardStolen(cards, number) <==> AddStolenCard(cards, number).out == Err(Conflict))
    ensures Validation.LuhnValid(number) ==>
      (IsCardStolen(cards, number) <==> DeleteStolenCard(cards, number).out.Ok?)
  {
    number in cards
  }

  /** Adding an unlisted valid number and deleting it again restores the
      set; in between the number is reported stolen. */
  lemma AddThenDelete(cards: set<string>, number: string)
    requires Validation.LuhnValid(number) && number !in cards
    ensures IsCardStolen(AddStolenCard(cards, number).next, number)
    ensures DeleteStolenCard(AddStolenCard(cards, number).next, number)
         == Step(cards, Ok(RemovedMessage(number)))
  {
    assert cards + {number} - {number} == cards;
  }

  /** A listed number is reported stolen even when it is not a valid card
      number; the query does not check the format. */
  lemma QueryIgnoresFormat()
    ensures !Validation.LuhnValid("12a") && IsCardStolen({"12a"}, "12a")
  {
    assert !Text.IsDigit("12a"[2]);
  }
}
