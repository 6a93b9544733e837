/** The rotation assigner of rotate.py (create_rotation_days): the roster is
    walked in order, again and again while the pool of workdays is not
    empty, and each participant takes two dates from the front of the pool.
    A participant whose forbidden weekday is the front date's takes the
    second and third dates instead; the front date stays where it is and
    goes to whoever comes next. */
module Rotation {
  import opened Workdays

  datatype Option<T> = None | Some(value: T)

  /** The one fault the assigner can raise: indexing the pool past its end. */
  datatype Error = IndexError

  datatype Result<T> = Ok(value: T) | Err(error: Error)

  /** One roster entry. `avoid` is compared with Python's weekday(); None
      never matches. */
  datatype Participant = Participant(name: string, columnId: string, avoid: Option<int>)

  /** The tuple (person_name, column_id, day_1, day_2). */
  datatype Card = Card(name: string, columnId: string, day1: Date, day2: Date)

  /** The roster rotate.py ships with, in insertion order. */
  const Columns: seq<Participant> := [
    Participant("karl", "5301985", Some(1)),
    Participant("dennis", "5051659", None),
    Participant("ksenia", "5051665", None),
    Participant("thomas", "5051664", None)
  ]

  predicate Avoids(p: Participant, d: Date) {
    p.avoid == Some(Weekday(d))
  }

  /** The card belongs to the participant: same name, same board column. */
  predicate IsCardOf(c: Card, p: Participant) {
    c.name == p.name && c.columnId == p.columnId
  }

  function CardOf(p: Participant, day1: Date, day2: Date): Card {
    Card(p.name, p.columnId, day1, day2)
  }

  /** Every date the cards hold, with multiplicity. */
  function Dates(cards: seq<Card>): multiset<Date> {
    if cards == [] then multiset{}
    else multiset{cards[0].day1, cards[0].day2} + Dates(cards[1..])
  }

  lemma {:induction false} DatesAppend(a: seq<Card>, b: seq<Card>)
    ensures Dates(a + b) == Dates(a) + Dates(b)
  {
    if a == [] {
      assert a + b == b;
    } else {
      assert (a + b)[0] == a[0];
      assert (a + b)[1..] == a[1..] + b;
      DatesAppend(a[1..], b);
    }
  }

  /** One pass of the `for person` body: the card of participant p and the
      pool left behind, or the IndexError Python raises when the pool is too
      short for the branch taken. */
  function TakeCard(p: Participant, pool: seq<Date>): (r: Result<(Card, seq<Date>)>)
    ensures r.Ok? <==> |pool| >= 3 || (|pool| == 2 && !Avoids(p, pool[0]))
    ensures r.Ok? ==> |r.value.1| == |pool| - 2
  {
    if |pool| == 0 then Err(IndexError)
    else if Avoids(p, pool[0]) then
      if |pool| < 3 then Err(IndexError)
      else Ok((CardOf(p, pool[1], pool[2]), [pool[0]] + pool[3..]))
    else if |pool| < 2 then Err(IndexError)
    else Ok((CardOf(p, pool[0], pool[1]), pool[2..]))
  }

  /** The inner `for person in COLUMNS` loop from participant i on: one card
      per remaining participant, two dates each. */
  function PassFrom(roster: seq<Participant>, i: nat, pool: seq<Date>): (r: Result<(seq<Card>, seq<Date>)>)
    requires i <= |roster|
    decreases |roster| - i
    ensures r.Ok? ==> |r.value.0| == |roster| - i && |r.value.1| == |pool| - 2 * (|roster| - i)
  {
    if i == |roster| then Ok(([], pool))
    else
      match TakeCard(roster[i], pool)
      case Err(e) => Err(e)
      case Ok((card, rest)) =>
        match PassFrom(roster, i + 1, rest)
        case Err(e) => Err(e)
        case Ok((cards, left)) => Ok(([card] + cards, left))
  }

  /** The outer `while working_days` loop: whole passes over the roster
      until the pool is empty; each card takes two dates of the pool. */
  function Assign(roster: seq<Participant>, pool: seq<Date>): (r: Result<seq<Card>>)
    requires |roster| > 0
    decreases |pool|
    ensures r.Ok? ==> 2 * |r.value| == |pool|
  {
    if |pool| == 0 then Ok([])
    else
      match PassFrom(roster, 0, pool)
      case Err(e) => Err(e)
      case Ok((cards, rest)) =>
        match Assign(roster, rest)
        case Err(e) => Err(e)
        case Ok(more) => Ok(cards + more)
  }

  /** create_rotation_days, with the roster as a parameter and the start
      date already parsed. The pool is a local list the loops consume from
      the front in place. */
  method CreateRotationDays(roster: seq<Participant>, start: Date, rotations: int)
    returns (r: Result<seq<Card>>)
    requires |roster| > 0
    ensures r == Assign(roster, ChainFrom(start, PoolSize(|roster|, rotations)))
  {
    var daysCard: seq<Card> := [];
    var workingDays := BuildWorkdays(start, |roster|, rotations);
    ghost var pool := workingDays;
    ThenNil(Assign(roster, pool));
    while |workingDays| > 0
      invariant Assign(roster, pool) == Then(daysCard, Assign(roster, workingDays))
      decreases |workingDays|
    {
      ghost var passStart := workingDays;
      ghost var before := daysCard;
      ghost var passCards: seq<Card> := [];
      var i := 0;
      ThenPassNil(PassFrom(roster, 0, passStart));
      while i < |roster|
        invariant 0 <= i <= |roster|
        invariant daysCard == before + passCards
        invariant PassFrom(roster, 0, passStart) == ThenPass(passCards, PassFrom(roster, i, workingDays))
      {
        var person := roster[i];
        ghost var wd := workingDays;
        var turn := TakeTurn(person, workingDays);
        if turn.Err? {
          PassFails(roster, pool, passStart, before, passCards, i, wd);
          r := Err(turn.error);
          return;
        }
        var card := turn.value.0;
        workingDays := turn.value.1;
        PassStep(roster, i, wd, card, workingDays, passCards);
        daysCard := daysCard + [card];
        passCards := passCards + [card];
        i := i + 1;
      }
      PassDone(roster, pool, passStart, before, passCards, workingDays);
    }
    AssignEmpty(roster, workingDays);
    assert daysCard + [] == daysCard;
    r := Ok(daysCard);
  }

  /** The `for person` body on the list working_days: the two pops from the
      front, or the two pop(1) of the skip branch, and the IndexError of an
      index past the end. */
  method TakeTurn(person: Participant, workingDays: seq<Date>) returns (r: Result<(Card, seq<Date>)>)
    ensures r == TakeCard(person, workingDays)
  {
    var wd := workingDays;
    if |wd| == 0 {
      return Err(IndexError);
    }
    var firstDay := wd[0];
    var nextDay;
    if Avoids(person, firstDay) {
      if |wd| < 2 {
        return Err(IndexError);
      }
      firstDay := wd[1];
      wd := wd[..1] + wd[2..];  // pop(1)
      if |wd| < 2 {
        return Err(IndexError);
      }
      nextDay := wd[1];
      wd := wd[..1] + wd[2..];  // pop(1)
      assert wd == [workingDays[0]] + workingDays[3..];
    } else {
      wd := wd[1..];  // pop(0)
      if |wd| == 0 {
        return Err(IndexError);
      }
      nextDay := wd[0];
      wd := wd[1..];  // pop(0)
      assert wd == workingDays[2..];
    }
    r := Ok((CardOf(person, firstDay, nextDay), wd));
  }

  /** Cards already made, then whatever the rest of the assignment gives. */
  function Then(cards: seq<Card>, r: Result<seq<Card>>): Result<seq<Card>> {
    match r
    case Err(e) => Err(e)
    case Ok(more) => Ok(cards + more)
  }

  function ThenPass(cards: seq<Card>, r: Result<(seq<Card>, seq<Date>)>): Result<(seq<Card>, seq<Date>)> {
    match r
    case Err(e) => Err(e)
    case Ok((more, left)) => Ok((cards + more, left))
  }

  lemma {:induction false} ThenNil(r: Result<seq<Card>>)
    ensures Then([], r) == r
  {
    if r.Ok? {
      assert [] + r.value == r.value;
    }
  }

  lemma {:induction false} ThenPassNil(r: Result<(seq<Card>, seq<Date>)>)
    ensures ThenPass([], r) == r
  {
    if r.Ok? {
      assert [] + r.value.0 == r.value.0;
    }
  }

  lemma {:induction false} AssignEmpty(roster: seq<Participant>, pool: seq<Date>)
    requires |roster| > 0 && |pool| == 0
    ensures Assign(roster, pool) == Ok([])
  {
  }

  lemma {:induction false} PassStep(roster: seq<Participant>, i: nat, wd: seq<Date>, card: Card, rest: seq<Date>, done: seq<Card>)
    requires i < |roster| && TakeCard(roster[i], wd) == Ok((card, rest))
    ensures ThenPass(done, PassFrom(roster, i, wd)) == ThenPass(done + [card], PassFrom(roster, i + 1, rest))
  {
    match PassFrom(roster, i + 1, rest)
    case Err(e) =>
    case Ok((cards, left)) =>
      assert done + ([card] + cards) == (done + [card]) + cards;
  }

  lemma {:induction false} PassFails(roster: seq<Participant>, pool: seq<Date>, passStart: seq<Date>, before: seq<Card>,
                  done: seq<Card>, i: nat, wd: seq<Date>)
    requires |roster| > 0 && |passStart| > 0 && i < |roster|
    requires Assign(roster, pool) == Then(before, Assign(roster, passStart))
    requires PassFrom(roster, 0, passStart) == ThenPass(done, PassFrom(roster, i, wd))
    requires TakeCard(roster[i], wd).Err?
    ensures Assign(roster, pool) == Err(IndexError)
  {
  }

  lemma {:induction false} PassDone(roster: seq<Participant>, pool: seq<Date>, passStart: seq<Date>, before: seq<Card>,
                 done: seq<Card>, left: seq<Date>)
    requires |roster| > 0 && |passStart| > 0
    requires Assign(roster, pool) == Then(before, Assign(roster, passStart))
    requires PassFrom(roster, 0, passStart) == ThenPass(done, PassFrom(roster, |roster|, left))
    ensures Assign(roster, pool) == Then(before + done, Assign(roster, left))
  {
    assert done + [] == done;
    ThenAssoc(before, done, Assign(roster, left));
  }

  lemma {:induction false} ThenAssoc(a: seq<Card>, b: seq<Card>, r: Result<seq<Card>>)
    ensures Then(a, Then(b, r)) == Then(a + b, r)
  {
    if r.Ok? {
      assert a + (b + r.value) == (a + b) + r.value;
    }
  }
}
