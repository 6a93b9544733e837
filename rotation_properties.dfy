/** What create_rotation_days promises about the cards it makes: each card
    takes two dates of the pool, the cards follow the roster cycle after
    cycle, together they use every pool date exactly once, each card's first
    day comes before its second, and the one fault is the skip branch
    running out of dates on the last participant. */
module RotationProperties {
  import opened Workdays
  import opened Rotation

  /** A card owns the two dates it takes out of the pool; nothing is lost or
      invented. */
  lemma {:induction false} TakeCardConserves(p: Participant, pool: seq<Date>)
    ensures TakeCard(p, pool).Ok? ==>
              var r := TakeCard(p, pool).value;
              IsCardOf(r.0, p) && multiset(pool) == multiset{r.0.day1, r.0.day2} + multiset(r.1)
  {
    if TakeCard(p, pool).Ok? {
      if Avoids(p, pool[0]) {
        assert pool == [pool[0], pool[1], pool[2]] + pool[3..];
      } else {
        assert pool == [pool[0], pool[1]] + pool[2..];
      }
    }
  }

  /** Taking a card from an ordered pool gives day_1 before day_2 and leaves
      the pool ordered, the retained front date included. */
  lemma {:induction false} TakeCardKeepsOrder(p: Participant, pool: seq<Date>)
    requires StrictlyIncreasing(pool)
    ensures TakeCard(p, pool).Ok? ==>
              var r := TakeCard(p, pool).value;
              r.0.day1 < r.0.day2 && StrictlyIncreasing(r.1)
  {
    if TakeCard(p, pool).Ok? {
      var rest := TakeCard(p, pool).value.1;
      if Avoids(p, pool[0]) {
        forall i, j | 0 <= i < j < |rest| ensures rest[i] < rest[j] {
          assert rest[j] == pool[j + 2];
          if i == 0 { assert rest[i] == pool[0]; } else { assert rest[i] == pool[i + 2]; }
        }
      } else {
        forall i, j | 0 <= i < j < |rest| ensures rest[i] < rest[j] {
          assert rest[i] == pool[i + 2] && rest[j] == pool[j + 2];
        }
      }
    }
  }

  /** Anywhere in a pass: a participant whose forbidden weekday is the front
      date's takes the next two dates, and the front date goes to the
      participant after, with the fourth date. */
  lemma {:induction false} RetainedDateGoesToNext(roster: seq<Participant>, i: nat, pool: seq<Date>)
    requires i + 1 < |roster| && |pool| >= 4
    requires Avoids(roster[i], pool[0]) && !Avoids(roster[i + 1], pool[0])
    ensures PassFrom(roster, i, pool).Ok? ==>
              var cards := PassFrom(roster, i, pool).value.0;
              |cards| >= 2 &&
              cards[0] == CardOf(roster[i], pool[1], pool[2]) &&
              cards[1] == CardOf(roster[i + 1], pool[0], pool[3])
  {
    var rest1 := [pool[0]] + pool[3..];
    assert TakeCard(roster[i], pool) == Ok((CardOf(roster[i], pool[1], pool[2]), rest1));
    assert TakeCard(roster[i + 1], rest1) == Ok((CardOf(roster[i + 1], pool[0], pool[3]), rest1[2..]));
  }

  /** Across a pass boundary: when the last participant of a pass skips the
      front date, the pass leaves that date at the head of the pool, and the
      first participant of the next pass, if allowed, takes it with the
      fourth date. */
  lemma {:induction false} RetainedDateCrossesPass(roster: seq<Participant>, pool: seq<Date>)
    requires |roster| > 0 && |pool| >= 3
    requires Avoids(roster[|roster| - 1], pool[0])
    ensures PassFrom(roster, |roster| - 1, pool)
            == Ok(([CardOf(roster[|roster| - 1], pool[1], pool[2])], [pool[0]] + pool[3..]))
    ensures |pool| >= 4 && !Avoids(roster[0], pool[0]) && Assign(roster, [pool[0]] + pool[3..]).Ok? ==>
              var next := Assign(roster, [pool[0]] + pool[3..]).value;
              |next| >= 1 && next[0] == CardOf(roster[0], pool[0], pool[3])
  {
    var n := |roster|;
    var left := [pool[0]] + pool[3..];
    var card := CardOf(roster[n - 1], pool[1], pool[2]);
    assert TakeCard(roster[n - 1], pool) == Ok((card, left));
    assert [card] + [] == [card];
    if |pool| >= 4 && !Avoids(roster[0], pool[0]) && Assign(roster, left).Ok? {
      assert TakeCard(roster[0], left) == Ok((CardOf(roster[0], pool[0], pool[3]), left[2..]));
      var pass := PassFrom(roster, 0, left);
      assert pass.Ok?;
    }
  }

  /** One pass: the k-th card is the (i+k)-th participant's. */
  lemma {:induction false} PassFromFollowsRoster(roster: seq<Participant>, i: nat, pool: seq<Date>)
    requires i <= |roster|
    decreases |roster| - i
    ensures PassFrom(roster, i, pool).Ok? ==>
              var r := PassFrom(roster, i, pool).value;
              forall k :: 0 <= k < |r.0| ==> IsCardOf(r.0[k], roster[i + k])
  {
    if i < |roster| && PassFrom(roster, i, pool).Ok? {
      var c, rest, cs, left := PassFromStep(roster, i, pool);
      TakeCardConserves(roster[i], pool);
      PassFromFollowsRoster(roster, i + 1, rest);
      var cards := [c] + cs;
      forall k | 0 <= k < |cards| ensures IsCardOf(cards[k], roster[i + k]) {
        if k > 0 { assert cards[k] == cs[k - 1]; }
      }
    }
  }

  /** One pass moves dates from the pool into its cards without loss. */
  lemma {:induction false} PassFromConserves(roster: seq<Participant>, i: nat, pool: seq<Date>)
    requires i <= |roster|
    decreases |roster| - i
    ensures PassFrom(roster, i, pool).Ok? ==>
              var r := PassFrom(roster, i, pool).value;
              multiset(pool) == Dates(r.0) + multiset(r.1)
  {
    if i < |roster| && PassFrom(roster, i, pool).Ok? {
      var c, rest, cs, left := PassFromStep(roster, i, pool);
      TakeCardConserves(roster[i], pool);
      PassFromConserves(roster, i + 1, rest);
      ConsConserves(pool, c, rest, cs, left);
    }
  }

  /** A successful pass is one card taken, then the rest of the pass. */
  lemma {:induction false} PassFromStep(roster: seq<Participant>, i: nat, pool: seq<Date>)
      returns (c: Card, rest: seq<Date>, cs: seq<Card>, left: seq<Date>)
    requires i < |roster| && PassFrom(roster, i, pool).Ok?
    ensures TakeCard(roster[i], pool) == Ok((c, rest))
    ensures PassFrom(roster, i + 1, rest) == Ok((cs, left))
    ensures PassFrom(roster, i, pool) == Ok(([c] + cs, left))
  {
    c, rest := TakeCard(roster[i], pool).value.0, TakeCard(roster[i], pool).value.1;
    cs, left := PassFrom(roster, i + 1, rest).value.0, PassFrom(roster, i + 1, rest).value.1;
  }

  lemma {:induction false} ConsConserves(pool: seq<Date>, c: Card, rest: seq<Date>, cs: seq<Card>, left: seq<Date>)
    requires multiset(pool) == multiset{c.day1, c.day2} + multiset(rest)
    requires multiset(rest) == Dates(cs) + multiset(left)
    ensures multiset(pool) == Dates([c] + cs) + multiset(left)
  {
    var cards := [c] + cs;
    assert cards[0] == c && cards[1..] == cs;
    assert Dates(cards) == multiset{c.day1, c.day2} + Dates(cs);
  }

  /** One pass over an ordered pool: every card has day_1 before day_2 and
      the pool left is ordered. */
  lemma {:induction false} PassFromKeepsOrder(roster: seq<Participant>, i: nat, pool: seq<Date>)
    requires i <= |roster| && StrictlyIncreasing(pool)
    decreases |roster| - i
    ensures PassFrom(roster, i, pool).Ok? ==>
              var r := PassFrom(roster, i, pool).value;
              (forall k :: 0 <= k < |r.0| ==> r.0[k].day1 < r.0[k].day2) &&
              StrictlyIncreasing(r.1)
  {
    if i < |roster| && PassFrom(roster, i, pool).Ok? {
      var c, rest, cs, left := PassFromStep(roster, i, pool);
      TakeCardKeepsOrder(roster[i], pool);
      PassFromKeepsOrder(roster, i + 1, rest);
      var cards := [c] + cs;
      forall k | 0 <= k < |cards| ensures cards[k].day1 < cards[k].day2 {
        if k > 0 { assert cards[k] == cs[k - 1]; }
      }
    }
  }

  /** Together the cards hold exactly the dates of the pool. */
  lemma {:induction false} AssignUsesEveryDate(roster: seq<Participant>, pool: seq<Date>)
    requires |roster| > 0
    decreases |pool|
    ensures Assign(roster, pool).Ok? ==> Dates(Assign(roster, pool).value) == multiset(pool)
  {
    if |pool| > 0 && Assign(roster, pool).Ok? {
      PassFromConserves(roster, 0, pool);
      var cards, rest := PassFrom(roster, 0, pool).value.0, PassFrom(roster, 0, pool).value.1;
      AssignUsesEveryDate(roster, rest);
      var more := Assign(roster, rest).value;
      DatesAppend(cards, more);
    }
  }

  /** The cards come in roster order, cycle after cycle: card j belongs to
      participant j mod R, R the roster length. */
  lemma {:induction false} AssignFollowsRoster(roster: seq<Participant>, pool: seq<Date>)
    requires |roster| > 0
    decreases |pool|
    ensures Assign(roster, pool).Ok? ==>
              var made := Assign(roster, pool).value;
              forall j :: 0 <= j < |made| ==> IsCardOf(made[j], roster[j % |roster|])
  {
    if |pool| > 0 && Assign(roster, pool).Ok? {
      assert PassFrom(roster, 0, pool).Ok?;
      PassFromFollowsRoster(roster, 0, pool);
      var cards, rest := PassFrom(roster, 0, pool).value.0, PassFrom(roster, 0, pool).value.1;
      AssignFollowsRoster(roster, rest);
      var more := Assign(roster, rest).value;
      forall j | 0 <= j < |cards| ensures IsCardOf(cards[j], roster[j]) {
        assert roster[0 + j] == roster[j];
      }
      CycleJoin(roster, cards, more);
    }
  }

  /** A full cycle followed by cards that keep the cycle keeps the cycle. */
  lemma {:induction false} CycleJoin(roster: seq<Participant>, cards: seq<Card>, more: seq<Card>)
    requires |cards| == |roster| > 0
    requires forall j :: 0 <= j < |cards| ==> IsCardOf(cards[j], roster[j])
    requires forall j :: 0 <= j < |more| ==> IsCardOf(more[j], roster[j % |roster|])
    ensures forall j :: 0 <= j < |cards + more| ==> IsCardOf((cards + more)[j], roster[j % |roster|])
  {
    var n := |roster|;
    var all := cards + more;
    forall j | 0 <= j < |all| ensures IsCardOf(all[j], roster[j % n]) {
      if j < n {
        assert all[j] == cards[j];
        ModUnique(j, n, 0, j);
      } else {
        assert all[j] == more[j - n];
        ModShift(j - n, n);
      }
    }
  }

  /** Adding the roster length does not change the position in the cycle. */
  lemma {:induction false} ModShift(k: nat, n: nat)
    requires n > 0
    ensures (k + n) % n == k % n
  {
    var q := k / n;
    assert k == q * n + k % n && 0 <= k % n < n;
    assert k + n == (q + 1) * n + k % n;
    ModUnique(k + n, n, q + 1, k % n);
  }

  /** A remainder below n is the remainder. */
  lemma {:induction false} ModUnique(a: int, n: int, q: int, r: int)
    requires n > 0 && 0 <= r < n && a == q * n + r
    ensures a % n == r
  {
    assert a == (a / n) * n + a % n && 0 <= a % n < n;
    var d := a / n - q;
    assert d * n == r - a % n by {
      MulDiff(a / n, q, n);
    }
    if d >= 1 {
      MulAtLeast(d, n);
    } else if d <= -1 {
      MulAtLeast(-d, n);
    }
  }

  lemma {:induction false} MulDiff(x: int, y: int, n: int)
    ensures (x - y) * n == x * n - y * n
  {
  }

  lemma {:induction false} MulAtLeast(d: int, n: int)
    requires d >= 1 && n > 0
    ensures d * n >= n
  {
  }

  /** Over an ordered pool every card has day_1 strictly before day_2. */
  lemma {:induction false} AssignKeepsOrder(roster: seq<Participant>, pool: seq<Date>)
    requires |roster| > 0 && StrictlyIncreasing(pool)
    decreases |pool|
    ensures Assign(roster, pool).Ok? ==>
              var made := Assign(roster, pool).value;
              forall j :: 0 <= j < |made| ==> made[j].day1 < made[j].day2
  {
    if |pool| > 0 && Assign(roster, pool).Ok? {
      PassFromKeepsOrder(roster, 0, pool);
      var cards, rest := PassFrom(roster, 0, pool).value.0, PassFrom(roster, 0, pool).value.1;
      assert Assign(roster, rest).Ok?;
      AssignKeepsOrder(roster, rest);
      var more := Assign(roster, rest).value;
      var all := cards + more;
      forall j | 0 <= j < |all| ensures all[j].day1 < all[j].day2 {
        if j < |cards| {
          assert all[j] == cards[j];
          assert cards[j].day1 < cards[j].day2;
        } else {
          assert all[j] == more[j - |cards|];
          assert more[j - |cards|].day1 < more[j - |cards|].day2;
        }
      }
    }
  }

  /** A pass that starts with at least two dates per remaining participant
      cannot fail unless the last participant, left with exactly two dates,
      has a forbidden weekday. */
  lemma {:induction false} PassFromCompletes(roster: seq<Participant>, i: nat, pool: seq<Date>)
    requires 0 < |roster| && i <= |roster| && |pool| >= 2 * (|roster| - i)
    requires |pool| > 2 * (|roster| - i) || roster[|roster| - 1].avoid.None?
    decreases |roster| - i
    ensures PassFrom(roster, i, pool).Ok?
  {
    if i < |roster| {
      assert TakeCard(roster[i], pool).Ok?;
      var rest := TakeCard(roster[i], pool).value.1;
      PassFromCompletes(roster, i + 1, rest);
    }
  }

  /** With 2 * |roster| * k dates and no forbidden weekday for the last
      participant, the assignment makes |roster| * k cards without fault. */
  lemma {:induction false} AssignCompletes(roster: seq<Participant>, pool: seq<Date>, k: nat)
    requires |roster| > 0 && |pool| == 2 * |roster| * k
    requires roster[|roster| - 1].avoid.None?
    decreases k
    ensures Assign(roster, pool).Ok? && |Assign(roster, pool).value| == |roster| * k
  {
    var n := |roster|;
    if k > 0 {
      var m := n * (k - 1);
      MulSucc(n, k - 1);
      PassFromCompletes(roster, 0, pool);
      var cards, rest := PassFrom(roster, 0, pool).value.0, PassFrom(roster, 0, pool).value.1;
      assert |rest| == 2 * m;
      AssignCompletes(roster, rest, k - 1);
      var more := Assign(roster, rest).value;
      assert Assign(roster, pool).value == cards + more;
      assert |cards + more| == n + m;
    }
  }

  /** One more pass adds one roster length of cards: kept apart from the
      lemma above, whose context makes this product step costly. */
  lemma {:induction false} MulSucc(n: nat, k: nat)
    ensures n * (k + 1) == n * k + n && 2 * n * (k + 1) == 2 * (n * k) + 2 * n
  {
  }

  /** The pool left after the first k whole passes of the run, or None when
      the run does not get that far (the pool ran out or a pass faulted). */
  function PoolAfterPasses(roster: seq<Participant>, pool: seq<Date>, k: nat): Option<seq<Date>>
    decreases k
  {
    if k == 0 then Some(pool)
    else if |pool| == 0 then None
    else
      match PassFrom(roster, 0, pool)
      case Err(_) => None
      case Ok((_, left)) => PoolAfterPasses(roster, left, k - 1)
  }

  /** A fault in any pass the run reaches is the fault of the whole run:
      nothing catches the IndexError, whatever cards came before. */
  lemma {:induction false} PassFaultFailsRun(roster: seq<Participant>, pool: seq<Date>, k: nat, rest: seq<Date>)
    requires |roster| > 0
    requires PoolAfterPasses(roster, pool, k) == Some(rest) && |rest| > 0 && PassFrom(roster, 0, rest).Err?
    decreases k
    ensures Assign(roster, pool) == Err(IndexError)
  {
    if k > 0 {
      var left := PassFrom(roster, 0, pool).value.1;
      PassFaultFailsRun(roster, left, k - 1, rest);
    }
  }

  /** The fault: two dates left, and the last participant of the roster may
      not take the front one, so the skip branch reads working_days[1] after
      pop(1). When this happens in any pass the run reaches, whatever cards
      that pass and the ones before made, the whole run fails. */
  lemma {:induction false} LastParticipantFails(roster: seq<Participant>, a: Date, b: Date,
                                                pool: seq<Date>, k: nat, rest: seq<Date>, done: seq<Card>)
    requires |roster| > 0 && Avoids(roster[|roster| - 1], a)
    ensures PassFrom(roster, |roster| - 1, [a, b]) == Err(IndexError)
    ensures PoolAfterPasses(roster, pool, k) == Some(rest) && |rest| > 0 &&
            PassFrom(roster, 0, rest) == ThenPass(done, PassFrom(roster, |roster| - 1, [a, b])) ==>
              Assign(roster, pool) == Err(IndexError)
  {
    assert TakeCard(roster[|roster| - 1], [a, b]).Err?;
    if PoolAfterPasses(roster, pool, k) == Some(rest) && |rest| > 0 &&
       PassFrom(roster, 0, rest) == ThenPass(done, PassFrom(roster, |roster| - 1, [a, b])) {
      PassFaultFailsRun(roster, pool, k, rest);
    }
  }

  /** The fault is reachable from create_rotation_days: with a roster whose
      last participant may not take a Tuesday, one rotation from Sunday
      2020-01-05 (day 737429) gives the pool Sunday to Wednesday; the first
      participant takes Sunday and Monday, and the last one faces Tuesday
      with two dates left. */
  lemma {:induction false} SundayStartFails()
    ensures var roster := [Participant("ann", "1", None), Participant("bob", "2", Some(1))];
            ChainFrom(737429, PoolSize(|roster|, 1)) == [737429, 737430, 737431, 737432] &&
            Assign(roster, ChainFrom(737429, PoolSize(|roster|, 1))) == Err(IndexError)
  {
    var roster := [Participant("ann", "1", None), Participant("bob", "2", Some(1))];
    var pool := [737429, 737430, 737431, 737432];
    assert Weekday(737429) == Sunday;
    assert ChainFrom(737429, 2) == [737429, 737430];
    assert ChainFrom(737429, 4) == pool;
    assert TakeCard(roster[0], pool) == Ok((CardOf(roster[0], 737429, 737430), [737431, 737432]));
    LastParticipantFails(roster, 737431, 737432, pool, 0, pool, [CardOf(roster[0], 737429, 737430)]);
  }

  /** The pool of two rotations of a two-person roster from Monday
      2020-01-06: Monday to Friday, then Monday to Wednesday. */
  lemma {:induction false} MondayStartPool()
    ensures ChainFrom(737430, 8) == [737430, 737431, 737432, 737433, 737434, 737437, 737438, 737439]
  {
    // Unfolded one date at a time, so that the solver need not nest the
    // unfoldings of ChainFrom.
    assert ChainFrom(737430, 2) == [737430, 737431];
    assert ChainFrom(737430, 3) == [737430, 737431, 737432];
    assert ChainFrom(737430, 4) == [737430, 737431, 737432, 737433];
    assert ChainFrom(737430, 5) == [737430, 737431, 737432, 737433, 737434];
    assert Weekday(737434) == Friday;
    assert ChainFrom(737430, 6) == [737430, 737431, 737432, 737433, 737434, 737437];
    assert ChainFrom(737430, 7) == [737430, 737431, 737432, 737433, 737434, 737437, 737438];
  }

  /** The fault in a later pass, with the two rotations make_cards asks for:
      from Monday 2020-01-06 (day 737430) the pool is Monday to Friday, then
      Monday to Wednesday. The first pass succeeds (bob's front date is a
      Wednesday); in the second, ann takes Friday and Monday and bob faces
      Tuesday with two dates left. */
  lemma {:induction false} SecondPassFails()
    ensures var roster := [Participant("ann", "1", None), Participant("bob", "2", Some(1))];
            var pool := ChainFrom(737430, PoolSize(|roster|, 2));
            pool == [737430, 737431, 737432, 737433, 737434, 737437, 737438, 737439] &&
            PassFrom(roster, 0, pool) == Ok(([CardOf(roster[0], 737430, 737431), CardOf(roster[1], 737432, 737433)],
                                             [737434, 737437, 737438, 737439])) &&
            Assign(roster, pool) == Err(IndexError)
  {
    var roster := [Participant("ann", "1", None), Participant("bob", "2", Some(1))];
    var pool := [737430, 737431, 737432, 737433, 737434, 737437, 737438, 737439];
    var ann1 := CardOf(roster[0], 737430, 737431);
    var bob1 := CardOf(roster[1], 737432, 737433);
    var ann2 := CardOf(roster[0], 737434, 737437);
    MondayStartPool();
    assert Weekday(737432) == 2;
    assert TakeCard(roster[0], pool) == Ok((ann1, pool[2..]));
    assert TakeCard(roster[1], pool[2..]) == Ok((bob1, pool[4..]));
    assert PassFrom(roster, 2, pool[4..]) == Ok(([], pool[4..]));
    assert [bob1] + [] == [bob1];
    assert PassFrom(roster, 1, pool[2..]) == Ok(([bob1], pool[4..]));
    assert [ann1] + [bob1] == [ann1, bob1];
    assert PassFrom(roster, 0, pool) == Ok(([ann1, bob1], pool[4..]));
    assert pool[4..] == [737434, 737437, 737438, 737439];
    assert PoolAfterPasses(roster, pool, 1) == Some(pool[4..]);
    assert Weekday(737438) == 1;
    assert TakeCard(roster[0], pool[4..]) == Ok((ann2, [737438, 737439]));
    LastParticipantFails(roster, 737438, 737439, pool, 1, pool[4..], [ann2]);
  }

  /** A pool of one date, which is what build_workdays returns for
      rotations <= 0, always faults: the first participant needs two. */
  lemma {:induction false} SingleDateFails(roster: seq<Participant>, d: Date)
    requires |roster| > 0
    ensures Assign(roster, [d]) == Err(IndexError)
  {
    assert TakeCard(roster[0], [d]).Err?;
  }

  lemma {:induction false} PoolSizeSign(participants: nat, rotations: int)
    requires participants > 0
    ensures rotations <= 0 ==> PoolSize(participants, rotations) == 1
    ensures rotations >= 1 ==> PoolSize(participants, rotations) == 2 * participants * rotations
  {
    if rotations <= 0 {
      assert participants * rotations <= 0;
    } else {
      assert participants * rotations >= 1;
    }
  }

  /** create_rotation_days with rotations <= 0: the pool is the start date
      alone and the run faults. */
  lemma {:induction false} NoRotationsFails(roster: seq<Participant>, start: Date, rotations: int)
    requires |roster| > 0 && rotations <= 0
    ensures Assign(roster, ChainFrom(start, PoolSize(|roster|, rotations))) == Err(IndexError)
  {
    PoolSizeSign(|roster|, rotations);
    SingleDateFails(roster, start);
  }

  /** create_rotation_days with rotations >= 1: when the last participant has
      no forbidden weekday the run succeeds with |roster| * rotations cards. */
  lemma {:induction false} RotationScheduleCompletes(roster: seq<Participant>, start: Date, rotations: int)
    requires |roster| > 0 && rotations >= 1 && roster[|roster| - 1].avoid.None?
    ensures var made := Assign(roster, ChainFrom(start, PoolSize(|roster|, rotations)));
            made.Ok? && |made.value| == |roster| * rotations
  {
    PoolSizeSign(|roster|, rotations);
    AssignCompletes(roster, ChainFrom(start, PoolSize(|roster|, rotations)), rotations);
  }

  /** create_rotation_days with rotations >= 1: a successful run makes
      |roster| * rotations cards that use every date of the pool exactly
      once, no date twice, each with day_1 strictly before day_2. */
  lemma {:induction false} RotationScheduleCards(roster: seq<Participant>, start: Date, rotations: int)
    requires |roster| > 0 && rotations >= 1
    requires Assign(roster, ChainFrom(start, PoolSize(|roster|, rotations))).Ok?
    ensures var pool := ChainFrom(start, PoolSize(|roster|, rotations));
            var cards := Assign(roster, pool).value;
            |cards| == |roster| * rotations &&
            Dates(cards) == multiset(pool) &&
            (forall d :: Dates(cards)[d] <= 1) &&
            (forall j :: 0 <= j < |cards| ==> cards[j].day1 < cards[j].day2)
  {
    PoolSizeSign(|roster|, rotations);
    var pool := ChainFrom(start, PoolSize(|roster|, rotations));
    var cards := Assign(roster, pool).value;
    assert |cards| == |roster| * rotations;
    ChainFromIsChain(start, PoolSize(|roster|, rotations));
    ChainIncreasing(pool);
    IncreasingHasNoDuplicates(pool);
    AssignUsesEveryDate(roster, pool);
    AssignKeepsOrder(roster, pool);
  }

  /** With the roster rotate.py ships with, whose last participant has no
      forbidden weekday, every run with rotations >= 1 succeeds and makes
      four cards per rotation. */
  lemma {:induction false} ColumnsNeverFail(start: Date, rotations: int)
    requires rotations >= 1
    ensures var made := Assign(Columns, ChainFrom(start, PoolSize(|Columns|, rotations)));
            made.Ok? && |made.value| == 4 * rotations
  {
    RotationScheduleCompletes(Columns, start, rotations);
  }

  /** The pool of one rotation of the shipped roster from Tuesday
      2020-01-07: Tuesday to Friday, then Monday to Thursday. */
  lemma {:induction false} TuesdayStartPool()
    ensures ChainFrom(737431, 8) == [737431, 737432, 737433, 737434, 737437, 737438, 737439, 737440]
  {
    // Unfolded one date at a time, so that the solver need not nest the
    // unfoldings of ChainFrom.
    assert ChainFrom(737431, 1) == [737431];
    assert ChainFrom(737431, 2) == [737431, 737432];
    assert ChainFrom(737431, 3) == [737431, 737432, 737433];
    assert ChainFrom(737431, 4) == [737431, 737432, 737433, 737434];
    assert Weekday(737434) == Friday;
    assert ChainFrom(737431, 5) == [737431, 737432, 737433, 737434, 737437];
    assert ChainFrom(737431, 6) == [737431, 737432, 737433, 737434, 737437, 737438];
    assert ChainFrom(737431, 7) == [737431, 737432, 737433, 737434, 737437, 737438, 737439];
  }

  /** Starting on Tuesday 2020-01-07 (day 737431) with one rotation: karl,
      who may not take a Tuesday, gets Wednesday and Thursday; the Tuesday is
      kept and goes to dennis with the Friday. */
  lemma {:induction false} TuesdayStartExample()
    ensures var pool := [737431, 737432, 737433, 737434, 737437, 737438, 737439, 737440];
            ChainFrom(737431, PoolSize(|Columns|, 1)) == pool &&
            Assign(Columns, pool) == Ok([
              Card("karl", "5301985", 737432, 737433),
              Card("dennis", "5051659", 737431, 737434),
              Card("ksenia", "5051665", 737437, 737438),
              Card("thomas", "5051664", 737439, 737440)])
  {
    var pool := [737431, 737432, 737433, 737434, 737437, 737438, 737439, 737440];
    var karl := Card("karl", "5301985", 737432, 737433);
    var dennis := Card("dennis", "5051659", 737431, 737434);
    var ksenia := Card("ksenia", "5051665", 737437, 737438);
    var thomas := Card("thomas", "5051664", 737439, 737440);
    // The turns and the passes are unfolded one step at a time; left to
    // itself the solver runs out of resource on the nested unfoldings of
    // PassFrom and Assign.
    TuesdayStartPool();
    assert Weekday(737431) == 1;
    assert [pool[0]] + pool[3..] == [737431, 737434, 737437, 737438, 737439, 737440];
    assert TakeCard(Columns[0], pool) == Ok((karl, [737431, 737434, 737437, 737438, 737439, 737440]));
    assert TakeCard(Columns[1], [737431, 737434, 737437, 737438, 737439, 737440])
        == Ok((dennis, [737437, 737438, 737439, 737440]));
    assert TakeCard(Columns[2], [737437, 737438, 737439, 737440]) == Ok((ksenia, [737439, 737440]));
    assert TakeCard(Columns[3], [737439, 737440]) == Ok((thomas, []));
    assert PassFrom(Columns, 4, []) == Ok(([], []));
    assert [thomas] + [] == [thomas];
    assert PassFrom(Columns, 3, [737439, 737440]) == Ok(([thomas], []));
    assert [ksenia] + [thomas] == [ksenia, thomas];
    assert PassFrom(Columns, 2, [737437, 737438, 737439, 737440]) == Ok(([ksenia, thomas], []));
    assert [dennis] + [ksenia, thomas] == [dennis, ksenia, thomas];
    assert [karl] + [dennis, ksenia, thomas] == [karl, dennis, ksenia, thomas];
    assert PassFrom(Columns, 1, [737431, 737434, 737437, 737438, 737439, 737440])
        == Ok(([dennis, ksenia, thomas], []));
    assert PassFrom(Columns, 0, pool) == Ok(([karl, dennis, ksenia, thomas], []));
    assert Assign(Columns, []) == Ok([]);
    assert [karl, dennis, ksenia, thomas] + [] == [karl, dennis, ksenia, thomas];
  }
}
