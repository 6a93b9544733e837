# rotationcards: the rotation scheduler of rotate.py

rotate.py plans a duty rotation for a small team and posts one card per turn
to a GitHub project board. Its core has three parts:

- `get_next_workday` moves a date on to the next working day. A Friday moves
  three days (to Monday) and any other day moves one.
- `build_workdays` builds the pool of workdays: the start date, then the next
  workday of the previous date, `participants * 2 * rotations` dates in all.
- `create_rotation_days` goes through the roster in order, again and again
  while the pool is not empty. Each participant takes two dates off the
  front of the list, in place. A participant whose forbidden weekday
  (`avoid`) is the front date's weekday takes the second and third dates
  instead. The front date stays at the head of the pool for whoever comes
  next. The result is a list of cards `(name, column_id, day_1, day_2)`.

The model has three modules:

- `Workdays` (workdays.dfy): dates, weekdays, `NextWorkday`, the reference
  function `ChainFrom` for the pool, the method `BuildWorkdays` that builds
  it with the source's counting loop, and the lemmas about that pool.
- `Rotation` (rotation.dfy): the roster and cards, the reference functions
  `TakeCard` (one turn), `PassFrom` (one pass over the roster) and `Assign`
  (the whole `while` loop), and the methods `TakeTurn` (the `for person`
  body) and `CreateRotationDays`. These methods pop from a local sequence
  the way the Python pops from its list. They are proved equal to
  `TakeCard` and to `Assign` over `ChainFrom`.
- `RotationProperties` (rotation_properties.dfy): what the cards satisfy.
  - Each card takes two dates.
  - The cards follow the roster, cycle after cycle.
  - Together the cards use every pool date exactly once.
  - Each card's `day_1` comes before its `day_2`.
  - The skip branch keeps the front date for the next participant.
  - The run fails in exactly the situations where Python raises
    `IndexError`.

Modelling choices:

- A date is its proleptic Gregorian day number, as given by Python's
  `date.toordinal()`. Day 1 (0001-01-01) is a Monday, so `weekday()` is
  `(d + 6) % 7` and adding `timedelta(days=n)` adds `n`.
- The roster is a parameter: a sequence in the insertion order of the
  `COLUMNS` dict (rotate.py:21-26). `Rotation.Columns` is the roster the
  file ships with.
- An `IndexError` out of `working_days[...]` is the result `Err(IndexError)`.
  No precondition excludes it.

Three behaviours are worth spelling out. The model follows the code in
each:

- A date skipped for a forbidden weekday is not dropped. The code
  (rotate.py:69-73) pops `working_days[1]` twice, so the front date stays and
  goes to the next participant, also across the end of a pass
  (`RetainedDateGoesToNext`, `RetainedDateCrossesPass`,
  `TuesdayStartExample`).
- Not every date after the first is a business day, although the names
  `build_workdays` and `get_next_workday` suggest so. That holds only when
  the start is not a Saturday: a Saturday start is followed by a Sunday,
  because only Friday jumps ahead (`ChainBusinessDays`).
- With `rotations <= 0`, `build_workdays` still returns `[start_date]`
  (rotate.py:96-98), although its docstring speaks of a list of days for
  the number of rotations. The first participant then hits `IndexError`
  (`NoRotationsFails`).

In the code the forbidden weekday is checked only against the front date.
A participant can therefore get the forbidden weekday as `day_2`, or as
`day_1` when the second date of the pool falls on it. The model keeps this
as written.

## Model

| member | source | states |
|---|---|---|
| Workdays.Weekday | rotate.py:17-19 | Python's weekday numbering: a value from 0 (Monday) to 6 (Sunday) |
| Workdays.NextWorkday | rotate.py:107-114 | the result is 3 days later exactly when the day is a Friday and 1 day later otherwise; it is never a Saturday; from anything but a Saturday it is the first business day after the input, with no business day in between; a Saturday is followed by a Sunday |
| Workdays.ChainFrom | rotate.py:96-103 | the first n dates of the pool from a start date: n of them, or just the start date when n < 1, starting with the start date |
| Workdays.ChainFromIsChain | rotate.py:99-103 | each date of that pool after the first is the next workday of the one before |
| Workdays.BuildWorkdays | rotate.py:92-104 | the loop builds exactly `ChainFrom` of the pool size: `participants * 2 * rotations` dates, or one date when that is not positive; it starts with the start date, even on a weekend; each later date is the next workday of the one before |
| Workdays.ChainIncreasing | rotate.py:99-114 | such a pool is strictly increasing, and neighbours are 1 or 3 days apart |
| Workdays.ChainBusinessDays | rotate.py:96-114 | a pool whose start is a business day holds only business days; from the third date on every date is a business day; a non-Saturday start gives business days from the second date on; a Saturday start is followed by a Sunday |
| Workdays.ChainCoversBusinessDays | rotate.py:99-114 | no business day between the first and the last date of the pool is missing from it |
| Workdays.IncreasingHasNoDuplicates | rotate.py:99-103 | a strictly increasing pool holds each date at most once |
| Rotation.TakeCard | rotate.py:68-79 | one turn succeeds exactly when the pool has at least 3 dates, or exactly 2 and the front date is not forbidden; on success it leaves two dates fewer |
| Rotation.PassFrom | rotate.py:66-79 | a successful pass from participant i makes one card per remaining participant and removes two dates per card |
| Rotation.Assign | rotate.py:65-80 | a successful assignment makes exactly half as many cards as the pool has dates |
| Rotation.TakeTurn | rotate.py:68-78 | the pops on the list give exactly `TakeCard`: the same card and remaining pool, or `IndexError` when an index is past the end |
| Rotation.CreateRotationDays | rotate.py:55-80 | the nested popping loops give exactly `Assign` over the pool `ChainFrom(start, PoolSize(...))` that `build_workdays` returns, an `IndexError` included |
| RotationProperties.TakeCardConserves | rotate.py:68-79 | the card belongs to the participant; the pool before equals, as a multiset, the card's two dates plus the pool after |
| RotationProperties.TakeCardKeepsOrder | rotate.py:68-77 | from an increasing pool: day_1 < day_2, and the remaining pool, including the kept front date, is still increasing |
| RotationProperties.RetainedDateGoesToNext | rotate.py:66-77 | anywhere in a pass, a participant who may not take the front date gets the second and third dates; the next participant of the pass, if allowed, gets the kept front date and the fourth date |
| RotationProperties.RetainedDateCrossesPass | rotate.py:65-77 | when the last participant of a pass may not take the front date, the pass ends with that participant's card on the second and third dates and leaves the front date at the head of the pool; the first participant of the next pass, if allowed, gets it with the fourth date |
| RotationProperties.PassFromFollowsRoster | rotate.py:66-79 | the k-th card of a pass from participant i belongs to participant i + k |
| RotationProperties.PassFromConserves | rotate.py:66-79 | a pass moves dates from the pool into its cards, with nothing lost or added |
| RotationProperties.PassFromKeepsOrder | rotate.py:66-79 | over an increasing pool every card of a pass has day_1 < day_2, and the rest of the pool stays increasing |
| RotationProperties.AssignUsesEveryDate | rotate.py:65-79 | the cards hold exactly the dates of the pool, each as often as it occurs there (a permutation) |
| RotationProperties.AssignFollowsRoster | rotate.py:65-79 | card j belongs to participant j mod R, R the roster length (roster order, cycle after cycle) |
| RotationProperties.AssignKeepsOrder | rotate.py:65-79 | over an increasing pool every card has day_1 strictly before day_2 |
| RotationProperties.PassFromCompletes | rotate.py:66-77 | a pass with two dates per remaining participant cannot fail, unless the last participant has exactly two dates left and a forbidden weekday |
| RotationProperties.AssignCompletes | rotate.py:65-79 | a pool of 2 * R * k (R the roster length) dates, with no forbidden weekday for the last participant, gives R * k cards and no fault |
| RotationProperties.PassFaultFailsRun | rotate.py:65-79 | a fault in any pass the run reaches, after k whole passes, is the fault of the whole run: nothing catches the `IndexError`, whatever cards came before |
| RotationProperties.LastParticipantFails | rotate.py:66-72 | for any roster, its last participant facing two dates and a forbidden front date gives `IndexError` (`working_days[1]` is read after `pop(1)`); a run fails when any pass it reaches, first or later, gets to that point, whatever cards came before |
| RotationProperties.SundayStartFails | rotate.py:64-72 | the fault is reachable from a built pool: one rotation from Sunday 2020-01-05 with a two-person roster whose last participant may not take a Tuesday gives the pool Sunday to Wednesday and ends in `IndexError` |
| RotationProperties.SecondPassFails | rotate.py:64-79 | with the two rotations `make_cards` asks for (rotate.py:50), the fault comes in a later pass: from Monday 2020-01-06 with a two-person roster whose last participant may not take a Tuesday, the first pass succeeds and the run ends in `IndexError` in the second |
| RotationProperties.SingleDateFails | rotate.py:75-76 | a pool of one date gives `IndexError`: the first participant needs two dates |
| RotationProperties.PoolSizeSign | rotate.py:95-98 | with a non-empty roster, the pool has one date when rotations <= 0 and `2 * participants * rotations` dates otherwise |
| RotationProperties.NoRotationsFails | rotate.py:92-98 | with rotations <= 0 the pool is the start date alone, and the run raises `IndexError` |
| RotationProperties.RotationScheduleCompletes | rotate.py:64-80 | with rotations >= 1 and no forbidden weekday for the last participant, the run succeeds with (roster length) * rotations cards |
| RotationProperties.RotationScheduleCards | rotate.py:55-80 | a successful run with rotations >= 1 makes (roster length) * rotations cards; they use every pool date exactly once, no date twice, and each has day_1 < day_2 |
| RotationProperties.ColumnsNeverFail | rotate.py:21-26 | with the shipped roster (thomas last, with `avoid` None), every run with rotations >= 1 succeeds and makes 4 cards per rotation |
| RotationProperties.TuesdayStartExample | rotate.py:64-79 | the pool for one rotation from Tuesday 2020-01-07 is Tuesday to Friday, then Monday to Thursday; starting on Tuesday 2020-01-07 with one rotation: karl, who may not take a Tuesday, gets Wednesday and Thursday; dennis gets the kept Tuesday and the Friday; ksenia and thomas get the next week's Monday–Tuesday and Wednesday–Thursday |

## Left out

- `make_cards` (rotate.py:39-52): the click command line, prompt and echo are user-interface glue. The fixed `rotations=2` it passes is an ordinary argument here.
- `get_start_date` (rotate.py:83-89): parsing with `strptime`, and its `ValueError`, sit outside the core. The model takes the start date already as a day number.
- `create_card` (rotate.py:117-130): the HTTP POST to the GitHub API is network I/O, and the `strftime` labels are library formatting.
- `load_dotenv`, `os.getenv` for `OAUTH_TOKEN` and `PROJECT_ID`, and `HEADERS` (rotate.py:11-16, 28-32): environment and configuration plumbing.
- The local `gap` (rotate.py:100) is computed and never used, so it has no effect.
- Python's date range: past 9999-12-31 `timedelta` addition raises `OverflowError`. The day numbers here are unbounded.
- An empty roster: the `while working_days` loop never ends, because the inner `for` takes nothing. `CreateRotationDays` and `Assign` therefore require a non-empty roster.
- The `COLUMNS` dict is a sequence in insertion order, with the key as `columnId`. Key uniqueness is not modelled, because the algorithm never relies on it.
- The list popped in place is a local sequence that `CreateRotationDays` reassigns. The source list is local to the function, so no aliasing is lost.
