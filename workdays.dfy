/** The calendar side of the rotation scheduler in rotate.py: weekdays, the
    next working day, and the pool of working days the rotation consumes. */
module Workdays {

  /** A calendar date as a day number: the proleptic Gregorian ordinal that
      Python's date.toordinal() gives (0001-01-01 is day 1, a Monday), so
      that adding a timedelta of n days adds n. */
  type Date = int

  const Friday := 4
  const Saturday := 5
  const Sunday := 6

  /** Python's date.weekday(): Monday is 0, Sunday is 6. */
  function Weekday(d: Date): (w: int)
    ensures 0 <= w < 7
  {
    (d + 6) % 7
  }

  /** Monday to Friday. */
  predicate IsBusinessDay(d: Date) {
    Weekday(d) < Saturday
  }

  /** get_next_workday: a Friday moves on three days, any other day one.
      From anything but a Saturday this is the first business day after d;
      a Saturday is followed by a Sunday. */
  function NextWorkday(d: Date): (r: Date)
    ensures d < r
    ensures r - d == 3 <==> Weekday(d) == Friday
    ensures r - d == 1 <==> Weekday(d) != Friday
    ensures Weekday(r) != Saturday
    ensures Weekday(d) == Saturday ==> Weekday(r) == Sunday
    ensures Weekday(d) != Saturday ==>
              IsBusinessDay(r) && forall e :: d < e < r ==> !IsBusinessDay(e)
  {
    if Weekday(d) == Friday then d + 3 else d + 1
  }

  /** Each date after the first is the next workday of the one before it. */
  predicate IsChain(s: seq<Date>) {
    forall i :: 0 <= i < |s| - 1 ==> s[i + 1] == NextWorkday(s[i])
  }

  predicate StrictlyIncreasing(s: seq<Date>) {
    forall i, j :: 0 <= i < j < |s| ==> s[i] < s[j]
  }

  /** Number of dates build_workdays returns: nb_days = participants * 2 *
      rotations, except that the list always holds start_date, so a
      non-positive nb_days still yields one date. */
  function PoolSize(participants: nat, rotations: int): nat {
    var nbDays := participants * 2 * rotations;
    if nbDays >= 1 then nbDays else 1
  }

  /** The first n dates of the pool that starts at start (at least the start
      itself): each next date is the next workday of the last one. */
  function ChainFrom(start: Date, n: int): (r: seq<Date>)
    decreases n
    ensures |r| == (if n >= 1 then n else 1) && r[0] == start
  {
    if n <= 1 then [start]
    else
      var p := ChainFrom(start, n - 1);
      p + [NextWorkday(p[|p| - 1])]
  }

  /** ChainFrom is a next-workday chain. */
  lemma {:induction false} ChainFromIsChain(start: Date, n: int)
    decreases n
    ensures IsChain(ChainFrom(start, n))
  {
    if n > 1 {
      ChainFromIsChain(start, n - 1);
      var p := ChainFrom(start, n - 1);
      var r := ChainFrom(start, n);
      assert r == p + [NextWorkday(p[|p| - 1])];
      forall i | 0 <= i < |r| - 1 ensures r[i + 1] == NextWorkday(r[i]) {
        if i < |p| - 1 {
          assert r[i] == p[i] && r[i + 1] == p[i + 1];
        }
      }
    }
  }

  /** build_workdays: start_date followed by repeated next workdays, counted
      down by day_counter. */
  method BuildWorkdays(start: Date, participants: nat, rotations: int) returns (days: seq<Date>)
    ensures days == ChainFrom(start, PoolSize(participants, rotations))
    ensures |days| == PoolSize(participants, rotations)
    ensures days[0] == start
    ensures IsChain(days)
  {
    var nbDays := participants * 2 * rotations;
    var dayCounter := nbDays - 1;
    var day := start;
    days := [start];
    while dayCounter > 0
      invariant |days| >= 1 && days[0] == start && day == days[|days| - 1]
      invariant days == ChainFrom(start, |days|)
      invariant |days| + dayCounter == nbDays
      invariant dayCounter >= 0 || dayCounter == nbDays - 1
      decreases dayCounter
    {
      day := NextWorkday(day);
      days := days + [day];
      dayCounter := dayCounter - 1;
    }
    ChainFromIsChain(start, |days|);
  }

  /** The pool is strictly increasing, one or three days between
      neighbours, and so holds no date twice. */
  lemma {:induction false} ChainIncreasing(s: seq<Date>)
    requires IsChain(s)
    ensures StrictlyIncreasing(s)
    ensures forall i :: 0 <= i < |s| - 1 ==> s[i + 1] - s[i] == 1 || s[i + 1] - s[i] == 3
  {
    if |s| > 1 {
      var t := s[1..];
      assert IsChain(t) by {
        forall i | 0 <= i < |t| - 1 ensures t[i + 1] == NextWorkday(t[i]) {
          assert t[i + 1] == s[i + 2] && t[i] == s[i + 1];
        }
      }
      ChainIncreasing(t);
      forall i, j | 0 <= i < j < |s| ensures s[i] < s[j] {
        if i == 0 {
          assert s[0] < s[1];
          if j > 1 { assert s[1] == t[0] && s[j] == t[j - 1]; }
        } else {
          assert s[i] == t[i - 1] && s[j] == t[j - 1];
        }
      }
    }
  }

  /** A pool that starts on a business day holds only business days; from
      the third date on it always does, whatever the start; and a Saturday
      start is followed by a Sunday. */
  lemma {:induction false} ChainBusinessDays(s: seq<Date>)
    requires IsChain(s)
    ensures forall i :: 2 <= i < |s| ==> IsBusinessDay(s[i])
    ensures |s| > 0 && Weekday(s[0]) != Saturday ==> forall i :: 1 <= i < |s| ==> IsBusinessDay(s[i])
    ensures |s| > 0 && IsBusinessDay(s[0]) ==> forall i :: 0 <= i < |s| ==> IsBusinessDay(s[i])
    ensures |s| > 1 && Weekday(s[0]) == Saturday ==> Weekday(s[1]) == Sunday
  {
    forall i | 2 <= i < |s| ensures IsBusinessDay(s[i]) {
      assert s[i - 1] == NextWorkday(s[i - 2]);
      assert s[i] == NextWorkday(s[i - 1]);
    }
    if |s| > 1 {
      assert s[1] == NextWorkday(s[0]);
    }
  }

  /** No business day is skipped: every business day between the first and
      the last date of the pool is in the pool. */
  lemma {:induction false} ChainCoversBusinessDays(s: seq<Date>)
    requires IsChain(s) && |s| > 0
    ensures forall e :: s[0] <= e <= s[|s| - 1] && IsBusinessDay(e) ==> e in s
  {
    if |s| > 1 {
      var t := s[1..];
      assert IsChain(t) by {
        forall i | 0 <= i < |t| - 1 ensures t[i + 1] == NextWorkday(t[i]) {
          assert t[i + 1] == s[i + 2] && t[i] == s[i + 1];
        }
      }
      ChainCoversBusinessDays(t);
      forall e | s[0] <= e <= s[|s| - 1] && IsBusinessDay(e) ensures e in s {
        if e != s[0] {
          assert s[1] == NextWorkday(s[0]);
          assert t[0] <= e <= t[|t| - 1];
          assert e in t;
        }
      }
    }
  }

  /** A strictly increasing pool holds every date at most once. */
  lemma {:induction false} IncreasingHasNoDuplicates(s: seq<Date>)
    requires StrictlyIncreasing(s)
    ensures forall d :: multiset(s)[d] <= 1
  {
    if s != [] {
      var t := s[1..];
      assert s == [s[0]] + t;
      assert StrictlyIncreasing(t) by {
        forall i, j | 0 <= i < j < |t| ensures t[i] < t[j] {
          assert t[i] == s[i + 1] && t[j] == s[j + 1];
        }
      }
      IncreasingHasNoDuplicates(t);
      assert s[0] !in t by {
        forall k | 0 <= k < |t| ensures t[k] != s[0] {
          assert t[k] == s[k + 1];
        }
      }
      assert multiset(s) == multiset{s[0]} + multiset(t);
    }
  }
}
