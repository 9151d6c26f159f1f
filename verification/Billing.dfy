/**
 Saving a new billing cycle day (backend/app/routers/settings.py) against the tables it writes to: the
 organisation's periods and budgets with their unique keys, inside a transaction.

 A row is known by its position.  A statement that would break a unique key fails and changes nothing; a
 request that fails leaves what was last committed.
 */
module Billing {
  import opened Options
  import opened Calendar

  // A period without an end is open.
  datatype Period = Period(org: nat, start: Date, end: Option<Date>)

  datatype Budget = Budget(org: nat, category: nat, periodStart: Date)

  datatype Books = Books(cycleDays: map<nat, int>, periods: seq<Period>, budgets: seq<Budget>)
  {
    predicate Keyed() {
      PeriodsKeyed(periods) && BudgetsKeyed(budgets)
    }

    predicate Dated() {
      forall i :: 0 <= i < |periods| ==>
        Valid(periods[i].start) && (periods[i].end.Some? ==> Valid(periods[i].end.value))
    }
  }

  // One period of an organisation per start date.
  predicate PeriodsKeyed(ps: seq<Period>) {
    forall i, j :: 0 <= i < j < |ps| ==> ps[i].org != ps[j].org || ps[i].start != ps[j].start
  }

  // One budget of an organisation per category and period start.
  predicate BudgetsKeyed(bs: seq<Budget>) {
    forall i, j :: 0 <= i < j < |bs| ==> bs[i] != bs[j]
  }

  predicate IsOpen(p: Period, org: nat) {
    p.org == org && p.end.None?
  }

  // The open period with the latest start.
  function CurrentOpen(ps: seq<Period>, org: nat): (r: Option<nat>)
    ensures r.None? ==> forall i :: 0 <= i < |ps| ==> !IsOpen(ps[i], org)
    ensures r.Some? ==> r.value < |ps| && IsOpen(ps[r.value], org)
    ensures r.Some? ==> forall i :: 0 <= i < |ps| && IsOpen(ps[i], org) ==> Le(ps[i].start, ps[r.value].start)
  {
    if ps == [] then None
    else
      var n, before := |ps| - 1, CurrentOpen(ps[..|ps| - 1], org);
      if IsOpen(ps[n], org) && (before.None? || !Le(ps[n].start, ps[before.value].start)) then Some(n) else before
  }

  function WithStart(ps: seq<Period>, i: nat, start: Date): seq<Period>
    requires i < |ps|
  {
    ps[i := ps[i].(start := start)]
  }

  function Moved(bs: seq<Budget>, org: nat, from: Date, to: Date): seq<Budget> {
    seq(|bs|, i requires 0 <= i < |bs| =>
      if bs[i].org == org && bs[i].periodStart == from then bs[i].(periodStart := to) else bs[i])
  }

  // What a request to save a cycle day commits, or nothing.
  function Saved(b: Books, org: nat, today: Date, newDay: int): Option<Books> {
    var cycleDays, start := b.cycleDays[org := newDay], CurrentPeriodStart(today, newDay);
    if start.None? then None
    else
      var current := CurrentOpen(b.periods, org);
      if current.None? then
        var periods := b.periods + [Period(org, start.value, None)];
        if PeriodsKeyed(periods) then Some(Books(cycleDays, periods, b.budgets)) else None
      else
        var from := b.periods[current.value].start;
        var periods := WithStart(b.periods, current.value, start.value);
        var budgets := Moved(b.budgets, org, from, start.value);
        if PeriodsKeyed(periods) && BudgetsKeyed(budgets) then Some(Books(cycleDays, periods, budgets)) else None
  }

  // ---------- exactly when it is saved ----------

  predicate StartIsTaken(ps: seq<Period>, org: nat, start: Date, except: Option<nat>) {
    exists j :: 0 <= j < |ps| && Some(j) != except && ps[j].org == org && ps[j].start == start
  }

  // Some category has a budget at both starts.
  predicate BudgetsClash(bs: seq<Budget>, org: nat, from: Date, to: Date) {
    exists i, j :: 0 <= i < |bs| && 0 <= j < |bs| && bs[i].org == bs[j].org == org
                   && bs[i].category == bs[j].category && bs[i].periodStart == from && bs[j].periodStart == to
  }

  lemma MovedKeyedIff(bs: seq<Budget>, org: nat, from: Date, to: Date)
    requires BudgetsKeyed(bs)
    ensures BudgetsKeyed(Moved(bs, org, from, to)) <==> from == to || !BudgetsClash(bs, org, from, to)
  {
    var after := Moved(bs, org, from, to);
    if from == to {
      assert after == bs;
    } else if BudgetsClash(bs, org, from, to) {
      var i, j :| 0 <= i < |bs| && 0 <= j < |bs| && bs[i].org == bs[j].org == org
                  && bs[i].category == bs[j].category && bs[i].periodStart == from && bs[j].periodStart == to;
      assert after[i] == after[j] && i != j;
    } else {
      forall i, j | 0 <= i < j < |bs|
        ensures after[i] != after[j]
      {
        assert bs[i] != bs[j];
      }
    }
  }

  // A cycle day is saved unless today has no start for it, another period of the organisation, open or
  // closed, has that start already, or moving the open period would give some category two budgets.
  lemma SavedIff(b: Books, org: nat, today: Date, newDay: int)
    requires b.Keyed()
    ensures var start, current := CurrentPeriodStart(today, newDay), CurrentOpen(b.periods, org);
            Saved(b, org, today, newDay).Some? <==>
              && start.Some? && !StartIsTaken(b.periods, org, start.value, current)
              && (current.Some? && b.periods[current.value].start != start.value ==>
                    !BudgetsClash(b.budgets, org, b.periods[current.value].start, start.value))
  {
    var start, current := CurrentPeriodStart(today, newDay), CurrentOpen(b.periods, org);
    if start.Some? && current.Some? {
      var i := current.value;
      MovedKeyedIff(b.budgets, org, b.periods[i].start, start.value);
      MovingKeyedIff(b.periods, i, start.value);
    } else if start.Some? {
      var after := b.periods + [Period(org, start.value, None)];
      if StartIsTaken(b.periods, org, start.value, None) {
        var j :| 0 <= j < |b.periods| && b.periods[j].org == org && b.periods[j].start == start.value;
        assert after[j].start == after[|b.periods|].start;
      }
    }
  }

  lemma MovingKeyedIff(ps: seq<Period>, i: nat, start: Date)
    requires PeriodsKeyed(ps) && i < |ps|
    ensures PeriodsKeyed(WithStart(ps, i, start)) <==> !StartIsTaken(ps, ps[i].org, start, Some(i))
  {
    var after := WithStart(ps, i, start);
    if StartIsTaken(ps, ps[i].org, start, Some(i)) {
      var j :| 0 <= j < |ps| && j != i && ps[j].org == ps[i].org && ps[j].start == start;
      assert after[j].start == after[i].start;
    }
  }

  // Saving keeps both keys and writes exactly this: the new day; the current period's start, or one new open
  // period; and the period start of the organisation's budgets that stood at the old start.
  lemma SavingKeepsTheBooks(b: Books, org: nat, today: Date, newDay: int)
    requires b.Keyed() && Valid(today) && 1 <= newDay <= 28 && Saved(b, org, today, newDay).Some?
    ensures var b', current := Saved(b, org, today, newDay).value, CurrentOpen(b.periods, org);
            && b'.Keyed() && b'.cycleDays == b.cycleDays[org := newDay] && (b.Dated() ==> b'.Dated())
            && |b'.periods| == |b.periods| + (if current.None? then 1 else 0)
            && (forall i :: 0 <= i < |b.periods| && Some(i) != current ==> b'.periods[i] == b.periods[i])
            && b'.periods[if current.Some? then current.value else |b.periods|]
               == Period(org, CurrentPeriodStart(today, newDay).value, None)
  {
    StartIsTheLatestCycleDay(today, newDay, today);
  }

  // The budgets follow their period: those of the organisation at the old start are at the new one, all
  // others are as they were, and none of the organisation is left behind.
  lemma BudgetsFollowThePeriod(b: Books, org: nat, today: Date, newDay: int, i: nat)
    requires b.Keyed() && Saved(b, org, today, newDay).Some? && i < |b.budgets|
    ensures var b', current := Saved(b, org, today, newDay).value, CurrentOpen(b.periods, org);
            && |b'.budgets| == |b.budgets|
            && b'.budgets[i].org == b.budgets[i].org && b'.budgets[i].category == b.budgets[i].category
            && (current.None? ==> b'.budgets == b.budgets)
            && (current.Some? ==>
                  var from, to := b.periods[current.value].start, b'.periods[current.value].start;
                  && (b.budgets[i].org == org && b.budgets[i].periodStart == from ==> b'.budgets[i].periodStart == to)
                  && (b.budgets[i].org != org || b.budgets[i].periodStart != from ==> b'.budgets[i] == b.budgets[i])
                  && (from != to && b'.budgets[i].org == org ==> b'.budgets[i].periodStart != from))
  {
  }

  // ---------- what the move does to the dates ----------

  // The dates of a period: an open one has come as far as today.
  predicate Holds(p: Period, today: Date, x: Date) {
    Valid(x) && Le(p.start, x) && Le(x, if p.end.Some? then p.end.value else today)
  }

  ghost predicate Overlap(p: Period, q: Period, today: Date) {
    exists x :: Holds(p, today, x) && Holds(q, today, x)
  }

  // The reopened period shares a date with a closed one exactly when its start is not after that one's end
  // and the closed one has begun and is not empty.  Nothing in the request checks for it.
  lemma ReopenedPeriodOverlapsIff(b: Books, org: nat, today: Date, newDay: int, j: nat)
    requires b.Keyed() && b.Dated() && Valid(today) && 1 <= newDay <= 28 && Saved(b, org, today, newDay).Some?
    requires j < |b.periods| && b.periods[j].end.Some?
    ensures var start, q := CurrentPeriodStart(today, newDay).value, b.periods[j];
            Overlap(Period(org, start, None), Saved(b, org, today, newDay).value.periods[j], today) <==>
              Le(start, q.end.value) && Le(q.start, q.end.value) && Le(q.start, today)
  {
    SavingKeepsTheBooks(b, org, today, newDay);
    StartIsTheLatestCycleDay(today, newDay, today);
    var start, q := CurrentPeriodStart(today, newDay).value, b.periods[j];
    var p := Period(org, start, None);
    assert Saved(b, org, today, newDay).value.periods[j] == q;
    if Le(start, q.end.value) && Le(q.start, q.end.value) && Le(q.start, today) {
      var x := if Le(start, q.start) then q.start else start;
      assert Holds(p, today, x) && Holds(q, today, x);
    }
  }

  // A date of the open period that the move leaves behind, and that no closed period holds, is in no period
  // of the organisation any more: exactly the dates before the new start.
  lemma DateIsLostIff(b: Books, org: nat, today: Date, newDay: int, x: Date)
    requires b.Keyed() && Saved(b, org, today, newDay).Some?
    requires CurrentOpen(b.periods, org).Some?
    requires forall i :: 0 <= i < |b.periods| && b.periods[i].org == org && Holds(b.periods[i], today, x) ==>
               Some(i) == CurrentOpen(b.periods, org)
    requires Holds(b.periods[CurrentOpen(b.periods, org).value], today, x)
    ensures (forall p :: p in Saved(b, org, today, newDay).value.periods && p.org == org ==> !Holds(p, today, x))
            <==> !Le(CurrentPeriodStart(today, newDay).value, x)
  {
    var i, start := CurrentOpen(b.periods, org).value, CurrentPeriodStart(today, newDay).value;
    var ps := Saved(b, org, today, newDay).value.periods;
    assert ps[i] == Period(org, start, None) && ps[i] in ps;
    forall p | p in ps && p.org == org && p != ps[i]
      ensures !Holds(p, today, x)
    {
      var k :| 0 <= k < |ps| && ps[k] == p;
      assert b.periods[k] == p;
    }
  }

  // The period opened on 1 May was closed on the 14th and the next one opened on the 15th.  On 20 May the
  // cycle day that is in force cannot be saved again, and day 10 is saved with an overlap.
  lemma ClosingEarlyLocksTheCycleDay(org: nat)
    ensures var may := (d: int) => Date(2026, 5, d);
            var b := Books(map[org := 1], [Period(org, may(1), Some(may(14))), Period(org, may(15), None)], []);
            && b.Keyed() && b.Dated()
            && Saved(b, org, may(20), 1) == None
            && Saved(b, org, may(20), 10) ==
                 Some(Books(map[org := 10], [Period(org, may(1), Some(may(14))), Period(org, may(10), None)], []))
            && Overlap(Period(org, may(10), None), b.periods[0], may(20))
  {
    var may := (d: int) => Date(2026, 5, d);
    var b := Books(map[org := 1], [Period(org, may(1), Some(may(14))), Period(org, may(15), None)], []);
    assert IsOpen(b.periods[1], org);
    assert CurrentOpen(b.periods, org) == Some(1);
    var after := WithStart(b.periods, 1, may(1));
    assert after[0].start == after[1].start;
    assert WithStart(b.periods, 1, may(10)) == [Period(org, may(1), Some(may(14))), Period(org, may(10), None)];
    assert Moved(b.budgets, org, may(15), may(10)) == [];
    assert b.cycleDays[org := 10] == map[org := 10];
    assert Holds(Period(org, may(10), None), may(20), may(10)) && Holds(b.periods[0], may(20), may(10));
  }

  // A budget of the period opened on 1 May follows it to 10 May; those of other starts, and of another
  // organisation, stay.
  lemma ABudgetFollowsItsPeriod(org: nat, other: nat)
    requires org != other
    ensures var may := (d: int) => Date(2026, 5, d);
            var b := Books(map[org := 1], [Period(org, may(1), None)],
                           [Budget(org, 7, may(1)), Budget(org, 7, may(2)), Budget(other, 7, may(1))]);
            && b.Keyed()
            && Saved(b, org, may(20), 10) ==
                 Some(Books(map[org := 10], [Period(org, may(10), None)],
                            [Budget(org, 7, may(10)), Budget(org, 7, may(2)), Budget(other, 7, may(1))]))
  {
    var may := (d: int) => Date(2026, 5, d);
    var b := Books(map[org := 1], [Period(org, may(1), None)],
                   [Budget(org, 7, may(1)), Budget(org, 7, may(2)), Budget(other, 7, may(1))]);
    assert IsOpen(b.periods[0], org) && CurrentOpen(b.periods, org) == Some(0);
    assert WithStart(b.periods, 0, may(10)) == [Period(org, may(10), None)];
    assert Moved(b.budgets, org, may(1), may(10))
           == [Budget(org, 7, may(10)), Budget(org, 7, may(2)), Budget(other, 7, may(1))];
    assert b.cycleDays[org := 10] == map[org := 10];
  }

  // ---------- the request, statement by statement ----------

  class BillingTables {
    var cycleDays: map<nat, int>
    var periods: seq<Period>
    var budgets: seq<Budget>
    var committed: Books

    constructor (books: Books)
      ensures Contents() == committed == books
    {
      cycleDays, periods, budgets := books.cycleDays, books.periods, books.budgets;
      committed := books;
    }

    function Contents(): Books
      reads this
    {
      Books(cycleDays, periods, budgets)
    }

    method Commit()
      modifies this`committed
      ensures committed == Contents()
    {
      committed := Contents();
    }

    method Rollback()
      modifies this
      ensures Contents() == committed == old(committed)
    {
      cycleDays, periods, budgets := committed.cycleDays, committed.periods, committed.budgets;
    }

    method InsertPeriod(p: Period) returns (ok: bool)
      modifies this`periods
      ensures ok == PeriodsKeyed(old(periods) + [p])
      ensures periods == if ok then old(periods) + [p] else old(periods)
    {
      ok := PeriodsKeyed(periods + [p]);
      if ok {
        periods := periods + [p];
      }
    }

    method SetStart(i: nat, start: Date) returns (ok: bool)
      requires i < |periods|
      modifies this`periods
      ensures ok == PeriodsKeyed(WithStart(old(periods), i, start))
      ensures periods == if ok then WithStart(old(periods), i, start) else old(periods)
    {
      ok := PeriodsKeyed(periods[i := periods[i].(start := start)]);
      if ok {
        periods := periods[i := periods[i].(start := start)];
      }
    }

    method MoveBudgets(org: nat, from: Date, to: Date) returns (ok: bool)
      modifies this`budgets
      ensures ok == BudgetsKeyed(Moved(old(budgets), org, from, to))
      ensures budgets == if ok then Moved(old(budgets), org, from, to) else old(budgets)
    {
      ok := BudgetsKeyed(Moved(budgets, org, from, to));
      if ok {
        budgets := Moved(budgets, org, from, to);
      }
    }

    // The open period, or a new one that is committed at once with whatever else the transaction holds.
    // When the start of that one is taken the transaction is rolled back, and the closed period found there
    // is the answer.  There is no answer when the start lies before the first date of all.
    method GetCurrentPeriod(org: nat, today: Date) returns (current: Option<nat>)
      requires Valid(today) && org in cycleDays && 1 <= cycleDays[org] <= 28
      requires PeriodsKeyed(periods) && periods == committed.periods
      modifies this
      ensures var start := CurrentPeriodStart(today, old(cycleDays)[org]);
              if CurrentOpen(old(periods), org).Some? then
                current == CurrentOpen(old(periods), org) && Contents() == old(Contents())
                  && committed == old(committed)
              else if start.None? then current.None? && committed == old(committed)
              else if StartIsTaken(old(periods), org, start.value, None) then
                && Contents() == committed == old(committed)
                && current.Some? && current.value < |periods|
                && periods[current.value].org == org && periods[current.value].start == start.value
              else
                && Contents() == committed && cycleDays == old(cycleDays) && budgets == old(budgets)
                && periods == old(periods) + [Period(org, start.value, None)] && current == Some(|old(periods)|)
    {
      current := CurrentOpen(periods, org);
      if current.Some? {
        return;
      }
      var cycleDay := cycleDays[org];
      var start: Date;
      if cycleDay <= today.day {
        start := Date(today.year, today.month, cycleDay);
      } else if 1 < today.month {
        start := Date(today.year, today.month - 1, cycleDay);
      } else if 1 < today.year {
        start := Date(today.year - 1, 12, cycleDay);
      } else {
        return None;
      }
      assert CurrentPeriodStart(today, cycleDay) == Some(start);
      SavedIff(Books(cycleDays, periods, []), org, today, cycleDay);
      var ok := InsertPeriod(Period(org, start, None));
      if ok {
        Commit();
        return Some(|periods| - 1);
      }
      Rollback();
      var j :| 0 <= j < |periods| && periods[j].org == org && periods[j].start == start;
      return Some(j);
    }

    // Store the new cycle day; the open period restarts at the cycle day on or before today, and the
    // organisation's budgets of the old start move along.  Whatever fails leaves the books as they were.
    method UpdateBillingCycle(org: nat, today: Date, newDay: int)
      requires Valid(today) && 1 <= newDay <= 28 && Contents() == committed && Contents().Keyed()
      modifies this
      ensures var result := Saved(old(Contents()), org, today, newDay);
              Contents() == committed == if result.Some? then result.value else old(Contents())
    {
      SavedIff(Contents(), org, today, newDay);
      cycleDays := cycleDays[org := newDay];
      var current := GetCurrentPeriod(org, today);
      if current.None? {
        Rollback();
        return;
      }
      var i := current.value;
      if periods[i].end.None? {
        var oldStart := periods[i].start;
        var newStart: Date;
        if today.day >= newDay {
          newStart := Date(today.year, today.month, newDay);
        } else {
          var prev := PreviousDay(Date(today.year, today.month, 1));
          if prev.year < 1 {
            Rollback();
            return;
          }
          newStart := Date(prev.year, prev.month, newDay);
        }
        var ok := SetStart(i, newStart);
        if ok && oldStart != newStart {
          ok := MoveBudgets(org, oldStart, newStart);
        }
        if !ok {
          Rollback();
          return;
        }
      }
      Commit();
    }
  }
}
