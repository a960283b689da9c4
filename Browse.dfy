/** The `/brouse` page of both apps: twelve daily fractals per page, going back in
    time from today. Days are numbered consecutively, one integer per day. */
module Browse {
  import opened Basics

  const PerPage: nat := 12

  datatype Listing = Listing(page: nat, days: seq<int>)

  /** The days shown on a page: `[first - i * one_day for i in range(12)]` with
      `first = today - 12 * page * one_day`. */
  function PageDays(page: nat, today: int): (days: seq<int>)
  {
    seq(PerPage, i => today - PerPage * page - i)
  }

  /** `brouse()`: a missing or unreadable page is 0, a negative one is clamped to 0. */
  function Brouse(pageArg: Option<int>, today: int): (r: Listing)
    ensures r.page == if pageArg.Some? && pageArg.value > 0 then pageArg.value else 0
    ensures |r.days| == PerPage && r.days[0] == today - PerPage * r.page
    ensures forall i :: 0 < i < |r.days| ==> r.days[i] == r.days[i - 1] - 1
  {
    var requested := pageArg.GetOr(0);
    var page := if requested < 0 then 0 else requested;
    Listing(page, PageDays(page, today))
  }

  /** Reference definition: `n` consecutive days counting down from `from`. */
  function Countdown(from: int, n: nat): seq<int>
    decreases n
  {
    if n == 0 then [] else [from] + Countdown(from - 1, n - 1)
  }

  /** The days of pages 0 to n - 1, in order. */
  function Pages(today: int, n: nat): seq<int>
  {
    if n == 0 then [] else Pages(today, n - 1) + PageDays(n - 1, today)
  }

  lemma {:induction false} CountdownAt(from: int, n: nat, i: nat)
    requires i < n
    ensures |Countdown(from, n)| == n && Countdown(from, n)[i] == from - i
    decreases n
  {
    if i > 0 {
      CountdownAt(from - 1, n - 1, i - 1);
    } else if n > 1 {
      CountdownAt(from - 1, n - 1, 0);
    }
  }

  lemma {:induction false} CountdownLength(from: int, n: nat)
    ensures |Countdown(from, n)| == n
    decreases n
  {
    if n > 0 {
      CountdownLength(from - 1, n - 1);
    }
  }

  lemma {:induction false} CountdownSplit(from: int, a: nat, b: nat)
    ensures Countdown(from, a + b) == Countdown(from, a) + Countdown(from - a, b)
    decreases a
  {
    if a > 0 {
      CountdownSplit(from - 1, a - 1, b);
    }
  }

  /** One page is a twelve-day countdown from its first day. */
  lemma PageIsCountdown(page: nat, today: int)
    ensures PageDays(page, today) == Countdown(today - PerPage * page, PerPage)
  {
    var c := Countdown(today - PerPage * page, PerPage);
    CountdownLength(today - PerPage * page, PerPage);
    forall i | 0 <= i < PerPage
      ensures PageDays(page, today)[i] == c[i]
    {
      CountdownAt(today - PerPage * page, PerPage, i);
    }
  }

  /** Pages tile the past: pages 0 to n - 1 together show the last 12 * n days,
      each exactly once, newest first. */
  lemma {:induction false} PagesTile(today: int, n: nat)
    ensures Pages(today, n) == Countdown(today, PerPage * n)
    decreases n
  {
    if n > 0 {
      PagesTile(today, n - 1);
      PageIsCountdown(n - 1, today);
      CountdownSplit(today, PerPage * (n - 1), PerPage);
    }
  }

  /** The first day of page p + 1 is the day before the last day of page p. */
  lemma ConsecutivePagesAdjoin(today: int, p: nat)
    ensures PageDays(p + 1, today)[0] == PageDays(p, today)[PerPage - 1] - 1
  {
  }
}
