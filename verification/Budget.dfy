/** Natural-number facts shared by the epoch and budget arguments. */
module Arithmetic {

  lemma {:induction false} MulMonotone(x: nat, y: nat, e: nat)
    ensures x < y ==> x * e + e <= y * e
  {
    assert (y - 1) * e == y * e - e;
    if x < y - 1 { MulMonotone(x, y - 1, e); }
  }
}

/** One-second tumbling budgets and what they let through in any span of time. */
module Budget {
  import opened Wrappers
  import opened Arithmetic

  /** Nanoseconds since the zero time. */
  type Time = nat

  const SECOND: nat := 1_000_000_000

  datatype Counter = Counter(start: Time, count: nat)

  /** Whether the draw passes, and the counter afterwards; a cap of 0 or less disables the budget. */
  function Draw(c: Option<Counter>, amount: nat, cap: int, now: Time): (r: (bool, Option<Counter>)) {
    if cap <= 0 then (true, c)
    else if c.None? || now - c.value.start >= SECOND then
      (amount <= cap, Some(Counter(now, if amount > cap then cap else amount)))
    else if c.value.count + amount > cap then (false, c)
    else (true, Some(Counter(c.value.start, c.value.count + amount)))
  }

  predicate Stale(c: Counter, now: Time) { now - c.start > 2 * SECOND }

  /** A stale counter and no counter at all answer every draw alike. */
  lemma StaleIsAbsent(c: Counter, amount: nat, cap: int, now: Time)
    requires Stale(c, now)
    ensures Draw(Some(c), amount, cap, now).0 == Draw(None, amount, cap, now).0
    ensures cap > 0 ==> Draw(Some(c), amount, cap, now) == Draw(None, amount, cap, now)
  {
  }

  /** The whole windows between lo and t, plus the one that may have begun before lo. */
  function Windows(lo: Time, t: Time): nat
    requires lo <= t
  {
    1 + (t - lo) / SECOND
  }

  /** Bookkeeping for one budget at time t: passed is what it let through in [lo, lo + k s). */
  ghost predicate Account(c: Option<Counter>, cap: nat, passed: nat, lo: Time, k: nat, t: Time) {
    && (t < lo ==> passed == 0)
    && passed <= (k + 1) * cap
    && (c.Some? ==>
          && c.value.start <= t && c.value.count <= cap
          && (c.value.start < lo ==> passed <= c.value.count)
          && (lo <= c.value.start < lo + k * SECOND ==>
                passed <= Windows(lo, c.value.start) * cap + c.value.count))
    && (c.None? && lo <= t < lo + k * SECOND ==> passed <= Windows(lo, t) * cap)
  }

  lemma WindowsApart(lo: Time, s: Time, t: Time, cap: nat)
    requires lo <= s && s + SECOND <= t
    ensures Windows(lo, s) * cap + cap <= Windows(lo, t) * cap
  {
    MulMonotone(Windows(lo, s), Windows(lo, t), cap);
  }

  lemma WindowsMonotone(lo: Time, s: Time, t: Time, cap: nat)
    requires lo <= s <= t
    ensures cap <= Windows(lo, s) * cap <= Windows(lo, t) * cap
  {
    MulMonotone(Windows(lo, s), Windows(lo, t), cap);
    MulMonotone(0, Windows(lo, s), cap);
  }

  lemma WindowsBound(lo: Time, s: Time, k: nat, cap: nat)
    requires lo <= s < lo + k * SECOND
    ensures Windows(lo, s) * cap + cap <= (k + 1) * cap
  {
    MulMonotone(Windows(lo, s), k + 1, cap);
  }

  /** What one draw at now adds to the amount passed in [lo, lo + k s). */
  function Counted(c: Option<Counter>, amount: nat, cap: int, now: Time, lo: Time, k: nat): nat {
    if Draw(c, amount, cap, now).0 && lo <= now < lo + k * SECOND then amount else 0
  }

  lemma AccountIdle(c: Option<Counter>, cap: nat, passed: nat, lo: Time, k: nat, t: Time, now: Time)
    requires Account(c, cap, passed, lo, k, t) && t <= now
    ensures Account(c, cap, passed, lo, k, now)
  {
    if lo <= now { WindowsMonotone(lo, if t < lo then lo else t, now, cap); }
  }

  /** Dropping a stale counter loses nothing. */
  lemma AccountSweep(c: Counter, cap: nat, passed: nat, lo: Time, k: nat, t: Time)
    requires Account(Some(c), cap, passed, lo, k, t) && Stale(c, t)
    ensures Account(None, cap, passed, lo, k, t)
  {
    if lo <= t < lo + k * SECOND {
      if c.start < lo { WindowsMonotone(lo, lo, t, cap); } else { WindowsApart(lo, c.start, t, cap); }
    }
  }

  lemma AccountFresh(c: Option<Counter>, amount: nat, cap: nat, passed: nat, lo: Time, k: nat, now: Time)
    requires cap > 0 && Account(c, cap, passed, lo, k, now)
    requires c.None? || now - c.value.start >= SECOND
    ensures Account(Draw(c, amount, cap, now).1, cap, passed + Counted(c, amount, cap, now, lo, k), lo, k, now)
  {
    if lo <= now < lo + k * SECOND {
      WindowsBound(lo, now, k, cap);
      WindowsMonotone(lo, lo, now, cap);
      if c.Some? && lo <= c.value.start { WindowsApart(lo, c.value.start, now, cap); }
    }
  }

  lemma AccountSame(c: Option<Counter>, amount: nat, cap: nat, passed: nat, lo: Time, k: nat, now: Time)
    requires cap > 0 && Account(c, cap, passed, lo, k, now)
    requires c.Some? && now - c.value.start < SECOND
    ensures Account(Draw(c, amount, cap, now).1, cap, passed + Counted(c, amount, cap, now, lo, k), lo, k, now)
  {
    MulMonotone(0, k + 1, cap);
    if lo <= c.value.start < lo + k * SECOND { WindowsBound(lo, c.value.start, k, cap); }
  }

  /** Every draw keeps the account. */
  lemma AccountDraw(c: Option<Counter>, amount: nat, cap: nat, passed: nat, lo: Time, k: nat, t: Time, now: Time)
    requires cap > 0 && Account(c, cap, passed, lo, k, t) && t <= now
    ensures Account(Draw(c, amount, cap, now).1, cap, passed + Counted(c, amount, cap, now, lo, k), lo, k, now)
  {
    AccountIdle(c, cap, passed, lo, k, t, now);
    if c.None? || now - c.value.start >= SECOND {
      AccountFresh(c, amount, cap, passed, lo, k, now);
    } else {
      AccountSame(c, amount, cap, passed, lo, k, now);
    }
  }

  // The budget on its own

  /** The draws of one budget in time order; between draws a stale counter may be dropped. */
  datatype Event = Ask(at: Time, amount: nat) | Sweep(at: Time)

  predicate Ordered(es: seq<Event>) {
    forall i, j :: 0 <= i < j < |es| ==> es[i].at <= es[j].at
  }

  function After(c: Option<Counter>, cap: int, e: Event): Option<Counter> {
    match e
    case Ask(at, amount) => Draw(c, amount, cap, at).1
    case Sweep(at) => if c.Some? && Stale(c.value, at) then None else c
  }

  function CounterAt(cap: int, es: seq<Event>, n: nat): Option<Counter>
    requires n <= |es|
  {
    if n == 0 then None else After(CounterAt(cap, es, n - 1), cap, es[n - 1])
  }

  function PassedIn(cap: int, es: seq<Event>, n: nat, lo: Time, k: nat): nat
    requires n <= |es|
  {
    if n == 0 then 0
    else PassedIn(cap, es, n - 1, lo, k)
         + match es[n - 1]
           case Ask(at, amount) => Counted(CounterAt(cap, es, n - 1), amount, cap, at, lo, k)
           case Sweep(_) => 0
  }

  /** At most (k + 1) * cap units pass in any k seconds, whatever the draws and sweeps. */
  lemma {:induction false} BudgetBound(cap: nat, es: seq<Event>, n: nat, lo: Time, k: nat)
    requires cap > 0 && Ordered(es) && n <= |es|
    ensures PassedIn(cap, es, n, lo, k) <= (k + 1) * cap
    ensures Account(CounterAt(cap, es, n), cap, PassedIn(cap, es, n, lo, k), lo, k, if n == 0 then 0 else es[n - 1].at)
  {
    if n == 0 {
      MulMonotone(0, k + 1, cap);
    } else {
      BudgetBound(cap, es, n - 1, lo, k);
      var t, c := if n == 1 then 0 else es[n - 2].at, CounterAt(cap, es, n - 1);
      match es[n - 1]
      case Ask(at, amount) => AccountDraw(c, amount, cap, PassedIn(cap, es, n - 1, lo, k), lo, k, t, at);
      case Sweep(at) =>
        AccountIdle(c, cap, PassedIn(cap, es, n - 1, lo, k), lo, k, t, at);
        if c.Some? && Stale(c.value, at) { AccountSweep(c.value, cap, PassedIn(cap, es, n - 1, lo, k), lo, k, at); }
    }
  }

  /** However oversized the draws before, asking for nothing is never refused. */
  lemma NothingIsGranted(cap: nat, es: seq<Event>, n: nat, at: Time)
    requires cap > 0 && Ordered(es) && n <= |es|
    ensures Draw(CounterAt(cap, es, n), 0, cap, at).0
  {
    BudgetBound(cap, es, n, 0, 0);
  }

  /** The units asked for in the first n events at or after a time, granted or not. */
  function Asked(es: seq<Event>, n: nat, from: int): nat
    requires n <= |es|
  {
    if n == 0 then 0
    else Asked(es, n - 1, from) + if es[n - 1].Ask? && es[n - 1].at >= from then es[n - 1].amount else 0
  }

  lemma {:induction false} AskedMonotone(es: seq<Event>, n: nat, from: int, later: int)
    requires n <= |es| && from <= later
    ensures Asked(es, n, later) <= Asked(es, n, from)
  {
    if n > 0 { AskedMonotone(es, n - 1, from, later); }
  }

  lemma {:induction false} CountIsAsked(cap: int, es: seq<Event>, n: nat)
    requires Ordered(es) && n <= |es|
    ensures match CounterAt(cap, es, n)
            case None => true
            case Some(c) => n > 0 && c.start <= es[n - 1].at && c.count <= Asked(es, n, c.start)
  {
    if n > 0 { CountIsAsked(cap, es, n - 1); }
  }

  /** What the budget refuses would, with what was asked in the second before, have been over its cap: asking for no
      more than the cap in any second is never refused. */
  lemma RefusedIsAsked(cap: int, es: seq<Event>, n: nat)
    requires Ordered(es) && n < |es| && es[n].Ask?
    requires !Draw(CounterAt(cap, es, n), es[n].amount, cap, es[n].at).0
    ensures Asked(es, n, es[n].at - SECOND + 1) + es[n].amount > cap
  {
    CountIsAsked(cap, es, n);
    var c := CounterAt(cap, es, n);
    if c.Some? && es[n].at - c.value.start < SECOND { AskedMonotone(es, n, es[n].at - SECOND + 1, c.value.start); }
  }
}
