/** What the relay's budgets let through in any span of time, and the absolute bound on its pin table. */
module RelayBudgets {
  import opened Wrappers
  import opened Arithmetic
  import opened Budget
  import opened RelaySpec
  import opened PinMachine
  import opened RelayRuns

  /** The five budgets: two across all sources, two per source address, one per destination name. */
  datatype Meter = AllPackets | AllBytes | SourcePackets(src: Endpoint) | SourceBytes(src: Endpoint)
                 | NameBytes(name: Name)

  function CapOf(cfg: Config, m: Meter): int {
    match m
    case AllPackets => cfg.globalMaxPPS
    case AllBytes => cfg.globalMaxBytesPS
    case SourcePackets(_) => cfg.maxPPS
    case SourceBytes(_) => cfg.maxBytesPS
    case NameBytes(_) => cfg.nameQuotaBytes
  }

  function CounterOf(st: State, m: Meter): Option<Counter> {
    match m
    case AllPackets => Some(st.globals.rate)
    case AllBytes => Some(st.globals.bytes)
    case SourcePackets(src) => Lookup(st.sources.rate, src)
    case SourceBytes(src) => Lookup(st.sources.bytes, src)
    case NameBytes(name) => Lookup(st.nameBytes, name)
  }

  function AmountOf(e: Arrival, m: Meter): nat {
    match m
    case AllPackets | SourcePackets(_) => 1
    case AllBytes | SourceBytes(_) => e.len
    case NameBytes(_) => if e.packet.Some? then |e.packet.value.frame| else 0
  }

  /** The units a packet was let through for, read off its outcome alone. */
  function Units(o: Outcome, e: Arrival, m: Meter): nat {
    var past := match m
                case AllPackets | AllBytes => !o.Malformed? && !o.GlobalLimited?
                case SourcePackets(src) => e.src == src && Admitted(o) && !o.SourceLimited?
                case SourceBytes(src) => e.src == src && Admitted(o) && !o.SourceLimited?
                case NameBytes(name) => e.packet.Some? && e.packet.value.dst == name && (o.WrapFailed? || o.Forward?);
    if past then AmountOf(e, m) else 0
  }

  /** What packet and outcome add to the units passed in [lo, lo + k s). */
  function Passed(o: Outcome, e: Arrival, m: Meter, lo: Time, k: nat): nat {
    if lo <= e.now < lo + k * SECOND then Units(o, e, m) else 0
  }

  function Total(cfg: Config, sweeping: bool, ev: seq<Arrival>, n: nat, m: Meter, lo: Time, k: nat): nat
    requires n <= |ev|
  {
    if n == 0 then 0
    else Total(cfg, sweeping, ev, n - 1, m, lo, k) + Passed(OutcomeAt(cfg, sweeping, ev, n - 1), ev[n - 1], m, lo, k)
  }

  /** A packet leaves a counter alone and passes nothing, or draws on it and passes at most what was granted. */
  ghost predicate Draws(c: Option<Counter>, after: Option<Counter>, amount: nat, cap: int, now: Time, units: nat) {
    || (after == c && units == 0)
    || (after == Draw(c, amount, cap, now).1 && units <= (if Draw(c, amount, cap, now).0 then amount else 0))
  }

  lemma AccountMonotone(c: Option<Counter>, cap: nat, most: nat, passed: nat, lo: Time, k: nat, t: Time)
    requires Account(c, cap, most, lo, k, t) && passed <= most
    ensures Account(c, cap, passed, lo, k, t)
  {
  }

  lemma AccountDrawn(c: Option<Counter>, after: Option<Counter>, amount: nat, cap: nat, now: Time, units: nat,
                     passed: nat, lo: Time, k: nat, t: Time)
    requires cap > 0 && Account(c, cap, passed, lo, k, t) && t <= now && Draws(c, after, amount, cap, now, units)
    ensures Account(after, cap, passed + (if lo <= now < lo + k * SECOND then units else 0), lo, k, now)
  {
    if after == c && units == 0 {
      AccountIdle(c, cap, passed, lo, k, t, now);
    } else {
      AccountDraw(c, amount, cap, passed, lo, k, t, now);
      AccountMonotone(after, cap, passed + Counted(c, amount, cap, now, lo, k),
                      passed + (if lo <= now < lo + k * SECOND then units else 0), lo, k, now);
    }
  }

  lemma SharedDraws(cfg: Config, st: State, p: Arrival, m: Meter)
    requires p.packet.Some? && (m.AllPackets? || m.AllBytes?)
    ensures var s := Admit(cfg, st, p.packet.value, p.len, p.src, p.now);
            Draws(CounterOf(st, m), CounterOf(s.st, m), AmountOf(p, m), CapOf(cfg, m), p.now, Units(s.outcome, p, m))
  {
  }

  lemma SourceDraws(cfg: Config, st: State, p: Arrival, m: Meter)
    requires p.packet.Some? && (m.SourcePackets? || m.SourceBytes?)
    ensures var s := Admit(cfg, st, p.packet.value, p.len, p.src, p.now);
            Draws(CounterOf(st, m), CounterOf(s.st, m), AmountOf(p, m), CapOf(cfg, m), p.now, Units(s.outcome, p, m))
  {
  }

  lemma NameDraws(cfg: Config, st: State, p: Arrival, m: Meter)
    requires p.packet.Some? && m.NameBytes?
    ensures var s := Admit(cfg, st, p.packet.value, p.len, p.src, p.now);
            Draws(CounterOf(st, m), CounterOf(s.st, m), AmountOf(p, m), CapOf(cfg, m), p.now, Units(s.outcome, p, m))
  {
  }

  lemma SweepKeepsAccount(cfg: Config, st: State, now: Time, m: Meter, cap: nat, passed: nat, lo: Time, k: nat)
    requires Account(CounterOf(st, m), cap, passed, lo, k, now)
    ensures Account(CounterOf(Swept(cfg, st, now), m), cap, passed, lo, k, now)
  {
    var c := CounterOf(st, m);
    if c.Some? && Stale(c.value, now) { AccountSweep(c.value, cap, passed, lo, k, now); }
  }

  lemma AdmitKeepsAccount(cfg: Config, st: State, e: Arrival, m: Meter, passed: nat, lo: Time, k: nat)
    requires CapOf(cfg, m) > 0 && Account(CounterOf(st, m), CapOf(cfg, m), passed, lo, k, e.now) && e.packet.Some?
    ensures var s := Admit(cfg, st, e.packet.value, e.len, e.src, e.now);
            Account(CounterOf(s.st, m), CapOf(cfg, m), passed + Passed(s.outcome, e, m, lo, k), lo, k, e.now)
  {
    var s := Admit(cfg, st, e.packet.value, e.len, e.src, e.now);
    match m {
      case AllPackets | AllBytes => SharedDraws(cfg, st, e, m);
      case SourcePackets(_) => SourceDraws(cfg, st, e, m);
      case SourceBytes(_) => SourceDraws(cfg, st, e, m);
      case NameBytes(_) => NameDraws(cfg, st, e, m);
    }
    AccountDrawn(CounterOf(st, m), CounterOf(s.st, m), AmountOf(e, m), CapOf(cfg, m), e.now, Units(s.outcome, e, m),
                 passed, lo, k, e.now);
  }

  lemma HandleKeepsAccount(cfg: Config, sweeping: bool, st: State, e: Arrival, m: Meter, passed: nat, lo: Time, k: nat,
                           t: Time)
    requires CapOf(cfg, m) > 0 && Account(CounterOf(st, m), CapOf(cfg, m), passed, lo, k, t) && t <= e.now
    ensures var s := Handle(cfg, sweeping, st, e);
            Account(CounterOf(s.st, m), CapOf(cfg, m), passed + Passed(s.outcome, e, m, lo, k), lo, k, e.now)
  {
    AccountIdle(CounterOf(st, m), CapOf(cfg, m), passed, lo, k, t, e.now);
    if e.packet.Some? {
      SweepKeepsAccount(cfg, st, e.now, m, CapOf(cfg, m), passed, lo, k);
      AdmitKeepsAccount(cfg, if sweeping then Swept(cfg, st, e.now) else st, e, m, passed, lo, k);
    }
  }

  /** Over every run and for every budget in force: what got past it in any k seconds is at most
      (k + 1) times its cap, across window resets, oversized draws and sweeps. */
  lemma {:induction false} EveryBudgetHolds(cfg: Config, sweeping: bool, ev: seq<Arrival>, n: nat, m: Meter, lo: Time,
                                            k: nat)
    requires CapOf(cfg, m) > 0 && InOrder(ev) && n <= |ev|
    ensures Total(cfg, sweeping, ev, n, m, lo, k) <= (k + 1) * CapOf(cfg, m)
    ensures Account(CounterOf(StateAt(cfg, sweeping, ev, n), m), CapOf(cfg, m), Total(cfg, sweeping, ev, n, m, lo, k),
                    lo, k,
                    if n == 0 then 0 else ev[n - 1].now)
  {
    if n == 0 {
      MulMonotone(0, k + 1, CapOf(cfg, m));
    } else {
      EveryBudgetHolds(cfg, sweeping, ev, n - 1, m, lo, k);
      HandleKeepsAccount(cfg, sweeping, StateAt(cfg, sweeping, ev, n - 1), ev[n - 1], m,
                         Total(cfg, sweeping, ev, n - 1, m, lo, k), lo, k, if n == 1 then 0 else ev[n - 2].now);
    }
  }

  // How large the pin table can get at all

  /** The passed claims of the last k seconds are what the packet budget let through in them. */
  lemma {:induction false} PassedAreCounted(cfg: Config, ev: seq<Arrival>, cs: seq<Claim>, n: nat, from: int, lo: Time,
                                            k: nat)
    requires InOrder(ev) && n <= |ev| && cs == Claims(cfg, true, ev) && lo == (if from < 0 then 0 else from)
    requires n > 0 ==> ev[n - 1].now < lo + k * SECOND
    ensures |PassedSince(cs, n, from)| <= Total(cfg, true, ev, n, AllPackets, lo, k)
  {
    if n == 0 {
      assert PassedSince(cs, n, from) == {};
    } else {
      PassedAreCounted(cfg, ev, cs, n - 1, from, lo, k);
      var st := StateAt(cfg, true, ev, n - 1);
      assert cs[n - 1] == ClaimOf(cfg, true, st, ev[n - 1]);
      StepLink(cfg, true, st, ev[n - 1]);
      OneMoreIndex(cs, n, from);
    }
  }

  lemma OneMoreIndex(cs: seq<Claim>, n: nat, from: int)
    requires 0 < n <= |cs|
    ensures |PassedSince(cs, n, from)|
         <= |PassedSince(cs, n - 1, from)| + (if cs[n - 1].passed && cs[n - 1].now >= from then 1 else 0)
  {
    var before := PassedSince(cs, n - 1, from);
    if cs[n - 1].passed && cs[n - 1].now >= from {
      assert PassedSince(cs, n, from) == before + {n - 1};
    } else {
      assert PassedSince(cs, n, from) == before;
    }
  }

  /** The seconds a pin survives at most, rounded up. */
  function Lifetime(cfg: Config): nat { (IdleAge(cfg) + SECOND) / SECOND + 1 }

  lemma LifetimeCovers(cfg: Config)
    ensures IdleAge(cfg) + SECOND < Lifetime(cfg) * SECOND
  {
  }

  /** The table never outgrows this, fixed by the configuration. */
  function MostPins(cfg: Config): int {
    1 + AtLeast(SWEEP_THRESHOLD, if cfg.globalMaxPPS <= 0 then 0 else (Lifetime(cfg) + 1) * cfg.globalMaxPPS)
  }

  lemma PassedBound(cfg: Config, ev: seq<Arrival>, cs: seq<Claim>, n: nat, from: int, lo: Time, k: nat)
    requires InOrder(ev) && n < |ev| && cfg.globalMaxPPS > 0 && cs == Claims(cfg, true, ev)
    requires lo == (if from < 0 then 0 else from) && ev[n].now < lo + k * SECOND
    ensures |PassedSince(cs, n, from)| <= (k + 1) * cfg.globalMaxPPS
  {
    PassedAreCounted(cfg, ev, cs, n, from, lo, k);
    EveryBudgetHolds(cfg, true, ev, n, AllPackets, lo, k);
  }

  lemma ProcessedBound(cfg: Config, ev: seq<Arrival>, cs: seq<Claim>, n: nat, from: int, recent: set<nat>)
    requires InOrder(ev) && n < |ev| && cfg.globalMaxPPS > 0 && cs == Claims(cfg, true, ev)
    requires from == ev[n].now - IdleAge(cfg) - SECOND && recent == PassedSince(cs, n, from)
    ensures 1 + AtLeast(SWEEP_THRESHOLD, |recent|) <= MostPins(cfg)
  {
    LifetimeCovers(cfg);
    PassedBound(cfg, ev, cs, n, from, if from < 0 then 0 else from, Lifetime(cfg));
  }

  lemma MalformedKeeps(cfg: Config, ev: seq<Arrival>, n: nat)
    requires n < |ev| && ev[n].packet.None?
    ensures StateAt(cfg, true, ev, n + 1) == StateAt(cfg, true, ev, n)
  {
  }

  lemma ProcessedIsBounded(cfg: Config, ev: seq<Arrival>, n: nat, cs: seq<Claim>, st: State, after: State)
    requires InOrder(ev) && n < |ev| && cfg.globalMaxPPS > 0
    requires ev[n].packet.Some? && cs == Claims(cfg, true, ev)
    requires st == StateAt(cfg, true, ev, n) && after == StateAt(cfg, true, ev, n + 1)
    ensures |after.pins| <= MostPins(cfg)
  {
    var from := ev[n].now - IdleAge(cfg) - SECOND;
    var recent := PassedSince(cs, n, from);
    PinTableBound(cfg, ev, n, cs, st, after, recent);
    ProcessedBound(cfg, ev, cs, n, from, recent);
  }

  /** However many names are claimed, the pin table never outgrows MostPins. */
  lemma {:induction false} PinTableIsBounded(cfg: Config, ev: seq<Arrival>, n: nat, st: State)
    requires InOrder(ev) && n <= |ev| && cfg.globalMaxPPS > 0 && st == StateAt(cfg, true, ev, n)
    ensures |st.pins| <= MostPins(cfg)
    decreases n
  {
    if n > 0 {
      var before := StateAt(cfg, true, ev, n - 1);
      if ev[n - 1].packet.None? {
        PinTableIsBounded(cfg, ev, n - 1, before);
        MalformedKeeps(cfg, ev, n - 1);
      } else {
        ProcessedIsBounded(cfg, ev, n - 1, Claims(cfg, true, ev), before, st);
      }
    }
  }

  // When a name changes hands

  lemma OwnAddressAdmitted(cfg: Config, sweeping: bool, st: State, e: Arrival)
    requires e.packet.Some? && !Handle(cfg, sweeping, st, e).outcome.GlobalLimited?
    requires e.packet.value.src in st.pins ==> st.pins[e.packet.value.src].addr == e.src
    ensures Admitted(Handle(cfg, sweeping, st, e).outcome)
  {
  }

  /** A packet claiming the name that got past the global budgets. */
  predicate Claimed(cfg: Config, sweeping: bool, ev: seq<Arrival>, i: nat, name: Name)
    requires i < |ev|
  {
    ev[i].packet.Some? && ev[i].packet.value.src == name && !OutcomeAt(cfg, sweeping, ev, i).GlobalLimited?
  }

  /** While a name stays with its last admitted sender, that sender's packets are admitted. */
  lemma HolderIsAdmitted(cfg: Config, sweeping: bool, ev: seq<Arrival>, last: nat, i: nat, name: Name)
    requires last < i < |ev| && ev[i].src == ev[last].src && SpokeAs(cfg, sweeping, ev, last, name)
    requires forall k :: last < k < i ==> !SpokeAs(cfg, sweeping, ev, k, name)
    requires Claimed(cfg, sweeping, ev, i, name)
    ensures SpokeAs(cfg, sweeping, ev, i, name)
  {
    var st := StateAt(cfg, sweeping, ev, i);
    if name in st.pins {
      var k := LastSpeaker(cfg, sweeping, ev, i, name);
      assert k == last;
    }
    OwnAddressAdmitted(cfg, sweeping, st, ev[i]);
  }

  /** When packet j takes a bound name to another address, every packet for that name from the old
      address that got past the global budgets is more than PinGrace old. */
  lemma RebindingWaits(cfg: Config, sweeping: bool, ev: seq<Arrival>, i: nat, j: nat, name: Name)
    requires InOrder(ev) && i < j < |ev| && SpokeAs(cfg, sweeping, ev, j, name)
    requires name in StateAt(cfg, sweeping, ev, j).pins
    requires ev[i].src == StateAt(cfg, sweeping, ev, j).pins[name].addr != ev[j].src
    requires Claimed(cfg, sweeping, ev, i, name)
    ensures ev[j].now - ev[i].now > cfg.pinGrace
  {
    var last := LastSpeaker(cfg, sweeping, ev, j, name);
    if last < i { HolderIsAdmitted(cfg, sweeping, ev, last, i, name); }
    PinExclusivity(cfg, sweeping, ev, last, j, name);
  }

  // No packet is lost from the statistics

  function StatsAt(cfg: Config, ev: seq<Arrival>, writes: seq<bool>, n: nat): Stats
    requires n <= |ev| == |writes|
  {
    if n == 0 then Stats(0, 0, 0, 0, 0)
    else Tally(StatsAt(cfg, ev, writes, n - 1), OutcomeAt(cfg, true, ev, n - 1), writes[n - 1])
  }

  lemma TallyAddsOne(s: Stats, o: Outcome, writeOk: bool)
    ensures var t := Tally(s, o, writeOk);
            && t.forwarded + t.dropped + t.pinnedDropped + t.rateLimited
               == s.forwarded + s.dropped + s.pinnedDropped + s.rateLimited + 1
            && t.wrapped == s.wrapped + (if Decision(o) == 4 then 1 else 0)
            && t.forwarded - s.forwarded <= t.wrapped - s.wrapped
  {
  }

  /** How many of the first n packets got past every admission check. */
  function PastAdmission(cfg: Config, ev: seq<Arrival>, n: nat): nat
    requires n <= |ev|
  {
    if n == 0 then 0 else PastAdmission(cfg, ev, n - 1) + if Decision(OutcomeAt(cfg, true, ev, n - 1)) == 4 then 1
        else 0
  }

  /** Every received packet ends in exactly one counter, and exactly those past every admission check count
      as wrapped. */
  lemma {:induction false} StatsAddUp(cfg: Config, ev: seq<Arrival>, writes: seq<bool>, n: nat)
    requires n <= |ev| == |writes|
    ensures var s := StatsAt(cfg, ev, writes, n);
            && s.forwarded + s.dropped + s.pinnedDropped + s.rateLimited == n
            && s.wrapped == PastAdmission(cfg, ev, n) && s.forwarded <= s.wrapped
  {
    if n > 0 {
      StatsAddUp(cfg, ev, writes, n - 1);
      TallyAddsOne(StatsAt(cfg, ev, writes, n - 1), OutcomeAt(cfg, true, ev, n - 1), writes[n - 1]);
    }
  }
}
