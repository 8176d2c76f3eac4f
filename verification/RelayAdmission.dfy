/** Which packets the relay admits, told from the trace alone, and what its counters count. */
module RelayAdmission {
  import opened Wrappers
  import opened Budget
  import opened RelaySpec
  import opened PinMachine
  import opened RelayRuns
  import opened RelayBudgets

  // The pin rule

  /** The last packet before the nth that spoke under the name. */
  function LastSpoke(cfg: Config, sweeping: bool, ev: seq<Arrival>, n: nat, name: Name): (i: Option<nat>)
    requires n <= |ev|
    ensures match i
            case Some(k) => k < n && SpokeAs(cfg, sweeping, ev, k, name)
                            && forall j :: k < j < n ==> !SpokeAs(cfg, sweeping, ev, j, name)
            case None => forall j :: 0 <= j < n ==> !SpokeAs(cfg, sweeping, ev, j, name)
  {
    if n == 0 then None
    else if SpokeAs(cfg, sweeping, ev, n - 1, name) then Some(n - 1)
    else LastSpoke(cfg, sweeping, ev, n - 1, name)
  }

  /** Past the global budgets the pin table alone decides. */
  lemma ClaimDecides(cfg: Config, sweeping: bool, st: State, a: Arrival, base: Pins)
    requires a.packet.Some? && !Handle(cfg, sweeping, st, a).outcome.GlobalLimited?
    requires base == Base(cfg.pinGrace, st.pins, ClaimOf(cfg, sweeping, st, a))
    ensures var name := a.packet.value.src;
            Admitted(Handle(cfg, sweeping, st, a).outcome)
            <==> name !in base || base[name].addr == a.src || a.now - base[name].lastSeen > cfg.pinGrace
    ensures forall x :: x in base ==> x in st.pins && base[x] == st.pins[x]
    ensures forall x :: x in st.pins && x !in base ==> a.now - st.pins[x].lastSeen > 2 * cfg.pinGrace
  {
    StepLink(cfg, sweeping, st, a);
  }

  /** A name the table does not know has not spoken within the grace. */
  lemma UnknownIsOld(cfg: Config, sweeping: bool, ev: seq<Arrival>, last: nat, j: nat, name: Name)
    requires InOrder(ev) && last < j < |ev| && SpokeAs(cfg, sweeping, ev, last, name) && cfg.pinGrace >= 0
    requires name !in StateAt(cfg, sweeping, ev, j).pins
    ensures ev[j].now - ev[last].now > cfg.pinGrace
  {
    var cs := Claims(cfg, sweeping, ev);
    ClaimTimes(cfg, sweeping, ev, cs);
    RunLink(cfg, sweeping, ev, cs, j);
    SpokeIsAdmitted(cfg, sweeping, ev, cs, last, name);
    SpokeIsAdmitted(cfg, sweeping, ev, cs, j - 1, name);
    StaysRemembered(cfg.pinGrace, cs, j, last);
  }

  /** What the name's entry, or the lack of one, says about when and where from it last spoke. */
  lemma EntryTells(cfg: Config, sweeping: bool, ev: seq<Arrival>, j: nat, name: Name, pins: Pins, last: Option<nat>)
    requires InOrder(ev) && j < |ev| && pins == StateAt(cfg, sweeping, ev, j).pins
    requires last == LastSpoke(cfg, sweeping, ev, j, name)
    ensures name in pins ==> last.Some? && pins[name] == Pin(ev[last.value].src, ev[last.value].now)
    ensures name !in pins && last.Some? ==> ev[j].now - ev[last.value].now > cfg.pinGrace
  {
    if name in pins {
      var i := LastSpeaker(cfg, sweeping, ev, j, name);
      assert last == Some(i);
    } else if last.Some? && cfg.pinGrace >= 0 {
      UnknownIsOld(cfg, sweeping, ev, last.value, j, name);
    }
  }

  /** Over every run, sweeping or not and whatever the grace: a packet past the global budgets is admitted under its
      name if and only if the name never spoke before, or last from the same address, or more than PinGrace ago. */
  lemma PinRule(cfg: Config, sweeping: bool, ev: seq<Arrival>, j: nat, name: Name, last: Option<nat>)
    requires InOrder(ev) && j < |ev| && Claimed(cfg, sweeping, ev, j, name)
    requires last == LastSpoke(cfg, sweeping, ev, j, name)
    ensures SpokeAs(cfg, sweeping, ev, j, name)
       <==> last.None? || ev[last.value].src == ev[j].src || ev[j].now - ev[last.value].now > cfg.pinGrace
  {
    var st := StateAt(cfg, sweeping, ev, j);
    EntryTells(cfg, sweeping, ev, j, name, st.pins, last);
    ClaimDecides(cfg, sweeping, st, ev[j], Base(cfg.pinGrace, st.pins, ClaimOf(cfg, sweeping, st, ev[j])));
    if last.Some? { assert ev[last.value].now <= ev[j].now; }
  }

  lemma {:induction false} KnownIff(cfg: Config, ev: seq<Arrival>, n: nat, name: Name)
    requires n <= |ev|
    ensures name in StateAt(cfg, false, ev, n).pins <==> LastSpoke(cfg, false, ev, n, name).Some?
  {
    if n > 0 {
      KnownIff(cfg, ev, n - 1, name);
      StepLink(cfg, false, StateAt(cfg, false, ev, n - 1), ev[n - 1]);
    }
  }

  lemma UnknownMeans(cfg: Config, sweeping: bool, st: State, e: Arrival)
    requires Decision(Handle(cfg, sweeping, st, e).outcome) == 4
    ensures e.packet.Some?
    ensures Handle(cfg, sweeping, st, e).outcome.UnknownDestination?
       <==> e.packet.value.dst !in Handle(cfg, sweeping, st, e).st.pins
  {
  }

  /** A relay that never sweeps knows exactly the names that have spoken: past the source budgets a packet's
      destination is unknown if and only if it has not, this packet included. */
  lemma UnknownIff(cfg: Config, ev: seq<Arrival>, i: nat)
    requires i < |ev| && Decision(OutcomeAt(cfg, false, ev, i)) == 4
    ensures ev[i].packet.Some?
    ensures OutcomeAt(cfg, false, ev, i).UnknownDestination?
       <==> forall k :: 0 <= k <= i ==> !SpokeAs(cfg, false, ev, k, ev[i].packet.value.dst)
  {
    UnknownMeans(cfg, false, StateAt(cfg, false, ev, i), ev[i]);
    KnownIff(cfg, ev, i + 1, ev[i].packet.value.dst);
  }

  // What the budgets refuse

  /** A draw the counter refuses. */
  predicate Refuses(cfg: Config, st: State, e: Arrival, m: Meter) {
    !Draw(CounterOf(st, m), AmountOf(e, m), CapOf(cfg, m), e.now).0
  }

  /** The packets that draw on a budget: the byte budgets only once the packet budget granted, those of a source once
      the name was admitted, a destination's once it was found. */
  predicate Reaches(cfg: Config, st: State, o: Outcome, e: Arrival, m: Meter) {
    && e.packet.Some?
    && match m
       case AllPackets => true
       case AllBytes => !Refuses(cfg, st, e, AllPackets)
       case SourcePackets(src) => e.src == src && Admitted(o)
       case SourceBytes(src) => e.src == src && Admitted(o) && !Refuses(cfg, st, e, SourcePackets(src))
       case NameBytes(name) => e.packet.value.dst == name && (o.QuotaExceeded? || o.WrapFailed? || o.Forward?)
  }

  /** The state a packet meets: swept first, if a sweep is due. */
  function Met(cfg: Config, sweeping: bool, st: State, e: Arrival): State {
    if sweeping && e.packet.Some? then Swept(cfg, st, e.now) else st
  }

  /** Packet i draws on the budget. */
  predicate DrawsOn(cfg: Config, sweeping: bool, ev: seq<Arrival>, i: nat, m: Meter)
    requires i < |ev|
  {
    Reaches(cfg, Met(cfg, sweeping, StateAt(cfg, sweeping, ev, i), ev[i]), OutcomeAt(cfg, sweeping, ev, i), ev[i], m)
  }

  /** The units asked of a budget by the first n packets at or after a time, granted or not. */
  function AskedOf(cfg: Config, sweeping: bool, ev: seq<Arrival>, n: nat, m: Meter, from: int): nat
    requires n <= |ev|
  {
    if n == 0 then 0
    else AskedOf(cfg, sweeping, ev, n - 1, m, from)
         + if DrawsOn(cfg, sweeping, ev, n - 1, m) && ev[n - 1].now >= from then AmountOf(ev[n - 1], m) else 0
  }

  lemma {:induction false} AskedOfMonotone(cfg: Config, sweeping: bool, ev: seq<Arrival>, n: nat, m: Meter, from: int,
                                           later: int)
    requires n <= |ev| && from <= later
    ensures AskedOf(cfg, sweeping, ev, n, m, later) <= AskedOf(cfg, sweeping, ev, n, m, from)
  {
    if n > 0 { AskedOfMonotone(cfg, sweeping, ev, n - 1, m, from, later); }
  }

  /** A packet draws once on every budget it reaches and leaves the others alone. */
  predicate DrawnIff(c: Option<Counter>, after: Option<Counter>, reaches: bool, amount: nat, cap: int, now: Time) {
    after == if reaches then Draw(c, amount, cap, now).1 else c
  }

  lemma SharedMoves(cfg: Config, st: State, e: Arrival, m: Meter)
    requires e.packet.Some? && (m.AllPackets? || m.AllBytes?)
    ensures var s := Admit(cfg, st, e.packet.value, e.len, e.src, e.now);
            DrawnIff(CounterOf(st, m), CounterOf(s.st, m), Reaches(cfg, st, s.outcome, e, m), AmountOf(e, m),
                     CapOf(cfg, m), e.now)
  {
  }

  lemma SourceMoves(cfg: Config, st: State, e: Arrival, m: Meter)
    requires e.packet.Some? && (m.SourcePackets? || m.SourceBytes?)
    ensures var s := Admit(cfg, st, e.packet.value, e.len, e.src, e.now);
            DrawnIff(CounterOf(st, m), CounterOf(s.st, m), Reaches(cfg, st, s.outcome, e, m), AmountOf(e, m),
                     CapOf(cfg, m), e.now)
  {
  }

  lemma NameMoves(cfg: Config, st: State, e: Arrival, m: Meter)
    requires e.packet.Some? && m.NameBytes?
    ensures var s := Admit(cfg, st, e.packet.value, e.len, e.src, e.now);
            DrawnIff(CounterOf(st, m), CounterOf(s.st, m), Reaches(cfg, st, s.outcome, e, m), AmountOf(e, m),
                     CapOf(cfg, m), e.now)
  {
  }

  /** In any state each packet draws exactly on the budgets it reaches. */
  lemma DrawsExactly(cfg: Config, sweeping: bool, st: State, e: Arrival, m: Meter, met: State)
    requires met == Met(cfg, sweeping, st, e)
    ensures var s := Handle(cfg, sweeping, st, e);
            DrawnIff(CounterOf(met, m), CounterOf(s.st, m), Reaches(cfg, met, s.outcome, e, m), AmountOf(e, m),
                     CapOf(cfg, m), e.now)
  {
    if e.packet.Some? {
      match m {
        case AllPackets | AllBytes => SharedMoves(cfg, met, e, m);
        case SourcePackets(_) => SourceMoves(cfg, met, e, m);
        case SourceBytes(_) => SourceMoves(cfg, met, e, m);
        case NameBytes(_) => NameMoves(cfg, met, e, m);
      }
    }
  }

  lemma MetCounter(cfg: Config, sweeping: bool, st: State, e: Arrival, m: Meter)
    ensures var c := CounterOf(Met(cfg, sweeping, st, e), m); c == CounterOf(st, m) || c == None
  {
  }

  /** A counter shows no more than what was asked since it began. */
  lemma {:induction false} CountIsAskedOf(cfg: Config, sweeping: bool, ev: seq<Arrival>, n: nat, m: Meter,
                                          c: Option<Counter>)
    requires InOrder(ev) && n <= |ev| && c == CounterOf(StateAt(cfg, sweeping, ev, n), m)
    ensures c.Some? ==> c.value.start <= TimeBefore(ev, n)
                        && c.value.count <= AskedOf(cfg, sweeping, ev, n, m, c.value.start)
    decreases n
  {
    if n > 0 {
      var st := StateAt(cfg, sweeping, ev, n - 1);
      CountIsAskedOf(cfg, sweeping, ev, n - 1, m, CounterOf(st, m));
      MetCounter(cfg, sweeping, st, ev[n - 1], m);
      DrawsExactly(cfg, sweeping, st, ev[n - 1], m, Met(cfg, sweeping, st, ev[n - 1]));
    }
  }

  /** With what the budget was asked for in the second before it, packet i is over the cap. */
  predicate OverAsked(cfg: Config, sweeping: bool, ev: seq<Arrival>, i: nat, m: Meter)
    requires i < |ev|
  {
    && CapOf(cfg, m) > 0
    && AskedOf(cfg, sweeping, ev, i, m, ev[i].now - 1_000_000_000 + 1) + AmountOf(ev[i], m) > CapOf(cfg, m)
  }

  lemma RefusalMeans(c: Option<Counter>, amount: nat, cap: int, now: Time)
    requires !Draw(c, amount, cap, now).0
    ensures cap > 0
    ensures amount > cap || (c.Some? && now - c.value.start < SECOND && c.value.count + amount > cap)
  {
  }

  lemma RefusedCounter(cfg: Config, sweeping: bool, st: State, e: Arrival, m: Meter, c: Option<Counter>)
    requires c == CounterOf(st, m) && Refuses(cfg, Met(cfg, sweeping, st, e), e, m)
    ensures CapOf(cfg, m) > 0
    ensures || AmountOf(e, m) > CapOf(cfg, m)
            || (c.Some? && e.now - c.value.start < SECOND && c.value.count + AmountOf(e, m) > CapOf(cfg, m))
  {
    MetCounter(cfg, sweeping, st, e, m);
    RefusalMeans(CounterOf(Met(cfg, sweeping, st, e), m), AmountOf(e, m), CapOf(cfg, m), e.now);
  }

  lemma RecentCount(cfg: Config, sweeping: bool, ev: seq<Arrival>, i: nat, m: Meter, c: Counter, from: int)
    requires InOrder(ev) && i < |ev| && Some(c) == CounterOf(StateAt(cfg, sweeping, ev, i), m) && from <= c.start
    ensures c.count <= AskedOf(cfg, sweeping, ev, i, m, from)
  {
    CountIsAskedOf(cfg, sweeping, ev, i, m, Some(c));
    AskedOfMonotone(cfg, sweeping, ev, i, m, from, c.start);
  }

  lemma RefusalIsAsked(cfg: Config, sweeping: bool, ev: seq<Arrival>, i: nat, m: Meter, st: State)
    requires InOrder(ev) && i < |ev| && st == StateAt(cfg, sweeping, ev, i)
    requires Refuses(cfg, Met(cfg, sweeping, st, ev[i]), ev[i], m)
    ensures OverAsked(cfg, sweeping, ev, i, m)
  {
    var c, from := CounterOf(st, m), ev[i].now - 1_000_000_000 + 1;
    RefusedCounter(cfg, sweeping, st, ev[i], m, c);
    if c.Some? && from <= c.value.start { RecentCount(cfg, sweeping, ev, i, m, c.value, from); }
  }

  /** Which budget refused, of those drawn on. */
  lemma GlobalRefusal(cfg: Config, sweeping: bool, st: State, e: Arrival, met: State)
    requires met == Met(cfg, sweeping, st, e) && e.packet.Some?
    ensures Handle(cfg, sweeping, st, e).outcome.GlobalLimited?
       <==> Refuses(cfg, met, e, AllPackets) || Refuses(cfg, met, e, AllBytes)
  {
  }

  lemma SourceRefusal(cfg: Config, sweeping: bool, st: State, e: Arrival, met: State)
    requires met == Met(cfg, sweeping, st, e) && Admitted(Handle(cfg, sweeping, st, e).outcome)
    ensures Handle(cfg, sweeping, st, e).outcome.SourceLimited?
       <==> Refuses(cfg, met, e, SourcePackets(e.src)) || Refuses(cfg, met, e, SourceBytes(e.src))
  {
  }

  lemma QuotaRefusal(cfg: Config, sweeping: bool, st: State, e: Arrival, met: State)
    requires met == Met(cfg, sweeping, st, e) && Decision(Handle(cfg, sweeping, st, e).outcome) == 4
    requires !Handle(cfg, sweeping, st, e).outcome.UnknownDestination?
    ensures e.packet.Some?
    ensures Handle(cfg, sweeping, st, e).outcome.QuotaExceeded?
       <==> Refuses(cfg, met, e, NameBytes(e.packet.value.dst))
  {
  }

  /** No packet is refused for a budget that was not asked for more than its cap within a second: over every run each
      refusal names a budget which, with the packet itself, was. */
  lemma RefusalsAreEarned(cfg: Config, sweeping: bool, ev: seq<Arrival>, i: nat, o: Outcome)
    requires InOrder(ev) && i < |ev| && o == OutcomeAt(cfg, sweeping, ev, i)
    ensures o.GlobalLimited? ==>
              OverAsked(cfg, sweeping, ev, i, AllPackets) || OverAsked(cfg, sweeping, ev, i, AllBytes)
    ensures o.SourceLimited? ==>
              || OverAsked(cfg, sweeping, ev, i, SourcePackets(ev[i].src))
              || OverAsked(cfg, sweeping, ev, i, SourceBytes(ev[i].src))
    ensures o.QuotaExceeded? ==>
              ev[i].packet.Some? && OverAsked(cfg, sweeping, ev, i, NameBytes(ev[i].packet.value.dst))
  {
    var st, e := StateAt(cfg, sweeping, ev, i), ev[i];
    var met := Met(cfg, sweeping, st, e);
    if o.GlobalLimited? {
      GlobalRefusal(cfg, sweeping, st, e, met);
      RefusalIsAsked(cfg, sweeping, ev, i, if Refuses(cfg, met, e, AllPackets) then AllPackets else AllBytes, st);
    } else if o.SourceLimited? {
      SourceRefusal(cfg, sweeping, st, e, met);
      var p, q := SourcePackets(e.src), SourceBytes(e.src);
      RefusalIsAsked(cfg, sweeping, ev, i, if Refuses(cfg, met, e, p) then p else q, st);
    } else if o.QuotaExceeded? {
      QuotaRefusal(cfg, sweeping, st, e, met);
      RefusalIsAsked(cfg, sweeping, ev, i, NameBytes(e.packet.value.dst), st);
    }
  }

  /** An empty frame never exceeds a quota, whatever went before. */
  lemma EmptyFrameFits(cfg: Config, sweeping: bool, ev: seq<Arrival>, i: nat, st: State)
    requires InOrder(ev) && i < |ev| && st == StateAt(cfg, sweeping, ev, i)
    requires Handle(cfg, sweeping, st, ev[i]).outcome.QuotaExceeded?
    ensures ev[i].packet.Some? && ev[i].packet.value.frame != []
  {
    var e := ev[i];
    QuotaRefusal(cfg, sweeping, st, e, Met(cfg, sweeping, st, e));
    var m := NameBytes(e.packet.value.dst);
    if CapOf(cfg, m) > 0 {
      EveryBudgetHolds(cfg, sweeping, ev, i, m, 0, 0);
      MetCounter(cfg, sweeping, st, e, m);
    }
  }

  // The configuration

  /** An operator who configures nothing gets every budget at its production value, and any value but zero stands. */
  lemma DefaultsInForce(cfg: Config, sweeping: bool, ev: seq<Arrival>, n: nat, src: Endpoint, name: Name, lo: Time,
                        k: nat)
    requires InOrder(ev) && n <= |ev| && cfg == FillDefaults(Config(0, 0, 0, 0, 0, 0))
    ensures cfg == Config(30_000_000_000, 300, 131_072, 262_144, 5000, 8_388_608)
    ensures Total(cfg, sweeping, ev, n, AllPackets, lo, k) <= (k + 1) * 5000
    ensures Total(cfg, sweeping, ev, n, AllBytes, lo, k) <= (k + 1) * 8_388_608
    ensures Total(cfg, sweeping, ev, n, SourcePackets(src), lo, k) <= (k + 1) * 300
    ensures Total(cfg, sweeping, ev, n, SourceBytes(src), lo, k) <= (k + 1) * 131_072
    ensures Total(cfg, sweeping, ev, n, NameBytes(name), lo, k) <= (k + 1) * 262_144
  {
    EveryBudgetHolds(cfg, sweeping, ev, n, AllPackets, lo, k);
    EveryBudgetHolds(cfg, sweeping, ev, n, AllBytes, lo, k);
    EveryBudgetHolds(cfg, sweeping, ev, n, SourcePackets(src), lo, k);
    EveryBudgetHolds(cfg, sweeping, ev, n, SourceBytes(src), lo, k);
    EveryBudgetHolds(cfg, sweeping, ev, n, NameBytes(name), lo, k);
  }

  lemma ConfiguredStands(c: Config)
    ensures var d := FillDefaults(c);
            && (c.pinGrace != 0 ==> d.pinGrace == c.pinGrace) && (c.maxPPS != 0 ==> d.maxPPS == c.maxPPS)
            && (c.maxBytesPS != 0 ==> d.maxBytesPS == c.maxBytesPS)
            && (c.nameQuotaBytes != 0 ==> d.nameQuotaBytes == c.nameQuotaBytes)
            && (c.globalMaxPPS != 0 ==> d.globalMaxPPS == c.globalMaxPPS)
            && (c.globalMaxBytesPS != 0 ==> d.globalMaxBytesPS == c.globalMaxBytesPS)
  {
  }

  // The statistics

  /** How many of the first n packets had a fate: forwarded, refused by a pin, refused by a budget, or dropped. */
  datatype Fate = Sent | Pinned | Limited | Lost

  function FateOf(o: Outcome, writeOk: bool): Fate {
    match o
    case Forward(_, _) => if writeOk then Sent else Lost
    case PinnedElsewhere => Pinned
    case GlobalLimited | SourceLimited | QuotaExceeded => Limited
    case Malformed | UnknownDestination | WrapFailed => Lost
  }

  function Count(cfg: Config, ev: seq<Arrival>, writes: seq<bool>, n: nat, f: Fate): nat
    requires n <= |ev| == |writes|
  {
    if n == 0 then 0
    else Count(cfg, ev, writes, n - 1, f)
         + if FateOf(OutcomeAt(cfg, true, ev, n - 1), writes[n - 1]) == f then 1 else 0
  }

  lemma TallyFate(s: Stats, o: Outcome, writeOk: bool)
    ensures var t, f := Tally(s, o, writeOk), FateOf(o, writeOk);
            && t.forwarded == s.forwarded + (if f == Sent then 1 else 0)
            && t.pinnedDropped == s.pinnedDropped + (if f == Pinned then 1 else 0)
            && t.rateLimited == s.rateLimited + (if f == Limited then 1 else 0)
            && t.dropped == s.dropped + (if f == Lost then 1 else 0)
  {
  }

  /** Over every run each counter is the number of packets with its fate, write errors included. */
  lemma {:induction false} StatsTell(cfg: Config, ev: seq<Arrival>, writes: seq<bool>, n: nat, s: Stats)
    requires n <= |ev| == |writes| && s == StatsAt(cfg, ev, writes, n)
    ensures s.forwarded == Count(cfg, ev, writes, n, Sent) && s.pinnedDropped == Count(cfg, ev, writes, n, Pinned)
    ensures s.rateLimited == Count(cfg, ev, writes, n, Limited) && s.dropped == Count(cfg, ev, writes, n, Lost)
    decreases n
  {
    if n > 0 {
      var before, o := StatsAt(cfg, ev, writes, n - 1), OutcomeAt(cfg, true, ev, n - 1);
      StatsTell(cfg, ev, writes, n - 1, before);
      TallyFate(before, o, writes[n - 1]);
    }
  }

  // The sweep

  /** With more than 4096 entries and a second after the last sweep, a processed packet first clears exactly the pins
      unseen for more than twice the grace and the counters begun more than two seconds ago; otherwise nothing. */
  lemma SweepTakes(cfg: Config, st: State, now: Time)
    ensures var s := Swept(cfg, st, now);
            var due := |st.sources.rate| + |st.sources.bytes| + |st.nameBytes| + |st.pins| > 4096
                       && now - st.lastSweep >= 1_000_000_000;
            && (!due ==> s == st)
            && (due ==>
                  && s.lastSweep == now && s.globals == st.globals
                  && (forall n :: n in s.pins <==> n in st.pins && now - st.pins[n].lastSeen <= 2 * cfg.pinGrace)
                  && (forall n :: n in s.pins ==> s.pins[n] == st.pins[n])
                  && Kept(st.sources.rate, s.sources.rate, now) && Kept(st.sources.bytes, s.sources.bytes, now)
                  && Kept(st.nameBytes, s.nameBytes, now))
  {
  }

  /** What is left are the counters begun at most two seconds ago. */
  ghost predicate Kept<K(!new)>(before: map<K, Counter>, after: map<K, Counter>, now: Time) {
    && (forall k :: k in after <==> k in before && now - before[k].start <= 2_000_000_000)
    && (forall k :: k in after ==> after[k] == before[k])
  }
}
