/** The pin table on its own, under any schedule of sweeps. */
module PinMachine {
  import opened Budget
  import opened RelaySpec

  type Pins = map<Name, Pin>

  /** A packet as the pin table sees it; passed says it got past the global budgets, sweep that a
      sweep ran just before. */
  datatype Claim = Claim(name: Name, addr: Endpoint, now: Time, passed: bool, sweep: bool)

  predicate Ordered(cs: seq<Claim>) {
    forall i, j :: 0 <= i < j < |cs| ==> cs[i].now <= cs[j].now
  }

  function Base(grace: int, pins: Pins, c: Claim): Pins {
    if c.sweep then LivePins(pins, grace, c.now) else pins
  }

  predicate Admits(grace: int, pins: Pins, c: Claim) {
    c.passed && PinAllows(grace, Base(grace, pins, c), c.name, c.addr, c.now)
  }

  function PinsAfter(grace: int, pins: Pins, c: Claim): Pins {
    if Admits(grace, pins, c) then Base(grace, pins, c)[c.name := Pin(c.addr, c.now)] else Base(grace, pins, c)
  }

  function PinsAt(grace: int, cs: seq<Claim>, n: nat): Pins
    requires n <= |cs|
  {
    if n == 0 then map[] else PinsAfter(grace, PinsAt(grace, cs, n - 1), cs[n - 1])
  }

  /** Claim i was admitted under this name. */
  predicate AdmittedAs(grace: int, cs: seq<Claim>, i: nat, name: Name)
    requires i < |cs|
  {
    Admits(grace, PinsAt(grace, cs, i), cs[i]) && cs[i].name == name
  }

  // Who a name points at

  /** Claim i is the last admitted one of the name, and the pin holds its address and time. */
  ghost predicate LastAdmitted(grace: int, cs: seq<Claim>, n: nat, name: Name, pin: Pin, i: nat)
    requires n <= |cs|
  {
    && i < n && AdmittedAs(grace, cs, i, name)
    && pin == Pin(cs[i].addr, cs[i].now)
    && forall j :: i < j < n ==> !AdmittedAs(grace, cs, j, name)
  }

  lemma {:induction false} PinWitness(grace: int, cs: seq<Claim>, n: nat, name: Name) returns (i: nat)
    requires n <= |cs| && name in PinsAt(grace, cs, n)
    ensures LastAdmitted(grace, cs, n, name, PinsAt(grace, cs, n)[name], i)
    decreases n
  {
    if AdmittedAs(grace, cs, n - 1, name) {
      i := n - 1;
    } else {
      i := PinWitness(grace, cs, n - 1, name);
    }
  }

  // Exclusivity of a name

  /** What the table still knows of an admitted claim i. */
  ghost predicate Remembered(grace: int, pins: Pins, t: Time, c: Claim) {
    if c.name !in pins then t - c.now > grace
    else if pins[c.name].addr == c.addr then c.now <= pins[c.name].lastSeen
    else pins[c.name].lastSeen - c.now > grace
  }

  lemma RememberStep(grace: int, pins: Pins, t: Time, c: Claim, d: Claim)
    requires grace >= 0 && Remembered(grace, pins, t, c) && c.now <= t <= d.now
    requires forall n :: n in pins ==> pins[n].lastSeen <= t
    ensures Remembered(grace, PinsAfter(grace, pins, d), d.now, c)
  {
  }

  lemma {:induction false} NoPinFromTheFuture(grace: int, cs: seq<Claim>, n: nat)
    requires Ordered(cs) && 0 < n <= |cs|
    ensures forall x :: x in PinsAt(grace, cs, n) ==> PinsAt(grace, cs, n)[x].lastSeen <= cs[n - 1].now
  {
    if n > 1 { NoPinFromTheFuture(grace, cs, n - 1); }
  }

  lemma {:induction false} StaysRemembered(grace: int, cs: seq<Claim>, n: nat, i: nat)
    requires grace >= 0 && Ordered(cs) && i < n <= |cs| && AdmittedAs(grace, cs, i, cs[i].name)
    ensures Remembered(grace, PinsAt(grace, cs, n), cs[n - 1].now, cs[i])
    decreases n
  {
    if i < n - 1 {
      StaysRemembered(grace, cs, n - 1, i);
      NoPinFromTheFuture(grace, cs, n - 1);
      RememberStep(grace, PinsAt(grace, cs, n - 1), cs[n - 2].now, cs[i], cs[n - 1]);
    }
  }

  /** Two claims admitted for one name from different addresses are more than the grace apart. */
  lemma Exclusive(grace: int, cs: seq<Claim>, i: nat, j: nat)
    requires grace >= 0 && Ordered(cs) && i < j < |cs| && cs[i].name == cs[j].name && cs[i].addr != cs[j].addr
    requires AdmittedAs(grace, cs, i, cs[i].name) && AdmittedAs(grace, cs, j, cs[j].name)
    ensures cs[j].now - cs[i].now > grace
  {
    StaysRemembered(grace, cs, j, i);
    NoPinFromTheFuture(grace, cs, j);
  }

  // Sweeping is invisible

  /** a forgot only pins of b that are idle at t. */
  ghost predicate ForgotIdle(grace: int, a: Pins, b: Pins, t: Time) {
    && (forall n :: n in a ==> n in b && a[n] == b[n])
    && (forall n :: n in b && n !in a ==> Idle(b[n], grace, t))
  }

  /** A table that forgets idle pins and one that never forgets admit the same claims. */
  lemma SweepInvisible(grace: int, a: Pins, b: Pins, t: Time, c: Claim)
    requires ForgotIdle(grace, a, b, t) && t <= c.now && (forall n :: n in b ==> b[n].lastSeen <= t)
    ensures Admits(grace, a, c) <==> Admits(grace, b, c.(sweep := false))
    ensures ForgotIdle(grace, PinsAfter(grace, a, c), PinsAfter(grace, b, c.(sweep := false)), c.now)
    ensures var after := PinsAfter(grace, b, c.(sweep := false));
            forall n :: n in after ==> after[n].lastSeen <= c.now
  {
  }

  // How many names there can be

  /** The claims past the global budgets at or after time from. */
  ghost function PassedSince(cs: seq<Claim>, n: nat, from: int): set<nat>
    requires n <= |cs|
  {
    set i: nat | i < n && cs[i].passed && cs[i].now >= from
  }

  lemma {:induction false} NamesOfIndices(cs: seq<Claim>, names: set<Name>, ids: set<nat>)
    requires forall x :: x in names ==> exists i :: i in ids && i < |cs| && cs[i].name == x
    ensures |names| <= |ids|
    decreases |names|
  {
    if names != {} {
      var x :| x in names;
      var i :| i in ids && i < |cs| && cs[i].name == x;
      forall y | y in names - {x} ensures exists j :: j in ids - {i} && j < |cs| && cs[j].name == y {
        var j :| j in ids && j < |cs| && cs[j].name == y;
        assert j in ids - {i};
      }
      NamesOfIndices(cs, names - {x}, ids - {i});
    }
  }

  /** There are no more pins refreshed at or after from than passed claims since. */
  lemma RecentPinsAreFew(grace: int, cs: seq<Claim>, n: nat, from: int, recent: Pins)
    requires n <= |cs|
    requires forall x :: x in recent ==> x in PinsAt(grace, cs, n) && recent[x] == PinsAt(grace, cs, n)[x]
    requires forall x :: x in recent ==> recent[x].lastSeen >= from
    ensures |recent| <= |PassedSince(cs, n, from)|
  {
    var ids := PassedSince(cs, n, from);
    forall x | x in recent.Keys ensures exists i :: i in ids && i < |cs| && cs[i].name == x {
      var i := PinWitness(grace, cs, n, x);
      assert i in ids;
    }
    NamesOfIndices(cs, recent.Keys, ids);
    assert |recent| == |recent.Keys|;
  }
}

/** Whole runs of the relay: every packet in arrival order, with and without sweeping. */
module RelayRuns {
  import opened Wrappers
  import opened Noise
  import opened Budget
  import opened RelaySpec
  import opened PinMachine
  import Codec = RelayCodec

  predicate InOrder(ev: seq<Arrival>) {
    forall i, j :: 0 <= i < j < |ev| ==> ev[i].now <= ev[j].now
  }

  function StateAt(cfg: Config, sweeping: bool, ev: seq<Arrival>, n: nat): State
    requires n <= |ev|
    decreases n
  {
    if n == 0 then INIT else Handle(cfg, sweeping, StateAt(cfg, sweeping, ev, n - 1), ev[n - 1]).st
  }

  function OutcomeAt(cfg: Config, sweeping: bool, ev: seq<Arrival>, i: nat): Outcome
    requires i < |ev|
  {
    Handle(cfg, sweeping, StateAt(cfg, sweeping, ev, i), ev[i]).outcome
  }

  /** Past the global budgets and the pin check: the name now points at the sender. */
  predicate Admitted(o: Outcome) { !o.Malformed? && !o.GlobalLimited? && !o.PinnedElsewhere? }

  function ClaimOf(cfg: Config, sweeping: bool, st: State, a: Arrival): Claim {
    if a.packet.None? then Claim([], a.src, a.now, false, false)
    else
      var passed := AcrossSources(cfg, st.globals, a.len, a.now).0;
      Claim(a.packet.value.src, a.src, a.now, passed, sweeping && SweepDue(st, a.now))
  }

  /** The run as the pin table sees it. */
  function Claims(cfg: Config, sweeping: bool, ev: seq<Arrival>): (cs: seq<Claim>)
    ensures |cs| == |ev|
  {
    seq(|ev|, i requires 0 <= i < |ev| => ClaimOf(cfg, sweeping, StateAt(cfg, sweeping, ev, i), ev[i]))
  }

  // The pin table of the relay is the pin machine

  lemma StepLink(cfg: Config, sweeping: bool, st: State, a: Arrival)
    ensures var s := Handle(cfg, sweeping, st, a);
            var c := ClaimOf(cfg, sweeping, st, a);
            && (Admitted(s.outcome) <==> Admits(cfg.pinGrace, st.pins, c))
            && s.st.pins == PinsAfter(cfg.pinGrace, st.pins, c)
            && s.st.lastSweep == (if c.sweep then a.now else st.lastSweep)
            && (c.passed <==> !s.outcome.Malformed? && !s.outcome.GlobalLimited?)
  {
  }

  lemma {:induction false} RunLink(cfg: Config, sweeping: bool, ev: seq<Arrival>, cs: seq<Claim>, n: nat)
    requires n <= |ev| && cs == Claims(cfg, sweeping, ev)
    ensures StateAt(cfg, sweeping, ev, n).pins == PinsAt(cfg.pinGrace, cs, n)
    decreases n
  {
    if n > 0 {
      RunLink(cfg, sweeping, ev, cs, n - 1);
      var st := StateAt(cfg, sweeping, ev, n - 1);
      assert cs[n - 1] == ClaimOf(cfg, sweeping, st, ev[n - 1]);
      StepLink(cfg, sweeping, st, ev[n - 1]);
    }
  }

  /** The packet spoke under this name and was admitted. */
  predicate SpokeAs(cfg: Config, sweeping: bool, ev: seq<Arrival>, i: nat, name: Name)
    requires i < |ev|
  {
    Admitted(OutcomeAt(cfg, sweeping, ev, i)) && ev[i].packet.Some? && ev[i].packet.value.src == name
  }

  lemma SpokeIsAdmitted(cfg: Config, sweeping: bool, ev: seq<Arrival>, cs: seq<Claim>, i: nat, name: Name)
    requires i < |ev| && cs == Claims(cfg, sweeping, ev)
    ensures SpokeAs(cfg, sweeping, ev, i, name) <==> AdmittedAs(cfg.pinGrace, cs, i, name)
    ensures cs[i].addr == ev[i].src && cs[i].now == ev[i].now
  {
    RunLink(cfg, sweeping, ev, cs, i);
    var st := StateAt(cfg, sweeping, ev, i);
    assert cs[i] == ClaimOf(cfg, sweeping, st, ev[i]);
    StepLink(cfg, sweeping, st, ev[i]);
  }

  lemma ClaimTimes(cfg: Config, sweeping: bool, ev: seq<Arrival>, cs: seq<Claim>)
    requires InOrder(ev) && cs == Claims(cfg, sweeping, ev)
    ensures PinMachine.Ordered(cs)
  {
    forall i | 0 <= i < |cs| ensures cs[i].now == ev[i].now {
      assert cs[i] == ClaimOf(cfg, sweeping, StateAt(cfg, sweeping, ev, i), ev[i]);
    }
  }

  /** Over a whole run, sweeps included: two packets admitted under one name from different addresses
      are more than PinGrace apart. */
  lemma PinExclusivity(cfg: Config, sweeping: bool, ev: seq<Arrival>, i: nat, j: nat, name: Name)
    requires InOrder(ev) && i < j < |ev| && ev[i].src != ev[j].src
    requires SpokeAs(cfg, sweeping, ev, i, name) && SpokeAs(cfg, sweeping, ev, j, name)
    ensures ev[j].now - ev[i].now > cfg.pinGrace
  {
    if cfg.pinGrace < 0 { return; }
    var cs := Claims(cfg, sweeping, ev);
    ClaimTimes(cfg, sweeping, ev, cs);
    SpokeIsAdmitted(cfg, sweeping, ev, cs, i, name);
    SpokeIsAdmitted(cfg, sweeping, ev, cs, j, name);
    Exclusive(cfg.pinGrace, cs, i, j);
  }

  lemma ForwardedTo(cfg: Config, sweeping: bool, st: State, a: Arrival)
    requires Handle(cfg, sweeping, st, a).outcome.Forward?
    ensures a.packet.Some?
    ensures var s := Handle(cfg, sweeping, st, a);
            a.packet.value.dst in s.st.pins && s.outcome.to == s.st.pins[a.packet.value.dst].addr
            && Codec.WrapPacket(a.packet.value) == Ok(s.outcome.datagram)
  {
  }

  /** The last admitted packet of a pinned name, in the terms of the run. */
  lemma LastSpeaker(cfg: Config, sweeping: bool, ev: seq<Arrival>, n: nat, name: Name) returns (i: nat)
    requires n <= |ev| && name in StateAt(cfg, sweeping, ev, n).pins
    ensures i < n && SpokeAs(cfg, sweeping, ev, i, name)
    ensures StateAt(cfg, sweeping, ev, n).pins[name] == Pin(ev[i].src, ev[i].now)
    ensures forall k :: i < k < n ==> !SpokeAs(cfg, sweeping, ev, k, name)
  {
    var cs := Claims(cfg, sweeping, ev);
    RunLink(cfg, sweeping, ev, cs, n);
    i := PinWitness(cfg.pinGrace, cs, n, name);
    SpokeIsAdmitted(cfg, sweeping, ev, cs, i, name);
    forall k | i < k < n ensures !SpokeAs(cfg, sweeping, ev, k, name) {
      SpokeIsAdmitted(cfg, sweeping, ev, cs, k, name);
    }
  }

  /** A forward goes to the address of the destination's last admitted packet and re-wraps the packet. */
  lemma ForwardGoesToBoundAddress(cfg: Config, sweeping: bool, ev: seq<Arrival>, j: nat) returns (i: nat)
    requires j < |ev| && OutcomeAt(cfg, sweeping, ev, j).Forward?
    ensures ev[j].packet.Some? && i <= j && SpokeAs(cfg, sweeping, ev, i, ev[j].packet.value.dst)
    ensures forall k :: i < k <= j ==> !SpokeAs(cfg, sweeping, ev, k, ev[j].packet.value.dst)
    ensures OutcomeAt(cfg, sweeping, ev, j).to == ev[i].src
    ensures Codec.WrapPacket(ev[j].packet.value) == Ok(OutcomeAt(cfg, sweeping, ev, j).datagram)
  {
    ForwardedTo(cfg, sweeping, StateAt(cfg, sweeping, ev, j), ev[j]);
    i := LastSpeaker(cfg, sweeping, ev, j + 1, ev[j].packet.value.dst);
  }

  /** Off the wire, the re-wrapped packet is the received datagram byte for byte, and wrapping never fails. */
  lemma RewrapIsReceived(cfg: Config, sweeping: bool, st: State, pkt: Bytes, src: Endpoint, now: Time)
    ensures var o := Handle(cfg, sweeping, st, Receive(pkt, src, now)).outcome;
            !o.WrapFailed? && (o.Forward? ==> o.datagram == pkt)
  {
    if Codec.ParsePacket(pkt).Ok? { Codec.WrapOfParse(pkt); }
  }

  // Sweeping decides nothing

  /** a forgot only counters of b that are stale at t. */
  ghost predicate ForgotStale<K(!new)>(a: map<K, Counter>, b: map<K, Counter>, t: Time) {
    && (forall k :: k in a ==> k in b && a[k] == b[k])
    && (forall k :: k in b && k !in a ==> Stale(b[k], t))
  }

  lemma TakeForgot<K(!new)>(a: map<K, Counter>, b: map<K, Counter>, key: K, amount: nat, cap: int, now: Time)
    requires ForgotStale(a, b, now)
    ensures Take(a, key, amount, cap, now).0 == Take(b, key, amount, cap, now).0
    ensures ForgotStale(Take(a, key, amount, cap, now).1, Take(b, key, amount, cap, now).1, now)
  {
    if key in b && key !in a { StaleIsAbsent(b[key], amount, cap, now); }
  }

  lemma SourceForgot(cfg: Config, a: Sources, b: Sources, len: nat, src: Endpoint, now: Time)
    requires ForgotStale(a.rate, b.rate, now) && ForgotStale(a.bytes, b.bytes, now)
    ensures var x, y := OfSource(cfg, a, len, src, now), OfSource(cfg, b, len, src, now);
            x.0 == y.0 && ForgotStale(x.1.rate, y.1.rate, now) && ForgotStale(x.1.bytes, y.1.bytes, now)
  {
    TakeForgot(a.rate, b.rate, src, 1, cfg.maxPPS, now);
    TakeForgot(a.bytes, b.bytes, src, len, cfg.maxBytesPS, now);
  }

  /** The sweeping relay knows at time t what the one that never sweeps knows, except idle pins and stale counters. */
  ghost predicate Forgetful(cfg: Config, a: State, b: State, t: Time) {
    && a.globals == b.globals
    && ForgotIdle(cfg.pinGrace, a.pins, b.pins, t)
    && ForgotStale(a.sources.rate, b.sources.rate, t) && ForgotStale(a.sources.bytes, b.sources.bytes, t)
    && forall n :: n in b.pins ==> b.pins[n].lastSeen <= t
  }

  /** How far a packet got, up to the destination's own budget. */
  function Decision(o: Outcome): int {
    match o
    case Malformed => 0
    case GlobalLimited => 1
    case PinnedElsewhere => 2
    case SourceLimited => 3
    case _ => 4
  }

  lemma SweptForgets(cfg: Config, a: State, b: State, t: Time, now: Time)
    requires Forgetful(cfg, a, b, t) && t <= now
    ensures var s := Swept(cfg, a, now).sources;
            ForgotStale(s.rate, b.sources.rate, now) && ForgotStale(s.bytes, b.sources.bytes, now)
  {
  }

  /** What one processed packet does to the budgets, given the global and source draws. */
  ghost predicate PartsOf(s: Step, g: (bool, Globals), allowed: bool, drawn: (bool, Sources), before: Sources) {
    && s.st.globals == g.1
    && Decision(s.outcome) == (if !g.0 then 1 else if !allowed then 2 else if !drawn.0 then 3 else 4)
    && s.st.sources == if g.0 && allowed then drawn.1 else before
  }

  lemma StepParts(cfg: Config, sweeping: bool, st: State, e: Arrival)
    requires e.packet.Some?
    ensures var b := if sweeping then Swept(cfg, st, e.now) else st;
            PartsOf(Handle(cfg, sweeping, st, e), AcrossSources(cfg, st.globals, e.len, e.now),
                    PinAllows(cfg.pinGrace, b.pins, e.packet.value.src, e.src, e.now),
                    OfSource(cfg, b.sources, e.len, e.src, e.now), b.sources)
  {
  }

  lemma PartsAgree(x: Step, y: Step, g: (bool, Globals), allowed: bool, dx: (bool, Sources), dy: (bool, Sources),
                   bx: Sources, by': Sources, now: Time)
    requires PartsOf(x, g, allowed, dx, bx) && dx.0 == dy.0
    requires ForgotStale(bx.rate, by'.rate, now) && ForgotStale(bx.bytes, by'.bytes, now)
    requires ForgotStale(dx.1.rate, dy.1.rate, now) && ForgotStale(dx.1.bytes, dy.1.bytes, now)
    requires PartsOf(y, g, allowed, dy, by') || (!g.0 && PartsOf(y, g, false, dy, by'))
    ensures Decision(x.outcome) == Decision(y.outcome) && x.st.globals == y.st.globals
    ensures ForgotStale(x.st.sources.rate, y.st.sources.rate, now)
    ensures ForgotStale(x.st.sources.bytes, y.st.sources.bytes, now)
  {
  }

  lemma ForgetfulStep(cfg: Config, a: State, b: State, t: Time, e: Arrival)
    requires Forgetful(cfg, a, b, t) && t <= e.now
    ensures var x, y := Handle(cfg, true, a, e), Handle(cfg, false, b, e);
            Decision(x.outcome) == Decision(y.outcome) && Forgetful(cfg, x.st, y.st, e.now)
  {
    StepLink(cfg, true, a, e);
    StepLink(cfg, false, b, e);
    SweepInvisible(cfg.pinGrace, a.pins, b.pins, t, ClaimOf(cfg, true, a, e));
    if e.packet.Some? {
      var s := Swept(cfg, a, e.now);
      SweptForgets(cfg, a, b, t, e.now);
      SourceForgot(cfg, s.sources, b.sources, e.len, e.src, e.now);
      StepParts(cfg, true, a, e);
      StepParts(cfg, false, b, e);
      PartsAgree(Handle(cfg, true, a, e), Handle(cfg, false, b, e), AcrossSources(cfg, a.globals, e.len, e.now),
                 PinAllows(cfg.pinGrace, s.pins, e.packet.value.src, e.src, e.now),
                 OfSource(cfg, s.sources, e.len, e.src, e.now), OfSource(cfg, b.sources, e.len, e.src, e.now),
                 s.sources, b.sources, e.now);
    }
  }

  function TimeBefore(ev: seq<Arrival>, n: nat): Time
    requires n <= |ev|
  {
    if n == 0 then 0 else ev[n - 1].now
  }

  lemma {:induction false} AlwaysForgetful(cfg: Config, ev: seq<Arrival>, n: nat, a: State, b: State)
    requires InOrder(ev) && n <= |ev| && a == StateAt(cfg, true, ev, n) && b == StateAt(cfg, false, ev, n)
    ensures Forgetful(cfg, a, b, TimeBefore(ev, n))
    decreases n
  {
    if n > 0 {
      var a0, b0 := StateAt(cfg, true, ev, n - 1), StateAt(cfg, false, ev, n - 1);
      AlwaysForgetful(cfg, ev, n - 1, a0, b0);
      ForgetfulStep(cfg, a0, b0, TimeBefore(ev, n - 1), ev[n - 1]);
    }
  }

  /** On every packet trace the relay that sweeps and the one that never does take the same decisions
      about global budgets, pins and source budgets. */
  lemma SweepingDecidesNothing(cfg: Config, ev: seq<Arrival>, i: nat)
    requires InOrder(ev) && i < |ev|
    ensures Decision(OutcomeAt(cfg, true, ev, i)) == Decision(OutcomeAt(cfg, false, ev, i))
  {
    var a, b := StateAt(cfg, true, ev, i), StateAt(cfg, false, ev, i);
    AlwaysForgetful(cfg, ev, i, a, b);
    ForgetfulStep(cfg, a, b, TimeBefore(ev, i), ev[i]);
  }

  // The pin table stays small

  /** How long unseen a pin can be and outlive a sweep; with a negative grace none outlives one. */
  function IdleAge(cfg: Config): nat { if cfg.pinGrace < 0 then 0 else 2 * cfg.pinGrace }

  lemma {:induction false} PinsSinceSweep(cfg: Config, ev: seq<Arrival>, n: nat)
    requires InOrder(ev) && n <= |ev|
    ensures var st := StateAt(cfg, true, ev, n);
            && (n > 0 ==> st.lastSweep <= ev[n - 1].now) && (n == 0 ==> st.lastSweep == 0)
            && forall x :: x in st.pins ==> st.pins[x].lastSeen >= st.lastSweep - IdleAge(cfg)
  {
    if n > 0 {
      PinsSinceSweep(cfg, ev, n - 1);
      StepLink(cfg, true, StateAt(cfg, true, ev, n - 1), ev[n - 1]);
    }
  }

  function AtLeast(a: nat, b: nat): nat { if a < b then b else a }

  /** Once the maps are large, every pin left after the sweep check is recent. */
  lemma BaseIsRecent(cfg: Config, st: State, e: Arrival)
    requires Entries(st) > SWEEP_THRESHOLD && e.packet.Some?
    requires forall x :: x in st.pins ==> st.pins[x].lastSeen >= st.lastSweep - IdleAge(cfg)
    ensures var base := Base(cfg.pinGrace, st.pins, ClaimOf(cfg, true, st, e));
            forall x :: x in base ==> x in st.pins && base[x] == st.pins[x]
                                      && base[x].lastSeen >= e.now - IdleAge(cfg) - SECOND
  {
  }

  lemma StepAddsOne(cfg: Config, st: State, e: Arrival)
    requires e.packet.Some?
    ensures |Handle(cfg, true, st, e).st.pins| <= 1 + |Base(cfg.pinGrace, st.pins, ClaimOf(cfg, true, st, e))|
    ensures Entries(st) <= SWEEP_THRESHOLD ==>
            |Base(cfg.pinGrace, st.pins, ClaimOf(cfg, true, st, e))| <= SWEEP_THRESHOLD
  {
    StepLink(cfg, true, st, e);
    OneMore(Base(cfg.pinGrace, st.pins, ClaimOf(cfg, true, st, e)), e.packet.value.src, Pin(e.src, e.now));
  }

  lemma StepBound(cfg: Config, st: State, e: Arrival, cs: seq<Claim>, m: nat, recent: set<nat>)
    requires m <= |cs| && st.pins == PinsAt(cfg.pinGrace, cs, m) && e.packet.Some?
    requires recent == PassedSince(cs, m, e.now - IdleAge(cfg) - SECOND)
    requires forall x :: x in st.pins ==> st.pins[x].lastSeen >= st.lastSweep - IdleAge(cfg)
    ensures |Handle(cfg, true, st, e).st.pins| <= 1 + AtLeast(SWEEP_THRESHOLD, |recent|)
  {
    StepAddsOne(cfg, st, e);
    if Entries(st) > SWEEP_THRESHOLD {
      BaseIsRecent(cfg, st, e);
      RecentPinsAreFew(cfg.pinGrace, cs, m, e.now - IdleAge(cfg) - SECOND,
                       Base(cfg.pinGrace, st.pins, ClaimOf(cfg, true, st, e)));
    }
  }

  lemma PinsBefore(cfg: Config, ev: seq<Arrival>, cs: seq<Claim>, n: nat, st: State)
    requires InOrder(ev) && n <= |ev| && cs == Claims(cfg, true, ev)
             && st == StateAt(cfg, true, ev, n)
    ensures st.pins == PinsAt(cfg.pinGrace, cs, n)
    ensures forall x :: x in st.pins ==> st.pins[x].lastSeen >= st.lastSweep - IdleAge(cfg)
  {
    PinsSinceSweep(cfg, ev, n);
    RunLink(cfg, true, ev, cs, n);
  }

  /** The bound on the table that one processed packet leaves. */
  lemma BoundAfter(cfg: Config, ev: seq<Arrival>, cs: seq<Claim>, n: nat, st: State, e: Arrival, after: State,
                   recent: set<nat>)
    requires InOrder(ev) && n <= |ev| && cs == Claims(cfg, true, ev)
             && st == StateAt(cfg, true, ev, n)
    requires e.packet.Some? && after == Handle(cfg, true, st, e).st
    requires recent == PassedSince(cs, n, e.now - IdleAge(cfg) - SECOND)
    ensures |after.pins| <= 1 + AtLeast(SWEEP_THRESHOLD, |recent|)
  {
    PinsBefore(cfg, ev, cs, n, st);
    StepBound(cfg, st, e, cs, n, recent);
  }

  lemma NextState(cfg: Config, ev: seq<Arrival>, n: nat, st: State, after: State)
    requires n < |ev| && st == StateAt(cfg, true, ev, n) && after == StateAt(cfg, true, ev, n + 1)
    ensures after == Handle(cfg, true, st, ev[n]).st
  {
  }

  /** After any processed packet the table's size is at most one more than 4096 or the packets passed
      by the global budgets within the last IdleAge + 1 s, however many names are claimed. */
  lemma PinTableBound(cfg: Config, ev: seq<Arrival>, n: nat, cs: seq<Claim>, st: State, after: State, recent: set<nat>)
    requires InOrder(ev) && n < |ev| && ev[n].packet.Some? && cs == Claims(cfg, true, ev)
    requires st == StateAt(cfg, true, ev, n) && after == StateAt(cfg, true, ev, n + 1)
    requires recent == PassedSince(cs, n, ev[n].now - IdleAge(cfg) - SECOND)
    ensures |after.pins| <= 1 + AtLeast(SWEEP_THRESHOLD, |recent|)
  {
    NextState(cfg, ev, n, st, after);
    BoundAfter(cfg, ev, cs, n, st, ev[n], after, recent);
  }

  lemma OneMore(m: Pins, x: Name, p: Pin)
    ensures |m[x := p]| <= |m| + 1
  {
    assert m[x := p].Keys == m.Keys + {x};
    assert |m[x := p]| == |m.Keys + {x}|;
  }
}
