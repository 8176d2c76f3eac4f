/** Where a relay that sweeps and one that never does part: the destination's own half of a packet. */
module RelayForwarding {
  import opened Wrappers
  import opened Budget
  import opened RelaySpec
  import opened PinMachine
  import opened RelayRuns
  import Codec = RelayCodec

  // Which pins are forgotten

  /** The sweeping table is the other one without the pins that were idle at the last sweep. */
  ghost predicate PinsBySweep(grace: int, a: Pins, b: Pins, lastSweep: Time) {
    && (forall n :: n in a <==> n in b && !Idle(b[n], grace, lastSweep))
    && (forall n :: n in a ==> a[n] == b[n])
  }

  lemma PinsBySweepStep(grace: int, a: Pins, b: Pins, lastSweep: Time, t: Time, c: Claim)
    requires grace >= 0 && PinsBySweep(grace, a, b, lastSweep) && lastSweep <= t <= c.now
    requires ForgotIdle(grace, a, b, t) && forall n :: n in b ==> b[n].lastSeen <= t
    ensures PinsBySweep(grace, PinsAfter(grace, a, c), PinsAfter(grace, b, c.(sweep := false)),
                        if c.sweep then c.now else lastSweep)
  {
    SweepInvisible(grace, a, b, t, c);
  }

  /** The same claim as the two relays see it. */
  lemma SameClaim(cfg: Config, a: State, b: State, e: Arrival)
    requires a.globals == b.globals
    ensures ClaimOf(cfg, false, b, e) == ClaimOf(cfg, true, a, e).(sweep := false)
  {
  }

  ghost predicate TracksSweep(cfg: Config, a: State, b: State, t: Time) {
    PinsBySweep(cfg.pinGrace, a.pins, b.pins, a.lastSweep) && a.lastSweep <= t
  }

  lemma TracksStep(cfg: Config, a: State, b: State, t: Time, e: Arrival)
    requires cfg.pinGrace >= 0 && TracksSweep(cfg, a, b, t) && Forgetful(cfg, a, b, t) && t <= e.now
    ensures TracksSweep(cfg, Handle(cfg, true, a, e).st, Handle(cfg, false, b, e).st, e.now)
  {
    StepLink(cfg, true, a, e);
    StepLink(cfg, false, b, e);
    SameClaim(cfg, a, b, e);
    PinsBySweepStep(cfg.pinGrace, a.pins, b.pins, a.lastSweep, t, ClaimOf(cfg, true, a, e));
  }

  lemma {:induction false} AlwaysTracks(cfg: Config, ev: seq<Arrival>, n: nat, a: State, b: State)
    requires cfg.pinGrace >= 0 && InOrder(ev) && n <= |ev|
    requires a == StateAt(cfg, true, ev, n) && b == StateAt(cfg, false, ev, n)
    ensures TracksSweep(cfg, a, b, TimeBefore(ev, n))
    decreases n
  {
    if n > 0 {
      var a0, b0 := StateAt(cfg, true, ev, n - 1), StateAt(cfg, false, ev, n - 1);
      AlwaysTracks(cfg, ev, n - 1, a0, b0);
      AlwaysForgetful(cfg, ev, n - 1, a0, b0);
      TracksStep(cfg, a0, b0, TimeBefore(ev, n - 1), ev[n - 1]);
    }
  }

  /** The maps are swept right before packet k is looked at. */
  predicate Sweeps(cfg: Config, ev: seq<Arrival>, k: nat)
    requires k < |ev|
  {
    ev[k].packet.Some? && SweepDue(StateAt(cfg, true, ev, k), ev[k].now)
  }

  /** The sweep right before packet k takes a name last seen at this time. */
  predicate Takes(cfg: Config, ev: seq<Arrival>, k: nat, seen: Time)
    requires k < |ev|
  {
    Sweeps(cfg, ev, k) && ev[k].now - seen > 2 * cfg.pinGrace
  }

  /** Among the first n packets one brought a sweep more than twice the grace after time seen, and from it on
      the name has not spoken. */
  ghost predicate SweptAway(cfg: Config, ev: seq<Arrival>, n: nat, name: Name, seen: Time)
    requires n <= |ev|
  {
    exists k :: 0 <= k < n && Takes(cfg, ev, k, seen) && Silent(cfg, ev, k, n, name)
  }

  ghost predicate Silent(cfg: Config, ev: seq<Arrival>, k: nat, n: nat, name: Name)
    requires n <= |ev|
  {
    forall j :: k <= j < n ==> !SpokeAs(cfg, true, ev, j, name)
  }

  /** After the first n packets, a name that only the relay which never sweeps still knows. */
  ghost predicate Forgotten(cfg: Config, ev: seq<Arrival>, n: nat, name: Name)
    requires n <= |ev|
  {
    var pins := StateAt(cfg, false, ev, n).pins;
    name in pins && SweptAway(cfg, ev, n, name, pins[name].lastSeen)
  }

  lemma SweptAwayBefore(cfg: Config, ev: seq<Arrival>, n: nat, name: Name, seen: Time)
    requires 0 < n <= |ev| && SweptAway(cfg, ev, n, name, seen)
    ensures !SpokeAs(cfg, true, ev, n - 1, name)
    ensures SweptAway(cfg, ev, n - 1, name, seen) || Takes(cfg, ev, n - 1, seen)
  {
    var k :| 0 <= k < n && Takes(cfg, ev, k, seen) && Silent(cfg, ev, k, n, name);
    assert Silent(cfg, ev, k, n - 1, name);
  }

  lemma SweptAwayNow(cfg: Config, ev: seq<Arrival>, n: nat, name: Name, seen: Time)
    requires 0 < n <= |ev| && !SpokeAs(cfg, true, ev, n - 1, name) && Takes(cfg, ev, n - 1, seen)
    ensures SweptAway(cfg, ev, n, name, seen)
  {
    assert Silent(cfg, ev, n - 1, n, name);
  }

  lemma SweptAwayStill(cfg: Config, ev: seq<Arrival>, n: nat, name: Name, seen: Time)
    requires 0 < n <= |ev| && !SpokeAs(cfg, true, ev, n - 1, name) && SweptAway(cfg, ev, n - 1, name, seen)
    ensures SweptAway(cfg, ev, n, name, seen)
  {
    var k :| 0 <= k < n - 1 && Takes(cfg, ev, k, seen) && Silent(cfg, ev, k, n - 1, name);
    assert Silent(cfg, ev, k, n, name);
  }

  lemma SweptAwayNext(cfg: Config, ev: seq<Arrival>, n: nat, name: Name, seen: Time)
    requires 0 < n <= |ev|
    ensures SweptAway(cfg, ev, n, name, seen)
       <==> !SpokeAs(cfg, true, ev, n - 1, name)
            && (SweptAway(cfg, ev, n - 1, name, seen) || Takes(cfg, ev, n - 1, seen))
  {
    if SweptAway(cfg, ev, n, name, seen) { SweptAwayBefore(cfg, ev, n, name, seen); }
    if !SpokeAs(cfg, true, ev, n - 1, name) {
      if Takes(cfg, ev, n - 1, seen) { SweptAwayNow(cfg, ev, n, name, seen); }
      if SweptAway(cfg, ev, n - 1, name, seen) { SweptAwayStill(cfg, ev, n, name, seen); }
    }
  }

  /** What one claim does to one name of the two tables. */
  lemma NameStep(grace: int, a: Pins, b: Pins, t: Time, c: Claim, name: Name)
    requires ForgotIdle(grace, a, b, t) && t <= c.now && forall n :: n in b ==> b[n].lastSeen <= t
    ensures var a', b' := PinsAfter(grace, a, c), PinsAfter(grace, b, c.(sweep := false));
            if Admits(grace, a, c) && c.name == name then name in a' && name in b' && a'[name] == b'[name]
            else
              && (name in a' <==> name in a && !(c.sweep && Idle(a[name], grace, c.now)))
              && (name in b' <==> name in b) && (name in b' ==> b'[name] == b[name])
              && (name in a' ==> a'[name] == a[name])
  {
    SweepInvisible(grace, a, b, t, c);
  }

  /** The sweeping table is the other one without the forgotten names. */
  ghost predicate OnlyForgot(cfg: Config, ev: seq<Arrival>, n: nat, a: Pins, b: Pins, name: Name)
    requires n <= |ev|
  {
    && (name in a <==> name in b && !SweptAway(cfg, ev, n, name, b[name].lastSeen))
    && (name in a ==> a[name] == b[name])
  }

  lemma OnlyForgotStep(cfg: Config, ev: seq<Arrival>, n: nat, a: State, b: State, x: Step, y: Step, name: Name)
    requires 0 < n <= |ev| && a == StateAt(cfg, true, ev, n - 1) && b == StateAt(cfg, false, ev, n - 1)
    requires x == Handle(cfg, true, a, ev[n - 1]) && y == Handle(cfg, false, b, ev[n - 1])
    requires Forgetful(cfg, a, b, TimeBefore(ev, n - 1)) && TimeBefore(ev, n - 1) <= ev[n - 1].now
    requires OnlyForgot(cfg, ev, n - 1, a.pins, b.pins, name)
    ensures OnlyForgot(cfg, ev, n, x.st.pins, y.st.pins, name)
  {
    var c := ClaimOf(cfg, true, a, ev[n - 1]);
    StepLink(cfg, true, a, ev[n - 1]);
    StepLink(cfg, false, b, ev[n - 1]);
    SameClaim(cfg, a, b, ev[n - 1]);
    NameStep(cfg.pinGrace, a.pins, b.pins, TimeBefore(ev, n - 1), c, name);
    if name in y.st.pins { SweptAwayNext(cfg, ev, n, name, y.st.pins[name].lastSeen); }
  }

  lemma {:induction false} AlwaysOnlyForgot(cfg: Config, ev: seq<Arrival>, n: nat, a: State, b: State, name: Name)
    requires InOrder(ev) && n <= |ev| && a == StateAt(cfg, true, ev, n) && b == StateAt(cfg, false, ev, n)
    ensures OnlyForgot(cfg, ev, n, a.pins, b.pins, name)
    decreases n
  {
    if n > 0 {
      var a0, b0 := StateAt(cfg, true, ev, n - 1), StateAt(cfg, false, ev, n - 1);
      AlwaysOnlyForgot(cfg, ev, n - 1, a0, b0, name);
      AlwaysForgetful(cfg, ev, n - 1, a0, b0);
      OnlyForgotStep(cfg, ev, n, a0, b0, Handle(cfg, true, a0, ev[n - 1]), Handle(cfg, false, b0, ev[n - 1]), name);
    }
  }

  /** With a grace of zero or more the last sweep alone tells: it found the name's pin idle. */
  lemma ForgottenByLastSweep(cfg: Config, ev: seq<Arrival>, n: nat, name: Name, a: State, b: State)
    requires cfg.pinGrace >= 0 && InOrder(ev) && n <= |ev|
    requires a == StateAt(cfg, true, ev, n) && b == StateAt(cfg, false, ev, n)
    ensures Forgotten(cfg, ev, n, name) <==> name in b.pins && Idle(b.pins[name], cfg.pinGrace, a.lastSweep)
  {
    AlwaysOnlyForgot(cfg, ev, n, a, b, name);
    AlwaysTracks(cfg, ev, n, a, b);
  }

  // What the destination's half of a packet does

  /** What the running window of a counter has used up. */
  function Used(c: Option<Counter>, now: Time): nat {
    if c.Some? && now - c.value.start < SECOND then c.value.count else 0
  }

  /** The frame fits what is left of its destination's quota. */
  predicate Fits(cfg: Config, quotas: map<Name, Counter>, p: Codec.Packet, now: Time) {
    cfg.nameQuotaBytes <= 0 || Used(Lookup(quotas, p.dst), now) + |p.frame| <= cfg.nameQuotaBytes
  }

  /** The outcome of an admitted packet, given the table it is looked up in. */
  function Delivered(cfg: Config, pins: Pins, quotas: map<Name, Counter>, p: Codec.Packet, now: Time): Outcome {
    if p.dst !in pins then UnknownDestination
    else if !Fits(cfg, quotas, p, now) then QuotaExceeded
    else match Codec.WrapPacket(p) case Err(_) => WrapFailed case Ok(d) => Forward(pins[p.dst].addr, d)
  }

  lemma DeliveredIs(cfg: Config, sweeping: bool, st: State, e: Arrival)
    requires Decision(Handle(cfg, sweeping, st, e).outcome) == 4
    ensures e.packet.Some?
    ensures var s := Handle(cfg, sweeping, st, e);
            s.outcome == Delivered(cfg, s.st.pins, st.nameBytes, e.packet.value, e.now)
  {
  }

  /** The states after packet i, in the eyes of one name. */
  lemma AfterPacket(cfg: Config, ev: seq<Arrival>, i: nat, x: Step, y: Step, name: Name)
    requires InOrder(ev) && i < |ev|
    requires x == Handle(cfg, true, StateAt(cfg, true, ev, i), ev[i])
    requires y == Handle(cfg, false, StateAt(cfg, false, ev, i), ev[i])
    ensures Decision(x.outcome) == Decision(y.outcome)
    ensures name in x.st.pins <==> name in y.st.pins && !Forgotten(cfg, ev, i + 1, name)
    ensures Forgotten(cfg, ev, i + 1, name) ==> name in y.st.pins
    ensures name in x.st.pins ==> x.st.pins[name] == y.st.pins[name]
  {
    SweepingDecidesNothing(cfg, ev, i);
    AlwaysOnlyForgot(cfg, ev, i + 1, x.st, y.st, name);
  }

  /** A packet past the source budgets meets an unknown destination at the sweeping relay and a known one
      at the other if and only if a sweep found the destination's pin idle and it has not spoken since. */
  lemma ForgottenIff(cfg: Config, ev: seq<Arrival>, i: nat, x: Step, y: Step)
    requires InOrder(ev) && i < |ev|
    requires x == Handle(cfg, true, StateAt(cfg, true, ev, i), ev[i])
    requires y == Handle(cfg, false, StateAt(cfg, false, ev, i), ev[i])
    requires Decision(x.outcome) == 4
    ensures ev[i].packet.Some?
    ensures x.outcome.UnknownDestination? && !y.outcome.UnknownDestination?
            <==> Forgotten(cfg, ev, i + 1, ev[i].packet.value.dst)
    ensures y.outcome.UnknownDestination? ==> x.outcome.UnknownDestination?
  {
    DeliveredIs(cfg, true, StateAt(cfg, true, ev, i), ev[i]);
    AfterPacket(cfg, ev, i, x, y, ev[i].packet.value.dst);
    DeliveredIs(cfg, false, StateAt(cfg, false, ev, i), ev[i]);
  }

  /** Exactly when the two relays do the same with a packet past the source budgets: its destination is not
      forgotten, and if it is known its frame fits both running quotas or neither. */
  lemma ForwardingAgreesIff(cfg: Config, ev: seq<Arrival>, i: nat, a: State, b: State, x: Step, y: Step)
    requires InOrder(ev) && i < |ev|
    requires a == StateAt(cfg, true, ev, i) && b == StateAt(cfg, false, ev, i)
    requires x == Handle(cfg, true, a, ev[i]) && y == Handle(cfg, false, b, ev[i])
    requires Decision(x.outcome) == 4
    ensures ev[i].packet.Some?
    ensures var p := ev[i].packet.value;
            x.outcome == y.outcome <==>
              !Forgotten(cfg, ev, i + 1, p.dst)
              && (p.dst in y.st.pins ==>
                  (Fits(cfg, a.nameBytes, p, ev[i].now) <==> Fits(cfg, b.nameBytes, p, ev[i].now)))
  {
    DeliveredIs(cfg, true, a, ev[i]);
    AfterPacket(cfg, ev, i, x, y, ev[i].packet.value.dst);
    DeliveredIs(cfg, false, b, ev[i]);
  }

  // When the quotas agree

  /** The packet reaches its destination's quota at this relay. */
  predicate Reaches(s: Step, e: Arrival, name: Name) {
    Decision(s.outcome) == 4 && e.packet.Some? && e.packet.value.dst == name && !s.outcome.UnknownDestination?
  }

  /** A counter while its window runs. */
  function Running(c: Option<Counter>, now: Time): Option<Counter> {
    if c.Some? && now - c.value.start < SECOND then c else None
  }

  lemma DrawRunning(c: Option<Counter>, d: Option<Counter>, amount: nat, cap: int, now: Time)
    requires Running(c, now) == Running(d, now)
    ensures Running(Draw(c, amount, cap, now).1, now) == Running(Draw(d, amount, cap, now).1, now)
  {
  }

  lemma SweepKeepsRunning(cfg: Config, st: State, now: Time, name: Name, t: Time)
    requires now <= t
    ensures Running(Lookup(Swept(cfg, st, now).nameBytes, name), t) == Running(Lookup(st.nameBytes, name), t)
  {
  }

  /** An admitted packet draws on the quota of its destination, and on no other. */
  lemma AdmitQuota(cfg: Config, st: State, p: Codec.Packet, len: nat, src: Endpoint, now: Time, name: Name)
    ensures var s := Admit(cfg, st, p, len, src, now);
            Lookup(s.st.nameBytes, name)
            == if Decision(s.outcome) == 4 && p.dst == name && !s.outcome.UnknownDestination?
               then Draw(Lookup(st.nameBytes, name), |p.frame|, cfg.nameQuotaBytes, now).1
                   else Lookup(st.nameBytes, name)
  {
  }

  /** A packet moves the running quota of its destination only. */
  lemma QuotaStep(cfg: Config, sweeping: bool, st: State, e: Arrival, name: Name)
    ensures var s := Handle(cfg, sweeping, st, e);
            var c := Running(Lookup(st.nameBytes, name), e.now);
            Running(Lookup(s.st.nameBytes, name), e.now)
            == if Reaches(s, e, name)
               then Running(Draw(c, |e.packet.value.frame|, cfg.nameQuotaBytes, e.now).1, e.now) else c
  {
    if e.packet.Some? {
      var p, base := e.packet.value, if sweeping then Swept(cfg, st, e.now) else st;
      SweepKeepsRunning(cfg, st, e.now, name, e.now);
      AdmitQuota(cfg, base, p, e.len, e.src, e.now, name);
      DrawRunning(Lookup(base.nameBytes, name), Running(Lookup(st.nameBytes, name), e.now), |p.frame|,
                  cfg.nameQuotaBytes, e.now);
    }
  }

  /** No packet to the name came within the second before time t. */
  predicate Rested(ev: seq<Arrival>, n: nat, name: Name, t: Time)
    requires n <= |ev|
  {
    forall i :: 0 <= i < n && ev[i].packet.Some? && ev[i].packet.value.dst == name ==> t - ev[i].now >= SECOND
  }

  lemma StartStep(cfg: Config, sweeping: bool, st: State, e: Arrival, name: Name, t: Time)
    requires Running(Lookup(st.nameBytes, name), t) == None && e.now <= t
    requires e.packet.Some? && e.packet.value.dst == name ==> t - e.now >= SECOND
    ensures Running(Lookup(Handle(cfg, sweeping, st, e).st.nameBytes, name), t) == None
  {
    if e.packet.Some? {
      SweepKeepsRunning(cfg, st, e.now, name, t);
      AdmitQuota(cfg, if sweeping then Swept(cfg, st, e.now) else st, e.packet.value, e.len, e.src, e.now, name);
    }
  }

  /** A name at rest has no running quota. */
  lemma {:induction false} RestedQuota(cfg: Config, sweeping: bool, ev: seq<Arrival>, n: nat, name: Name, t: Time)
    requires InOrder(ev) && n <= |ev| && Rested(ev, n, name, t) && TimeBefore(ev, n) <= t
    ensures Running(Lookup(StateAt(cfg, sweeping, ev, n).nameBytes, name), t) == None
  {
    if n > 0 {
      RestedQuota(cfg, sweeping, ev, n - 1, name, t);
      StartStep(cfg, sweeping, StateAt(cfg, sweeping, ev, n - 1), ev[n - 1], name, t);
    }
  }

  /** The packet is past the source budgets and its destination is this name, which was forgotten. */
  ghost predicate MeetsForgotten(cfg: Config, ev: seq<Arrival>, i: nat, name: Name)
    requires i < |ev|
  {
    Decision(OutcomeAt(cfg, true, ev, i)) == 4 && ev[i].packet.Some? && ev[i].packet.value.dst == name
    && Forgotten(cfg, ev, i + 1, name)
  }

  lemma ReachesAlike(cfg: Config, ev: seq<Arrival>, i: nat, name: Name, x: Step, y: Step)
    requires InOrder(ev) && i < |ev| && !MeetsForgotten(cfg, ev, i, name)
    requires x == Handle(cfg, true, StateAt(cfg, true, ev, i), ev[i])
    requires y == Handle(cfg, false, StateAt(cfg, false, ev, i), ev[i])
    ensures Reaches(x, ev[i], name) == Reaches(y, ev[i], name)
  {
    SweepingDecidesNothing(cfg, ev, i);
    if Decision(x.outcome) == 4 { ForgottenIff(cfg, ev, i, x, y); }
  }

  /** The two relays' running quotas of the name are equal. */
  ghost predicate Synced(a: State, b: State, name: Name, t: Time) {
    Running(Lookup(a.nameBytes, name), t) == Running(Lookup(b.nameBytes, name), t)
  }

  lemma SyncStep(cfg: Config, a: State, b: State, e: Arrival, name: Name, t: Time)
    requires Synced(a, b, name, t) && t <= e.now
    requires Reaches(Handle(cfg, true, a, e), e, name) == Reaches(Handle(cfg, false, b, e), e, name)
    ensures Synced(Handle(cfg, true, a, e).st, Handle(cfg, false, b, e).st, name, e.now)
  {
    QuotaStep(cfg, true, a, e, name);
    QuotaStep(cfg, false, b, e, name);
  }

  /** From any moment a name is at rest, its running quotas stay equal until a packet meets it forgotten. */
  lemma {:induction false} QuotasAgree(cfg: Config, ev: seq<Arrival>, from: nat, n: nat, name: Name, t: Time)
    requires InOrder(ev) && from <= n <= |ev| && Rested(ev, from, name, t)
    requires TimeBefore(ev, from) <= t && (from < |ev| ==> t <= ev[from].now)
    requires forall i :: from <= i < n ==> !MeetsForgotten(cfg, ev, i, name)
    ensures Synced(StateAt(cfg, true, ev, n), StateAt(cfg, false, ev, n), name, if from == n then t else ev[n - 1].now)
  {
    if from == n {
      RestedQuota(cfg, true, ev, n, name, t);
      RestedQuota(cfg, false, ev, n, name, t);
    } else {
      QuotasAgree(cfg, ev, from, n - 1, name, t);
      var a, b := StateAt(cfg, true, ev, n - 1), StateAt(cfg, false, ev, n - 1);
      ReachesAlike(cfg, ev, n - 1, name, Handle(cfg, true, a, ev[n - 1]), Handle(cfg, false, b, ev[n - 1]));
      SyncStep(cfg, a, b, ev[n - 1], name, if from == n - 1 then t else ev[n - 2].now);
    }
  }

  lemma SyncedFits(cfg: Config, a: State, b: State, p: Codec.Packet, t: Time, now: Time)
    requires Synced(a, b, p.dst, t) && t <= now
    ensures Fits(cfg, a.nameBytes, p, now) <==> Fits(cfg, b.nameBytes, p, now)
  {
  }

  /** After a rest of a second, the two relays do the same with every packet to the name until one past the
      source budgets meets it forgotten. */
  lemma SameUntilForgotten(cfg: Config, ev: seq<Arrival>, from: nat, i: nat, name: Name, x: Step, y: Step)
    requires InOrder(ev) && from <= i < |ev| && Rested(ev, from, name, ev[from].now)
    requires forall j :: from <= j < i ==> !MeetsForgotten(cfg, ev, j, name)
    requires x == Handle(cfg, true, StateAt(cfg, true, ev, i), ev[i])
    requires y == Handle(cfg, false, StateAt(cfg, false, ev, i), ev[i])
    requires Decision(x.outcome) == 4 && ev[i].packet.Some? && ev[i].packet.value.dst == name
    ensures x.outcome == y.outcome <==> !Forgotten(cfg, ev, i + 1, name)
  {
    var a, b := StateAt(cfg, true, ev, i), StateAt(cfg, false, ev, i);
    var t := if from == i then ev[i].now else ev[i - 1].now;
    QuotasAgree(cfg, ev, from, i, name, ev[from].now);
    SyncedFits(cfg, a, b, ev[i].packet.value, t, ev[i].now);
    ForwardingAgreesIff(cfg, ev, i, a, b, x, y);
  }
}

/** A packet trace on which the two relays part: first over a forgotten destination, then over its quota. */
module RelayParting {
  import opened Wrappers
  import opened Noise
  import opened Budget
  import opened BigEndian
  import opened RelaySpec
  import opened RelayRuns
  import opened RelayForwarding
  import Codec = RelayCodec

  /** The production grace, a quota of 10 bytes a second, every other budget disabled. */
  const CONFIG := Config(30 * SECOND, -1, -1, 10, -1, -1)

  const HERE := Endpoint(1, 1)

  const CLAIMS: nat := 4097

  const LATE: Time := 61 * SECOND

  function NameOf(i: nat): Name { PutU16(i) }

  function PacketOf(src: nat, dst: nat, frame: Bytes): Codec.Packet {
    Codec.Packet(NameOf(src), NameOf(dst), frame)
  }

  /** The packet with its whole header: magic, two lengths and two names of two bytes. */
  function Speak(src: nat, dst: nat, frame: Bytes, now: Time): Arrival {
    Arrival(Some(PacketOf(src, dst, frame)), 9 + |frame|, HERE, now)
  }

  /** The arrival of some datagram. */
  ghost predicate OffTheWire(e: Arrival) {
    exists pkt :: e == Receive(pkt, e.src, e.now)
  }

  lemma SpeakIsReceived(src: nat, dst: nat, frame: Bytes, now: Time)
    ensures OffTheWire(Speak(src, dst, frame, now))
  {
    var p := PacketOf(src, dst, frame);
    Codec.ParseOfWrap(p);
    assert Speak(src, dst, frame, now) == Receive(Codec.WrapPacket(p).value, HERE, now);
  }

  const FRAME: Bytes := [1, 2, 3, 4, 5, 6, 7, 8]

  /** 4097 names are claimed; 61 s later a packet to the first one, a packet from it, and the first packet again. */
  function Trace(): (ev: seq<Arrival>)
    ensures |ev| == CLAIMS + 3
  {
    seq(CLAIMS, i requires 0 <= i < CLAIMS => Speak(i, 60000, [], 0))
    + [Speak(5000, 0, FRAME, LATE), Speak(0, 60000, [], LATE), Speak(5000, 0, FRAME, LATE)]
  }

  lemma TraceAt(i: nat)
    requires i < CLAIMS + 3
    ensures Trace()[i] == if i < CLAIMS then Speak(i, 60000, [], 0)
                          else if i == CLAIMS + 1 then Speak(0, 60000, [], LATE) else Speak(5000, 0, FRAME, LATE)
  {
  }

  /** The trace can be received, in time order. */
  ghost predicate Receivable(ev: seq<Arrival>) {
    InOrder(ev) && forall i :: 0 <= i < |ev| ==> OffTheWire(ev[i])
  }

  lemma TraceIsReceivable()
    ensures Receivable(Trace())
  {
    forall i, j | 0 <= i < j < CLAIMS + 3 ensures Trace()[i].now <= Trace()[j].now {
      TraceAt(i);
      TraceAt(j);
    }
    forall i | 0 <= i < CLAIMS + 3 ensures OffTheWire(Trace()[i]) {
      TraceAt(i);
      SpeakIsReceived(i, 60000, [], 0);
      SpeakIsReceived(0, 60000, [], LATE);
      SpeakIsReceived(5000, 0, FRAME, LATE);
    }
  }

  lemma NamesDiffer(i: nat, x: Name)
    requires i < 0x1_0000
    ensures x == NameOf(i) <==> |x| == 2 && GetU16(x) == i
  {
    RoundTrip16(i, []);
    assert PutU16(i) + [] == PutU16(i);
    if |x| == 2 {
      RoundTrip16(0, x);
      assert x[..2] == x;
    }
  }

  /** The first n names are claimed and nothing else happened. */
  ghost predicate Filled(st: State, n: nat) {
    && st == State(st.pins, Sources(map[], map[]), map[], INIT.globals, 0) && |st.pins| == n
    && (forall x :: x in st.pins <==> |x| == 2 && GetU16(x) < n)
    && (forall x :: x in st.pins ==> st.pins[x] == Pin(HERE, 0))
  }

  lemma FillStep(sweeping: bool, st: State, n: nat)
    requires n < CLAIMS && Filled(st, n)
    ensures Filled(Handle(CONFIG, sweeping, st, Speak(n, 60000, [], 0)).st, n + 1)
  {
    NamesDiffer(n, NameOf(n));
    NamesDiffer(60000, NameOf(60000));
    forall x ensures x == NameOf(n) <==> |x| == 2 && GetU16(x) == n { NamesDiffer(n, x); }
    assert NameOf(n) !in st.pins;
  }

  lemma {:induction false} FilledAt(sweeping: bool, n: nat)
    requires n <= CLAIMS
    ensures Filled(StateAt(CONFIG, sweeping, Trace(), n), n)
  {
    if n > 0 {
      FilledAt(sweeping, n - 1);
      TraceAt(n - 1);
      FillStep(sweeping, StateAt(CONFIG, sweeping, Trace(), n - 1), n - 1);
    }
  }

  lemma FirstSwept(st: State)
    requires Filled(st, CLAIMS)
    ensures var s := Handle(CONFIG, true, st, Speak(5000, 0, FRAME, LATE));
            && s.outcome == UnknownDestination
            && s.st == State(map[NameOf(5000) := Pin(HERE, LATE)], st.sources, map[], st.globals, LATE)
  {
    NamesDiffer(0, NameOf(5000));
    NamesDiffer(5000, NameOf(5000));
    var e := Speak(5000, 0, FRAME, LATE);
    assert LivePins(st.pins, CONFIG.pinGrace, LATE) == map[];
    assert Swept(CONFIG, st, LATE) == State(map[], st.sources, map[], st.globals, LATE);
  }

  lemma FirstKept(st: State)
    requires Filled(st, CLAIMS)
    ensures var s := Handle(CONFIG, false, st, Speak(5000, 0, FRAME, LATE));
            && s.outcome.Forward? && NameOf(0) in s.st.pins && s.st.pins[NameOf(0)] == Pin(HERE, 0)
            && s.st == State(st.pins[NameOf(5000) := Pin(HERE, LATE)], st.sources, map[NameOf(0) := Counter(LATE, 8)],
                             st.globals, 0)
  {
    NamesDiffer(0, NameOf(0));
    NamesDiffer(0, NameOf(5000));
    NamesDiffer(5000, NameOf(5000));
    var e := Speak(5000, 0, FRAME, LATE);
    assert Codec.WrapPacket(e.packet.value).Ok?;
  }

  /** The first name returns: its pin is renewed and no quota moves. */
  lemma Returns(sweeping: bool, st: State)
    requires (!sweeping || st.lastSweep == LATE) && NameOf(60000) !in st.pins
    requires NameOf(0) in st.pins ==> st.pins[NameOf(0)].addr == HERE
    ensures var s := Handle(CONFIG, sweeping, st, Speak(0, 60000, [], LATE));
            s.st == st.(pins := st.pins[NameOf(0) := Pin(HERE, LATE)])
  {
    NamesDiffer(0, NameOf(60000));
    NamesDiffer(60000, NameOf(60000));
  }

  /** It is written to again, within the second. */
  lemma Again(sweeping: bool, st: State)
    requires (!sweeping || st.lastSweep == LATE) && NameOf(0) in st.pins
    requires NameOf(5000) in st.pins && st.pins[NameOf(5000)].addr == HERE
    ensures var o := Handle(CONFIG, sweeping, st, Speak(5000, 0, FRAME, LATE)).outcome;
            if Used(Lookup(st.nameBytes, NameOf(0)), LATE) <= 2 then o.Forward? else o == QuotaExceeded
  {
    assert Codec.WrapPacket(Speak(5000, 0, FRAME, LATE).packet.value).Ok?;
  }

  /** What a relay does with the last three packets, from the filled table. */
  lemma LastThree(sweeping: bool, st0: State, st1: State, st2: State)
    requires Filled(st0, CLAIMS)
    requires st1 == Handle(CONFIG, sweeping, st0, Speak(5000, 0, FRAME, LATE)).st
    requires st2 == Handle(CONFIG, sweeping, st1, Speak(0, 60000, [], LATE)).st
    ensures var o := Handle(CONFIG, sweeping, st0, Speak(5000, 0, FRAME, LATE)).outcome;
            if sweeping then o == UnknownDestination else o.Forward?
    ensures var o := Handle(CONFIG, sweeping, st2, Speak(5000, 0, FRAME, LATE)).outcome;
            if sweeping then o.Forward? else o == QuotaExceeded
  {
    if sweeping { FirstSwept(st0); } else { FirstKept(st0); }
    NamesDiffer(60000, NameOf(60000));
    NamesDiffer(5000, NameOf(60000));
    NamesDiffer(5000, NameOf(5000));
    NamesDiffer(0, NameOf(0));
    Returns(sweeping, st1);
    Again(sweeping, st2);
  }

  lemma NextAt(sweeping: bool, n: nat, e: Arrival, st: State)
    requires n < CLAIMS + 3 && Trace()[n] == e && st == StateAt(CONFIG, sweeping, Trace(), n)
    ensures StateAt(CONFIG, sweeping, Trace(), n + 1) == Handle(CONFIG, sweeping, st, e).st
    ensures OutcomeAt(CONFIG, sweeping, Trace(), n) == Handle(CONFIG, sweeping, st, e).outcome
  {
  }

  lemma LastOutcomes(sweeping: bool, a: Outcome, b: Outcome)
    requires a == OutcomeAt(CONFIG, sweeping, Trace(), CLAIMS) && b == OutcomeAt(CONFIG, sweeping, Trace(), CLAIMS + 2)
    ensures if sweeping then a == UnknownDestination && b.Forward? else a.Forward? && b == QuotaExceeded
  {
    var st0, st1 := StateAt(CONFIG, sweeping, Trace(), CLAIMS), StateAt(CONFIG, sweeping, Trace(), CLAIMS + 1);
    var st2 := StateAt(CONFIG, sweeping, Trace(), CLAIMS + 2);
    FilledAt(sweeping, CLAIMS);
    TraceAt(CLAIMS);
    TraceAt(CLAIMS + 1);
    TraceAt(CLAIMS + 2);
    NextAt(sweeping, CLAIMS, Speak(5000, 0, FRAME, LATE), st0);
    NextAt(sweeping, CLAIMS + 1, Speak(0, 60000, [], LATE), st1);
    NextAt(sweeping, CLAIMS + 2, Speak(5000, 0, FRAME, LATE), st2);
    LastThree(sweeping, st0, st1, st2);
  }

  /** The two relays do differ on a receivable trace: first only the one that never sweeps knows the
      destination, and once the name has returned its quota is used up at that relay only. */
  lemma RelaysPart()
    ensures Receivable(Trace())
    ensures OutcomeAt(CONFIG, true, Trace(), CLAIMS) == UnknownDestination
    ensures OutcomeAt(CONFIG, false, Trace(), CLAIMS).Forward?
    ensures OutcomeAt(CONFIG, true, Trace(), CLAIMS + 2).Forward?
    ensures OutcomeAt(CONFIG, false, Trace(), CLAIMS + 2) == QuotaExceeded
  {
    TraceIsReceivable();
    LastOutcomes(true, OutcomeAt(CONFIG, true, Trace(), CLAIMS), OutcomeAt(CONFIG, true, Trace(), CLAIMS + 2));
    LastOutcomes(false, OutcomeAt(CONFIG, false, Trace(), CLAIMS), OutcomeAt(CONFIG, false, Trace(), CLAIMS + 2));
  }
}
