/** The relay's admission decisions as functions of its state. */
module RelaySpec {
  import opened Wrappers
  import opened Noise
  import opened Budget
  import Codec = RelayCodec

  datatype Endpoint = Endpoint(ip: nat, port: nat)

  type Name = Bytes

  datatype Config = Config(pinGrace: int, maxPPS: int, maxBytesPS: int, nameQuotaBytes: int,
                           globalMaxPPS: int, globalMaxBytesPS: int)

  /** The production budgets where zero was configured. */
  function FillDefaults(c: Config): Config {
    Config(if c.pinGrace == 0 then 30 * SECOND else c.pinGrace,
           if c.maxPPS == 0 then 300 else c.maxPPS,
           if c.maxBytesPS == 0 then 0x2_0000 else c.maxBytesPS,
           if c.nameQuotaBytes == 0 then 0x4_0000 else c.nameQuotaBytes,
           if c.globalMaxPPS == 0 then 5000 else c.globalMaxPPS,
           if c.globalMaxBytesPS == 0 then 0x80_0000 else c.globalMaxBytesPS)
  }

  datatype Pin = Pin(addr: Endpoint, lastSeen: Time)

  datatype Stats = Stats(wrapped: nat, forwarded: nat, dropped: nat, pinnedDropped: nat, rateLimited: nat)

  datatype Globals = Globals(rate: Counter, bytes: Counter)

  datatype Sources = Sources(rate: map<Endpoint, Counter>, bytes: map<Endpoint, Counter>)

  datatype State = State(pins: map<Name, Pin>, sources: Sources, nameBytes: map<Name, Counter>,
                         globals: Globals, lastSweep: Time)

  const INIT := State(map[], Sources(map[], map[]), map[], Globals(Counter(0, 0), Counter(0, 0)), 0)

  const SWEEP_THRESHOLD := 4096

  datatype Outcome = Malformed | GlobalLimited | PinnedElsewhere | SourceLimited | UnknownDestination
                   | QuotaExceeded | WrapFailed | Forward(to: Endpoint, datagram: Bytes)

  /** Which counters a packet's outcome moves; writeOk is the socket's verdict on a forward. */
  function Tally(s: Stats, o: Outcome, writeOk: bool): Stats {
    var admitted := o.UnknownDestination? || o.QuotaExceeded? || o.WrapFailed? || o.Forward?;
    var seen := if admitted then s.wrapped + 1 else s.wrapped;
    match o
    case GlobalLimited | SourceLimited | QuotaExceeded => s.(wrapped := seen, rateLimited := s.rateLimited + 1)
    case PinnedElsewhere => s.(wrapped := seen, pinnedDropped := s.pinnedDropped + 1)
    case Malformed | UnknownDestination | WrapFailed => s.(wrapped := seen, dropped := s.dropped + 1)
    case Forward(_, _) =>
      if writeOk then s.(wrapped := seen, forwarded := s.forwarded + 1)
      else s.(wrapped := seen, dropped := s.dropped + 1)
  }

  // Sweeping

  function Entries(st: State): nat { |st.sources.rate| + |st.sources.bytes| + |st.nameBytes| + |st.pins| }

  predicate SweepDue(st: State, now: Time) {
    Entries(st) > SWEEP_THRESHOLD && now - st.lastSweep >= SECOND
  }

  function LiveCounters<K>(m: map<K, Counter>, now: Time): map<K, Counter> {
    map k | k in m && !Stale(m[k], now) :: m[k]
  }

  predicate Idle(p: Pin, grace: int, now: Time) { now - p.lastSeen > 2 * grace }

  function LivePins(pins: map<Name, Pin>, grace: int, now: Time): map<Name, Pin> {
    map n | n in pins && !Idle(pins[n], grace, now) :: pins[n]
  }

  function Swept(cfg: Config, st: State, now: Time): State {
    if SweepDue(st, now) then
      State(LivePins(st.pins, cfg.pinGrace, now),
            Sources(LiveCounters(st.sources.rate, now), LiveCounters(st.sources.bytes, now)),
            LiveCounters(st.nameBytes, now), st.globals, now)
    else st
  }

  // Budgets

  function Lookup<K, V>(m: map<K, V>, k: K): Option<V> { if k in m then Some(m[k]) else None }

  function Store<K, V>(m: map<K, V>, k: K, v: Option<V>): map<K, V> {
    match v case Some(x) => m[k := x] case None => m
  }

  function Take<K>(m: map<K, Counter>, k: K, amount: nat, cap: int, now: Time): (bool, map<K, Counter>) {
    var d := Draw(Lookup(m, k), amount, cap, now);
    (d.0, Store(m, k, d.1))
  }

  function TakeGlobal(c: Counter, amount: nat, cap: int, now: Time): (bool, Counter) {
    var d := Draw(Some(c), amount, cap, now);
    (d.0, d.1.value)
  }

  // One packet

  /** The name may speak from this address: unclaimed, its own address, or a lapsed pin. */
  predicate PinAllows(grace: int, pins: map<Name, Pin>, name: Name, addr: Endpoint, now: Time) {
    name !in pins || pins[name].addr == addr || now - pins[name].lastSeen > grace
  }

  datatype Step = Step(st: State, outcome: Outcome)

  /** A received datagram: its packet if it parses, its size, where it came from and when. */
  datatype Arrival = Arrival(packet: Option<Codec.Packet>, len: nat, src: Endpoint, now: Time)

  function Receive(pkt: Bytes, src: Endpoint, now: Time): Arrival {
    Arrival(match Codec.ParsePacket(pkt) case Ok(p) => Some(p) case Err(_) => None, |pkt|, src, now)
  }

  /** sweeping is false only for the reference relay that never forgets. */
  function Handle(cfg: Config, sweeping: bool, st: State, a: Arrival): Step {
    if a.packet.None? then Step(st, Malformed)
    else Admit(cfg, if sweeping then Swept(cfg, st, a.now) else st, a.packet.value, a.len, a.src, a.now)
  }

  function Admit(cfg: Config, st: State, p: Codec.Packet, len: nat, src: Endpoint, now: Time): Step {
    var g := AcrossSources(cfg, st.globals, len, now);
    if !g.0 then Step(st.(globals := g.1), GlobalLimited)
    else if !PinAllows(cfg.pinGrace, st.pins, p.src, src, now) then Step(st.(globals := g.1), PinnedElsewhere)
    else
      var pins := st.pins[p.src := Pin(src, now)];
      var s := OfSource(cfg, st.sources, len, src, now);
      if !s.0 then Step(State(pins, s.1, st.nameBytes, g.1, st.lastSweep), SourceLimited)
      else
        var d := ToDestination(cfg, pins, st.nameBytes, p, now);
        Step(State(pins, s.1, d.1, g.1, st.lastSweep), d.0)
  }

  /** The budgets across all sources; bytes are drawn only once the packet budget passed. */
  function AcrossSources(cfg: Config, g: Globals, len: nat, now: Time): (bool, Globals) {
    var rate := TakeGlobal(g.rate, 1, cfg.globalMaxPPS, now);
    var bytes := TakeGlobal(g.bytes, len, cfg.globalMaxBytesPS, now);
    if !rate.0 then (false, Globals(rate.1, g.bytes)) else (bytes.0, Globals(rate.1, bytes.1))
  }

  /** The budgets of one source address, in the same manner. */
  function OfSource(cfg: Config, s: Sources, len: nat, src: Endpoint, now: Time): (bool, Sources) {
    var rate := Take(s.rate, src, 1, cfg.maxPPS, now);
    var bytes := Take(s.bytes, src, len, cfg.maxBytesPS, now);
    if !rate.0 then (false, Sources(rate.1, s.bytes)) else (bytes.0, Sources(rate.1, bytes.1))
  }

  function ToDestination(cfg: Config, pins: map<Name, Pin>, quotas: map<Name, Counter>, p: Codec.Packet, now: Time)
    : (r: (Outcome, map<Name, Counter>))
    ensures r.0.UnknownDestination? || r.0.QuotaExceeded? || r.0.WrapFailed? || r.0.Forward?
    ensures r.0.WrapFailed? ==> Codec.WrapPacket(p).Err?
    ensures r.0.Forward? ==> p.dst in pins && r.0.to == pins[p.dst].addr && Codec.WrapPacket(p) == Ok(r.0.datagram)
  {
    if p.dst !in pins then (UnknownDestination, quotas)
    else
      var quota := Take(quotas, p.dst, |p.frame|, cfg.nameQuotaBytes, now);
      if !quota.0 then (QuotaExceeded, quota.1)
      else match Codec.WrapPacket(p)
           case Err(_) => (WrapFailed, quota.1)
           case Ok(d) => (Forward(pins[p.dst].addr, d), quota.1)
  }
}

/** The relay server with its maps and counters. */
module RelayServer {
  import opened Wrappers
  import opened Noise
  import opened Budget
  import opened RelaySpec
  import Codec = RelayCodec

  class Server {
    const cfg: Config
    var pins: map<Name, Pin>
    var srcRate: map<Endpoint, Counter>
    var srcBytes: map<Endpoint, Counter>
    var nameBytes: map<Name, Counter>
    var globalRate: Counter
    var globalBytes: Counter
    var lastSweep: Time
    var stats: Stats

    ghost function View(): State
      reads this
    {
      State(pins, Sources(srcRate, srcBytes), nameBytes, Globals(globalRate, globalBytes), lastSweep)
    }

    constructor (cfg: Config)
      ensures View() == INIT && stats == Stats(0, 0, 0, 0, 0) && this.cfg == FillDefaults(cfg)
    {
      this.cfg := FillDefaults(cfg);
      pins, srcRate, srcBytes, nameBytes := map[], map[], map[], map[];
      globalRate, globalBytes, lastSweep := Counter(0, 0), Counter(0, 0), 0;
      stats := Stats(0, 0, 0, 0, 0);
    }

    /** Draws from a budget kept per key. */
    static method TakeKey<K(==)>(m: map<K, Counter>, key: K, amount: nat, cap: int, now: Time)
      returns (ok: bool, m': map<K, Counter>)
      ensures (ok, m') == Take(m, key, amount, cap, now)
    {
      m' := m;
      if cap <= 0 { ok := true; assert Store(m, key, Lookup(m, key)) == m; return; }
      if key !in m || now - m[key].start >= SECOND {
        var eff := amount;
        if eff > cap { eff := cap; }
        m' := m[key := Counter(now, eff)];
        ok := amount <= cap;
        return;
      }
      var c := m[key];
      if c.count + amount > cap { ok := false; assert m[key := c] == m; return; }
      m' := m[key := Counter(c.start, c.count + amount)];
      ok := true;
    }

    /** Draws from a budget shared by every source. */
    static method TakeShared(c: Counter, amount: nat, cap: int, now: Time) returns (ok: bool, c': Counter)
      ensures (ok, c') == TakeGlobal(c, amount, cap, now)
    {
      c' := c;
      if cap <= 0 { ok := true; return; }
      if now - c.start >= SECOND {
        var eff := amount;
        if eff > cap { eff := cap; }
        c' := Counter(now, eff);
        ok := amount <= cap;
        return;
      }
      if c.count + amount > cap { ok := false; return; }
      c' := Counter(c.start, c.count + amount);
      ok := true;
    }

    static method PruneCounters<K(==)>(m: map<K, Counter>, now: Time) returns (m': map<K, Counter>)
      ensures m' == LiveCounters(m, now)
    {
      m' := m;
      var todo := m.Keys;
      while todo != {}
        invariant todo <= m.Keys
        invariant m' == map k | k in m && (k in todo || !Stale(m[k], now)) :: m[k]
        decreases todo
      {
        var k :| k in todo;
        todo := todo - {k};
        if now - m[k].start > 2 * SECOND { m' := m' - {k}; }
      }
    }

    static method PrunePins(pins: map<Name, Pin>, grace: int, now: Time) returns (pins': map<Name, Pin>)
      ensures pins' == LivePins(pins, grace, now)
    {
      pins' := pins;
      var todo := pins.Keys;
      while todo != {}
        invariant todo <= pins.Keys
        invariant pins' == map n | n in pins && (n in todo || !Idle(pins[n], grace, now)) :: pins[n]
        decreases todo
      {
        var n :| n in todo;
        todo := todo - {n};
        if now - pins[n].lastSeen > 2 * grace { pins' := pins' - {n}; }
      }
    }

    /** Prunes stale counters and idle pins once the maps are large and the last sweep is a second old. */
    method MaybeSweep(now: Time)
      modifies this
      ensures View() == Swept(cfg, old(View()), now) && stats == old(stats)
    {
      if |srcRate| + |srcBytes| + |nameBytes| + |pins| <= SWEEP_THRESHOLD { return; }
      if now - lastSweep < SECOND { return; }
      lastSweep := now;
      srcRate := PruneCounters(srcRate, now);
      srcBytes := PruneCounters(srcBytes, now);
      nameBytes := PruneCounters(nameBytes, now);
      pins := PrunePins(pins, cfg.pinGrace, now);
    }

    method Count(wrapped: nat, forwarded: nat, dropped: nat, pinnedDropped: nat, rateLimited: nat)
      modifies `stats
      ensures stats == Stats(old(stats.wrapped) + wrapped, old(stats.forwarded) + forwarded,
                             old(stats.dropped) + dropped,
                             old(stats.pinnedDropped) + pinnedDropped, old(stats.rateLimited) + rateLimited)
    {
      stats := Stats(stats.wrapped + wrapped, stats.forwarded + forwarded, stats.dropped + dropped,
                     stats.pinnedDropped + pinnedDropped, stats.rateLimited + rateLimited);
    }

    method HandlePacket(pkt: Bytes, src: Endpoint, now: Time, writeOk: bool) returns (outcome: Outcome)
      modifies this
      ensures Step(View(), outcome) == Handle(cfg, true, old(View()), Receive(pkt, src, now))
      ensures stats == Tally(old(stats), outcome, writeOk)
    {
      var parsed := Codec.ParsePacket(pkt);
      if parsed.Err? { Count(0, 0, 1, 0, 0); return Malformed; }
      var p := parsed.value;
      MaybeSweep(now);
      outcome := AdmitPacket(p, |pkt|, src, now, writeOk);
    }

    /** Everything after the sweep. */
    method AdmitPacket(p: Codec.Packet, len: nat, src: Endpoint, now: Time, writeOk: bool) returns (outcome: Outcome)
      modifies this
      ensures Step(View(), outcome) == Admit(cfg, old(View()), p, len, src, now)
      ensures stats == Tally(old(stats), outcome, writeOk)
    {
      var ok := GlobalBudgets(len, now);
      if !ok { Count(0, 0, 0, 0, 1); return GlobalLimited; }
      ok := PinSource(p.src, src, now);
      if !ok { Count(0, 0, 0, 1, 0); return PinnedElsewhere; }
      ok := SourceBudgets(len, src, now);
      if !ok { Count(0, 0, 0, 0, 1); return SourceLimited; }
      outcome := Deliver(p, now, writeOk);
    }

    /** Refreshes, rebinds or creates the sender's pin, unless it is fresh at another address. */
    method PinSource(name: Name, src: Endpoint, now: Time) returns (ok: bool)
      modifies `pins
      ensures ok <==> PinAllows(cfg.pinGrace, old(pins), name, src, now)
      ensures pins == if ok then old(pins)[name := Pin(src, now)] else old(pins)
    {
      if name in pins {
        var pin := pins[name];
        if pin.addr == src {
          pins := pins[name := Pin(pin.addr, now)];
        } else if now - pin.lastSeen > cfg.pinGrace {
          pins := pins[name := Pin(src, now)];
        } else {
          return false;
        }
      } else {
        pins := pins[name := Pin(src, now)];
      }
      return true;
    }

    /** Both budgets across all sources; the byte budget is drawn only after the packet budget passed. */
    method GlobalBudgets(len: nat, now: Time) returns (ok: bool)
      modifies `globalRate, `globalBytes
      ensures (ok, Globals(globalRate, globalBytes)) == AcrossSources(cfg, old(Globals(globalRate, globalBytes)), len,
                                                                      now)
    {
      ok, globalRate := TakeShared(globalRate, 1, cfg.globalMaxPPS, now);
      if ok {
        ok, globalBytes := TakeShared(globalBytes, len, cfg.globalMaxBytesPS, now);
      }
    }

    /** Both budgets of a source address; the byte budget is drawn only after the packet budget passed. */
    method SourceBudgets(len: nat, src: Endpoint, now: Time) returns (ok: bool)
      modifies `srcRate, `srcBytes
      ensures (ok, Sources(srcRate, srcBytes)) == OfSource(cfg, old(Sources(srcRate, srcBytes)), len, src, now)
    {
      ok, srcRate := TakeKey(srcRate, src, 1, cfg.maxPPS, now);
      if ok {
        ok, srcBytes := TakeKey(srcBytes, src, len, cfg.maxBytesPS, now);
      }
    }

    /** The destination's half: lookup, quota, and the re-wrapped datagram. */
    method Deliver(p: Codec.Packet, now: Time, writeOk: bool) returns (outcome: Outcome)
      modifies `nameBytes, `stats
      ensures (outcome, nameBytes) == ToDestination(cfg, pins, old(nameBytes), p, now)
      ensures stats == Tally(old(stats), outcome, writeOk)
    {
      Count(1, 0, 0, 0, 0);
      if p.dst !in pins { Count(0, 0, 1, 0, 0); return UnknownDestination; }
      var dst := pins[p.dst];
      var ok;
      ok, nameBytes := TakeKey(nameBytes, p.dst, |p.frame|, cfg.nameQuotaBytes, now);
      if !ok { Count(0, 0, 0, 0, 1); return QuotaExceeded; }
      var dstAddr := dst.addr;
      var fwd := Codec.WrapPacket(p);
      if fwd.Err? { Count(0, 0, 1, 0, 0); return WrapFailed; }
      if !writeOk { Count(0, 0, 1, 0, 0); return Forward(dstAddr, fwd.value); }
      Count(0, 1, 0, 0, 0);
      return Forward(dstAddr, fwd.value);
    }
  }
}
