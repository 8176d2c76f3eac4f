/** One peer: what each critical section does to its state, and which frame it emits. */
module PeerSpec {
  import opened Wrappers
  import opened Noise
  import opened SessionSpec
  import opened HandshakeSpec
  import opened DataPlane
  import opened ReplaySpec
  import opened WireBudget
  import Budget

  type Time = Budget.Time

  type Address = nat

  const HS1_PER_SECOND: nat := 8
  const HS1_RESEND_INTERVAL: nat := Budget.SECOND / 2
  const RESPONDER_TIMEOUT: nat := 10 * Budget.SECOND
  const RECV_CAPACITY: nat := 64

  /** A frame on the wire; None marks a payload no honest peer writes. */
  datatype Wire = Probe | Hs1(hello: Option<Hello>) | Hs2(answer: Option<Answer>) | Hs3(closing: Option<Transcript>)
                | Data(frame: Option<Frame<Box>>)

  datatype Sent = Nothing | ToRelay(wire: Wire) | ToAddress(address: Address, wire: Wire)

  /** Who the peer is: its static key, the other's registered one, its role and the relay it may use. */
  datatype Self = Self(me: Static, them: Static, initiator: bool, relay: Option<Address>)

  /** The cached handshake frames, each resent verbatim, and the HS1 the responder accepted. */
  datatype Cache = Cache(hs1: Option<Hello>, hs1Msg: Option<Hello>, hs2: Option<Answer>, hs3: Option<Transcript>,
                         hs3Pending: bool)

  const NO_FRAMES := Cache(None, None, None, None, false)

  /** Everything a handshake in flight holds. */
  datatype Half = Half(initiating: Option<Initiating>, responding: Option<Responding>, cache: Cache)

  const NO_HANDSHAKE := Half(None, None, NO_FRAMES)

  datatype Live = Live(sess: Option<SessionState>, win: Window, established: bool)

  datatype Route = Route(mode: Path, path: Path, directEP: Option<Address>)

  datatype Clocks = Clocks(hs2SentAt: Time, lastHS3: Time, sessSince: Time, phaseStart: Time, lastHS1: Time,
                           lastSent: Time)

  datatype Burst = Burst(start: Time, count: nat)

  datatype Tallies = Tallies(rekeyCount: nat, bytesTx: nat, bytesRx: nat)

  datatype Inbox = Inbox(closed: bool, recvClosed: bool, recv: seq<Bytes>)

  datatype PeerState = PeerState(hs: Half, live: Live, route: Route, clocks: Clocks, burst: Burst, tallies: Tallies,
                                 inbox: Inbox)

  function Init(directEP: Option<Address>): PeerState {
    PeerState(NO_HANDSHAKE, Live(None, EMPTY, false), Route(NoPath, NoPath, directEP), Clocks(0, 0, 0, 0, 0, 0),
              Burst(0, 0), Tallies(0, 0, 0), Inbox(false, false, []))
  }

  // Emitting

  function AddressFor(self: Self, r: Route, mode: Path): Option<Address> {
    if mode == Relay then self.relay else r.directEP
  }

  function SendFrame(mode: Path, address: Option<Address>, wire: Wire): Sent {
    if mode == Relay then ToRelay(wire) else if address.None? then Nothing else ToAddress(address.value, wire)
  }

  // The paths and timers the Run loop drives

  /** Run picks the first path to try; without any it ends at once. */
  function Begin(self: Self, p: PeerState, now: Time): PeerState {
    if p.route.directEP.Some? then p.(route := p.route.(mode := Direct), clocks := p.clocks.(phaseStart := now))
    else if self.relay.Some? then p.(route := p.route.(mode := Relay), clocks := p.clocks.(phaseStart := now))
    else p
  }

  /** A probe, or HS1 when the initiator's is due; the HS1 frame is drawn once per attempt. */
  function Punch(self: Self, p: PeerState, mode: Path, draw: nat, now: Time): (PeerState, Sent) {
    if self.initiator && now - p.clocks.lastHS1 >= HS1_RESEND_INTERVAL then
      var hs := if p.hs.cache.hs1.Some? then p.hs else Attempt(p.hs, draw);
      (p.(hs := hs, clocks := p.clocks.(lastHS1 := now)),
       SendFrame(mode, AddressFor(self, p.route, mode), Hs1(hs.cache.hs1)))
    else (p, SendFrame(mode, AddressFor(self, p.route, mode), Probe))
  }

  /** A fresh initiator whose first message is written. */
  function Attempt(hs: Half, draw: nat): (r: Half)
    ensures r.cache.hs1.Some?
  {
    var h := Hello(Own(draw), 0);
    hs.(initiating := Some(Initiating(Some(h), None, Message1)), cache := hs.cache.(hs1 := Some(h)))
  }

  function SwitchMode(self: Self, p: PeerState, current: Path, now: Time): PeerState {
    var other := if current == Direct then Relay else Direct;
    if (current == Direct && self.relay.Some?) || (current == Relay && p.route.directEP.Some?) then
      p.(hs := NO_HANDSHAKE, route := p.route.(mode := other), clocks := p.clocks.(phaseStart := now))
    else p
  }

  function RetryDirect(p: PeerState, draw: nat, now: Time): (PeerState, Sent) {
    (p.(hs := Attempt(NO_HANDSHAKE, draw), route := p.route.(mode := Direct),
        clocks := p.clocks.(lastHS1 := now, phaseStart := now)),
     SendFrame(Direct, p.route.directEP, Hs1(Some(Hello(Own(draw), 0)))))
  }

  function AbandonRoaming(p: PeerState, now: Time): PeerState {
    if p.route.mode != Direct then p
    else p.(hs := NO_HANDSHAKE, route := p.route.(mode := Relay), clocks := p.clocks.(phaseStart := now))
  }

  function ForceRehandshake(p: PeerState, now: Time): PeerState {
    p.(hs := NO_HANDSHAKE, live := Live(None, EMPTY, false), clocks := p.clocks.(phaseStart := now))
  }

  /** The responder's half of the handshake is dropped. */
  function Unanswered(hs: Half): Half {
    hs.(responding := None, cache := hs.cache.(hs1Msg := None, hs2 := None))
  }

  /** What every tick does first: a half-open exchange older than the timeout is dropped. */
  function DropStale(p: PeerState, now: Time): PeerState {
    if p.hs.responding.Some? && p.hs.cache.hs2.Some? && now - p.clocks.hs2SentAt > RESPONDER_TIMEOUT
    then p.(hs := Unanswered(p.hs)) else p
  }

  function ResendHS3(p: PeerState, now: Time): (PeerState, Sent) {
    if !p.hs.cache.hs3Pending || p.hs.cache.hs3.None? then (p, Nothing)
    else (p.(clocks := p.clocks.(lastHS3 := now)), SendFrame(p.route.mode, p.route.directEP, Hs3(p.hs.cache.hs3)))
  }

  function Close(p: PeerState, channelToo: bool): PeerState {
    p.(inbox := if channelToo then p.inbox.(recvClosed := true) else p.inbox.(closed := true))
  }

  // Handshake messages

  function Counted(b: Burst, now: Time): Burst {
    if now - b.start >= Budget.SECOND then Burst(now, 1) else b.(count := b.count + 1)
  }

  /** Refused before any cryptography: over budget, or a live direct session. */
  predicate Hs1Refused(p: PeerState, now: Time) {
    Counted(p.burst, now).count > HS1_PER_SECOND || (p.live.established && p.route.path != Relay)
  }

  datatype Turn = Turn(hs: Half, route: Route, clocks: Clocks, sent: Sent)

  /** Reads message 1 into the current or a new responder and answers it. */
  function Respond(self: Self, hs: Half, route: Route, clocks: Clocks, msg: Option<Hello>, path: Path, draw: nat,
                   now: Time)
    : Turn
  {
    var r := if hs.responding.Some? then hs.responding.value else NEW_RESPONDER;
    if r.phase != Start || msg.None? then Turn(hs.(responding := None), route, clocks, Nothing)
    else
      var a := Answer(msg.value, Own(draw), self.me);
      Turn(hs.(responding := Some(Responding(msg, Some(Own(draw)), Message2)),
               cache := hs.cache.(hs1Msg := msg, hs2 := Some(a))),
           route.(mode := path), clocks.(hs2SentAt := now, phaseStart := now),
           SendFrame(path, route.directEP, Hs2(Some(a))))
  }

  /** A live direct session refuses. While an answer is out, the same HS1 gets the same HS2 and another one
      waits for the timeout. */
  function Exchange(self: Self, hs: Half, route: Route, clocks: Clocks, established: bool, msg: Option<Hello>,
                    path: Path,
                    draw: nat, now: Time): Turn {
    if established && route.path != Relay then Turn(hs, route, clocks, Nothing)
    else if hs.responding.Some? && hs.cache.hs2.Some? then
      if msg.Some? && msg == hs.cache.hs1Msg
          then Turn(hs, route, clocks, SendFrame(path, route.directEP, Hs2(hs.cache.hs2)))
      else if now - clocks.hs2SentAt < RESPONDER_TIMEOUT then Turn(hs, route, clocks, Nothing)
      else Respond(self, Unanswered(hs), route, clocks, msg, path, draw, now)
    else Respond(self, hs, route, clocks, msg, path, draw, now)
  }

  function OnHS1(self: Self, p: PeerState, msg: Option<Hello>, path: Path, draw: nat, now: Time): (PeerState, Sent) {
    var b := Counted(p.burst, now);
    if b.count > HS1_PER_SECOND then (p.(burst := b), Nothing)
    else
      var t := Exchange(self, p.hs, p.route, p.clocks, p.live.established, msg, path, draw, now);
      (PeerState(t.hs, p.live, t.route, t.clocks, b, p.tallies, p.inbox), t.sent)
  }

  /** Installs a session of the registered peer; anybody else's is refused. */
  function SetSession(self: Self, p: PeerState, s: SessionState, path: Path, now: Time): PeerState {
    if s.peerStatic != Some(self.them) then p
    else
      p.(live := Live(Some(s), EMPTY, true),
         route := p.route.(mode := path, path := path),
         clocks := p.clocks.(sessSince := now, lastSent := now),
         tallies := if p.live.sess.Some? then p.tallies.(rekeyCount := p.tallies.rekeyCount + 1) else p.tallies)
  }

  function OnHS2(self: Self, p: PeerState, msg: Option<Answer>, path: Path, now: Time): (PeerState, Sent) {
    if p.hs.initiating.None? then (p, Nothing)
    else if !Answers(p.hs.initiating.value, self.them, msg) then
      (p.(hs := p.hs.(initiating := None, cache := p.hs.cache.(hs1 := None))), Nothing)
    else
      var t := TranscriptOf(msg.value, self.me);
      var q := SetSession(self, p, InitiatorSession(t), path, now);
      (q.(hs := p.hs.(initiating := Some(p.hs.initiating.value.(answer := msg, phase := Complete)),
                      cache := p.hs.cache.(hs3 := Some(t), hs3Pending := true)),
          clocks := q.clocks.(lastHS3 := now)),
       SendFrame(path, p.route.directEP, Hs3(Some(t))))
  }

  function OnHS3(self: Self, p: PeerState, msg: Option<Transcript>, path: Path, now: Time): PeerState {
    if p.hs.responding.None? then p
    else if !Closes(p.hs.responding.value, self.me, msg) then p.(hs := p.hs.(responding := None))
    else
      var q := SetSession(self, p, ResponderSession(msg.value), path, now);
      q.(hs := Unanswered(p.hs))
  }

  // Data

  predicate Receives(p: PeerState) {
    !p.inbox.closed && !p.inbox.recvClosed && p.live.sess.Some?
  }

  function RxOf(p: PeerState): Rx
    requires p.live.sess.Some?
  {
    Rx(p.live.sess.value, p.live.win, p.hs.cache.hs3Pending)
  }

  /** The plaintext a DATA payload yields, if it is accepted. */
  function Delivered(p: PeerState, f: Option<Frame<Box>>): Option<Bytes> {
    if Receives(p) && f.Some? then Accepts(SYMBOLIC, RxOf(p), f.value) else None
  }

  function OnData(p: PeerState, f: Option<Frame<Box>>): PeerState {
    if !Receives(p) || f.None? then p
    else
      var rx := AfterFrame(SYMBOLIC, RxOf(p), f.value);
      var d := Delivered(p, f);
      p.(live := p.live.(sess := Some(rx.sess), win := rx.win),
         hs := p.hs.(cache := p.hs.cache.(hs3Pending := rx.hs3Pending)),
         tallies := if d.Some? then p.tallies.(bytesRx := p.tallies.bytesRx + |d.value|) else p.tallies,
         inbox := if d.Some? && 0 < |d.value| && |p.inbox.recv| < RECV_CAPACITY
                  then p.inbox.(recv := p.inbox.recv + [d.value]) else p.inbox)
  }

  datatype SendFailure = NoSession | TooLarge | Session(e: Error)

  /** The DATA frame a payload becomes, or why it is refused. */
  function Encrypted(p: PeerState, text: Bytes): Result<Frame<Box>, SendFailure> {
    if p.live.sess.None? then Err(NoSession)
    else if |text| > Limit(p.route.path) then Err(TooLarge)
    else match SendResult(SYMBOLIC, p.live.sess.value, text)
         case Err(e) => Err(Session(e))
         case Ok(f) => Ok(Frame(f.0, f.1))
  }

  function Send(p: PeerState, text: Bytes, now: Time): (PeerState, Sent) {
    if Encrypted(p, text).Ok? then
      (p.(live := p.live.(sess := Some(AfterSend(p.live.sess.value))), clocks := p.clocks.(lastSent := now),
          tallies := p.tallies.(bytesTx := p.tallies.bytesTx + |text|)),
       SendFrame(p.route.path, p.route.directEP, Data(Some(Encrypted(p, text).value))))
    else (p, Nothing)
  }

  /** A received frame; the role decides which handshake messages are looked at. */
  function Handle(self: Self, p: PeerState, w: Wire, path: Path, draw: nat, now: Time): (PeerState, Sent) {
    match w
    case Probe => (p, Nothing)
    case Hs1(msg) => if self.initiator then (p, Nothing) else OnHS1(self, p, msg, path, draw, now)
    case Hs2(msg) => if !self.initiator then (p, Nothing) else OnHS2(self, p, msg, path, now)
    case Hs3(msg) => if self.initiator then (p, Nothing) else (OnHS3(self, p, msg, path, now), Nothing)
    case Data(f) => (OnData(p, f), Nothing)
  }
}
