/** The peer object: one method per critical section of its lock. */
module Peers {
  import opened Wrappers
  import opened Noise
  import opened Sessions
  import opened HandshakeSpec
  import opened Handshakes
  import opened ReplaySpec
  import opened Replay
  import opened DataPlane
  import opened WireBudget
  import opened PeerSpec
  import Budget

  class Peer {
    const self: Self
    var route: Route
    var responder: Responder?
    var initiatorHS: Initiator?
    var cache: Cache
    var sess: Session?<Box>
    var replay: ReplayWindow
    var established: bool
    var clocks: Clocks
    var burst: Burst
    var tallies: Tallies
    var inbox: Inbox

    ghost function Halves(): Half
      reads this, initiatorHS, responder
    {
      Half(if initiatorHS == null then None else Some(initiatorHS.State()),
           if responder == null then None else Some(responder.State()), cache)
    }

    ghost function Lives(): Live
      reads this, sess, replay
    {
      Live(if sess == null then None else Some(sess.State()), replay.View(), established)
    }

    ghost function State(): PeerState
      reads this, initiatorHS, responder, sess, replay
    {
      PeerState(Halves(), Lives(), route, clocks, burst, tallies, inbox)
    }

    ghost predicate Valid()
      reads this, initiatorHS, responder, sess, replay, replay.bits
    {
      && replay.Valid() && replay.size == WINDOW_BITS
      && (initiatorHS != null ==>
            initiatorHS.my == self.me && initiatorHS.expected == self.them && initiatorHS.phase != Message2)
      && (responder != null ==> responder.my == self.me)
      && (sess != null ==> sess.aead == SYMBOLIC)
    }

    constructor (self: Self, directEP: Option<Address>)
      ensures Valid() && State() == Init(directEP) && this.self == self
      ensures fresh(replay) && fresh(replay.bits)
    {
      this.self, route := self, Route(NoPath, NoPath, directEP);
      responder, initiatorHS, cache, sess, established := null, null, NO_FRAMES, null, false;
      replay := new ReplayWindow(WINDOW_BITS);
      clocks, burst, tallies := Clocks(0, 0, 0, 0, 0, 0), Burst(0, 0), Tallies(0, 0, 0);
      inbox := Inbox(false, false, []);
    }

    // The Run loop's critical sections

    method Begin(now: Time)
      requires Valid()
      modifies `route, `clocks
      ensures Valid() && State() == PeerSpec.Begin(self, old(State()), now)
    {
      if route.directEP.Some? {
        route := route.(mode := Direct);
      } else if self.relay.Some? {
        route := route.(mode := Relay);
      } else {
        return;
      }
      clocks := clocks.(phaseStart := now);
    }

    /** A fresh initiator whose first message is written and cached. */
    method NewAttempt(draw: nat)
      requires Valid()
      modifies `initiatorHS, `cache
      ensures Valid() && Halves() == Attempt(old(Halves()), draw)
      ensures initiatorHS != null && fresh(initiatorHS)
    {
      var hs := new Initiator(self.me, self.them);
      var msg1 := hs.WriteMessage1(draw);
      initiatorHS := hs;
      cache := cache.(hs1 := msg1);
    }

    method Punch(mode: Path, draw: nat, now: Time) returns (sent: Sent)
      requires Valid()
      modifies `initiatorHS, `cache, `clocks
      ensures Valid() && (State(), sent) == PeerSpec.Punch(self, old(State()), mode, draw, now)
      ensures initiatorHS == old(initiatorHS) || (initiatorHS != null && fresh(initiatorHS))
    {
      if self.initiator && now - clocks.lastHS1 >= HS1_RESEND_INTERVAL {
        if cache.hs1.None? {
          NewAttempt(draw);
        }
        clocks := clocks.(lastHS1 := now);
        return SendFrame(mode, AddressFor(self, route, mode), Hs1(cache.hs1));
      }
      return SendFrame(mode, AddressFor(self, route, mode), Probe);
    }

    method ResetHandshake()
      requires Valid()
      modifies `initiatorHS, `responder, `cache
      ensures Valid() && Halves() == NO_HANDSHAKE
    {
      initiatorHS, responder, cache := null, null, NO_FRAMES;
    }

    method SwitchMode(current: Path, now: Time)
      requires Valid()
      modifies `initiatorHS, `responder, `cache, `route, `clocks
      ensures Valid() && State() == PeerSpec.SwitchMode(self, old(State()), current, now)
    {
      match current {
        case Direct =>
          if self.relay.Some? {
            route := route.(mode := Relay);
            ResetHandshake();
            clocks := clocks.(phaseStart := now);
          }
        case Relay =>
          if route.directEP.Some? {
            route := route.(mode := Direct);
            ResetHandshake();
            clocks := clocks.(phaseStart := now);
          }
        case NoPath =>
      }
    }

    method RetryDirect(draw: nat, now: Time) returns (sent: Sent)
      requires Valid()
      modifies `initiatorHS, `responder, `cache, `route, `clocks
      ensures Valid() && (State(), sent) == PeerSpec.RetryDirect(old(State()), draw, now)
    {
      ResetHandshake();
      NewAttempt(draw);
      route := route.(mode := Direct);
      clocks := clocks.(lastHS1 := now, phaseStart := now);
      return SendFrame(Direct, route.directEP, Hs1(cache.hs1));
    }

    method AbandonRoaming(now: Time)
      requires Valid()
      modifies `initiatorHS, `responder, `cache, `route, `clocks
      ensures Valid() && State() == PeerSpec.AbandonRoaming(old(State()), now)
    {
      if route.mode != Direct { return; }
      route := route.(mode := Relay);
      ResetHandshake();
      clocks := clocks.(phaseStart := now);
    }

    method ForceRehandshake(now: Time)
      requires Valid()
      modifies this
      ensures Valid() && State() == PeerSpec.ForceRehandshake(old(State()), now)
      ensures fresh(replay) && fresh(replay.bits)
    {
      sess := null;
      replay := new ReplayWindow(WINDOW_BITS);
      established := false;
      ResetHandshake();
      clocks := clocks.(phaseStart := now);
    }

    method DropStale(now: Time)
      requires Valid()
      modifies `responder, `cache
      ensures Valid() && State() == PeerSpec.DropStale(old(State()), now)
    {
      if responder != null && cache.hs2.Some? && now - clocks.hs2SentAt > RESPONDER_TIMEOUT {
        responder, cache := null, cache.(hs1Msg := None, hs2 := None);
      }
    }

    method ResendHS3(now: Time) returns (sent: Sent)
      requires Valid()
      modifies `clocks
      ensures Valid() && (State(), sent) == PeerSpec.ResendHS3(old(State()), now)
    {
      if !cache.hs3Pending || cache.hs3.None? { return Nothing; }
      clocks := clocks.(lastHS3 := now);
      return SendFrame(route.mode, route.directEP, Hs3(cache.hs3));
    }

    method SetDirectEP(ep: Option<Address>)
      requires Valid()
      modifies `route
      ensures Valid() && State() == old(State()).(route := old(route).(directEP := ep))
    {
      route := route.(directEP := ep);
    }

    /** Close stops the receive path; the end of Run closes the channel itself. */
    method Close(channelToo: bool)
      requires Valid()
      modifies `inbox
      ensures Valid() && State() == PeerSpec.Close(old(State()), channelToo)
    {
      if channelToo {
        inbox := inbox.(recvClosed := true);
      } else {
        inbox := inbox.(closed := true);
      }
    }

    // Handshake messages

    /** The per-second budget of handshake messages. */
    method CountHS1(now: Time) returns (over: bool)
      modifies `burst
      ensures burst == Counted(old(burst), now)
      ensures over <==> burst.count > HS1_PER_SECOND
    {
      if now - burst.start >= Budget.SECOND {
        burst := Burst(now, 0);
      }
      burst := burst.(count := burst.count + 1);
      return burst.count > HS1_PER_SECOND;
    }

    method OnHS1(msg: Option<Hello>, p: Path, draw: nat, now: Time) returns (sent: Sent)
      requires Valid()
      modifies `responder, `cache, `route, `clocks, `burst, responder
      ensures Valid() && (State(), sent) == PeerSpec.OnHS1(self, old(State()), msg, p, draw, now)
    {
      var over := CountHS1(now);
      if over { return Nothing; }
      sent := Exchange(msg, p, draw, now);
    }

    method Exchange(msg: Option<Hello>, p: Path, draw: nat, now: Time) returns (sent: Sent)
      requires Valid()
      modifies `responder, `cache, `route, `clocks, responder
      ensures Valid()
      ensures Turn(Halves(), route, clocks, sent)
           == PeerSpec.Exchange(self, old(Halves()), old(route), old(clocks), established, msg, p, draw, now)
    {
      if established && route.path != Relay { return Nothing; }
      if responder != null && cache.hs2.Some? {
        if msg.Some? && msg == cache.hs1Msg { return SendFrame(p, route.directEP, Hs2(cache.hs2)); }
        if now - clocks.hs2SentAt < RESPONDER_TIMEOUT { return Nothing; }
        responder, cache := null, cache.(hs1Msg := None, hs2 := None);
      }
      sent := Respond(msg, p, draw, now);
    }

    method Respond(msg: Option<Hello>, p: Path, draw: nat, now: Time) returns (sent: Sent)
      requires Valid()
      modifies `responder, `cache, `route, `clocks, responder
      ensures Valid()
      ensures Turn(Halves(), route, clocks, sent)
           == PeerSpec.Respond(self, old(Halves()), old(route), old(clocks), msg, p, draw, now)
    {
      if responder == null {
        responder := new Responder(self.me);
      }
      var ok := responder.ReadMessage1(msg);
      if !ok { responder := null; return Nothing; }
      var msg2 := responder.WriteMessage2(draw);
      cache := cache.(hs1Msg := msg, hs2 := msg2);
      route := route.(mode := p);
      clocks := clocks.(hs2SentAt := now, phaseStart := now);
      return SendFrame(p, route.directEP, Hs2(cache.hs2));
    }

    /** Installs the registered peer's session; a new one comes with a new replay window. */
    method SetSession(s: Session<Box>, p: Path, now: Time)
      modifies `sess, `replay, `established, `route, `clocks, `tallies
      ensures s.peerStatic != Some(self.them) ==>
                && unchanged(`sess) && unchanged(`replay) && unchanged(`established)
                && unchanged(`route) && unchanged(`clocks) && unchanged(`tallies)
      ensures s.peerStatic == Some(self.them) ==>
                && sess == s && established
                && route == old(route).(mode := p, path := p)
                && clocks == old(clocks).(sessSince := now, lastSent := now)
      ensures s.peerStatic == Some(self.them) && s == old(sess) ==> unchanged(`replay) && unchanged(`tallies)
      ensures s.peerStatic == Some(self.them) && s != old(sess) ==>
                && fresh(replay) && fresh(replay.bits) && replay.Valid() && replay.size == WINDOW_BITS
                && replay.View() == EMPTY
                && tallies == (if old(sess) != null then old(tallies).(rekeyCount := old(tallies).rekeyCount + 1)
                               else old(tallies))
    {
      if s.peerStatic != Some(self.them) { return; }
      if sess != s {
        if sess != null { tallies := tallies.(rekeyCount := tallies.rekeyCount + 1); }
        sess := s;
        replay := new ReplayWindow(WINDOW_BITS);
      }
      established := true;
      route := route.(mode := p, path := p);
      clocks := clocks.(sessSince := now, lastSent := now);
    }

    /** Messages 2 and 3 of the initiator's handshake; a message 2 it cannot use ends the attempt. */
    method Finish(msg: Option<Answer>) returns (s: Session?<Box>, msg3: Option<Transcript>)
      requires initiatorHS != null && initiatorHS.my == self.me && initiatorHS.expected == self.them
      requires initiatorHS.phase != Message2
      modifies `initiatorHS, `cache, initiatorHS
      ensures (s != null) <==> old(Answers(initiatorHS.State(), self.them, msg))
      ensures s != null ==> fresh(s) && s.aead == SYMBOLIC && msg3 == Some(TranscriptOf(msg.value, self.me))
                            && s.State() == InitiatorSession(msg3.value) && initiatorHS == old(initiatorHS)
                            && cache == old(cache)
                            && initiatorHS.State() == old(initiatorHS.State()).(answer := msg, phase := Complete)
      ensures s == null ==> initiatorHS == null && cache == old(cache).(hs1 := None)
    {
      s := initiatorHS.ReadMessage2(msg);
      if s == null {
        initiatorHS, cache := null, cache.(hs1 := None);
        return null, None;
      }
      msg3 := initiatorHS.WriteMessage3();
    }

    /** A message 2 of the registered peer becomes the session, with message 3 cached until data arrives. */
    method Adopt(s: Session<Box>, msg3: Option<Transcript>, p: Path, now: Time)
      requires s != sess && s.peerStatic == Some(self.them)
      modifies `sess, `replay, `established, `route, `clocks, `tallies, `cache
      ensures sess == s && established && fresh(replay) && fresh(replay.bits)
      ensures replay.Valid() && replay.size == WINDOW_BITS && replay.View() == EMPTY
      ensures route == old(route).(mode := p, path := p)
      ensures clocks == old(clocks).(sessSince := now, lastSent := now, lastHS3 := now)
      ensures tallies == if old(sess) != null then old(tallies).(rekeyCount := old(tallies).rekeyCount + 1)
              else old(tallies)
      ensures cache == old(cache).(hs3 := msg3, hs3Pending := true)
    {
      SetSession(s, p, now);
      cache := cache.(hs3 := msg3, hs3Pending := true);
      clocks := clocks.(lastHS3 := now);
    }

    method OnHS2(msg: Option<Answer>, p: Path, now: Time) returns (sent: Sent)
      requires Valid()
      modifies `initiatorHS, `cache, `sess, `replay, `established, `route, `clocks, `tallies, initiatorHS
      ensures Valid() && (State(), sent) == PeerSpec.OnHS2(self, old(State()), msg, p, now)
    {
      if initiatorHS == null { return Nothing; }
      var s, msg3 := Finish(msg);
      if s == null { return Nothing; }
      Adopt(s, msg3, p, now);
      return SendFrame(p, route.directEP, Hs3(cache.hs3));
    }

    /** Installs the session if it is the registered peer's; the exchange is over either way. */
    method Conclude(s: Session<Box>, p: Path, now: Time)
      requires s != sess
      modifies `sess, `replay, `established, `route, `clocks, `tallies, `cache, `responder
      ensures responder == null && cache == old(cache).(hs1Msg := None, hs2 := None)
      ensures s.peerStatic != Some(self.them) ==>
                && unchanged(`sess) && unchanged(`replay) && unchanged(`established)
                && unchanged(`route) && unchanged(`clocks) && unchanged(`tallies)
      ensures s.peerStatic == Some(self.them) ==>
                && sess == s && established && fresh(replay) && fresh(replay.bits)
                && replay.Valid() && replay.size == WINDOW_BITS && replay.View() == EMPTY
                && route == old(route).(mode := p, path := p)
                && clocks == old(clocks).(sessSince := now, lastSent := now)
                && tallies == (if old(sess) != null then old(tallies).(rekeyCount := old(tallies).rekeyCount + 1)
                               else old(tallies))
    {
      SetSession(s, p, now);
      responder, cache := null, cache.(hs1Msg := None, hs2 := None);
    }

    method OnHS3(msg: Option<Transcript>, p: Path, now: Time)
      requires Valid()
      modifies `responder, `cache, `sess, `replay, `established, `route, `clocks, `tallies, responder
      ensures Valid() && State() == PeerSpec.OnHS3(self, old(State()), msg, p, now)
    {
      if responder == null { return; }
      var s := responder.ReadMessage3(msg);
      if s == null { responder := null; return; }
      Conclude(s, p, now);
    }

    // Data

    /** The replay gate around decryption: checked before, committed only after the frame authenticated. */
    method Open(f: Frame<Box>) returns (d: Option<Bytes>)
      requires sess != null && sess.aead == SYMBOLIC && replay.Valid() && replay.size == WINDOW_BITS
      modifies sess, replay, replay.bits
      ensures replay.Valid()
      ensures d == Accepts(SYMBOLIC, old(Rx(sess.State(), replay.View(), cache.hs3Pending)), f)
      ensures Rx(sess.State(), replay.View(), cache.hs3Pending && d.None?)
           == AfterFrame(SYMBOLIC, old(Rx(sess.State(), replay.View(), cache.hs3Pending)), f)
    {
      var ok := replay.Check(f.nonce);
      if !ok { return None; }
      var plain, steps := sess.DecryptAt(f.nonce, f.box);
      if plain.Err? { return None; }
      replay.Commit(f.nonce);
      return Some(plain.value);
    }

    method OnData(f: Option<Frame<Box>>)
      requires Valid()
      modifies `tallies, `cache, `inbox, sess, replay, replay.bits
      ensures Valid() && State() == PeerSpec.OnData(old(State()), f)
    {
      if inbox.closed || inbox.recvClosed || sess == null || f.None? { return; }
      var plain := Open(f.value);
      if plain.None? { return; }
      cache := cache.(hs3Pending := false);
      Deliver(plain.value);
    }

    /** A full channel drops the plaintext; an empty one is a keepalive. */
    method Deliver(plain: Bytes)
      modifies `tallies, `inbox
      ensures tallies == old(tallies).(bytesRx := old(tallies).bytesRx + |plain|)
      ensures inbox == if 0 < |plain| && |old(inbox).recv| < RECV_CAPACITY
                       then old(inbox).(recv := old(inbox).recv + [plain]) else old(inbox)
    {
      tallies := tallies.(bytesRx := tallies.bytesRx + |plain|);
      if 0 < |plain| && |inbox.recv| < RECV_CAPACITY {
        inbox := inbox.(recv := inbox.recv + [plain]);
      }
    }

    method Encrypt(text: Bytes, now: Time) returns (frame: Result<Frame<Box>, SendFailure>)
      requires Valid()
      modifies `clocks, `tallies, sess
      ensures Valid() && frame == Encrypted(old(State()), text)
      ensures State() == PeerSpec.Send(old(State()), text, now).0
    {
      if sess == null { return Err(NoSession); }
      var limit := MAX_PLAINTEXT_LEN;
      if route.path == Relay { limit := limit - RelayCodec.MAX_HEADER_LEN; }
      if |text| > limit { return Err(TooLarge); }
      var ct := sess.Send(text);
      if ct.Err? { return Err(Session(ct.error)); }
      clocks := clocks.(lastSent := now);
      tallies := tallies.(bytesTx := tallies.bytesTx + |text|);
      return Ok(Frame(ct.value.0, ct.value.1));
    }

    method Send(text: Bytes, now: Time) returns (sent: Sent)
      requires Valid()
      modifies `clocks, `tallies, sess
      ensures Valid() && (State(), sent) == PeerSpec.Send(old(State()), text, now)
    {
      var path, dst := route.path, route.directEP;
      var frame := Encrypt(text, now);
      if frame.Err? { return Nothing; }
      return SendFrame(path, dst, Data(Some(frame.value)));
    }

    /** A received frame, routed by type and role. */
    method HandleFrame(w: Wire, p: Path, draw: nat, now: Time) returns (sent: Sent)
      requires Valid()
      modifies this, initiatorHS, responder, sess, replay, replay.bits
      ensures Valid() && (State(), sent) == PeerSpec.Handle(self, old(State()), w, p, draw, now)
    {
      sent := Nothing;
      match w {
        case Probe =>
        case Hs1(msg) => if !self.initiator { sent := OnHS1(msg, p, draw, now); }
        case Hs2(msg) => if self.initiator { sent := OnHS2(msg, p, now); }
        case Hs3(msg) => if !self.initiator { OnHS3(msg, p, now); }
        case Data(f) => OnData(f);
      }
    }
  }
}
