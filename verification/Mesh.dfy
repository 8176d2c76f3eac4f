/** Two peers and a network that may lose, repeat, reorder, replay and forge. */
module MeshSpec {
  import opened Wrappers
  import opened Noise
  import opened HandshakeSpec
  import opened DataPlane
  import opened WireBudget
  import opened PeerSpec

  /** One critical section of a peer. */
  datatype Local = Start | Try(mode: Path) | Switch(current: Path) | Retry | Abandon | Force | Tick | Resend
                 | Payload(text: Bytes) | Move(ep: Option<Address>) | Shut(channelToo: bool) | Receive(wire: Wire,
                                                                                                       path: Path)

  /** draw is the ephemeral the step may use. Only initiators probe the direct path while on the relay. */
  function Act(self: Self, p: PeerState, l: Local, draw: nat, now: Time): (PeerState, Sent) {
    match l
    case Start => (Begin(self, p, now), Nothing)
    case Try(mode) => Punch(self, p, mode, draw, now)
    case Switch(current) => (SwitchMode(self, p, current, now), Nothing)
    case Retry => if self.initiator then RetryDirect(p, draw, now) else (p, Nothing)
    case Abandon => if self.initiator then (AbandonRoaming(p, now), Nothing) else (p, Nothing)
    case Force => (ForceRehandshake(p, now), Nothing)
    case Tick => (DropStale(p, now), Nothing)
    case Resend => ResendHS3(p, now)
    case Payload(text) => Send(p, text, now)
    case Move(ep) => (p.(route := p.route.(directEP := ep)), Nothing)
    case Shut(channelToo) => (Close(p, channelToo), Nothing)
    case Receive(w, path) => Handle(self, p, w, path, draw, now)
  }

  /** A payload of one session: as sent, or as accepted. */
  datatype Item = Item(t: Transcript, nonce: Uint64, text: Bytes)

  /** A peer with its history: sessions installed, payloads sent and payloads accepted. */
  datatype Node = Node(peer: PeerState, installs: seq<Transcript>, sent: seq<Item>, got: seq<Item>)

  /** The session the step installs. */
  function InstalledBy(self: Self, p: PeerState, l: Local): Option<Transcript> {
    if l.Receive? && l.wire.Hs2? && self.initiator && p.hs.initiating.Some?
       && Answers(p.hs.initiating.value, self.them, l.wire.answer)
    then Some(TranscriptOf(l.wire.answer.value, self.me))
    else if l.Receive? && l.wire.Hs3? && !self.initiator && p.hs.responding.Some?
            && Closes(p.hs.responding.value, self.me, l.wire.closing) && l.wire.closing.value.initiator == self.them
    then l.wire.closing
    else None
  }

  function BindingOf(p: PeerState): Option<Transcript> {
    match p.live.sess case Some(s) => s.binding case None => None
  }

  /** The payload the step puts on the wire. */
  function SentBy(p: PeerState, l: Local): Option<Item> {
    if l.Payload? && Encrypted(p, l.text).Ok? && BindingOf(p).Some?
    then Some(Item(BindingOf(p).value, Encrypted(p, l.text).value.nonce, l.text)) else None
  }

  /** The payload the step accepts. */
  function GotBy(p: PeerState, l: Local): Option<Item> {
    if l.Receive? && l.wire.Data? && Delivered(p, l.wire.frame).Some? && BindingOf(p).Some?
    then Some(Item(BindingOf(p).value, l.wire.frame.value.nonce, Delivered(p, l.wire.frame).value)) else None
  }

  function Append<T>(s: seq<T>, x: Option<T>): seq<T> {
    match x case Some(v) => s + [v] case None => s
  }

  function NodeAfter(self: Self, n: Node, l: Local, draw: nat, now: Time): Node {
    Node(Act(self, n.peer, l, draw, now).0, Append(n.installs, InstalledBy(self, n.peer, l)),
         Append(n.sent, SentBy(n.peer, l)), Append(n.got, GotBy(n.peer, l)))
  }

  function WiresOf(s: Sent): set<Wire> {
    match s case Nothing => {} case ToRelay(w) => {w} case ToAddress(_, w) => {w}
  }

  // The system

  datatype Pair = Pair(a: Self, b: Self)

  ghost predicate Paired(pr: Pair) {
    pr.a.initiator && !pr.b.initiator && pr.a.them == pr.b.me && pr.b.them == pr.a.me
  }

  /** net holds every frame ever emitted; next numbers the next ephemeral anybody honest draws. */
  datatype Sys = Sys(a: Node, b: Node, net: set<Wire>, next: nat)

  /** A step of the initiator's or the responder's host, or another exchange answered under the
      responder's key, say towards a third peer. */
  datatype Step = AtA(l: Local, now: Time) | AtB(l: Local, now: Time) | Elsewhere(hello: Hello)

  function Next(pr: Pair, s: Sys, e: Step): Sys {
    match e
    case AtA(l, now) =>
      Sys(NodeAfter(pr.a, s.a, l, s.next, now), s.b, s.net + WiresOf(Act(pr.a, s.a.peer, l, s.next, now).1), s.next + 1)
    case AtB(l, now) =>
      Sys(s.a, NodeAfter(pr.b, s.b, l, s.next, now), s.net + WiresOf(Act(pr.b, s.b.peer, l, s.next, now).1), s.next + 1)
    case Elsewhere(h) =>
      s.(net := s.net + {Hs2(Some(Answer(h, Own(s.next), pr.b.me)))}, next := s.next + 1)
  }

  /** A transcript between the two peers whose responder ephemeral an honest peer drew. */
  predicate Ours(pr: Pair, t: Transcript) {
    t.initiator == pr.a.me && t.responder == pr.b.me && t.er.Own?
  }

  /** Sealed under a key only the two peers can derive. */
  predicate Honest(pr: Pair, box: Box) {
    box.Sealed? && Ours(pr, RootOf(box.key).t)
  }

  predicate Drawn(e: Ephemeral, next: nat) { e.Own? ==> e.id < next }

  /** What an attacker without the two peers' secrets can put on the wire: anything in the clear, any
      handshake message that needs neither static key, any ciphertext under keys it can derive, and
      any ciphertext it saw, relabelled at will. */
  ghost predicate Forgeable(pr: Pair, s: Sys, w: Wire) {
    match w
    case Probe => true
    case Hs1(m) => m.Some? ==> Drawn(m.value.e, s.next)
    case Hs2(m) => m.Some? ==> m.value.responder != pr.b.me || m.value.hello.e.Foreign?
    case Hs3(m) => m.Some? ==> !Ours(pr, m.value)
    case Data(f) =>
      f.Some? && Honest(pr, f.value.box) ==> exists n: Uint64 :: Data(Some(Frame(n, f.value.box))) in s.net
  }

  /** A peer may be handed anything on the network, any number of times, and any forgery. */
  ghost predicate Allowed(pr: Pair, s: Sys, e: Step) {
    match e
    case Elsewhere(h) => Drawn(h.e, s.next)
    case _ => e.l.Receive? ==> e.l.wire in s.net || Forgeable(pr, s, e.l.wire)
  }

  function InitSys(epA: Option<Address>, epB: Option<Address>): Sys {
    Sys(Node(Init(epA), [], [], []), Node(Init(epB), [], [], []), {}, 0)
  }

  /** The system after the first n steps of two peers just created. */
  function SysAt(pr: Pair, epA: Option<Address>, epB: Option<Address>, es: seq<Step>, n: nat): Sys
    requires n <= |es|
  {
    if n == 0 then InitSys(epA, epB) else Next(pr, SysAt(pr, epA, epB, es, n - 1), es[n - 1])
  }

  /** Each of the first n steps is allowed where it happens. */
  ghost predicate Possible(pr: Pair, epA: Option<Address>, epB: Option<Address>, es: seq<Step>, n: nat)
    requires n <= |es|
  {
    n == 0 || (Possible(pr, epA, epB, es, n - 1) && Allowed(pr, SysAt(pr, epA, epB, es, n - 1), es[n - 1]))
  }
}

/** The data-plane half of the invariant: one node, its session and its ledgers. */
module MeshLedger {
  import opened Wrappers
  import opened Noise
  import opened SessionSpec
  import opened HandshakeSpec
  import opened KeySchedule
  import opened ReplaySpec
  import opened DataPlane
  import opened WireBudget
  import opened PeerSpec
  import opened MeshSpec

  function Last(ts: seq<Transcript>): Transcript
    requires ts != []
  {
    ts[|ts| - 1]
  }

  function Out(initiator: bool): Direction { if initiator then ToResponder else ToInitiator }

  function SessionFor(initiator: bool, t: Transcript): SessionState {
    if initiator then InitiatorSession(t) else ResponderSession(t)
  }

  /** The live session is the one of this transcript, on its key schedule. */
  ghost predicate SessionOf(initiator: bool, live: Live, t: Transcript) {
    && live.sess.Some? && live.sess.value.binding == Some(t) && live.sess.value.rekeyEvery == DEFAULT_REKEY_EVERY
    && Linked(Rx(live.sess.value, live.win, false), Root(t, Out(initiator)), Root(t, Out(!initiator)))
  }

  ghost predicate SessionOk(initiator: bool, live: Live, installs: seq<Transcript>) {
    live.sess.Some? ==> installs != [] && SessionOf(initiator, live, Last(installs))
  }

  ghost predicate Distinct(rs: seq<Item>) {
    forall i, j :: 0 <= i < j < |rs| ==> rs[i].t != rs[j].t || rs[i].nonce != rs[j].nonce
  }

  /** Everything sent belongs to an installed session, under a nonce of its own. */
  ghost predicate SentOk(live: Live, installs: seq<Transcript>, sent: seq<Item>) {
    && Distinct(sent)
    && (forall r :: r in sent ==> r.t in installs)
    && (live.sess.Some? ==> forall r :: r in sent && live.sess.value.binding == Some(r.t) ==>
        r.nonce < live.sess.value.sendCount)
  }

  /** Everything accepted belongs to an installed session, once per nonce. */
  ghost predicate GotOk(live: Live, installs: seq<Transcript>, got: seq<Item>) {
    && Distinct(got)
    && (forall r :: r in got ==> r.t in installs)
    && (live.sess.Some? ==> forall r :: r in got && live.sess.value.binding == Some(r.t) ==>
        r.nonce in live.win.accepted)
  }

  ghost predicate LedgerOk(initiator: bool, live: Live, installs: seq<Transcript>, sent: seq<Item>, got: seq<Item>) {
    SessionOk(initiator, live, installs) && SentOk(live, installs, sent) && GotOk(live, installs, got)
  }

  lemma InstallKeeps(initiator: bool, live: Live, installs: seq<Transcript>, sent: seq<Item>, got: seq<Item>,
                     t: Transcript)
    requires LedgerOk(initiator, live, installs, sent, got) && t !in installs
    ensures LedgerOk(initiator, Live(Some(SessionFor(initiator, t)), EMPTY, true), installs + [t], sent, got)
  {
    LinkedFresh(Root(t, Out(initiator)), Root(t, Out(!initiator)), DEFAULT_REKEY_EVERY,
                if initiator then t.responder else t.initiator, t, false);
  }

  lemma DistinctAppend(rs: seq<Item>, r: Item)
    requires Distinct(rs) && forall x :: x in rs ==> x.t != r.t || x.nonce != r.nonce
    ensures Distinct(rs + [r])
  {
  }

  lemma SendKeeps(initiator: bool, live: Live, installs: seq<Transcript>, sent: seq<Item>, got: seq<Item>, text: Bytes)
    requires LedgerOk(initiator, live, installs, sent, got) && live.sess.Some?
    requires SendResult(SYMBOLIC, live.sess.value, text).Ok?
    ensures var r := Item(Last(installs), live.sess.value.sendCount, text);
            LedgerOk(initiator, live.(sess := Some(AfterSend(live.sess.value))), installs, sent + [r], got)
    ensures SendResult(SYMBOLIC, live.sess.value, text).value
         == (live.sess.value.sendCount, SealedAs(Item(Last(installs), live.sess.value.sendCount, text), Out(initiator)))
  {
    var t, s := Last(installs), live.sess.value;
    SendStep(SYMBOLIC, s, Root(t, Out(initiator)), Root(t, Out(!initiator)), text);
    DistinctAppend(sent, Item(t, s.sendCount, text));
  }

  /** The ciphertext of a sent payload. */
  function SealedAs(r: Item, dir: Direction): Box {
    Sealed(Rekey(Root(r.t, dir), EpochOf(r.nonce, DEFAULT_REKEY_EVERY)), r.nonce, r.text)
  }

  lemma DataKeeps(initiator: bool, live: Live, installs: seq<Transcript>, sent: seq<Item>, got: seq<Item>,
                  f: Frame<Box>, pending: bool)
    requires LedgerOk(initiator, live, installs, sent, got) && live.sess.Some?
    ensures var rx := Rx(live.sess.value, live.win, pending);
            var after := AfterFrame(SYMBOLIC, rx, f);
            var d := Accepts(SYMBOLIC, rx, f);
            LedgerOk(initiator, live.(sess := Some(after.sess), win := after.win), installs, sent,
                     if d.Some? then got + [Item(Last(installs), f.nonce, d.value)] else got)
  {
    var t, rx := Last(installs), Rx(live.sess.value, live.win, pending);
    LinkedStep(SYMBOLIC, rx, f, Root(t, Out(initiator)), Root(t, Out(!initiator)));
    if Accepts(SYMBOLIC, rx, f).Some? {
      AcceptedIsGenuine(rx, Root(t, Out(initiator)), Root(t, Out(!initiator)), f);
      DistinctAppend(got, Item(t, f.nonce, Accepts(SYMBOLIC, rx, f).value));
    }
  }

  // What each step does to the live session

  predicate Quiet(l: Local) { !l.Force? && !l.Payload? && (l.Receive? ==> !l.wire.Data?) }

  lemma QuietStep(self: Self, p: PeerState, l: Local, draw: nat, now: Time)
    requires Quiet(l)
    ensures var t := InstalledBy(self, p, l);
            Act(self, p, l, draw, now).0.live ==
            if t.Some? then Live(Some(SessionFor(self.initiator, t.value)), EMPTY, true) else p.live
    ensures SentBy(p, l) == None && GotBy(p, l) == None
  {
  }

  lemma DataStep(self: Self, p: PeerState, f: Option<Frame<Box>>, path: Path, draw: nat, now: Time)
    ensures var l := Receive(Data(f), path);
            && InstalledBy(self, p, l) == None && SentBy(p, l) == None
            && (!Receives(p) || f.None? ==> Act(self, p, l, draw, now).0.live == p.live && GotBy(p, l) == None)
            && (Receives(p) && f.Some? ==>
                  var rx := Rx(p.live.sess.value, p.live.win, p.hs.cache.hs3Pending);
                  var after := AfterFrame(SYMBOLIC, rx, f.value);
                  && Act(self, p, l, draw, now).0.live == p.live.(sess := Some(after.sess), win := after.win)
                  && Delivered(p, f) == Accepts(SYMBOLIC, rx, f.value))
  {
  }

  lemma SendStepLive(self: Self, p: PeerState, text: Bytes, draw: nat, now: Time)
    ensures var l := Payload(text);
            && InstalledBy(self, p, l) == None && GotBy(p, l) == None
            && (Encrypted(p, text).Err? ==> Act(self, p, l, draw, now).0.live == p.live && SentBy(p, l) == None)
            && (Encrypted(p, text).Ok? ==>
                  && p.live.sess.Some? && SendResult(SYMBOLIC, p.live.sess.value, text).Ok?
                  && Act(self, p, l, draw, now).0.live == p.live.(sess := Some(AfterSend(p.live.sess.value)))
                  && Encrypted(p, text).value == Frame(SendResult(SYMBOLIC, p.live.sess.value, text).value.0,
                                                       SendResult(SYMBOLIC, p.live.sess.value, text).value.1))
  {
  }

  ghost predicate NodeOk(self: Self, n: Node) {
    LedgerOk(self.initiator, n.peer.live, n.installs, n.sent, n.got)
  }

  lemma NodeKeepsQuiet(self: Self, n: Node, l: Local, draw: nat, now: Time)
    requires NodeOk(self, n) && Quiet(l)
    requires InstalledBy(self, n.peer, l).Some? ==> InstalledBy(self, n.peer, l).value !in n.installs
    ensures NodeOk(self, NodeAfter(self, n, l, draw, now))
  {
    QuietStep(self, n.peer, l, draw, now);
    var t := InstalledBy(self, n.peer, l);
    if t.Some? { InstallKeeps(self.initiator, n.peer.live, n.installs, n.sent, n.got, t.value); }
  }

  lemma NodeKeepsData(self: Self, n: Node, f: Option<Frame<Box>>, path: Path, draw: nat, now: Time)
    requires NodeOk(self, n)
    ensures NodeOk(self, NodeAfter(self, n, Receive(Data(f), path), draw, now))
    ensures GotBy(n.peer, Receive(Data(f), path)).Some? ==>
              n.installs != [] && GotBy(n.peer, Receive(Data(f), path)).value.t == Last(n.installs)
  {
    DataStep(self, n.peer, f, path, draw, now);
    if Receives(n.peer) && f.Some? {
      DataKeeps(self.initiator, n.peer.live, n.installs, n.sent, n.got, f.value, n.peer.hs.cache.hs3Pending);
    }
  }

  lemma NodeKeepsSend(self: Self, n: Node, text: Bytes, draw: nat, now: Time)
    requires NodeOk(self, n)
    ensures NodeOk(self, NodeAfter(self, n, Payload(text), draw, now))
    ensures Encrypted(n.peer, text).Ok? ==>
              && SentBy(n.peer, Payload(text)).Some? && n.installs != []
              && SentBy(n.peer, Payload(text)).value.t == Last(n.installs)
              && Encrypted(n.peer, text).value.box == SealedAs(SentBy(n.peer, Payload(text)).value, Out(self.initiator))
  {
    SendStepLive(self, n.peer, text, draw, now);
    if Encrypted(n.peer, text).Ok? {
      SendKeeps(self.initiator, n.peer.live, n.installs, n.sent, n.got, text);
    }
  }

  lemma NodeKeeps(self: Self, n: Node, l: Local, draw: nat, now: Time)
    requires NodeOk(self, n)
    requires InstalledBy(self, n.peer, l).Some? ==> InstalledBy(self, n.peer, l).value !in n.installs
    ensures NodeOk(self, NodeAfter(self, n, l, draw, now))
  {
    match l {
      case Payload(text) => NodeKeepsSend(self, n, text, draw, now);
      case Receive(w, path) =>
        if w.Data? { NodeKeepsData(self, n, w.frame, path, draw, now); } else { NodeKeepsQuiet(self, n, l, draw, now); }
      case Force =>
      case _ => NodeKeepsQuiet(self, n, l, draw, now);
    }
  }
}

/** The handshake half of the invariant: who holds what, and in which order ephemerals were drawn. */
module MeshHandshake {
  import opened Wrappers
  import opened Noise
  import opened HandshakeSpec
  import opened WireBudget
  import opened PeerSpec
  import opened MeshSpec

  predicate OwnBelow(e: Ephemeral, next: nat) { e.Own? && e.id < next }

  // The initiator

  /** Its sessions' ephemerals interleave: each hello is drawn after every earlier answer. */
  ghost predicate ChainA(pr: Pair, ts: seq<Transcript>, next: nat) {
    && (forall t :: t in ts ==>
          Ours(pr, t) && OwnBelow(t.hello.e, next) && OwnBelow(t.er, next) && t.hello.e.id < t.er.id)
    && (forall i, j :: 0 <= i < j < |ts| ==> ts[i].er.id < ts[j].hello.e.id)
  }

  /** A hello still waiting for its answer is younger than every installed session. */
  ghost predicate AttemptOk(i: Initiating, ts: seq<Transcript>, next: nat) {
    && i.hello.Some? && OwnBelow(i.hello.value.e, next)
    && (i.phase == Message1 ==> forall t :: t in ts ==> t.er.Own? && t.er.id < i.hello.value.e.id)
  }

  ghost predicate HalfA(hs: Half, ts: seq<Transcript>, next: nat) {
    && hs.responding.None? && hs.cache.hs2.None?
    && (hs.initiating.Some? ==> AttemptOk(hs.initiating.value, ts, next))
    && (hs.cache.hs1.Some? ==> OwnBelow(hs.cache.hs1.value.e, next))
    && (hs.cache.hs3.Some? ==> hs.cache.hs3.value in ts)
  }

  /** While an HS3 is resent, it is the HS3 of the live session. */
  ghost predicate PendingA(p: PeerState) {
    p.hs.cache.hs3Pending ==> p.hs.cache.hs3.Some? && BindingOf(p) == p.hs.cache.hs3
  }

  ghost predicate InitiatorOk(pr: Pair, n: Node, next: nat) {
    ChainA(pr, n.installs, next) && HalfA(n.peer.hs, n.installs, next) && PendingA(n.peer)
  }

  /** Every answer under the responder's key to a drawn hello was drawn after it. */
  predicate AnswerOk(pr: Pair, m: Option<Answer>, next: nat) {
    m.Some? && m.value.hello.e.Own? && m.value.responder == pr.b.me ==>
      OwnBelow(m.value.er, next) && m.value.hello.e.id < m.value.er.id
  }

  /** The initiator's handshake survives every step that draws a new hello. */
  lemma DrawKeepsA(pr: Pair, n: Node, l: Local, next: nat, now: Time)
    requires Paired(pr) && InitiatorOk(pr, n, next) && (l.Try? || l.Retry?)
    ensures InitiatorOk(pr, NodeAfter(pr.a, n, l, next, now), next + 1)
    ensures InstalledBy(pr.a, n.peer, l) == None
  {
  }

  /** And every other step of its own. */
  lemma LocalKeepsA(pr: Pair, n: Node, l: Local, next: nat, now: Time)
    requires Paired(pr) && InitiatorOk(pr, n, next) && !l.Receive? && !l.Try? && !l.Retry?
    ensures InitiatorOk(pr, NodeAfter(pr.a, n, l, next, now), next + 1)
    ensures InstalledBy(pr.a, n.peer, l) == None
  {
  }

  lemma ReceiveKeepsA(pr: Pair, n: Node, w: Wire, path: Path, next: nat, now: Time)
    requires Paired(pr) && InitiatorOk(pr, n, next) && !w.Hs2?
    ensures InitiatorOk(pr, NodeAfter(pr.a, n, Receive(w, path), next, now), next + 1)
    ensures InstalledBy(pr.a, n.peer, Receive(w, path)) == None
  {
  }

  lemma AnswerKeepsA(pr: Pair, n: Node, m: Option<Answer>, path: Path, next: nat, now: Time)
    requires Paired(pr) && InitiatorOk(pr, n, next) && AnswerOk(pr, m, next)
    ensures InitiatorOk(pr, NodeAfter(pr.a, n, Receive(Hs2(m), path), next, now), next + 1)
    ensures var t := InstalledBy(pr.a, n.peer, Receive(Hs2(m), path)); t.Some? ==> t.value !in n.installs
  {
  }

  // The responder

  /** Its sessions were answered in the order they are installed. */
  ghost predicate ChainB(pr: Pair, ts: seq<Transcript>, next: nat) {
    && (forall t :: t in ts ==> Ours(pr, t) && OwnBelow(t.er, next))
    && (forall i, j :: 0 <= i < j < |ts| ==> ts[i].er.id < ts[j].er.id)
  }

  /** A half-open exchange: in phase 2, its HS1 and HS2 cached, younger than every installed session. */
  ghost predicate HalfOpen(r: Responding, cache: Cache, me: Static, ts: seq<Transcript>, next: nat) {
    && r.phase == Message2 && r.hello.Some? && r.er.Some? && OwnBelow(r.er.value, next)
    && cache.hs1Msg == r.hello && cache.hs2 == Some(Answer(r.hello.value, r.er.value, me))
    && (r.hello.value.e.Own? ==> r.hello.value.e.id < r.er.value.id)
    && (forall t :: t in ts ==> t.er.Own? && t.er.id < r.er.value.id)
  }

  ghost predicate HalfB(hs: Half, me: Static, ts: seq<Transcript>, next: nat) {
    && hs.initiating.None? && hs.cache.hs1.None? && hs.cache.hs3.None? && !hs.cache.hs3Pending
    && (hs.responding.Some? ==> HalfOpen(hs.responding.value, hs.cache, me, ts, next))
  }

  ghost predicate ResponderOk(pr: Pair, n: Node, next: nat) {
    ChainB(pr, n.installs, next) && HalfB(n.peer.hs, pr.b.me, n.installs, next)
  }

  lemma LocalKeepsB(pr: Pair, n: Node, l: Local, next: nat, now: Time)
    requires Paired(pr) && ResponderOk(pr, n, next) && (l.Receive? ==> !l.wire.Hs1? && !l.wire.Hs3?)
    ensures ResponderOk(pr, NodeAfter(pr.b, n, l, next, now), next + 1)
    ensures InstalledBy(pr.b, n.peer, l) == None
  {
  }

  lemma RespondKeeps(self: Self, hs: Half, route: Route, clocks: Clocks, established: bool, msg: Option<Hello>,
                     path: Path, next: nat, now: Time, ts: seq<Transcript>)
    requires HalfB(hs, self.me, ts, next) && (msg.Some? ==> Drawn(msg.value.e, next))
    requires forall t :: t in ts ==> OwnBelow(t.er, next)
    ensures HalfB(Exchange(self, hs, route, clocks, established, msg, path, next, now).hs, self.me, ts, next + 1)
  {
  }

  lemma HelloKeepsB(pr: Pair, n: Node, m: Option<Hello>, path: Path, next: nat, now: Time)
    requires Paired(pr) && ResponderOk(pr, n, next) && (m.Some? ==> Drawn(m.value.e, next))
    ensures ResponderOk(pr, NodeAfter(pr.b, n, Receive(Hs1(m), path), next, now), next + 1)
    ensures InstalledBy(pr.b, n.peer, Receive(Hs1(m), path)) == None
  {
    RespondKeeps(pr.b, n.peer.hs, n.peer.route, n.peer.clocks, n.peer.live.established, m, path, next, now, n.installs);
  }

  lemma ClosingKeepsB(pr: Pair, n: Node, m: Option<Transcript>, path: Path, next: nat, now: Time)
    requires Paired(pr) && ResponderOk(pr, n, next)
    ensures ResponderOk(pr, NodeAfter(pr.b, n, Receive(Hs3(m), path), next, now), next + 1)
    ensures var t := InstalledBy(pr.b, n.peer, Receive(Hs3(m), path));
            t.Some? ==> m == t && Ours(pr, t.value) && t.value !in n.installs
  {
  }
}

/** Whole runs of the two peers. */
module MeshRuns {
  import opened Wrappers
  import opened Noise
  import opened SessionSpec
  import opened DataPlane
  import opened WireBudget
  import opened PeerSpec
  import opened MeshSpec
  import opened MeshLedger
  import opened MeshHandshake

  // What is on the network

  ghost predicate Logged(sent: seq<Item>, box: Box)
    requires box.Sealed?
  {
    exists r :: r in sent && box == SealedAs(r, RootOf(box.key).dir)
  }

  /** What every frame on the network is worth. */
  ghost predicate WireOk(pr: Pair, s: Sys, w: Wire) {
    match w
    case Probe => true
    case Hs1(m) => m.Some? ==> Drawn(m.value.e, s.next)
    case Hs2(m) => AnswerOk(pr, m, s.next)
    case Hs3(m) => m.Some? && Ours(pr, m.value) ==> m.value in s.a.installs
    case Data(f) =>
      f.Some? && Honest(pr, f.value.box) ==>
        Logged(if RootOf(f.value.box.key).dir == ToResponder then s.a.sent else s.b.sent, f.value.box)
  }

  ghost predicate NetOk(pr: Pair, s: Sys) {
    forall w :: w in s.net ==> WireOk(pr, s, w)
  }

  /** Nothing on the books is ever taken back. */
  ghost predicate Grows(s: Sys, s': Sys) {
    s.a.installs <= s'.a.installs && s.a.sent <= s'.a.sent && s.b.sent <= s'.b.sent && s.next <= s'.next
  }

  lemma WireGrows(pr: Pair, s: Sys, s': Sys, w: Wire)
    requires WireOk(pr, s, w) && Grows(s, s')
    ensures WireOk(pr, s', w)
  {
    if w.Data? && w.frame.Some? && Honest(pr, w.frame.value.box) {
      var box := w.frame.value.box;
      var sent := if RootOf(box.key).dir == ToResponder then s.a.sent else s.b.sent;
      var r :| r in sent && box == SealedAs(r, RootOf(box.key).dir);
      assert r in if RootOf(box.key).dir == ToResponder then s'.a.sent else s'.b.sent;
    }
  }

  lemma DeliverableIsOk(pr: Pair, s: Sys, w: Wire)
    requires NetOk(pr, s) && (w in s.net || Forgeable(pr, s, w))
    ensures WireOk(pr, s, w)
  {
    if w !in s.net && w.Data? && w.frame.Some? && Honest(pr, w.frame.value.box) {
      var n: Uint64 :| Data(Some(Frame(n, w.frame.value.box))) in s.net;
      assert WireOk(pr, s, Data(Some(Frame(n, w.frame.value.box))));
    }
  }

  /** What the initiator itself emits. */
  ghost predicate EmittedA(n: Node, next: nat, w: Wire) {
    match w
    case Probe => true
    case Hs1(m) => m.Some? && OwnBelow(m.value.e, next)
    case Hs2(_) => false
    case Hs3(m) => m.Some? && m.value in n.installs
    case Data(f) => f.Some? && exists r :: r in n.sent && f.value.box == SealedAs(r, ToResponder)
  }

  /** What the responder itself emits. */
  ghost predicate EmittedB(pr: Pair, n: Node, next: nat, w: Wire) {
    match w
    case Probe => true
    case Hs1(_) => false
    case Hs2(m) => AnswerOk(pr, m, next)
    case Hs3(_) => false
    case Data(f) => f.Some? && exists r :: r in n.sent && f.value.box == SealedAs(r, ToInitiator)
  }

  lemma SendEmits(self: Self, n: Node, text: Bytes, draw: nat, now: Time, w: Wire)
    requires NodeOk(self, n) && w in WiresOf(Act(self, n.peer, Payload(text), draw, now).1)
    ensures w.Data? && w.frame.Some?
    ensures exists r :: r in NodeAfter(self, n, Payload(text), draw, now).sent
                        && w.frame.value.box == SealedAs(r, Out(self.initiator))
  {
    NodeKeepsSend(self, n, text, draw, now);
    assert SentBy(n.peer, Payload(text)).value in NodeAfter(self, n, Payload(text), draw, now).sent;
  }

  lemma EmitsA(pr: Pair, n: Node, l: Local, next: nat, now: Time, w: Wire)
    requires Paired(pr) && InitiatorOk(pr, n, next) && NodeOk(pr.a, n)
    requires w in WiresOf(Act(pr.a, n.peer, l, next, now).1)
    ensures EmittedA(NodeAfter(pr.a, n, l, next, now), next + 1, w)
  {
    if l.Payload? { SendEmits(pr.a, n, l.text, next, now, w); }
  }

  lemma EmitsB(pr: Pair, n: Node, l: Local, next: nat, now: Time, w: Wire)
    requires Paired(pr) && ResponderOk(pr, n, next) && NodeOk(pr.b, n)
    requires l.Receive? && l.wire.Hs1? && l.wire.hello.Some? ==> Drawn(l.wire.hello.value.e, next)
    requires w in WiresOf(Act(pr.b, n.peer, l, next, now).1)
    ensures EmittedB(pr, NodeAfter(pr.b, n, l, next, now), next + 1, w)
  {
    if l.Payload? { SendEmits(pr.b, n, l.text, next, now, w); }
  }

  lemma SealedRoot(r: Item, dir: Direction)
    ensures RootOf(SealedAs(r, dir).key) == Root(r.t, dir)
  {
    RootOfRekey(Root(r.t, dir), EpochOf(r.nonce, DEFAULT_REKEY_EVERY));
  }

  lemma EmittedIsOkA(pr: Pair, s: Sys, w: Wire)
    requires EmittedA(s.a, s.next, w)
    ensures WireOk(pr, s, w)
  {
    if w.Data? {
      var r :| r in s.a.sent && w.frame.value.box == SealedAs(r, ToResponder);
      SealedRoot(r, ToResponder);
    }
  }

  lemma EmittedIsOkB(pr: Pair, s: Sys, w: Wire)
    requires EmittedB(pr, s.b, s.next, w)
    ensures WireOk(pr, s, w)
  {
    if w.Data? {
      var r :| r in s.b.sent && w.frame.value.box == SealedAs(r, ToInitiator);
      SealedRoot(r, ToInitiator);
    }
  }

  // What a peer accepts

  /** An accepted payload was sent by the other peer in the same session, under the same nonce. */
  lemma AcceptedWasSent(pr: Pair, s: Sys, self: Self, n: Node, f: Frame<Box>, path: Path, r: Item)
    requires Paired(pr) && ((self == pr.a && n == s.a) || (self == pr.b && n == s.b))
    requires NodeOk(self, n) && WireOk(pr, s, Data(Some(f))) && (forall t :: t in n.installs ==> Ours(pr, t))
    requires GotBy(n.peer, Receive(Data(Some(f)), path)) == Some(r)
    ensures r in if self.initiator then s.b.sent else s.a.sent
  {
    var rx, t, dir := RxOf(n.peer), Last(n.installs), Out(!self.initiator);
    AcceptedIsGenuine(rx, Root(t, Out(self.initiator)), Root(t, dir), f);
    assert f.box == SealedAs(r, dir);
    SealedRoot(r, dir);
    assert Honest(pr, f.box);
    var q :| q in (if dir == ToResponder then s.a.sent else s.b.sent) && f.box == SealedAs(q, dir);
    RekeyInjective(Root(r.t, dir), EpochOf(r.nonce, DEFAULT_REKEY_EVERY), Root(q.t, dir),
                   EpochOf(q.nonce, DEFAULT_REKEY_EVERY));
    assert q == r;
  }

  // The invariant

  ghost predicate Within(xs: seq<Item>, ys: seq<Item>) {
    forall r :: r in xs ==> r in ys
  }

  ghost predicate Inv(pr: Pair, s: Sys) {
    && InitiatorOk(pr, s.a, s.next) && ResponderOk(pr, s.b, s.next)
    && NodeOk(pr.a, s.a) && NodeOk(pr.b, s.b)
    && NetOk(pr, s)
    && (forall t :: t in s.b.installs ==> t in s.a.installs)
    && Within(s.a.got, s.b.sent) && Within(s.b.got, s.a.sent)
  }

  lemma InitHolds(pr: Pair, epA: Option<Address>, epB: Option<Address>)
    ensures Inv(pr, InitSys(epA, epB))
  {
  }

  /** The initiator's own part of a step. */
  lemma StepA(pr: Pair, s: Sys, l: Local, now: Time, n: Node)
    requires n == NodeAfter(pr.a, s.a, l, s.next, now)
    requires Paired(pr) && Inv(pr, s) && (l.Receive? ==> WireOk(pr, s, l.wire))
    ensures InitiatorOk(pr, n, s.next + 1) && NodeOk(pr.a, n) && Within(n.got, s.b.sent)
  {
    if l.Receive? {
      if l.wire.Hs2? { AnswerKeepsA(pr, s.a, l.wire.answer, l.path, s.next, now); }
      else { ReceiveKeepsA(pr, s.a, l.wire, l.path, s.next, now); }
    } else if l.Try? || l.Retry? {
      DrawKeepsA(pr, s.a, l, s.next, now);
    } else {
      LocalKeepsA(pr, s.a, l, s.next, now);
    }
    NodeKeeps(pr.a, s.a, l, s.next, now);
    var g := GotBy(s.a.peer, l);
    if g.Some? { AcceptedWasSent(pr, s, pr.a, s.a, l.wire.frame.value, l.path, g.value); }
  }

  /** The responder's own part of a step. */
  lemma StepB(pr: Pair, s: Sys, l: Local, now: Time, n: Node)
    requires n == NodeAfter(pr.b, s.b, l, s.next, now)
    requires Paired(pr) && Inv(pr, s) && (l.Receive? ==> WireOk(pr, s, l.wire))
    ensures ResponderOk(pr, n, s.next + 1) && NodeOk(pr.b, n) && Within(n.got, s.a.sent)
    ensures forall t :: t in n.installs ==> t in s.a.installs
  {
    if l.Receive? && l.wire.Hs1? { HelloKeepsB(pr, s.b, l.wire.hello, l.path, s.next, now); }
    else if l.Receive? && l.wire.Hs3? { ClosingKeepsB(pr, s.b, l.wire.closing, l.path, s.next, now); }
    else { LocalKeepsB(pr, s.b, l, s.next, now); }
    NodeKeeps(pr.b, s.b, l, s.next, now);
    var g := GotBy(s.b.peer, l);
    if g.Some? { AcceptedWasSent(pr, s, pr.b, s.b, l.wire.frame.value, l.path, g.value); }
  }

  lemma NetAfterA(pr: Pair, s: Sys, l: Local, now: Time, s': Sys)
    requires Paired(pr) && Inv(pr, s)
    requires s' == Next(pr, s, AtA(l, now))
    ensures NetOk(pr, s')
  {
    forall w | w in s'.net ensures WireOk(pr, s', w) {
      if w in s.net { WireGrows(pr, s, s', w); }
      else { EmitsA(pr, s.a, l, s.next, now, w); EmittedIsOkA(pr, s', w); }
    }
  }

  lemma NetAfterB(pr: Pair, s: Sys, l: Local, now: Time, s': Sys)
    requires Paired(pr) && Inv(pr, s) && (l.Receive? ==> WireOk(pr, s, l.wire))
    requires s' == Next(pr, s, AtB(l, now))
    ensures NetOk(pr, s')
  {
    forall w | w in s'.net ensures WireOk(pr, s', w) {
      if w in s.net { WireGrows(pr, s, s', w); }
      else { EmitsB(pr, s.b, l, s.next, now, w); EmittedIsOkB(pr, s', w); }
    }
  }

  lemma NetAfterElsewhere(pr: Pair, s: Sys, h: Hello)
    requires Inv(pr, s) && Drawn(h.e, s.next)
    ensures NetOk(pr, Next(pr, s, Elsewhere(h)))
  {
    var s' := Next(pr, s, Elsewhere(h));
    forall w | w in s'.net ensures WireOk(pr, s', w) {
      if w in s.net { WireGrows(pr, s, s', w); }
    }
  }

  lemma LaterA(pr: Pair, n: Node, next: nat)
    requires InitiatorOk(pr, n, next)
    ensures InitiatorOk(pr, n, next + 1)
  {
  }

  lemma LaterB(pr: Pair, n: Node, next: nat)
    requires ResponderOk(pr, n, next)
    ensures ResponderOk(pr, n, next + 1)
  {
  }

  lemma HoldsAfterA(pr: Pair, s: Sys, l: Local, now: Time, s': Sys)
    requires Paired(pr) && Inv(pr, s) && (l.Receive? ==> WireOk(pr, s, l.wire))
    requires s' == Next(pr, s, AtA(l, now))
    ensures Inv(pr, s')
  {
    StepA(pr, s, l, now, s'.a);
    NetAfterA(pr, s, l, now, s');
    LaterB(pr, s.b, s.next);
  }

  lemma HoldsAfterB(pr: Pair, s: Sys, l: Local, now: Time, s': Sys)
    requires Paired(pr) && Inv(pr, s) && (l.Receive? ==> WireOk(pr, s, l.wire))
    requires s' == Next(pr, s, AtB(l, now))
    ensures Inv(pr, s')
  {
    StepB(pr, s, l, now, s'.b);
    NetAfterB(pr, s, l, now, s');
    LaterA(pr, s.a, s.next);
  }

  lemma HoldsElsewhere(pr: Pair, s: Sys, h: Hello)
    requires Inv(pr, s) && Drawn(h.e, s.next)
    ensures Inv(pr, Next(pr, s, Elsewhere(h)))
  {
    NetAfterElsewhere(pr, s, h);
    LaterA(pr, s.a, s.next);
    LaterB(pr, s.b, s.next);
  }

  lemma StepHolds(pr: Pair, s: Sys, e: Step)
    requires Paired(pr) && Inv(pr, s) && Allowed(pr, s, e)
    ensures Inv(pr, Next(pr, s, e))
  {
    match e {
      case AtA(l, now) =>
        if l.Receive? { DeliverableIsOk(pr, s, l.wire); }
        HoldsAfterA(pr, s, l, now, Next(pr, s, e));
      case AtB(l, now) =>
        if l.Receive? { DeliverableIsOk(pr, s, l.wire); }
        HoldsAfterB(pr, s, l, now, Next(pr, s, e));
      case Elsewhere(h) =>
        HoldsElsewhere(pr, s, h);
    }
  }

  lemma HoldsNext(pr: Pair, epA: Option<Address>, epB: Option<Address>, es: seq<Step>, n: nat, p: Sys, s: Sys)
    requires Paired(pr) && 0 < n <= |es| && Inv(pr, p) && Possible(pr, epA, epB, es, n)
    requires p == SysAt(pr, epA, epB, es, n - 1) && s == SysAt(pr, epA, epB, es, n)
    ensures Inv(pr, s)
  {
    StepHolds(pr, p, es[n - 1]);
  }

  /** The joint invariant holds wherever a possible run of two new peers leads. */
  lemma {:induction false} AlwaysHolds(pr: Pair, epA: Option<Address>, epB: Option<Address>, es: seq<Step>, n: nat,
                                       s: Sys)
    requires Paired(pr) && n <= |es| && Possible(pr, epA, epB, es, n) && s == SysAt(pr, epA, epB, es, n)
    ensures Inv(pr, s)
    decreases n
  {
    if n == 0 {
      InitHolds(pr, epA, epB);
    } else {
      var p := SysAt(pr, epA, epB, es, n - 1);
      AlwaysHolds(pr, epA, epB, es, n - 1, p);
      HoldsNext(pr, epA, epB, es, n, p, s);
    }
  }
}
