/** Rejected DATA frames leave no trace in a peer's whole life: sends, re-handshakes and roaming included. */
module RejectedFrames {
  import opened Wrappers
  import opened Noise
  import opened SessionSpec
  import opened DataPlane
  import opened PeerSpec
  import opened MeshSpec
  import opened Hs1Budget

  /** The session with its receiving cipher's resting nonce forgotten. */
  function Rested(s: SessionState): SessionState {
    if s.recv.Some? then s.(recv := Some(s.recv.value.(n := 0))) else s
  }

  function WithSession(p: PeerState, s: Option<SessionState>): PeerState {
    p.(live := p.live.(sess := s))
  }

  /** Two peers equal in everything but the nonce their live receiving cipher last stood at. */
  predicate AtRest(p: PeerState, q: PeerState) {
    && WithSession(p, None) == WithSession(q, None)
    && (match p.live.sess
        case None => q.live.sess.None?
        case Some(s) => q.live.sess.Some? && Rested(s) == Rested(q.live.sess.value))
  }

  /** The DATA frame is not accepted. */
  predicate Rejected(p: PeerState, l: Local) { l.Receive? && l.wire.Data? && Delivered(p, l.wire.frame).None? }

  /** What a step shows to the outside: the frame it emits and the payload it accepts. */
  datatype Shown = Shown(sent: Sent, accepted: Option<Bytes>)

  function ShownBy(self: Self, p: PeerState, e: Timed): Shown {
    Shown(Act(self, p, e.l, e.draw, e.now).1,
          if e.l.Receive? && e.l.wire.Data? then Delivered(p, e.l.wire.frame) else None)
  }

  // Single steps

  lemma RestedIsSame(s: SessionState, t: SessionState, x: Rx, y: Rx)
    requires Rested(s) == Rested(t) && x == Rx(s, x.win, x.hs3Pending) && y == Rx(t, x.win, x.hs3Pending)
    ensures SameButNonce(x, y)
  {
  }

  lemma SameIsRested(x: Rx, y: Rx)
    requires SameButNonce(x, y)
    ensures Rested(x.sess) == Rested(y.sess) && x.win == y.win && x.hs3Pending == y.hs3Pending
  {
  }

  lemma RejectedStep(p: PeerState, q: PeerState, f: Option<Frame<Box>>)
    requires AtRest(p, q) && Delivered(p, f).None?
    ensures AtRest(OnData(p, f), q)
  {
    if Receives(p) && f.Some? {
      RejectionIsInvisible(SYMBOLIC, RxOf(p), f.value);
      SameIsRested(AfterFrame(SYMBOLIC, RxOf(p), f.value), RxOf(p));
    }
  }

  lemma DataStepAlike(p: PeerState, q: PeerState, f: Option<Frame<Box>>)
    requires AtRest(p, q)
    ensures AtRest(OnData(p, f), OnData(q, f)) && Delivered(p, f) == Delivered(q, f)
  {
    if Receives(p) && f.Some? {
      RestedIsSame(p.live.sess.value, q.live.sess.value, RxOf(p), RxOf(q));
      StepIgnoresNonce(SYMBOLIC, RxOf(p), RxOf(q), f.value);
      SameIsRested(AfterFrame(SYMBOLIC, RxOf(p), f.value), AfterFrame(SYMBOLIC, RxOf(q), f.value));
    }
  }

  lemma SendStepAlike(p: PeerState, q: PeerState, text: Bytes, now: Time)
    requires AtRest(p, q)
    ensures AtRest(Send(p, text, now).0, Send(q, text, now).0) && Send(p, text, now).1 == Send(q, text, now).1
  {
  }

  /** Any other step. */
  lemma OtherStepAlike(self: Self, p: PeerState, q: PeerState, l: Local, draw: nat, now: Time)
    requires AtRest(p, q) && !l.Payload? && !(l.Receive? && l.wire.Data?)
    ensures AtRest(Act(self, p, l, draw, now).0, Act(self, q, l, draw, now).0)
    ensures Act(self, p, l, draw, now).1 == Act(self, q, l, draw, now).1
  {
  }

  lemma StepAlike(self: Self, p: PeerState, q: PeerState, e: Timed)
    requires AtRest(p, q)
    ensures AtRest(Act(self, p, e.l, e.draw, e.now).0, Act(self, q, e.l, e.draw, e.now).0)
    ensures ShownBy(self, p, e) == ShownBy(self, q, e)
  {
    if e.l.Payload? {
      SendStepAlike(p, q, e.l.text, e.now);
    } else if e.l.Receive? && e.l.wire.Data? {
      DataStepAlike(p, q, e.l.wire.frame);
    } else {
      OtherStepAlike(self, p, q, e.l, e.draw, e.now);
    }
  }

  // Whole runs

  /** The run without the frames it rejected. */
  function Undisturbed(self: Self, ep: Option<Address>, ts: seq<Timed>, n: nat): seq<Timed>
    requires n <= |ts|
  {
    if n == 0 then []
    else Undisturbed(self, ep, ts, n - 1) + if Rejected(PeerAt(self, ep, ts, n - 1), ts[n - 1].l) then []
        else [ts[n - 1]]
  }

  /** What the first n steps showed, rejected frames aside. */
  function Story(self: Self, ep: Option<Address>, ts: seq<Timed>, n: nat): seq<Shown>
    requires n <= |ts|
  {
    if n == 0 then []
    else
      var p := PeerAt(self, ep, ts, n - 1);
      Story(self, ep, ts, n - 1) + if Rejected(p, ts[n - 1].l) then [] else [ShownBy(self, p, ts[n - 1])]
  }

  lemma {:induction false} StoryPrefix(self: Self, ep: Option<Address>, xs: seq<Timed>, ys: seq<Timed>, n: nat)
    requires n <= |xs|
    ensures Story(self, ep, xs + ys, n) == Story(self, ep, xs, n)
  {
    if n > 0 {
      StoryPrefix(self, ep, xs, ys, n - 1);
      PeerAtPrefix(self, ep, xs, ys, n - 1);
    }
  }

  /** One more step of a run that rejects nothing. */
  lemma StoryNext(self: Self, ep: Option<Address>, js: seq<Timed>, e: Timed, q: PeerState)
    requires q == PeerAt(self, ep, js, |js|) && !Rejected(q, e.l)
    ensures PeerAt(self, ep, js + [e], |js| + 1) == Act(self, q, e.l, e.draw, e.now).0
    ensures Story(self, ep, js + [e], |js| + 1) == Story(self, ep, js, |js|) + [ShownBy(self, q, e)]
  {
    PeerAtPrefix(self, ep, js, [e], |js|);
    StoryPrefix(self, ep, js, [e], |js|);
  }

  /** A rejected frame is dropped from the run. */
  lemma DropNext(self: Self, ep: Option<Address>, ts: seq<Timed>, n: nat, p: PeerState, p': PeerState, q: PeerState)
    requires 0 < n <= |ts| && p == PeerAt(self, ep, ts, n - 1) && p' == PeerAt(self, ep, ts, n)
    requires AtRest(p, q) && Rejected(p, ts[n - 1].l)
    ensures Undisturbed(self, ep, ts, n) == Undisturbed(self, ep, ts, n - 1)
    ensures Story(self, ep, ts, n) == Story(self, ep, ts, n - 1) && AtRest(p', q)
  {
    RejectedStep(p, q, ts[n - 1].l.wire.frame);
  }

  /** Any other event stays, with the same effect and the same show. */
  lemma KeepNext(self: Self, ep: Option<Address>, ts: seq<Timed>, n: nat, p: PeerState, p': PeerState, q: PeerState,
                 e: Timed)
    requires 0 < n <= |ts| && p == PeerAt(self, ep, ts, n - 1) && p' == PeerAt(self, ep, ts, n)
    requires AtRest(p, q) && e == ts[n - 1] && !Rejected(p, e.l)
    ensures Undisturbed(self, ep, ts, n) == Undisturbed(self, ep, ts, n - 1) + [e]
    ensures Story(self, ep, ts, n) == Story(self, ep, ts, n - 1) + [ShownBy(self, q, e)]
    ensures AtRest(p', Act(self, q, e.l, e.draw, e.now).0) && !Rejected(q, e.l)
  {
    StepAlike(self, p, q, e);
  }

  /** Deleting every rejected frame from a peer's whole run changes no frame it emits, no payload it accepts and
      nothing of its final state but the nonce the receiving cipher rests at. */
  lemma {:induction false} RejectedLeaveNoTrace(self: Self, ep: Option<Address>, ts: seq<Timed>, n: nat, ks: seq<Timed>,
                                                p': PeerState, q': PeerState)
    requires n <= |ts| && ks == Undisturbed(self, ep, ts, n)
    requires p' == PeerAt(self, ep, ts, n) && q' == PeerAt(self, ep, ks, |ks|)
    ensures AtRest(p', q') && Story(self, ep, ks, |ks|) == Story(self, ep, ts, n)
    decreases n
  {
    if n > 0 {
      var e, js := ts[n - 1], Undisturbed(self, ep, ts, n - 1);
      var p, q := PeerAt(self, ep, ts, n - 1), PeerAt(self, ep, js, |js|);
      RejectedLeaveNoTrace(self, ep, ts, n - 1, js, p, q);
      if Rejected(p, e.l) {
        DropNext(self, ep, ts, n, p, p', q);
      } else {
        KeepNext(self, ep, ts, n, p, p', q, e);
        StoryNext(self, ep, js, e, q);
      }
    }
  }
}
