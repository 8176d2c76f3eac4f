/** The receive path: replay gate, decryption, commit. */
module DataPlane {
  import opened Wrappers
  import opened Noise
  import opened SessionSpec
  import opened KeySchedule
  import opened ReplaySpec

  const WINDOW_BITS := 2048

  /** The receive-side state of one installed session. */
  datatype Rx = Rx(sess: SessionState, win: Window, hs3Pending: bool)

  datatype Frame<C> = Frame(nonce: Uint64, box: C)

  /** The plaintext the frame delivers, if it is accepted. */
  function Accepts<C>(a: Aead<C>, rx: Rx, f: Frame<C>): Option<Bytes> {
    if !Fresh(rx.win, WINDOW_BITS, f.nonce) then None
    else match OpenResult(a, rx.sess, f.nonce, f.box) case Ok(p) => Some(p) case Err(_) => None
  }

  function AfterFrame<C>(a: Aead<C>, rx: Rx, f: Frame<C>): Rx {
    if !Fresh(rx.win, WINDOW_BITS, f.nonce) then rx
    else
      var sess := AfterOpen(a, rx.sess, f.nonce, f.box);
      if Accepts(a, rx, f).Some? then Rx(sess, Committed(rx.win, f.nonce), false) else rx.(sess := sess)
  }

  /** The receive epoch is the epoch of the highest accepted nonce. */
  ghost predicate Linked(rx: Rx, sendRoot: Key, recvRoot: Key) {
    && Scheduled(rx.sess, sendRoot, recvRoot)
    && WellFormed(rx.win)
    && rx.sess.recvEpoch == EpochOf(rx.win.max, rx.sess.rekeyEvery)
  }

  lemma LinkedFresh(sendRoot: Key, recvRoot: Key, every: Uint64, peer: Static, t: Transcript, pending: bool)
    ensures Linked(Rx(Established(sendRoot, recvRoot, every, peer, t), EMPTY, pending), sendRoot, recvRoot)
  {
    ZeroEpoch(every);
  }

  lemma LinkedStep<C>(a: Aead<C>, rx: Rx, f: Frame<C>, sendRoot: Key, recvRoot: Key)
    requires Linked(rx, sendRoot, recvRoot)
    ensures Linked(AfterFrame(a, rx, f), sendRoot, recvRoot)
  {
    OpenStep(a, rx.sess, sendRoot, recvRoot, f.nonce, f.box);
    if f.nonce <= rx.win.max { EpochMonotone(f.nonce, rx.win.max, rx.sess.rekeyEvery); }
  }

  /** Exactly which genuine frames are accepted. */
  ghost predicate Acceptable(rx: Rx, n: nat) {
    && n <= MAX_NONCE
    && n !in rx.win.accepted
    && (n == 0 || rx.win.max < n + 2048)
    && EpochOf(rx.win.max, rx.sess.rekeyEvery) <= EpochOf(n, rx.sess.rekeyEvery)
    && EpochOf(n, rx.sess.rekeyEvery) <= EpochOf(rx.win.max, rx.sess.rekeyEvery) + MAX_EPOCH_JUMP
  }

  lemma ExactAcceptance<C(!new)>(a: Aead<C>, rx: Rx, sendRoot: Key, recvRoot: Key, n: Uint64, text: Bytes)
    requires Correct(a) && Linked(rx, sendRoot, recvRoot)
    ensures Accepts(a, rx, Frame(n, Genuine(a, recvRoot, rx.sess.rekeyEvery, n, text)))
         == if Acceptable(rx, n) then Some(text) else None
  {
    FreshMeans(rx.win, WINDOW_BITS, n);
    if n <= MAX_NONCE {
      GenuineOpens(a, rx.sess, sendRoot, recvRoot, n, text);
    }
  }

  /** Being new and inside the window is not enough: a fresh session that accepted the first frame of epoch 1
      refuses the genuine frame just before it, the last of epoch 0. */
  lemma LateAcrossRekeyIsRefused<C(!new)>(a: Aead<C>, sendRoot: Key, recvRoot: Key, peer: Static, t: Transcript,
                                          first: Bytes, late: Bytes)
    requires Correct(a)
    ensures var every := DEFAULT_REKEY_EVERY;
            var rx := Rx(Established(sendRoot, recvRoot, every, peer, t), EMPTY, false);
            var f := Frame(0x10_0000, Genuine(a, recvRoot, every, 0x10_0000, first));
            var g := Frame(0xF_FFFF, Genuine(a, recvRoot, every, 0xF_FFFF, late));
            && Accepts(a, rx, f) == Some(first)
            && Fresh(AfterFrame(a, rx, f).win, WINDOW_BITS, g.nonce) && Accepts(a, AfterFrame(a, rx, f), g) == None
  {
    var every := DEFAULT_REKEY_EVERY;
    var rx := Rx(Established(sendRoot, recvRoot, every, peer, t), EMPTY, false);
    var f := Frame(0x10_0000, Genuine(a, recvRoot, every, 0x10_0000, first));
    LinkedFresh(sendRoot, recvRoot, every, peer, t, false);
    ExactAcceptance(a, rx, sendRoot, recvRoot, 0x10_0000, first);
    LinkedStep(a, rx, f, sendRoot, recvRoot);
    ExactAcceptance(a, AfterFrame(a, rx, f), sendRoot, recvRoot, 0xF_FFFF, late);
  }

  /** A gap of up to 64 * rekeyEvery nonces is bridged; one of 65 * rekeyEvery or more never is,
      whatever the ciphertext. */
  lemma LossBurst<C(!new)>(a: Aead<C>, rx: Rx, sendRoot: Key, recvRoot: Key, n: Uint64, text: Bytes, c: C)
    requires Correct(a) && Linked(rx, sendRoot, recvRoot)
    ensures rx.win.max < n <= rx.win.max + 64 * Every(rx.sess.rekeyEvery) && n <= MAX_NONCE ==>
              Accepts(a, rx, Frame(n, Genuine(a, recvRoot, rx.sess.rekeyEvery, n, text))) == Some(text)
    ensures n >= rx.win.max + 65 * Every(rx.sess.rekeyEvery) ==> Accepts(a, rx, Frame(n, c)) == None
  {
    var every := rx.sess.rekeyEvery;
    if rx.win.max < n <= rx.win.max + 64 * Every(every) && n <= MAX_NONCE {
      EpochMonotone(rx.win.max, n, every);
      EpochMonotone(n, rx.win.max + 64 * Every(every), every);
      EpochPlus(rx.win.max, 64, every);
      ExactAcceptance(a, rx, sendRoot, recvRoot, n, text);
    }
    if n >= rx.win.max + 65 * Every(every) {
      EpochMonotone(rx.win.max + 65 * Every(every), n, every);
      EpochPlus(rx.win.max, 65, every);
      OpenStep(a, rx.sess, sendRoot, recvRoot, n, c);
    }
  }

  /** Under the symbolic AEAD an accepted frame is one the peer sealed at that very nonce. */
  lemma AcceptedIsGenuine(rx: Rx, sendRoot: Key, recvRoot: Key, f: Frame<Box>)
    requires Linked(rx, sendRoot, recvRoot) && Accepts(SYMBOLIC, rx, f).Some?
    ensures f.box == Sealed(Rekey(recvRoot, EpochOf(f.nonce, rx.sess.rekeyEvery)), f.nonce,
                            Accepts(SYMBOLIC, rx, f).value)
    ensures f.nonce <= MAX_NONCE && f.nonce !in rx.win.accepted
  {
    OpenStep(SYMBOLIC, rx.sess, sendRoot, recvRoot, f.nonce, f.box);
    var k := RecvKey(rx.sess, f.nonce).value;
    assert SYMBOLIC.open(k, f.nonce, f.box) == OpenBox(k, f.nonce, f.box);
  }

  // Whole runs

  function Deliveries<C>(a: Aead<C>, rx: Rx, fs: seq<Frame<C>>): seq<Option<Bytes>>
    decreases |fs|
  {
    if fs == [] then [] else [Accepts(a, rx, fs[0])] + Deliveries(a, AfterFrame(a, rx, fs[0]), fs[1..])
  }

  function AfterFrames<C>(a: Aead<C>, rx: Rx, fs: seq<Frame<C>>): Rx
    decreases |fs|
  {
    if fs == [] then rx else AfterFrames(a, AfterFrame(a, rx, fs[0]), fs[1..])
  }

  /** The frames of a run that were accepted, and what they delivered. */
  function Kept<C>(a: Aead<C>, rx: Rx, fs: seq<Frame<C>>): seq<Frame<C>>
    decreases |fs|
  {
    if fs == [] then []
    else (if Accepts(a, rx, fs[0]).Some? then [fs[0]] else []) + Kept(a, AfterFrame(a, rx, fs[0]), fs[1..])
  }

  function Texts(ds: seq<Option<Bytes>>): seq<Bytes> {
    if ds == [] then [] else (if ds[0].Some? then [ds[0].value] else []) + Texts(ds[1..])
  }

  /** Equal in everything but the nonce the receiving cipher last stood at. */
  ghost predicate SameButNonce(x: Rx, y: Rx) {
    && x.win == y.win && x.hs3Pending == y.hs3Pending
    && x.sess.recv.Some? == y.sess.recv.Some?
    && (x.sess.recv.Some? ==> x.sess.recv.value.k == y.sess.recv.value.k)
    && x.sess.(recv := None) == y.sess.(recv := None)
  }

  lemma RejectionIsInvisible<C>(a: Aead<C>, rx: Rx, f: Frame<C>)
    requires Accepts(a, rx, f).None?
    ensures SameButNonce(AfterFrame(a, rx, f), rx)
  {
  }

  lemma StepIgnoresNonce<C>(a: Aead<C>, x: Rx, y: Rx, f: Frame<C>)
    requires SameButNonce(x, y)
    ensures Accepts(a, x, f) == Accepts(a, y, f)
    ensures SameButNonce(AfterFrame(a, x, f), AfterFrame(a, y, f))
  {
  }

  /** Deleting every rejected frame from a run changes no plaintext and nothing of the final state
      but the cipher's resting nonce; and every remaining frame is still accepted. */
  lemma {:induction false} RejectedFramesInvisible<C>(a: Aead<C>, x: Rx, y: Rx, fs: seq<Frame<C>>)
    requires SameButNonce(x, y)
    ensures SameButNonce(AfterFrames(a, x, fs), AfterFrames(a, y, Kept(a, x, fs)))
    ensures Texts(Deliveries(a, x, fs)) == Texts(Deliveries(a, y, Kept(a, x, fs)))
    ensures |Texts(Deliveries(a, x, fs))| == |Kept(a, x, fs)|
    decreases |fs|
  {
    if fs != [] {
      var f, x' := fs[0], AfterFrame(a, x, fs[0]);
      StepIgnoresNonce(a, x, y, f);
      var ds := Deliveries(a, x', fs[1..]);
      assert Deliveries(a, x, fs)[1..] == ds;
      if Accepts(a, x, f).Some? {
        var y', kept := AfterFrame(a, y, f), Kept(a, x', fs[1..]);
        RejectedFramesInvisible(a, x', y', fs[1..]);
        assert Kept(a, x, fs) == [f] + kept && ([f] + kept)[1..] == kept;
        assert Deliveries(a, y, [f] + kept)[1..] == Deliveries(a, y', kept);
      } else {
        RejectionIsInvisible(a, x, f);
        RejectedFramesInvisible(a, x', y, fs[1..]);
        assert Kept(a, x, fs) == Kept(a, x', fs[1..]);
      }
    }
  }

  lemma {:induction false} AcceptedStaysRefused<C>(a: Aead<C>, rx: Rx, fs: seq<Frame<C>>, n: nat, j: nat)
    requires n in rx.win.accepted && j < |fs| && fs[j].nonce == n
    ensures |Deliveries(a, rx, fs)| == |fs| && Deliveries(a, rx, fs)[j].None?
    decreases |fs|
  {
    if j > 0 {
      AcceptedStaysRefused(a, AfterFrame(a, rx, fs[0]), fs[1..], n, j - 1);
    } else {
      DeliveriesLength(a, rx, fs);
    }
  }

  lemma {:induction false} DeliveriesLength<C>(a: Aead<C>, rx: Rx, fs: seq<Frame<C>>)
    ensures |Deliveries(a, rx, fs)| == |fs|
    decreases |fs|
  {
    if fs != [] { DeliveriesLength(a, AfterFrame(a, rx, fs[0]), fs[1..]); }
  }

  /** No two frames of a run with the same nonce are both accepted. */
  lemma {:induction false} AtMostOnce<C>(a: Aead<C>, rx: Rx, fs: seq<Frame<C>>, i: nat, j: nat)
    requires i < j < |fs| && fs[i].nonce == fs[j].nonce
    ensures |Deliveries(a, rx, fs)| == |fs|
    ensures Deliveries(a, rx, fs)[i].None? || Deliveries(a, rx, fs)[j].None?
    decreases |fs|
  {
    DeliveriesLength(a, rx, fs);
    if i > 0 {
      AtMostOnce(a, AfterFrame(a, rx, fs[0]), fs[1..], i - 1, j - 1);
    } else if Accepts(a, rx, fs[0]).Some? {
      AcceptedStaysRefused(a, AfterFrame(a, rx, fs[0]), fs[1..], fs[0].nonce, j - 1);
    }
  }

  // The decision, told from the history alone

  /** The nonces of the frames a run accepted. */
  function AcceptedIn<C>(fs: seq<Frame<C>>, ds: seq<Option<Bytes>>): set<nat>
    requires |fs| == |ds|
  {
    set i | 0 <= i < |fs| && ds[i].Some? :: fs[i].nonce
  }

  lemma AcceptedInNext<C>(fs: seq<Frame<C>>, ds: seq<Option<Bytes>>)
    requires |fs| == |ds| > 0
    ensures AcceptedIn(fs, ds) == (if ds[0].Some? then {fs[0].nonce} else {}) + AcceptedIn(fs[1..], ds[1..])
  {
    var rest := AcceptedIn(fs[1..], ds[1..]);
    forall n | n in AcceptedIn(fs, ds) ensures n in (if ds[0].Some? then {fs[0].nonce} else {}) + rest {
      var i :| 0 <= i < |fs| && ds[i].Some? && fs[i].nonce == n;
      if i > 0 { assert fs[1..][i - 1].nonce == n && ds[1..][i - 1].Some?; }
    }
    forall n | n in rest ensures n in AcceptedIn(fs, ds) {
      var i :| 0 <= i < |fs[1..]| && ds[1..][i].Some? && fs[1..][i].nonce == n;
      assert fs[i + 1].nonce == n && ds[i + 1].Some?;
    }
  }

  /** The window's accepted set is what the run accepted, and the run keeps the epoch link. */
  lemma {:induction false} WindowIsHistory<C>(a: Aead<C>, rx: Rx, fs: seq<Frame<C>>, sendRoot: Key, recvRoot: Key)
    requires Linked(rx, sendRoot, recvRoot)
    ensures |Deliveries(a, rx, fs)| == |fs| && Linked(AfterFrames(a, rx, fs), sendRoot, recvRoot)
    ensures AfterFrames(a, rx, fs).win.accepted == rx.win.accepted + AcceptedIn(fs, Deliveries(a, rx, fs))
    ensures AfterFrames(a, rx, fs).sess.rekeyEvery == rx.sess.rekeyEvery
    decreases |fs|
  {
    DeliveriesLength(a, rx, fs);
    if fs != [] {
      var ds := Deliveries(a, rx, fs);
      LinkedStep(a, rx, fs[0], sendRoot, recvRoot);
      WindowIsHistory(a, AfterFrame(a, rx, fs[0]), fs[1..], sendRoot, recvRoot);
      assert ds[1..] == Deliveries(a, AfterFrame(a, rx, fs[0]), fs[1..]);
      AcceptedInNext(fs, ds);
    }
  }

  /** Which genuine nonce a fresh session accepts after it accepted those of h: a new one, less than 2048 below
      every accepted one unless zero, in no earlier epoch than any, at most 64 epochs past the start or one of them. */
  ghost predicate InReach(h: set<nat>, n: nat, every: Uint64) {
    && n <= MAX_NONCE && n !in h
    && (n == 0 || forall m :: m in h ==> m < n + 2048)
    && (forall m :: m in h ==> EpochOf(m, every) <= EpochOf(n, every))
    && (EpochOf(n, every) <= 64 || exists m :: m in h && EpochOf(n, every) <= EpochOf(m, every) + 64)
  }

  lemma ReachIsAcceptable(rx: Rx, sendRoot: Key, recvRoot: Key, n: nat)
    requires Linked(rx, sendRoot, recvRoot)
    ensures Acceptable(rx, n) <==> InReach(rx.win.accepted, n, rx.sess.rekeyEvery)
  {
    var h, every := rx.win.accepted, rx.sess.rekeyEvery;
    ZeroEpoch(every);
    forall m | m in h ensures EpochOf(m, every) <= EpochOf(rx.win.max, every) {
      EpochMonotone(m, rx.win.max, every);
    }
    if rx.win.max != 0 { assert rx.win.max in h; }
  }

  /** Over every run of a fresh session, whatever else arrived: a genuine frame is accepted if and only if its nonce
      is within reach of those accepted so far. */
  lemma HistoryDecides<C(!new)>(a: Aead<C>, sendRoot: Key, recvRoot: Key, every: Uint64, peer: Static, t: Transcript,
                                fs: seq<Frame<C>>, n: Uint64, text: Bytes)
    requires Correct(a)
    ensures var rx := Rx(Established(sendRoot, recvRoot, every, peer, t), EMPTY, false);
            && |Deliveries(a, rx, fs)| == |fs|
            && Accepts(a, AfterFrames(a, rx, fs), Frame(n, Genuine(a, recvRoot, every, n, text)))
               == if InReach(AcceptedIn(fs, Deliveries(a, rx, fs)), n, every) then Some(text) else None
  {
    var rx := Rx(Established(sendRoot, recvRoot, every, peer, t), EMPTY, false);
    LinkedFresh(sendRoot, recvRoot, every, peer, t, false);
    WindowIsHistory(a, rx, fs, sendRoot, recvRoot);
    var after := AfterFrames(a, rx, fs);
    ReachIsAcceptable(after, sendRoot, recvRoot, n);
    ExactAcceptance(a, after, sendRoot, recvRoot, n, text);
    assert after.win.accepted == AcceptedIn(fs, Deliveries(a, rx, fs));
  }
}
