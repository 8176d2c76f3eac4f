/** What the transport session computes, as functions of its state. */
module SessionSpec {
  import opened Wrappers
  import opened Noise

  const DEFAULT_REKEY_EVERY: Uint64 := 0x10_0000
  const MAX_EPOCH_JUMP := 64

  /** send and recv are absent until the handshake completes. */
  datatype SessionState = SessionState(
    send: Option<CipherState>, recv: Option<CipherState>,
    sendCount: Uint64, recvCount: Uint64, sendEpoch: Uint64, recvEpoch: Uint64,
    rekeyEvery: Uint64, peerStatic: Option<Static>, binding: Option<Transcript>)

  datatype Error = NotReady | NonceExhausted | JumpTooLarge | BehindEpoch | NotAuthentic

  function Every(rekeyEvery: Uint64): (e: Uint64)
    ensures e > 0
  {
    if rekeyEvery == 0 then DEFAULT_REKEY_EVERY else rekeyEvery
  }

  function EpochOf(nonce: nat, rekeyEvery: Uint64): nat {
    nonce / Every(rekeyEvery)
  }

  function Max(a: nat, b: nat): nat { if a < b then b else a }

  function Minus(a: nat, b: nat): nat { if a < b then 0 else a - b }

  /** The session a completed handshake hands out. */
  function Established(sendRoot: Key, recvRoot: Key, rekeyEvery: Uint64, peer: Static, t: Transcript): SessionState {
    SessionState(Some(CipherState(sendRoot, 0)), Some(CipherState(recvRoot, 0)), 0, 0, 0, 0, rekeyEvery, Some(peer),
                 Some(t))
  }

  function SendError(st: SessionState): Option<Error> {
    if st.send.None? then Some(NotReady)
    else if st.sendCount > MAX_NONCE then Some(NonceExhausted)
    else if EpochOf(st.sendCount, st.rekeyEvery) > st.sendEpoch + MAX_EPOCH_JUMP then Some(JumpTooLarge)
    else None
  }

  /** The key the next frame is sealed under. */
  function SendKey(st: SessionState): Key
    requires st.send.Some?
  {
    Rekey(st.send.value.k, Minus(EpochOf(st.sendCount, st.rekeyEvery), st.sendEpoch))
  }

  function SendResult<C>(a: Aead<C>, st: SessionState, text: Bytes): Result<(Uint64, C), Error> {
    if SendError(st).Some? then Err(SendError(st).value)
    else Ok((st.sendCount, a.seal(SendKey(st), st.sendCount, text)))
  }

  function AfterSend(st: SessionState): SessionState {
    if SendError(st).Some? then st
    else st.(send := Some(CipherState(SendKey(st), st.sendCount + 1)), sendCount := st.sendCount + 1,
             sendEpoch := Max(EpochOf(st.sendCount, st.rekeyEvery), st.sendEpoch))
  }

  /** The key a frame at this nonce must open under, or why there is none. */
  function RecvKey(st: SessionState, nonce: Uint64): Result<Key, Error> {
    if st.recv.None? then Err(NotReady)
    else if nonce > MAX_NONCE then Err(NonceExhausted)
    else
      var ep := EpochOf(nonce, st.rekeyEvery);
      if ep < st.recvEpoch then Err(BehindEpoch)
      else if ep - st.recvEpoch > MAX_EPOCH_JUMP then Err(JumpTooLarge)
      else Ok(Rekey(st.recv.value.k, ep - st.recvEpoch))
  }

  function OpenResult<C>(a: Aead<C>, st: SessionState, nonce: Uint64, c: C): Result<Bytes, Error> {
    match RecvKey(st, nonce)
    case Err(e) => Err(e)
    case Ok(k) => match a.open(k, nonce, c) case Some(p) => Ok(p) case None => Err(NotAuthentic)
  }

  /** Only an authentic frame moves the epoch; a rejected one can move just the cipher's nonce. */
  function AfterOpen<C>(a: Aead<C>, st: SessionState, nonce: Uint64, c: C): SessionState {
    if OpenResult(a, st, nonce, c).Ok? then
      st.(recv := Some(CipherState(RecvKey(st, nonce).value, nonce + 1)), recvEpoch := EpochOf(nonce, st.rekeyEvery))
    else if st.recv.Some? && nonce <= MAX_NONCE && EpochOf(nonce, st.rekeyEvery) == st.recvEpoch then
      st.(recv := Some(st.recv.value.(n := nonce)))
    else st
  }

  function InOrderResult<C>(a: Aead<C>, st: SessionState, c: C): Result<Bytes, Error> {
    if st.recv.None? then Err(NotReady) else OpenResult(a, st, st.recvCount, c)
  }

  function AfterInOrder<C>(a: Aead<C>, st: SessionState, c: C): SessionState {
    if InOrderResult(a, st, c).Ok? then AfterOpen(a, st, st.recvCount, c).(recvCount := st.recvCount + 1)
    else AfterOpen(a, st, st.recvCount, c)
  }

  lemma EpochBound(nonce: Uint64, rekeyEvery: Uint64)
    ensures EpochOf(nonce, rekeyEvery) <= nonce
  {
    var e, q := Every(rekeyEvery), EpochOf(nonce, rekeyEvery);
    assert nonce == q * e + nonce % e;
    assert q * (e - 1) >= 0;
  }
}

/** The transport session with its cipher states, counters and epochs. */
module Sessions {
  import opened Wrappers
  import opened Noise
  import opened SessionSpec

  class Session<C> {
    const aead: Aead<C>
    const rekeyEvery: Uint64
    var send: Option<CipherState>
    var recv: Option<CipherState>
    var sendCount: Uint64
    var recvCount: Uint64
    var sendEpoch: Uint64
    var recvEpoch: Uint64
    var peerStatic: Option<Static>
    var channelBinding: Option<Transcript>

    ghost function State(): SessionState
      reads this
    {
      SessionState(send, recv, sendCount, recvCount, sendEpoch, recvEpoch, rekeyEvery, peerStatic, channelBinding)
    }

    /** An allocated session before Split. */
    constructor (aead: Aead<C>, rekeyEvery: Uint64)
      ensures State() == SessionState(None, None, 0, 0, 0, 0, rekeyEvery, None, None) && this.aead == aead
    {
      this.aead, this.rekeyEvery := aead, rekeyEvery;
      send, recv, peerStatic, channelBinding := None, None, None, None;
      sendCount, recvCount, sendEpoch, recvEpoch := 0, 0, 0, 0;
    }

    /** Rekeys the sending state up to the epoch of the nonce, unless the gap is too wide. */
    method RekeySendTo(nonce: Uint64) returns (ok: bool)
      requires send.Some?
      modifies this`send, this`sendEpoch
      ensures ok <==> EpochOf(nonce, rekeyEvery) <= old(sendEpoch) + MAX_EPOCH_JUMP
      ensures send.Some? && send.value.n == old(send.value.n)
      ensures ok ==> send.value.k == Rekey(old(send.value.k), Minus(EpochOf(nonce, rekeyEvery), old(sendEpoch)))
      ensures ok ==> sendEpoch == Max(EpochOf(nonce, rekeyEvery), old(sendEpoch))
      ensures !ok ==> send == old(send) && sendEpoch == old(sendEpoch)
    {
      var ep := EpochOf(nonce, rekeyEvery);
      EpochBound(nonce, rekeyEvery);
      while sendEpoch < ep
        invariant old(sendEpoch) <= sendEpoch <= Max(ep, old(sendEpoch)) && send.Some?
        invariant sendEpoch > old(sendEpoch) ==> ep - old(sendEpoch) <= MAX_EPOCH_JUMP
        invariant send.value == CipherState(Rekey(old(send.value.k), sendEpoch - old(sendEpoch)), old(send.value.n))
      {
        if ep - sendEpoch > MAX_EPOCH_JUMP { return false; }
        send := Some(CipherState(Rekeyed(send.value.k), send.value.n));
        sendEpoch := sendEpoch + 1;
      }
      return true;
    }

    method Send(text: Bytes) returns (r: Result<(Uint64, C), Error>)
      modifies this
      ensures r == SendResult(aead, old(State()), text)
      ensures State() == AfterSend(old(State()))
    {
      if send.None? { return Err(NotReady); }
      if sendCount > MAX_NONCE { return Err(NonceExhausted); }
      var ok := RekeySendTo(sendCount);
      if !ok { return Err(JumpTooLarge); }
      send := Some(CipherState(send.value.k, sendCount));
      var ct := aead.seal(send.value.k, send.value.n, text);
      send := Some(CipherState(send.value.k, send.value.n + 1));
      var n := sendCount;
      sendCount := sendCount + 1;
      return Ok((n, ct));
    }

    /** Opens a frame at an explicit nonce; rekeys counts the rekey operations spent on it. */
    method DecryptAt(nonce: Uint64, c: C) returns (r: Result<Bytes, Error>, ghost rekeys: nat)
      modifies this
      ensures r == OpenResult(aead, old(State()), nonce, c)
      ensures State() == AfterOpen(aead, old(State()), nonce, c)
      ensures rekeys <= 2 * MAX_EPOCH_JUMP
    {
      rekeys := 0;
      if recv.None? { r := Err(NotReady); return; }
      if nonce > MAX_NONCE { r := Err(NonceExhausted); return; }
      var ep := EpochOf(nonce, rekeyEvery);
      if ep == recvEpoch {
        recv := Some(CipherState(recv.value.k, nonce));
        match aead.open(recv.value.k, recv.value.n, c) {
          case None => r := Err(NotAuthentic);
          case Some(p) =>
            recv := Some(CipherState(recv.value.k, recv.value.n + 1));
            r := Ok(p);
        }
      } else if ep < recvEpoch {
        r := Err(BehindEpoch);
      } else if ep - recvEpoch > MAX_EPOCH_JUMP {
        r := Err(JumpTooLarge);
      } else {
        EpochBound(nonce, rekeyEvery);
        r, rekeys := DecryptAhead(nonce, c, ep);
      }
    }

    /** The frame is tried on a throwaway state first; the live state follows once it opened. */
    method DecryptAhead(nonce: Uint64, c: C, ep: Uint64) returns (r: Result<Bytes, Error>, ghost rekeys: nat)
      requires recv.Some? && nonce <= MAX_NONCE && ep == EpochOf(nonce, rekeyEvery)
      requires recvEpoch < ep <= recvEpoch + MAX_EPOCH_JUMP
      modifies this
      ensures r == OpenResult(aead, old(State()), nonce, c)
      ensures State() == AfterOpen(aead, old(State()), nonce, c)
      ensures rekeys <= 2 * MAX_EPOCH_JUMP
    {
      var cand := CipherState(recv.value.k, 0);
      var i := recvEpoch;
      rekeys := 0;
      while i < ep
        invariant recvEpoch <= i <= ep && rekeys == i - recvEpoch
        invariant cand == CipherState(Rekey(recv.value.k, i - recvEpoch), 0)
      {
        cand := CipherState(Rekeyed(cand.k), cand.n);
        i, rekeys := i + 1, rekeys + 1;
      }
      cand := CipherState(cand.k, nonce);
      match aead.open(cand.k, cand.n, c) {
        case None => r := Err(NotAuthentic);
        case Some(p) =>
          while recvEpoch < ep
            invariant old(recvEpoch) <= recvEpoch <= ep && recv.Some?
            invariant recv.value == CipherState(Rekey(old(recv.value.k), recvEpoch - old(recvEpoch)), old(recv.value.n))
            invariant rekeys == ep - old(recvEpoch) + recvEpoch - old(recvEpoch)
            invariant unchanged(`send) && unchanged(`sendCount) && unchanged(`recvCount) && unchanged(`sendEpoch)
            invariant unchanged(`peerStatic) && unchanged(`channelBinding)
          {
            recv := Some(CipherState(Rekeyed(recv.value.k), recv.value.n));
            recvEpoch, rekeys := recvEpoch + 1, rekeys + 1;
          }
          recv := Some(CipherState(recv.value.k, nonce + 1));
          r := Ok(p);
      }
    }

    /** The in-order form: the next expected nonce. */
    method Decrypt(c: C) returns (r: Result<Bytes, Error>)
      modifies this
      ensures r == InOrderResult(aead, old(State()), c)
      ensures State() == AfterInOrder(aead, old(State()), c)
    {
      if recv.None? { return Err(NotReady); }
      var n := recvCount;
      if n > MAX_NONCE { return Err(NonceExhausted); }
      ghost var steps;
      r, steps := DecryptAt(n, c);
      if r.Ok? { recvCount := n + 1; }
    }
  }
}
