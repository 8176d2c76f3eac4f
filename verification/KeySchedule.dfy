/** The deterministic key schedule of a session that started from a fresh handshake. */
module KeySchedule {
  import opened Wrappers
  import opened Noise
  import opened SessionSpec
  import opened Arithmetic

  /** Both live keys are the roots rekeyed once per epoch. */
  ghost predicate Scheduled(st: SessionState, sendRoot: Key, recvRoot: Key) {
    && st.send.Some? && st.recv.Some?
    && st.send.value.k == Rekey(sendRoot, st.sendEpoch)
    && st.recv.value.k == Rekey(recvRoot, st.recvEpoch)
    && st.sendEpoch == (if st.sendCount == 0 then 0 else EpochOf(st.sendCount - 1, st.rekeyEvery))
  }

  lemma DivMod(n: nat, e: nat)
    requires e > 0
    ensures n == n / e * e + n % e && n % e < e
  {
  }

  lemma QuotientOrder(a: nat, b: nat, e: nat, qa: nat, ra: nat, qb: nat, rb: nat)
    requires a == qa * e + ra && b == qb * e + rb && ra < e && rb < e && a <= b
    ensures qa <= qb
  {
    MulMonotone(qb, qa, e);
  }

  lemma DivMonotone(a: nat, b: nat, e: nat)
    requires e > 0 && a <= b
    ensures a / e <= b / e
  {
    DivMod(a, e);
    DivMod(b, e);
    QuotientOrder(a, b, e, a / e, a % e, b / e, b % e);
  }

  lemma EpochMonotone(a: nat, b: nat, every: Uint64)
    requires a <= b
    ensures EpochOf(a, every) <= EpochOf(b, every)
  {
    DivMonotone(a, b, Every(every));
  }

  lemma EpochPlus(a: nat, k: nat, every: Uint64)
    ensures EpochOf(a + k * Every(every), every) == EpochOf(a, every) + k
  {
    var e := Every(every);
    var q, r := a / e, a % e;
    assert a + k * e == (q + k) * e + r;
    DivUnique(a + k * e, e, q + k, r);
  }

  lemma DivUnique(n: nat, e: nat, q: nat, r: nat)
    requires e > 0 && r < e && n == q * e + r
    ensures n / e == q
  {
    DivMod(n, e);
    QuotientOrder(n, n, e, n / e, n % e, q, r);
    QuotientOrder(n, n, e, q, r, n / e, n % e);
  }

  /** The epoch of a nonce is the whole number of rekey intervals below it; an interval of 0 means 2^20. */
  lemma EpochIs(n: nat, every: Uint64, q: nat)
    ensures var e := if every == 0 then 0x10_0000 else every;
            EpochOf(n, every) == q <==> q * e <= n < q * e + e
  {
    var e := Every(every);
    DivMod(n, e);
    if q * e <= n < q * e + e { DivUnique(n, e, q, n - q * e); }
  }

  lemma EpochNext(n: nat, every: Uint64)
    ensures EpochOf(n, every) <= EpochOf(n + 1, every) <= EpochOf(n, every) + 1
  {
    EpochMonotone(n, n + 1, every);
    EpochMonotone(n + 1, n + 1 * Every(every), every);
    EpochPlus(n, 1, every);
  }

  lemma ZeroEpoch(every: Uint64)
    ensures EpochOf(0, every) == 0
  {
    DivUnique(0, Every(every), 0, 0);
  }

  /** The frame at nonce n is sealed under the root rekeyed exactly n / rekeyEvery times, and
      sending fails exactly when the nonces are exhausted. */
  lemma SendStep<C>(a: Aead<C>, st: SessionState, sendRoot: Key, recvRoot: Key, text: Bytes)
    requires Scheduled(st, sendRoot, recvRoot)
    ensures SendError(st) == if st.sendCount <= MAX_NONCE then None else Some(NonceExhausted)
    ensures st.sendCount <= MAX_NONCE ==>
              SendResult(a, st, text)
              == Ok((st.sendCount, a.seal(Rekey(sendRoot, EpochOf(st.sendCount, st.rekeyEvery)), st.sendCount, text)))
    ensures Scheduled(AfterSend(st), sendRoot, recvRoot)
  {
    if st.sendCount <= MAX_NONCE {
      var ep := EpochOf(st.sendCount, st.rekeyEvery);
      if st.sendCount == 0 { ZeroEpoch(st.rekeyEvery); } else { EpochNext(st.sendCount - 1, st.rekeyEvery); }
      RekeyAdd(sendRoot, st.sendEpoch, ep - st.sendEpoch);
    }
  }

  /** Which key opens a nonce, and that no frame, genuine or not, breaks the schedule. */
  lemma OpenStep<C>(a: Aead<C>, st: SessionState, sendRoot: Key, recvRoot: Key, nonce: Uint64, c: C)
    requires Scheduled(st, sendRoot, recvRoot)
    ensures RecvKey(st, nonce).Ok?
       <==> nonce <= MAX_NONCE && st.recvEpoch <= EpochOf(nonce, st.rekeyEvery) <= st.recvEpoch + MAX_EPOCH_JUMP
    ensures RecvKey(st, nonce).Ok? ==> RecvKey(st, nonce).value == Rekey(recvRoot, EpochOf(nonce, st.rekeyEvery))
    ensures Scheduled(AfterOpen(a, st, nonce, c), sendRoot, recvRoot)
  {
    var ep := EpochOf(nonce, st.rekeyEvery);
    if ep >= st.recvEpoch { RekeyAdd(recvRoot, st.recvEpoch, ep - st.recvEpoch); }
  }

  /** The ciphertext an honest peer emits at a nonce. */
  function Genuine<C>(a: Aead<C>, root: Key, every: Uint64, nonce: nat, text: Bytes): C {
    a.seal(Rekey(root, EpochOf(nonce, every)), nonce, text)
  }

  /** A genuine frame opens to its plaintext in any arrival order, within 64 epochs ahead and none behind. */
  lemma GenuineOpens<C(!new)>(a: Aead<C>, st: SessionState, sendRoot: Key, recvRoot: Key, nonce: Uint64, text: Bytes)
    requires Correct(a) && Scheduled(st, sendRoot, recvRoot) && nonce <= MAX_NONCE
    ensures OpenResult(a, st, nonce, Genuine(a, recvRoot, st.rekeyEvery, nonce, text))
         == (var ep := EpochOf(nonce, st.rekeyEvery);
             if ep < st.recvEpoch then Err(BehindEpoch)
             else if ep > st.recvEpoch + MAX_EPOCH_JUMP then Err(JumpTooLarge)
             else Ok(text))
  {
    OpenStep(a, st, sendRoot, recvRoot, nonce, Genuine(a, recvRoot, st.rekeyEvery, nonce, text));
  }

  /** The results of sending texts one after the other. */
  function SendAll<C>(a: Aead<C>, st: SessionState, texts: seq<Bytes>): seq<Result<(Uint64, C), Error>>
    decreases |texts|
  {
    if texts == [] then []
    else [SendResult(a, st, texts[0])] + SendAll(a, AfterSend(st), texts[1..])
  }

  /** The whole run of a fresh session: frame i carries nonce i, so no (key, nonce) pair repeats. */
  lemma {:induction false} SendRun<C>(a: Aead<C>, st: SessionState, sendRoot: Key, recvRoot: Key, texts: seq<Bytes>,
                                      i: nat)
    requires Scheduled(st, sendRoot, recvRoot) && i < |texts|
    ensures |SendAll(a, st, texts)| == |texts|
    ensures SendAll(a, st, texts)[i]
         == if st.sendCount + i <= MAX_NONCE
            then Ok((st.sendCount + i, Genuine(a, sendRoot, st.rekeyEvery, st.sendCount + i, texts[i])))
            else Err(NonceExhausted)
    decreases |texts|
  {
    SendStep(a, st, sendRoot, recvRoot, texts[0]);
    if |texts| > 1 {
      SendRun(a, AfterSend(st), sendRoot, recvRoot, texts[1..], if i == 0 then 0 else i - 1);
    }
  }

  lemma FreshIsScheduled(sendRoot: Key, recvRoot: Key, every: Uint64, peer: Static, t: Transcript)
    ensures Scheduled(Established(sendRoot, recvRoot, every, peer, t), sendRoot, recvRoot)
  {
  }
}
