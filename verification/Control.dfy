/** What the framed control connection writes and reads, as functions. */
module ControlSpec {
  import opened Wrappers
  import opened Noise
  import opened SessionSpec
  import opened HandshakeSpec
  import opened KeySchedule
  import opened BigEndian

  const MAX_MSG_LEN := 0x10_0000
  const TAG_LEN := 16

  datatype ReadError = EndOfStream | InvalidLength | Refused(e: Error)

  datatype WriteError = NotSealed(e: Error) | SocketFailed

  /** [4-byte length][ciphertext]; the length field keeps 32 bits. */
  function Framed(ct: Bytes): Bytes { PutU32(|ct|) + ct }

  function WriteStep(a: Aead<Bytes>, st: SessionState, text: Bytes): Result<Bytes, Error> {
    match SendResult(a, st, text) case Err(e) => Err(e) case Ok(f) => Ok(Framed(f.1))
  }

  datatype Read = Read(r: Result<Bytes, ReadError>, st: SessionState, rest: Bytes)

  function ReadStep(a: Aead<Bytes>, st: SessionState, inp: Bytes): Read {
    if |inp| < 4 then Read(Err(EndOfStream), st, [])
    else
      var n := GetU32(inp);
      if n == 0 || n > MAX_MSG_LEN then Read(Err(InvalidLength), st, inp[4..])
      else if |inp| < 4 + n then Read(Err(EndOfStream), st, [])
      else
        var ct := inp[4..4 + n];
        Read(match InOrderResult(a, st, ct) case Ok(p) => Ok(p) case Err(e) => Err(Refused(e)),
             AfterInOrder(a, st, ct), inp[4 + n..])
  }

  /** The bytes a sequence of writes puts on the stream. */
  function Written(a: Aead<Bytes>, st: SessionState, texts: seq<Bytes>): Bytes
    decreases |texts|
  {
    if texts == [] then []
    else (match WriteStep(a, st, texts[0]) case Ok(b) => b case Err(_) => [])
         + Written(a, AfterSend(st), texts[1..])
  }

  /** The messages read off a stream until the first error. */
  function ReadAll(a: Aead<Bytes>, st: SessionState, inp: Bytes): seq<Bytes>
    decreases |inp|
  {
    var s := ReadStep(a, st, inp);
    if s.r.Err? then [] else [s.r.value] + ReadAll(a, s.st, s.rest)
  }

  ghost predicate Tagged(a: Aead<Bytes>) {
    forall k, n, p :: |a.seal(k, n, p)| == |p| + TAG_LEN
  }

  /** Opening gives exactly as many bytes as sealing put in. */
  ghost predicate Untagged(a: Aead<Bytes>) {
    forall k, n, c :: a.open(k, n, c).Some? ==> |c| == |a.open(k, n, c).value| + TAG_LEN
  }

  /** Writer and reader of one direction stand at the same message. */
  ghost predicate InStep(w: SessionState, r: SessionState, root: Key, wRecv: Key, rSend: Key) {
    && Scheduled(w, root, wRecv) && Scheduled(r, rSend, root)
    && w.rekeyEvery == r.rekeyEvery && w.sendCount == r.recvCount
    && r.recvEpoch == w.sendEpoch
  }

  /** A fresh handshake puts both directions in step. */
  lemma FreshInStep(t: Transcript)
    ensures InStep(InitiatorSession(t), ResponderSession(t), Root(t, ToResponder), Root(t, ToInitiator),
                   Root(t, ToInitiator))
    ensures InStep(ResponderSession(t), InitiatorSession(t), Root(t, ToInitiator), Root(t, ToResponder),
                   Root(t, ToResponder))
  {
    FreshIsScheduled(Root(t, ToResponder), Root(t, ToInitiator), DEFAULT_REKEY_EVERY, t.responder, t);
    FreshIsScheduled(Root(t, ToInitiator), Root(t, ToResponder), DEFAULT_REKEY_EVERY, t.initiator, t);
    SessionsMatch(t);
  }

  /** The length field keeps 32 bits of the ciphertext's length. */
  lemma LengthField(ct: Bytes, more: Bytes)
    ensures var inp := Framed(ct) + more;
            |inp| == 4 + |ct| + |more| && GetU32(inp) == |ct| % 0x1_0000_0000 && inp[4..] == ct + more
  {
    assert Framed(ct) + more == PutU32(|ct|) + (ct + more);
    RoundTrip32(|ct|, ct + more);
  }

  lemma FrameSplits(ct: Bytes, more: Bytes)
    requires |ct| < 0x1_0000_0000
    ensures var inp := Framed(ct) + more;
            GetU32(inp) == |ct| && |inp| >= 4 + |ct| && inp[4..4 + |ct|] == ct && inp[4 + |ct|..] == more
  {
    LengthField(ct, more);
  }

  lemma GenuineInOrder(a: Aead<Bytes>, w: SessionState, r: SessionState, root: Key, wRecv: Key, rSend: Key, text: Bytes)
    requires Correct(a) && InStep(w, r, root, wRecv, rSend) && w.sendCount <= MAX_NONCE
    ensures SendResult(a, w, text).Ok?
    ensures InOrderResult(a, r, SendResult(a, w, text).value.1) == Ok(text)
    ensures InStep(AfterSend(w), AfterInOrder(a, r, SendResult(a, w, text).value.1), root, wRecv, rSend)
  {
    SendStep(a, w, root, wRecv, text);
    var n, every := w.sendCount, w.rekeyEvery;
    if n == 0 { ZeroEpoch(every); } else { EpochNext(n - 1, every); }
    GenuineOpens(a, r, rSend, root, n, text);
    OpenStep(a, r, rSend, root, n, Genuine(a, root, every, n, text));
  }

  lemma ShortMessage(a: Aead<Bytes>, w: SessionState, r: SessionState, root: Key, wRecv: Key, rSend: Key,
                     text: Bytes, more: Bytes)
    requires Correct(a) && Tagged(a) && InStep(w, r, root, wRecv, rSend) && w.sendCount <= MAX_NONCE
    requires |text| <= MAX_MSG_LEN - TAG_LEN
    ensures WriteStep(a, w, text).Ok?
    ensures var s := ReadStep(a, r, WriteStep(a, w, text).value + more);
            s.r == Ok(text) && s.rest == more && InStep(AfterSend(w), s.st, root, wRecv, rSend)
  {
    GenuineInOrder(a, w, r, root, wRecv, rSend, text);
    SendStep(a, w, root, wRecv, text);
    FrameSplits(SendResult(a, w, text).value.1, more);
  }

  /** Whatever the length field wraps to, a reader never gets a message as long as this one out of it. */
  lemma LongFrame(a: Aead<Bytes>, r: SessionState, ct: Bytes, text: Bytes, more: Bytes)
    requires Untagged(a) && |ct| == |text| + TAG_LEN > MAX_MSG_LEN
    ensures ReadStep(a, r, Framed(ct) + more).r != Ok(text)
    ensures |ct| < 0x1_0000_0000 ==> ReadStep(a, r, Framed(ct) + more).r == Err(InvalidLength)
  {
    LengthField(ct, more);
    var n := GetU32(Framed(ct) + more);
    if 0 < n <= MAX_MSG_LEN {
      ReadsExactly(a, r, (Framed(ct) + more)[4..4 + n]);
    }
  }

  lemma ReadsExactly(a: Aead<Bytes>, r: SessionState, ct: Bytes)
    requires Untagged(a)
    ensures InOrderResult(a, r, ct).Ok? ==> |ct| == |InOrderResult(a, r, ct).value| + TAG_LEN
  {
  }

  /** One message of any length: written whenever a nonce is left, and read back if and only if its plaintext
      leaves room for the tag under the length cap. */
  lemma MessageStep(a: Aead<Bytes>, w: SessionState, r: SessionState, root: Key, wRecv: Key, rSend: Key,
                    text: Bytes, more: Bytes)
    requires Correct(a) && Tagged(a) && Untagged(a) && InStep(w, r, root, wRecv, rSend) && w.sendCount <= MAX_NONCE
    ensures WriteStep(a, w, text).Ok?
    ensures var s := ReadStep(a, r, WriteStep(a, w, text).value + more);
            && (s.r == Ok(text) <==> |text| <= 0x10_0000 - 16)
            && (s.r == Ok(text) ==> s.rest == more && InStep(AfterSend(w), s.st, root, wRecv, rSend))
            && (0x10_0000 < |text| + 16 < 0x1_0000_0000 ==> s.r == Err(InvalidLength))
  {
    SendStep(a, w, root, wRecv, text);
    if |text| <= MAX_MSG_LEN - TAG_LEN {
      ShortMessage(a, w, r, root, wRecv, rSend, text, more);
    } else {
      LongFrame(a, r, SendResult(a, w, text).value.1, text, more);
    }
  }

  lemma FirstWritten(a: Aead<Bytes>, w: SessionState, root: Key, wRecv: Key, texts: seq<Bytes>)
    requires Scheduled(w, root, wRecv) && texts != [] && w.sendCount <= MAX_NONCE
    ensures WriteStep(a, w, texts[0]).Ok?
    ensures Written(a, w, texts) == WriteStep(a, w, texts[0]).value + Written(a, AfterSend(w), texts[1..])
  {
    SendStep(a, w, root, wRecv, texts[0]);
  }

  lemma ReadAllFirst(a: Aead<Bytes>, st: SessionState, inp: Bytes)
    requires ReadStep(a, st, inp).r.Ok?
    ensures var s := ReadStep(a, st, inp); ReadAll(a, st, inp) == [s.r.value] + ReadAll(a, s.st, s.rest)
  {
  }

  /** The first message of a stream is read off, and both sides stay in step. */
  lemma ReadWritten(a: Aead<Bytes>, w: SessionState, r: SessionState, root: Key, wRecv: Key, rSend: Key,
                    text: Bytes, head: Bytes, more: Bytes) returns (st: SessionState)
    requires Correct(a) && Tagged(a) && InStep(w, r, root, wRecv, rSend) && w.sendCount <= MAX_NONCE
    requires |text| <= MAX_MSG_LEN - TAG_LEN && WriteStep(a, w, text) == Ok(head)
    ensures ReadAll(a, r, head + more) == [text] + ReadAll(a, st, more)
    ensures InStep(AfterSend(w), st, root, wRecv, rSend) && AfterSend(w).sendCount == w.sendCount + 1
  {
    ShortMessage(a, w, r, root, wRecv, rSend, text, more);
    ReadAllFirst(a, r, head + more);
    SendStep(a, w, root, wRecv, text);
    st := ReadStep(a, r, head + more).st;
  }

  /** What each input makes of a read: where the stream ends, which lengths are refused, and what is consumed. */
  lemma ReadRules(a: Aead<Bytes>, st: SessionState, inp: Bytes)
    ensures var s, n := ReadStep(a, st, inp), Value(if |inp| < 4 then [] else inp[..4]);
            && (|inp| < 4 ==> s.r == Err(EndOfStream) && s.st == st)
            && (|inp| >= 4 && (n == 0 || n > 0x10_0000) ==> s == Read(Err(InvalidLength), st, inp[4..]))
            && (|inp| >= 4 && 0 < n <= 0x10_0000 && |inp| < 4 + n ==> s.r == Err(EndOfStream) && s.st == st)
            && (|inp| >= 4 && 0 < n <= 0x10_0000 && |inp| >= 4 + n ==>
                  s.rest == inp[4 + n..]
                  && match InOrderResult(a, st, inp[4..4 + n])
                     case Ok(p) => s.r == Ok(p)
                     case Err(e) => s.r == Err(Refused(e)))
  {
    NetworkOrder(inp, 0);
  }

  /** Reading back what was written: every message, in order, across rekey epochs. */
  lemma {:induction false} StreamRoundTrip(a: Aead<Bytes>, w: SessionState, r: SessionState, root: Key, wRecv: Key,
                                           rSend: Key, texts: seq<Bytes>)
    requires Correct(a) && Tagged(a) && InStep(w, r, root, wRecv, rSend)
    requires w.sendCount + |texts| <= MAX_NONCE + 1
    requires forall i :: 0 <= i < |texts| ==> |texts[i]| <= 0x10_0000 - 16
    ensures ReadAll(a, r, Written(a, w, texts)) == texts
    decreases |texts|
  {
    if texts != [] {
      FirstWritten(a, w, root, wRecv, texts);
      var head, tail := WriteStep(a, w, texts[0]).value, Written(a, AfterSend(w), texts[1..]);
      var st := ReadWritten(a, w, r, root, wRecv, rSend, texts[0], head, tail);
      StreamRoundTrip(a, AfterSend(w), st, root, wRecv, rSend, texts[1..]);
    }
  }

  /** What one side of a fresh control connection writes the other reads, message for message. */
  lemma FreshStream(a: Aead<Bytes>, t: Transcript, texts: seq<Bytes>)
    requires Correct(a) && Tagged(a) && |texts| <= MAX_NONCE + 1
    requires forall i :: 0 <= i < |texts| ==> |texts[i]| <= 0x10_0000 - 16
    ensures ReadAll(a, ResponderSession(t), Written(a, InitiatorSession(t), texts)) == texts
    ensures ReadAll(a, InitiatorSession(t), Written(a, ResponderSession(t), texts)) == texts
  {
    var i, r, up, down := InitiatorSession(t), ResponderSession(t), Root(t, ToResponder), Root(t, ToInitiator);
    FreshInStep(t);
    StreamRoundTrip(a, i, r, up, down, down, texts);
    StreamRoundTrip(a, r, i, down, up, up, texts);
  }

  lemma CutBeyondHead(head: Bytes, tail: Bytes, cut: nat)
    requires cut <= |head + tail|
    ensures cut < |head| ==> (head + tail)[..cut] == head[..cut]
    ensures |head| <= cut ==> (head + tail)[..cut] == head + tail[..cut - |head|]
  {
  }

  lemma WrittenFront(a: Aead<Bytes>, w: SessionState, root: Key, wRecv: Key, texts: seq<Bytes>, head: Bytes, k: nat)
    requires Scheduled(w, root, wRecv) && k < |texts| && w.sendCount <= MAX_NONCE
    requires WriteStep(a, w, texts[0]) == Ok(head)
    ensures Written(a, w, texts[..k + 1]) == head + Written(a, AfterSend(w), texts[1..][..k])
  {
    FirstWritten(a, w, root, wRecv, texts[..k + 1]);
    assert texts[..k + 1][1..] == texts[1..][..k];
  }

  /** The first k messages are those whose last byte comes before the cut. */
  ghost predicate WholeBefore(a: Aead<Bytes>, w: SessionState, texts: seq<Bytes>, cut: nat, k: nat) {
    k <= |texts| && |Written(a, w, texts[..k])| <= cut && (k < |texts| ==> cut < |Written(a, w, texts[..k + 1])|)
  }

  lemma WholeNext(a: Aead<Bytes>, w: SessionState, root: Key, wRecv: Key, texts: seq<Bytes>, head: Bytes, cut: nat,
                  k: nat)
    requires Scheduled(w, root, wRecv) && w.sendCount <= MAX_NONCE && texts != []
    requires WriteStep(a, w, texts[0]) == Ok(head)
    requires |head| <= cut && WholeBefore(a, AfterSend(w), texts[1..], cut - |head|, k)
    ensures WholeBefore(a, w, texts, cut, k + 1) && texts[..k + 1] == [texts[0]] + texts[1..][..k]
  {
    WrittenFront(a, w, root, wRecv, texts, head, k);
    if k + 1 < |texts| { WrittenFront(a, w, root, wRecv, texts, head, k + 1); }
  }

  /** The cut falls into the first message. */
  lemma CutInside(a: Aead<Bytes>, w: SessionState, r: SessionState, root: Key, wRecv: Key, texts: seq<Bytes>,
                  head: Bytes, tail: Bytes, cut: nat)
    requires Scheduled(w, root, wRecv) && Tagged(a) && w.sendCount <= MAX_NONCE && texts != []
    requires |texts[0]| <= 0x10_0000 - 16 && WriteStep(a, w, texts[0]) == Ok(head) && cut < |head|
    ensures WholeBefore(a, w, texts, cut, 0) && ReadAll(a, r, (head + tail)[..cut]) == []
  {
    CutBeyondHead(head, tail, cut);
    CutHeadReadsNothing(a, r, SendResult(a, w, texts[0]).value.1, cut);
    WrittenFront(a, w, root, wRecv, texts, head, 0);
  }

  /** The cut falls behind it. */
  lemma CutBehind(a: Aead<Bytes>, w: SessionState, r: SessionState, root: Key, wRecv: Key, rSend: Key,
                  texts: seq<Bytes>, head: Bytes, tail: Bytes, cut: nat) returns (st: SessionState)
    requires Correct(a) && Tagged(a) && InStep(w, r, root, wRecv, rSend) && w.sendCount <= MAX_NONCE && texts != []
    requires |texts[0]| <= 0x10_0000 - 16 && WriteStep(a, w, texts[0]) == Ok(head) && |head| <= cut <= |head + tail|
    ensures InStep(AfterSend(w), st, root, wRecv, rSend) && AfterSend(w).sendCount == w.sendCount + 1
    ensures ReadAll(a, r, (head + tail)[..cut]) == [texts[0]] + ReadAll(a, st, tail[..cut - |head|])
  {
    CutBeyondHead(head, tail, cut);
    st := ReadWritten(a, w, r, root, wRecv, rSend, texts[0], head, tail[..cut - |head|]);
  }

  /** A stream cut anywhere yields exactly the messages whose last byte comes before the cut. */
  lemma {:induction false} CutStreamPrefix(a: Aead<Bytes>, w: SessionState, r: SessionState, root: Key, wRecv: Key,
                                           rSend: Key, texts: seq<Bytes>, cut: nat) returns (k: nat)
    requires Correct(a) && Tagged(a) && InStep(w, r, root, wRecv, rSend)
    requires w.sendCount + |texts| <= MAX_NONCE + 1
    requires forall i :: 0 <= i < |texts| ==> |texts[i]| <= 0x10_0000 - 16
    requires cut <= |Written(a, w, texts)|
    ensures WholeBefore(a, w, texts, cut, k) && ReadAll(a, r, Written(a, w, texts)[..cut]) == texts[..k]
    decreases |texts|
  {
    k := 0;
    if texts != [] {
      FirstWritten(a, w, root, wRecv, texts);
      var head, tail := WriteStep(a, w, texts[0]).value, Written(a, AfterSend(w), texts[1..]);
      if cut < |head| {
        CutInside(a, w, r, root, wRecv, texts, head, tail, cut);
      } else {
        var st := CutBehind(a, w, r, root, wRecv, rSend, texts, head, tail, cut);
        var l := CutStreamPrefix(a, AfterSend(w), st, root, wRecv, rSend, texts[1..], cut - |head|);
        WholeNext(a, w, root, wRecv, texts, head, cut, l);
        k := l + 1;
      }
    }
  }

  lemma CutLength(ct: Bytes, cut: nat)
    requires |ct| < 0x1_0000_0000 && 4 <= cut < |Framed(ct)|
    ensures GetU32(Framed(ct)[..cut]) == |ct|
  {
    RoundTrip32(|ct|, ct[..cut - 4]);
    assert Framed(ct)[..cut] == PutU32(|ct|) + ct[..cut - 4];
  }

  lemma CutHeadReadsNothing(a: Aead<Bytes>, r: SessionState, ct: Bytes, cut: nat)
    requires |ct| < 0x1_0000_0000 && cut < |Framed(ct)|
    ensures ReadAll(a, r, Framed(ct)[..cut]) == []
  {
    if cut >= 4 { CutLength(ct, cut); }
  }
}

/** The encrypted, framed control connection over a byte stream. */
module Control {
  import opened Wrappers
  import opened Noise
  import opened SessionSpec
  import opened ControlSpec
  import opened BigEndian
  import opened Sessions

  class Conn {
    const sess: Session<Bytes>
    var outgoing: Bytes   // everything handed to the socket
    var incoming: Bytes   // what the peer's socket delivered and was not read yet

    constructor (sess: Session<Bytes>, incoming: Bytes)
      ensures this.sess == sess && outgoing == [] && this.incoming == incoming
    {
      this.sess, this.outgoing, this.incoming := sess, [], incoming;
    }

    /** The session has moved on even when the socket takes only part of the frame. */
    method WriteMsg(text: Bytes, taken: nat) returns (r: Result<(), WriteError>)
      modifies this`outgoing, sess
      ensures sess.State() == AfterSend(old(sess.State()))
      ensures match WriteStep(sess.aead, old(sess.State()), text)
              case Ok(b) => if taken >= |b| then r == Ok(()) && outgoing == old(outgoing) + b
                            else r == Err(SocketFailed) && outgoing == old(outgoing) + b[..taken]
              case Err(e) => r == Err(NotSealed(e)) && outgoing == old(outgoing)
    {
      var ct := sess.Send(text);
      if ct.Err? { return Err(NotSealed(ct.error)); }
      var msg := PutU32(|ct.value.1|) + ct.value.1;
      if taken < |msg| {
        outgoing := outgoing + msg[..taken];
        return Err(SocketFailed);
      }
      outgoing := outgoing + msg;
      return Ok(());
    }

    method ReadMsg() returns (r: Result<Bytes, ReadError>)
      modifies this`incoming, sess
      ensures Read(r, sess.State(), incoming) == ReadStep(sess.aead, old(sess.State()), old(incoming))
    {
      if |incoming| < 4 {
        incoming := [];
        return Err(EndOfStream);
      }
      var n := GetU32(incoming);
      if n == 0 || n > MAX_MSG_LEN {
        incoming := incoming[4..];
        return Err(InvalidLength);
      }
      if |incoming| < 4 + n {
        incoming := [];
        return Err(EndOfStream);
      }
      var ct := incoming[4..4 + n];
      incoming := incoming[4 + n..];
      var p := sess.Decrypt(ct);
      if p.Err? { return Err(Refused(p.error)); }
      return Ok(p.value);
    }
  }
}
