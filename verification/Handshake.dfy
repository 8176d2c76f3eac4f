/** The two halves of the Noise XX handshake as functions of their state. */
module HandshakeSpec {
  import opened Wrappers
  import opened Noise
  import opened SessionSpec

  datatype Phase = Start | Message1 | Message2 | Complete

  /** Message 2: what it answers, the responder's ephemeral and its authenticated static key. */
  datatype Answer = Answer(hello: Hello, er: Ephemeral, responder: Static)

  datatype Initiating = Initiating(hello: Option<Hello>, answer: Option<Answer>, phase: Phase)

  datatype Responding = Responding(hello: Option<Hello>, er: Option<Ephemeral>, phase: Phase)

  const NEW_INITIATOR := Initiating(None, None, Start)

  const NEW_RESPONDER := Responding(None, None, Start)

  /** The first message that answers the own hello is consumed, whoever signed it. */
  predicate Consumes(i: Initiating, msg: Option<Answer>) {
    i.phase == Message1 && i.answer.None? && msg.Some? && i.hello == Some(msg.value.hello)
  }

  /** The initiator goes on with it when it comes from the expected key. */
  predicate Answers(i: Initiating, expected: Static, msg: Option<Answer>) {
    Consumes(i, msg) && msg.value.responder == expected
  }

  /** The transcript both sides hash once message 3 is written. */
  function TranscriptOf(a: Answer, initiator: Static): Transcript {
    Transcript(a.hello, a.er, initiator, a.responder)
  }

  /** The responder keeps message 3 when it closes the very exchange it answered. */
  predicate Closes(r: Responding, me: Static, msg: Option<Transcript>) {
    r.phase == Message2 && msg.Some? && r.hello == Some(msg.value.hello) && r.er == Some(msg.value.er)
    && msg.value.responder == me
  }

  function InitiatorSession(t: Transcript): SessionState {
    Established(Root(t, ToResponder), Root(t, ToInitiator), DEFAULT_REKEY_EVERY, t.responder, t)
  }

  function ResponderSession(t: Transcript): SessionState {
    Established(Root(t, ToInitiator), Root(t, ToResponder), DEFAULT_REKEY_EVERY, t.initiator, t)
  }

  /** A transcript installs crossed keys and equal bindings. */
  lemma SessionsMatch(t: Transcript)
    ensures var i, r := InitiatorSession(t), ResponderSession(t);
            i.send == r.recv && i.recv == r.send && i.binding == r.binding == Some(t)
            && i.peerStatic == Some(t.responder) && r.peerStatic == Some(t.initiator)
            && i.send.value.k != i.recv.value.k
  {
  }
}

/** The handshake drivers with their phases. */
module Handshakes {
  import opened Wrappers
  import opened Noise
  import opened SessionSpec
  import opened Sessions
  import opened HandshakeSpec

  class Initiator {
    const my: Static
    const expected: Static
    var hello: Option<Hello>
    var answer: Option<Answer>
    var session: Session?<Box>
    var phase: Phase

    ghost function State(): Initiating
      reads this
    {
      Initiating(hello, answer, phase)
    }

    /** The session handed out by message 2 is still unfilled while message 3 is due. */
    ghost predicate Valid()
      reads this, session
    {
      && (phase == Message2 ==> answer.Some? && hello == Some(answer.value.hello) && session != null
                                && session.State() == SessionState(None, None, 0, 0, 0, 0, DEFAULT_REKEY_EVERY, None,
                                                                   None)
                                && session.aead == SYMBOLIC)
    }

    constructor (my: Static, expected: Static)
      ensures State() == NEW_INITIATOR && Valid() && this.my == my && this.expected == expected
    {
      this.my, this.expected := my, expected;
      hello, answer, session, phase := None, None, null, Start;
    }

    method WriteMessage1(fresh': nat) returns (msg: Option<Hello>)
      modifies this
      ensures msg == if old(phase) == Start then Some(Hello(Own(fresh'), 0)) else None
      ensures State() == if old(phase) == Start then old(State()).(hello := msg, phase := Message1) else old(State())
      ensures session == old(session) && (old(phase) == Start ==> Valid())
    {
      if phase != Start { return None; }
      hello := Some(Hello(Own(fresh'), 0));
      phase := Message1;
      return hello;
    }

    /** The session it hands out is finalised by message 3. An answer under another key is used up all the
        same, so no second one is read. */
    method ReadMessage2(msg: Option<Answer>) returns (sess: Session?<Box>)
      requires Valid()
      modifies this
      ensures Valid()
      ensures (sess != null) <==> old(Answers(State(), expected, msg))
      ensures sess != null ==>
                fresh(sess) && session == sess && State() == old(State()).(answer := msg, phase := Message2)
      ensures sess == null ==> session == old(session)
      ensures sess == null ==>
                State() == if old(Consumes(State(), msg)) then old(State()).(answer := msg) else old(State())
    {
      if phase != Message1 { return null; }
      if answer.Some? || msg.None? || hello != Some(msg.value.hello) { return null; }
      answer := msg;
      if msg.value.responder != expected { return null; }
      phase := Message2;
      session := new Session(SYMBOLIC, DEFAULT_REKEY_EVERY);
      return session;
    }

    method WriteMessage3() returns (msg: Option<Transcript>)
      requires Valid()
      modifies this, session
      ensures Valid() && session == old(session)
      ensures old(phase) == Message2 ==>
                && session != null && answer.Some?
                && msg == Some(TranscriptOf(answer.value, my)) && session.State() == InitiatorSession(msg.value)
                && State() == old(State()).(phase := Complete)
      ensures old(phase) != Message2 ==> msg == None && State() == old(State())
    {
      if phase != Message2 { return None; }
      var t := TranscriptOf(answer.value, my);
      session.send := Some(CipherState(Root(t, ToResponder), 0));
      session.recv := Some(CipherState(Root(t, ToInitiator), 0));
      session.peerStatic := Some(answer.value.responder);
      session.channelBinding := Some(t);
      phase := Complete;
      return Some(t);
    }
  }

  class Responder {
    const my: Static
    var hello: Option<Hello>
    var er: Option<Ephemeral>
    var phase: Phase

    ghost function State(): Responding
      reads this
    {
      Responding(hello, er, phase)
    }

    constructor (my: Static)
      ensures State() == NEW_RESPONDER && this.my == my
    {
      this.my, hello, er, phase := my, None, None, Start;
    }

    method ReadMessage1(msg: Option<Hello>) returns (ok: bool)
      modifies this
      ensures ok <==> old(phase) == Start && msg.Some?
      ensures State() == if ok then old(State()).(hello := msg, phase := Message1) else old(State())
    {
      if phase != Start { return false; }
      if msg.None? { return false; }
      hello := msg;
      phase := Message1;
      return true;
    }

    method WriteMessage2(fresh': nat) returns (msg: Option<Answer>)
      requires phase == Message1 ==> hello.Some?
      modifies this
      ensures msg == if old(phase) == Message1 then Some(Answer(old(hello).value, Own(fresh'), my)) else None
      ensures State() == if msg.Some? then old(State()).(er := Some(Own(fresh')), phase := Message2) else old(State())
    {
      if phase != Message1 { return None; }
      er := Some(Own(fresh'));
      phase := Message2;
      return Some(Answer(hello.value, er.value, my));
    }

    method ReadMessage3(msg: Option<Transcript>) returns (sess: Session?<Box>)
      modifies this
      ensures (sess != null) <==> old(Closes(State(), my, msg))
      ensures sess != null ==> fresh(sess) && sess.aead == SYMBOLIC && sess.State() == ResponderSession(msg.value)
      ensures State() == if sess != null then old(State()).(phase := Complete) else old(State())
    {
      if phase != Message2 { return null; }
      if msg.None? || hello != Some(msg.value.hello) || er != Some(msg.value.er)
          || msg.value.responder != my { return null; }
      var t := msg.value;
      sess := new Session(SYMBOLIC, DEFAULT_REKEY_EVERY);
      sess.send := Some(CipherState(Root(t, ToInitiator), 0));
      sess.recv := Some(CipherState(Root(t, ToResponder), 0));
      sess.peerStatic := Some(t.initiator);
      sess.channelBinding := Some(t);
      phase := Complete;
    }
  }
}
