# meshlink: a verified model of its stateful core

meshlink connects pairs of agents over UDP. Each pair runs a Noise XX handshake over a direct path or a
relay, then exchanges encrypted DATA frames under explicit nonces. This project models the parts of that
system that keep state, proves each modelled method against a function of the old state, and proves about
those functions what the design promises over whole runs.

`dafny verify dfyconfig.toml` checks everything.

## What is modelled

**Data plane.** `Replay.ReplayWindow` is the multi-word bitmap with its word-wise slide; its ghost view is the
set of nonces accepted so far. `Sessions.Session` is the transport session: two cipher states, counters and
epochs. Keys are terms: two roots per handshake transcript and the one-way `Rekeyed`. `DataPlane` composes
replay check, decryption and commit as `onData` does, and states exactly which genuine frames are accepted.

**Peers.** `Handshakes.Initiator` and `Handshakes.Responder` are the two phase machines; `Peers.Peer` is the
peer object, one method per critical section of its lock. Its plain fields are grouped into records (route,
cached handshake frames, clocks, counters). `MeshSpec` puts an initiator and a responder on a network that may
lose, duplicate, reorder, replay, relabel and forge; every critical section may happen at any time with any
clock reading, so decisions the Run loop takes on an outdated snapshot are covered. Ephemerals are numbered in
the order honest hosts draw them. An attacker may send anything in the clear, any handshake message that needs
neither peer's static key, any ciphertext under keys it can derive, and any ciphertext it saw under any nonce;
`Elsewhere` lets the responder's static key answer arbitrary hellos in other exchanges.

**Relay.** `RelayServer.Server` holds name pins, budgets and the lazy sweep. `RelayRuns` and `RelayBudgets` follow
whole packet traces, with a second relay that never sweeps as the reference.

**NAT.** `NatBox.Box` is the mapping table with lazy expiry and eager cleanup for the three behaviours.

**Codecs.** The framed control stream over the in-order session, the STUN binding response, and the
record/relay nesting with its one-datagram budget.

Time is a natural number of nanoseconds since the zero time. Addresses are opaque. Unsigned 64-bit counters
are naturals below 2^64 where the program's width matters (nonces, epochs, window arithmetic).

Every step of a class method that changes state is tied to a function: `State() == F(old(State()))`. The lemmas
in the table then say what that function guarantees. `PeerEmits` and `PeerHistory` tell a peer's frames and fields
from its history, `MeshRounds` follows the handshake over the wire, and `RelayAdmission` and `NatRuns` tell each
decision from the trace alone.

## Where the promise does not hold as first told

- "Every fresh frame inside the window is accepted" fails across a rekey: a frame of the previous epoch is refused.
  `DataPlane.LateAcrossRekeyIsRefused` is such a frame; `DataPlane.ExactAcceptance` gives the exact condition.
- "An established peer's handshake path is its data path" fails for both roles. The Run loop moves the handshakes of
  either: on a decision taken before HS2 arrived (`MeshTheorems.LateSwitchStrands`), and just as well on an up-to-date
  view, when an initiator on the relay tries the direct path again (`MeshTheorems.RetryStrands`). A responder's also
  move when it answers an HS1 over another path, which ordinary roaming brings about
  (`MeshTheorems.FollowingIsReached`). `MeshTheorems.ModeIsPathIff` says exactly when the claim survives a step.
- "HS3 is resent until data arrives" fails with the same two steps of the Run loop; `MeshTheorems.PendingEndsIff` says
  exactly which steps end the resending. `MeshTheorems.LateSwitchIsReached` and `MeshTheorems.RetryIsReached` reach both
  from two new peers while the responder is still half-open.
- A control message of any length is read back exactly when its plaintext is at most 2^20 - 16 bytes
  (`ControlSpec.MessageStep`, the wrapped 32-bit length field included). The coordinator's own ceiling
  (internal/coordinator/coordinator.go:407) compares the plaintext with 2^20 and so lets through lines of the last 16
  lengths that the reader refuses.
- A sweeping and a never-sweeping relay take the same admission decisions, but not the same forwarding decisions:
  `RelayParting.RelaysPart` is a receivable trace on which they differ twice. A destination whose pin a sweep found idle
  and that has not spoken since is unknown to one and known to the other (`RelayForwarding.ForgottenIff`). While it is forgotten only the other relay
  draws its quota, so after the name returns one relay can refuse for quota what the other forwards.
  `RelayForwarding.ForwardingAgreesIff` gives the exact condition per packet, and
  `RelayForwarding.SameUntilForgotten` says that after a second without packets to a name the quota verdicts agree
  until a packet meets the name forgotten.
- A replay window works for every size from 1 to 2^64 - 64. The 63 sizes above round up past 2^64 to no word at all
  (`Replay.ReplayWindow.constructor`).

## Model

| member | source | states |
|---|---|---|
| Replay.ReplayWindow.constructor | internal/peer/replay.go:25-27 | a new window is the empty set of nonces, and it is usable exactly for sizes from 1 to 2^64 - 64; any other has no word |
| Replay.ReplayWindow.Check | internal/peer/replay.go:32-45 | a nonce is fresh if and only if it was never accepted and is zero or less than the window size below the highest accepted one; nothing changes |
| Replay.ReplayWindow.Commit | internal/peer/replay.go:50-66 | the nonce joins the accepted set and the maximum follows; the bitmap again shows exactly that set above the window start |
| Replay.ReplayWindow.Accept | internal/peer/replay.go:71-77 | for any sequence of nonces the bitmap answers like the set of accepted nonces and its maximum |
| ReplaySpec.FreshMeans | internal/peer/replay.go:119-124 | a window of a size covers exactly that many nonces below and including the highest accepted one |
| Replay.ReplayWindow.Advance | internal/peer/replay.go:85-115 | sliding the window up by any distance keeps exactly the nonces still inside it |
| Replay.ReplayWindow.Slide | internal/peer/replay.go:91-112 | the new words hold the old bits moved down by the shift, for every word and bit part |
| Replay.ReplayWindow.SlideParts | internal/peer/replay.go:99-109 | the in-place loop over part words produces every slid word |
| Replay.ReplayWindow.SpreadWord | internal/peer/replay.go:100-108 | one source word starts its target and completes the one before; an empty word is skipped |
| Replay.ReplayWindow.SlideWords | internal/peer/replay.go:95-98 | the loop over whole words produces every slid word |
| Replay.ReplayWindow.SetBit | internal/peer/replay.go:126-128 | exactly one index joins the set of ones |
| BitmapSlide.OnesAfterSlide | internal/peer/replay.go:91-112 | the set of ones after a slide is the old set moved down, with what falls below zero dropped |
| WindowBits.ExpectedJump | internal/peer/replay.go:86-90 | a jump of a full window or more leaves no accepted nonce inside, so clearing all words is right |
| Sessions.Session.RekeySendTo | internal/noisework/noisework.go:363-373 | the key is rekeyed once per epoch up to the nonce's, or refused when more than 64 epochs ahead, changing nothing |
| Sessions.Session.Send | internal/noisework/noisework.go:254-272 | nonce, ciphertext, errors and the new state of sending |
| Sessions.Session.DecryptAt | internal/noisework/noisework.go:293-340 | result and new state of opening a frame at any nonce, spending at most 128 rekeys |
| Sessions.Session.DecryptAhead | internal/noisework/noisework.go:315-336 | the throwaway state opens under the key the live state then reaches; a rejected frame moves nothing |
| Sessions.Session.Decrypt | internal/noisework/noisework.go:344-358 | the in-order form opens at the next expected nonce and advances only on success |
| KeySchedule.SendStep | internal/noisework/noisework.go:254-272 | the frame at nonce n is sealed under the root rekeyed n / rekeyEvery times, and sending fails only on nonce exhaustion |
| KeySchedule.SendRun | internal/noisework/noisework.go:254-272 | over a whole run frame i carries nonce i under its own epoch key, so no key and nonce repeat |
| KeySchedule.OpenStep | internal/noisework/noisework.go:293-340 | which key opens which nonce, and that no frame breaks the schedule |
| KeySchedule.GenuineOpens | internal/noisework/noisework.go:293-340 | a genuine frame opens to its plaintext in any order within epochs recvEpoch to recvEpoch + 64, and gets the stated error otherwise |
| KeySchedule.EpochIs | internal/noisework/noisework.go:375-383 | the epoch of a nonce is the number of whole rekey intervals below it, an interval of zero meaning 2^20 |
| Noise.RekeyInjective | internal/noisework/noisework.go:363-383 | different roots or rekey counts never give one key |
| DataPlane.ExactAcceptance | internal/peer/peer.go:691-731 | a genuine frame is accepted if and only if its nonce is new, zero or less than 2048 below the highest accepted one, and its epoch is the highest accepted one or up to 64 later |
| DataPlane.HistoryDecides | internal/peer/peer.go:691-731 | over every run of a session, told from the accepted nonces alone: a genuine frame is accepted if and only if it is new, less than 2048 below every accepted one or zero, in no earlier epoch than any of them, and at most 64 epochs past the start or one of them |
| DataPlane.LateAcrossRekeyIsRefused | internal/noisework/noisework.go:311-314 | a new genuine frame inside the window that the epoch rule refuses, one nonce before the first of epoch 1 |
| DataPlane.LinkedStep | internal/peer/peer.go:704-721 | the receive epoch stays the epoch of the highest accepted nonce under every frame |
| DataPlane.LossBurst | internal/noisework/noisework.go:315-336 | a gap of up to 64 rekey intervals is bridged, one of 65 or more never is |
| DataPlane.AcceptedIsGenuine | internal/peer/peer.go:704-721 | an accepted frame was sealed by the peer at that very nonce and never accepted before |
| DataPlane.RejectedFramesInvisible | internal/peer/peer.go:704-721 | within one session, deleting every rejected frame changes no plaintext, window, epoch or flag |
| RejectedFrames.RejectedLeaveNoTrace | internal/peer/peer.go:387-773 | deleting every rejected frame from a peer's whole run, with sends, re-handshakes and roaming in between, changes no emitted frame, no accepted payload and nothing of the state but the receiving cipher's resting nonce |
| DataPlane.AtMostOnce | internal/peer/replay.go:32-66 | no two frames of a run with one nonce are both accepted |
| HandshakeSpec.SessionsMatch | internal/noisework/noisework.go:503-616 | one transcript gives both sides crossed keys, the same binding and each other's static key |
| Handshakes.Initiator.WriteMessage1 | internal/noisework/noisework.go:463-476 | only a new handshake writes message 1, once |
| Handshakes.Initiator.ReadMessage2 | internal/noisework/noisework.go:482-498 | an unfilled session is handed out exactly for the first answer to the own hello under the expected static key; an answer under another key is consumed all the same |
| Handshakes.Initiator.WriteMessage3 | internal/noisework/noisework.go:503-529 | the transcript is closed and the session handed out before is filled with its keys |
| Handshakes.Responder.ReadMessage1 | internal/noisework/noisework.go:558-570 | only a new handshake reads message 1 |
| Handshakes.Responder.WriteMessage2 | internal/noisework/noisework.go:574-587 | the answer names the hello read and a fresh ephemeral |
| Handshakes.Responder.ReadMessage3 | internal/noisework/noisework.go:591-616 | a session is built exactly for a message that closes the very exchange answered |
| Peers.Peer.constructor | internal/peer/peer.go:105-119 | a new peer holds no handshake, no session and an empty window |
| Peers.Peer.Begin | internal/peer/peer.go:235-246 | the first path to try |
| Peers.Peer.Punch | internal/peer/peer.go:334-365 | one HS1 per attempt, resent verbatim when due, otherwise a probe |
| Peers.Peer.SwitchMode | internal/peer/peer.go:387-404 | the path alternates and every handshake in flight is dropped |
| Peers.Peer.ResetHandshake | internal/peer/peer.go:408-416 | nothing of either role's handshake is left |
| Peers.Peer.RetryDirect | internal/peer/peer.go:420-445 | a fresh direct attempt replaces every handshake in flight, the session stays |
| Peers.Peer.AbandonRoaming | internal/peer/peer.go:450-460 | back to the relay path, the session stays |
| Peers.Peer.ForceRehandshake | internal/peer/peer.go:464-472 | session, window and handshakes are gone |
| Peers.Peer.DropStale | internal/peer/peer.go:270-279 | a half-open exchange older than the timeout is dropped |
| Peers.Peer.ResendHS3 | internal/peer/peer.go:629-641 | state and emitted frame of a resend; PeerEmits.ResendEmits says which frame |
| Peers.Peer.SetDirectEP | internal/peer/peer.go:478-482 | only the direct endpoint changes |
| Peers.Peer.Close | internal/peer/peer.go:122-127 | closing only stops reception |
| Peers.Peer.CountHS1 | internal/peer/peer.go:526-537 | the HS1 count of the current second and whether it is over budget |
| Peers.Peer.OnHS1 | internal/peer/peer.go:524-591 | budget, refusal over a live direct session, duplicate, timeout and answer |
| Peers.Peer.Exchange | internal/peer/peer.go:542-591 | the half-open branch and the answer to a new hello |
| Peers.Peer.OnHS2 | internal/peer/peer.go:593-625 | a usable answer installs the session and caches HS3, any other ends the attempt |
| Peers.Peer.OnHS3 | internal/peer/peer.go:643-662 | a closing message installs the registered peer's session and ends the exchange; a failing one drops only the responder |
| Peers.Peer.SetSession | internal/peer/peer.go:665-689 | a foreign identity changes nothing; otherwise session and replay window are replaced together |
| Peers.Peer.Open | internal/peer/peer.go:704-718 | check, decrypt, commit equals one step of the receive path |
| Peers.Peer.OnData | internal/peer/peer.go:691-731 | the whole new state, delivery and the bounded channel included |
| Peers.Peer.Encrypt | internal/peer/peer.go:737-762 | size limit per path, nonce, counters and errors of sending |
| Peers.Peer.Send | internal/peer/peer.go:765-773 | state and emitted frame of sending; PeerEmits.PayloadEmits says which frame by which path |
| Peers.Peer.HandleFrame | internal/peer/peer.go:485-508 | each role looks only at the messages meant for it |
| PeerEmits.PunchEmits | internal/peer/peer.go:334-385 | an attempt emits the one HS1 of the attempt by its path half a second after the last, else a probe, over the relay or to the direct endpoint if there is one |
| PeerEmits.RetryEmits | internal/peer/peer.go:420-445 | a retry emits a fresh HS1 to the direct endpoint, and nothing else of a handshake is left |
| PeerEmits.HelloRefused | internal/peer/peer.go:526-544 | a ninth HS1 in the second or one over a live direct session changes nothing but the count |
| PeerEmits.HelloAnswered | internal/peer/peer.go:571-591 | an idle responder answers any other by the path it came, with a fresh ephemeral |
| PeerEmits.HelloAgain | internal/peer/peer.go:545-591 | a half-open one repeats its answer to the same HS1, ignores another for ten seconds and answers it after that |
| PeerEmits.AnswerClosed | internal/peer/peer.go:593-625 | the registered peer's answer to the hello out is met with the HS3 of the transcript by the path it came, and installs its session there |
| PeerEmits.ResendEmits | internal/peer/peer.go:629-641 | while it is pending a resend emits the cached HS3 on the handshake path: over the relay, or to the direct endpoint, or not at all without one |
| PeerEmits.PayloadEmits | internal/peer/peer.go:737-773 | a payload that is sealed leaves by the data path and its address, any other not at all |
| PeerHistory.PayloadsFollowInstall | internal/peer/peer.go:665-773 | over every run, between two installed sessions every payload leaves by the path the earlier one came up on, to the endpoint last told, whatever happens to the handshakes |
| PeerHistory.ModeIsHistory | internal/peer/peer.go:387-591 | over every run the handshake path is where the last session came up or where the handshakes were moved since |
| PeerHistory.OneHelloPerAttempt | internal/peer/peer.go:334-359 | over every run, asking again within one attempt emits the same HS1 |
| PeerHistory.AsksArePaced | internal/peer/peer.go:334-359 | over every run two attempts that ask are at least half a second apart |
| PeerHistory.LastAskIsKept | internal/peer/peer.go:334-445 | when the initiator last asked, told from the events alone |
| PeerHistory.ExchangeEndsIff | internal/peer/peer.go:270-662 | exactly which steps leave a half-open responder without an exchange |
| PeerHistory.TickDecides | internal/peer/peer.go:270-279 | over every run a tick drops an exchange if and only if the HS1 that opened it is more than ten seconds old, and otherwise changes nothing |
| PeerHistory.QueueIsReceived | internal/peer/peer.go:722-731 | over every run the receive channel is the accepted non-empty payloads in order, the first 64 |
| PeerHistory.ReceivesIff | internal/peer/peer.go:691-699 | over every run a peer takes payloads if and only if it was never shut and has a session |
| PeerHistory.SessionIsHistory | internal/peer/peer.go:464-689 | over every run a peer is established and has a session from the first one installed on except after a forced re-handshake |
| PeerHistory.DialsTell | internal/peer/peer.go:387-762 | over every run each clock the Run loop reads stands at the last step that sets it |
| MeshRuns.AlwaysHolds | internal/peer/peer.go:524-731 | the joint invariant of both peers and the network holds after every possible run |
| MeshRuns.StepHolds | internal/peer/peer.go:387-731 | every critical section of either peer, fed by the attacker, keeps the joint invariant |
| MeshRuns.AcceptedWasSent | internal/peer/peer.go:691-731 | an accepted payload was sent by the other peer in the same session under the same nonce |
| MeshHandshake.AnswerKeepsA | internal/peer/peer.go:593-625 | a session the initiator installs is younger than all before and never installed again |
| MeshHandshake.ClosingKeepsB | internal/peer/peer.go:643-662 | a session the responder installs is between the two peers, younger than all before and new |
| MeshHandshake.HelloKeepsB | internal/peer/peer.go:524-591 | any HS1, replayed or forged, leaves the responder coherent |
| MeshTheorems.DeliveredOnceAsSent | internal/peer/peer.go:593-731 | over every run each accepted payload was sent by the peer in that session, and no session and nonce are accepted twice |
| MeshTheorems.NoKeyNonceReuse | internal/peer/peer.go:665-762 | over every run, all sessions and both directions, no key and nonce seal two payloads |
| MeshTheorems.OneCiphertextPerNonce | internal/peer/peer.go:665-762 | on the network two ciphertexts under one key of the peers and one nonce are the same |
| MeshTheorems.SessionsInOrder | internal/peer/peer.go:524-689 | the responder's sessions are an in-order subsequence of the initiator's, and none is installed twice |
| MeshTheorems.CrossedKeys | internal/noisework/noisework.go:503-616 | peers holding the same session hold crossed keys of one transcript naming both |
| MeshTheorems.SameSessionDelivers | internal/peer/peer.go:691-762 | while both hold one session, what either sends next the other accepts exactly when the nonce is acceptable, with the same plaintext |
| MeshTheorems.LoggedDelivers | internal/peer/peer.go:691-762 | so it is for every payload ever sent in the session the receiver still holds, however late, even if the sender has moved on |
| MeshTheorems.RoundInstalls | internal/peer/peer.go:524-689 | whatever both held before, an undisturbed round to an idle responder installs one fresh session on both sides |
| MeshTheorems.RoundDelivers | internal/peer/peer.go:691-762 | the responder's first payload over it is accepted and ends the resending of HS3 |
| MeshRounds.RoundOnTheWire | internal/peer/peer.go:334-689 | a round over a usable path with explicit conditions: each message handed over is one the other side just put on the wire, and both end with the same new session on that path |
| MeshRounds.RoundCarriesPayload | internal/peer/peer.go:334-773 | the first payload over it goes out under nonce 0 of the new session, is delivered and ends the resending of HS3 |
| MeshRounds.PendingIsResent | internal/peer/peer.go:629-641 | in every reachable state with the HS3 pending and a usable handshake path, a resend puts the HS3 of the newest session on the wire |
| MeshRounds.ClosingInstalls | internal/peer/peer.go:643-662 | in every reachable state the HS3 a responder waits for installs its session by the path it came |
| MeshRounds.LostHs3Recovers | internal/peer/peer.go:629-662 | so one resend that arrives makes up for every lost HS3 |
| MeshRounds.SendsIff | internal/peer/peer.go:737-752 | in every reachable state a payload is sent if and only if there is a session with a nonce left and the payload has at most 65480 bytes, 65347 over the relay |
| MeshRounds.SealsIff | internal/peer/peer.go:737-752 | no session, too large and nonces exhausted are told apart |
| MeshTheorems.HalfOpenIsCoherent | internal/peer/peer.go:538-662 | a half-open responder has its HS1 and HS2 cached and is in phase 2, so a duplicate HS1 gets the identical HS2 and no phase error can occur |
| MeshTheorems.DataProvesInstalled | internal/peer/peer.go:719-721 | the pending HS3 is the live session's, and data ends its resending only if the responder installed that session |
| MeshTheorems.PendingEndsIff | internal/peer/peer.go:387-472 | exactly which steps end the resending of HS3 |
| MeshTheorems.ModeIsPathIff | internal/peer/peer.go:387-591 | for both roles, exactly which steps part an established peer's handshake path from its data path |
| MeshTheorems.FollowingIsReached | internal/peer/peer.go:581-591 | a run of two new peers in which roaming alone does so to an established responder |
| MeshTheorems.LateSwitchStrands | internal/peer/peer.go:387-404 | a path switch from the path in use leaves an established initiator on another path, without the HS3 the responder needs |
| MeshTheorems.LateSwitchStrandsHs3 | internal/peer/peer.go:387-404 | the same from the arrival of HS2 on: the switch loses the HS3 just cached |
| MeshTheorems.RetryStrands | internal/peer/peer.go:303-313 | a retry of the direct path that is due on an up-to-date view does the same to an initiator on the relay |
| MeshTheorems.LateSwitchIsReached | internal/peer/peer.go:296-302 | a run of two new peers ends so, before the responder has the session |
| MeshTheorems.RetryIsReached | internal/peer/peer.go:303-313 | another one ends so by a retry the Run loop owes by its own guard |
| MeshTheorems.TalliesAddUp | internal/peer/peer.go:464-762 | byte counters equal the payloads sent and accepted; every installed session is live, dropped by a forced re-handshake, or counted as a rotation |
| Hs1Budget.Hs1Bound | internal/peer/peer.go:526-537 | at most 8 * (k + 1) HS1 messages pass the budget check in any k seconds, whatever else happens |
| Hs1Budget.RefusedIsEarned | internal/peer/peer.go:526-537 | an HS1 is refused for budget only if eight others arrived in the second before |
| Hs1Budget.RefusedIsFree | internal/peer/peer.go:526-537 | deleting from a run every HS1 over budget changes nothing of the peer but the count of the current second |
| HalfOpenRuns.ExchangeHasOrigin | internal/peer/peer.go:538-591 | every half-open exchange was opened by one HS1 of the run, with its ephemeral and time |
| HalfOpenRuns.TickFreesOld | internal/peer/peer.go:270-279 | after a tick no exchange opened more than 10 s ago is held |
| Budget.BudgetBound | internal/relay/relay.go:355-399 | a tumbling budget passes at most (k + 1) times its cap in any k seconds, across windows, oversized draws and sweeps |
| Budget.RefusedIsAsked | internal/relay/relay.go:355-399 | a refused draw would be over the cap with what was asked for in the second before, so asking for no more than the cap in any second is never refused |
| Budget.StaleIsAbsent | internal/relay/relay.go:404-426 | a counter the sweep drops answered like no counter at all |
| RelayServer.Server.TakeKey | internal/relay/relay.go:355-376 | the per-key draw and its counter map |
| RelayServer.Server.TakeShared | internal/relay/relay.go:381-399 | the shared draw |
| RelayServer.Server.MaybeSweep | internal/relay/relay.go:404-432 | past the threshold and at most once a second, exactly the stale counters and idle pins go |
| RelayServer.Server.PruneCounters | internal/relay/relay.go:412-426 | the loop deletes exactly the stale counters |
| RelayServer.Server.PrunePins | internal/relay/relay.go:427-431 | the loop deletes exactly the idle pins |
| RelayServer.Server.HandlePacket | internal/relay/relay.go:275-349 | outcome, whole new state and statistics of one datagram |
| RelayServer.Server.AdmitPacket | internal/relay/relay.go:293-349 | order of global budgets, pin, source budgets and delivery |
| RelayServer.Server.PinSource | internal/relay/relay.go:299-315 | the verdict and the pin table after it; RelayAdmission.PinRule says which verdict |
| RelayServer.Server.GlobalBudgets | internal/relay/relay.go:294-298 | the byte budget is drawn only after the packet budget passed |
| RelayServer.Server.SourceBudgets | internal/relay/relay.go:317-323 | the same per source address |
| RelayServer.Server.Deliver | internal/relay/relay.go:325-349 | destination lookup, quota, re-wrap and statistics |
| PinMachine.Exclusive | internal/relay/relay.go:299-315 | under any schedule of sweeps two claims admitted for one name from different addresses are more than the grace apart |
| PinMachine.SweepInvisible | internal/relay/relay.go:427-431 | a table that forgets idle pins admits the same claims as one that never forgets |
| RelayAdmission.PinRule | internal/relay/relay.go:299-315 | over every run, sweeping or not, for every grace: a packet past the global budgets is admitted under its name if and only if the name never spoke, or last from the same address, or more than PinGrace ago |
| RelayRuns.PinExclusivity | internal/relay/relay.go:299-337 | the same over whole packet runs |
| RelayBudgets.RebindingWaits | internal/relay/relay.go:299-315 | when a name changes address, every packet of the old address past the global budgets is more than PinGrace old |
| RelayRuns.ForwardGoesToBoundAddress | internal/relay/relay.go:325-349 | every forward goes to the address of the destination's last admitted packet and re-wraps the packet |
| RelayAdmission.UnknownIff | internal/relay/relay.go:325-331 | a relay that never sweeps finds the destination unknown if and only if it has never spoken |
| RelayRuns.RewrapIsReceived | internal/relay/relay.go:338-349 | a forwarded datagram is byte for byte the received one, and wrapping never fails |
| RelayRuns.SweepingDecidesNothing | internal/relay/relay.go:293-323 | on one trace a sweeping and a never-sweeping relay take the same global, pin and source decisions |
| RelayForwarding.ForgottenIff | internal/relay/relay.go:325-331 | past the source budgets only the sweeping relay misses the destination, if and only if a sweep found its pin idle for more than twice the grace and it has not spoken since |
| RelayForwarding.ForgottenByLastSweep | internal/relay/relay.go:427-431 | with a grace of zero or more, the time of the last sweep alone tells |
| RelayForwarding.ForwardingAgreesIff | internal/relay/relay.go:325-349 | the two relays do the same with such a packet if and only if its destination is not forgotten and its frame fits both running quotas or neither |
| RelayForwarding.SameUntilForgotten | internal/relay/relay.go:325-349 | after a second of rest they do the same with every packet to a name until one meets it forgotten |
| RelayForwarding.QuotasAgree | internal/relay/relay.go:332-336 | and their running quotas of the name stay equal |
| RelayParting.RelaysPart | internal/relay/relay.go:404-432 | a trace of real datagrams in time order on which they differ: first over a swept destination, then over its quota after the name has returned |
| RelayRuns.PinTableBound | internal/relay/relay.go:404-432 | after a processed packet there are at most 1 + max(4096, packets past the global budgets in the last 2 * PinGrace + 1 s) pins; a negative grace counts as zero |
| RelayAdmission.SweepTakes | internal/relay/relay.go:404-432 | with more than 4096 entries and a second after the last sweep exactly the counters more than 2 s old and the pins unseen for more than twice the grace go |
| RelayBudgets.PinTableIsBounded | internal/relay/relay.go:275-432 | so the pin table never outgrows a number fixed by the configuration |
| RelayBudgets.EveryBudgetHolds | internal/relay/relay.go:293-399 | over every run and for each of the five budgets, at most (k + 1) times the cap gets past in any k seconds |
| RelayAdmission.RefusalsAreEarned | internal/relay/relay.go:293-399 | over every run each packet refused for a budget was, with the packets of the second before it that drew on that budget, over its cap |
| RelayAdmission.DrawsExactly | internal/relay/relay.go:293-336 | each packet draws exactly on the budgets it reaches: bytes only once packets passed, a source's once the name was admitted, a name's once it was found |
| RelayAdmission.GlobalRefusal | internal/relay/relay.go:293-298 | a packet is limited globally if and only if one of the two shared budgets refuses it |
| RelayAdmission.SourceRefusal | internal/relay/relay.go:317-323 | an admitted one is limited by its source if and only if one of the source's two budgets refuses it |
| RelayAdmission.QuotaRefusal | internal/relay/relay.go:332-336 | one to a known name exceeds the quota if and only if the name's budget refuses its frame |
| RelayAdmission.EmptyFrameFits | internal/relay/relay.go:355-376 | an empty frame never exceeds a quota, however oversized the draws before it |
| RelayAdmission.DefaultsInForce | internal/relay/relay.go:72-91 | with nothing configured every budget is in force at its production value |
| RelayAdmission.ConfiguredStands | internal/relay/relay.go:72-91 | any configured value but zero stands |
| RelayBudgets.StatsAddUp | internal/relay/relay.go:275-349 | every received packet ends in exactly one counter, and exactly those past every admission check count as wrapped |
| RelayAdmission.StatsTell | internal/relay/relay.go:275-349 | each counter is the number of packets with its fate |
| NatBox.Box.OutboundSocket | internal/nat/nat.go:353-421 | socket and table after an outbound flow, expired mappings and failed allocation included; NatRuns.SocketRule says which socket |
| NatBox.Box.LookupInbound | internal/nat/nat.go:464-492 | the search over mappings answers as the behaviour defines |
| NatBox.Box.Cleanup | internal/nat/nat.go:507-519 | exactly the expired mappings go |
| NatBox.Box.HandleOutbound | internal/nat/nat.go:329-348 | only the private host's well-formed envelopes are forwarded; each datagram is counted once |
| NatBox.Box.HandleInbound | internal/nat/nat.go:449-460 | delivered exactly when admitted and written; each datagram is counted once |
| NatRuns.Containment | internal/nat/nat.go:353-519 | with one outbound trace and any cleanups, symmetric admits within restricted within full-cone at every instant |
| NatRuns.CleanupChangesNothing | internal/nat/nat.go:494-519 | eager cleanup changes no admission and no socket compared with lazy expiry |
| NatRuns.AdmitsMeans | internal/nat/nat.go:464-496 | what each behaviour admits, told from the outbound history alone |
| NatRuns.SocketRule | internal/nat/nat.go:353-421 | over every run, told from the outbound history alone: full-cone and restricted flows leave by the one socket; a symmetric flow keeps the socket of the last flow to its destination within the ttl, and otherwise gets one no earlier flow left by, or none |
| NatRuns.CleanupLeaves | internal/nat/nat.go:507-519 | over every run, right after a cleanup the table holds exactly what was active within the ttl |
| Control.Conn.WriteMsg | internal/control/control.go:128-141 | the bytes the socket took of the frame and the verdict; the session moves on even when the write fails |
| Control.Conn.ReadMsg | internal/control/control.go:144-158 | message, error and rest of the stream |
| ControlSpec.ReadRules | internal/control/control.go:144-158 | where a stream ends, which lengths are refused, and what a read consumes |
| ControlSpec.MessageStep | internal/control/control.go:128-158 | a message of any length is read back if and only if it leaves room for the tag under the length cap |
| ControlSpec.StreamRoundTrip | internal/control/control.go:128-158 | reading the written stream gives exactly the messages, across rekey epochs |
| ControlSpec.FreshInStep | internal/noisework/noisework.go:503-616 | a fresh handshake puts both directions of a connection in step |
| ControlSpec.FreshStream | internal/control/control.go:128-158 | so either side of a new connection reads exactly what the other wrote |
| ControlSpec.CutStreamPrefix | internal/control/control.go:144-158 | a stream cut anywhere gives exactly the messages whose last byte comes before the cut |
| StunSpec.RequestRoundTrip | internal/stun/stun.go:48-87 | decoding the response to any valid request gives the source address, IPv4-mapped forms normalised, and port |
| StunSpec.AnsweredIff | internal/stun/stun.go:48-64 | exactly which requests are answered |
| StunSpec.ResponseLayout | internal/stun/stun.go:65-87 | the bytes of the response: header, attribute, family, masked port and masked address |
| StunSpec.AddressForms | internal/stun/stun.go:176-184 | IPv4 in both forms, IPv6, anything else refused |
| StunSpec.DecodedMeans | internal/stun/stun.go:92-125 | only a binding response with a well-formed mapped address is accepted, and what is decoded stands in the first one |
| StunSpec.DecodeAmongAttributes | internal/stun/stun.go:92-125 | other well-formed attributes around the mapped address do not matter |
| StunSpec.WalkFindsFirst | internal/stun/stun.go:106-124 | among several mapped addresses the walk returns the first |
| Stun.HandleBindingRequest | internal/stun/stun.go:48-87 | the response built by appending, or the first complaint |
| Stun.ParseXORMappedAddress | internal/stun/stun.go:188-222 | address and port of an attribute value, or the complaint |
| Stun.DecodeXORMappedAddress | internal/stun/stun.go:92-125 | the loop over attributes stays in bounds, ends, and computes the walk |
| Stun.XorInto | internal/stun/stun.go:78-85 | the XOR loop |
| Xors.XorBits | internal/stun/stun.go:78-85 | the exclusive or bit by bit |
| Xors.XorTwice | internal/stun/stun.go:188-222 | masking twice with one key gives the value back |
| Record.ParseExactly | internal/record/record.go:54-85 | a datagram parses to a type and payload if and only if it is their frame |
| Record.DamagedFrame | internal/record/record.go:70-85 | every proper prefix of a frame and every frame with extra bytes is refused, with the error that says which |
| Record.FrameLayout | internal/record/record.go:54-62 | type, length in network byte order, payload |
| RelayCodec.WrapParseInverse | internal/relay/relay.go:160-215 | wrap and parse are mutual inverses |
| RelayCodec.WrapLayout | internal/relay/relay.go:158-176 | a packet is wrapped if and only if both names have 1 to 64 bytes; magic byte, two names behind lengths in network byte order, frame |
| WireBudget.FitsOneDatagram | internal/peer/peer.go:737-762 | every payload within the limit fits one datagram on both paths, tightly, never trips the frame ceiling and unnests to the same nonce and ciphertext |
| MeshRounds.SentFits | internal/peer/peer.go:737-762 | whatever a peer sends fits one UDP datagram with the longest relay header and unnests to the nonce and ciphertext sent |
| WireBudget.DataLayout | internal/peer/peer.go:754-762 | type 5, length, nonce in network byte order, ciphertext |
| BigEndian.RoundTrip64 | internal/peer/peer.go:754-757 | the explicit nonce reads back as written |
| BigEndian.NetworkOrder | internal/peer/peer.go:754-757 | fields are base-256 numbers, most significant byte first |

## Left out

- RelayForwarding.ForgottenByLastSweep: for a PinGrace of zero or more only, because with a negative one every sweep takes every pin and only the order of packets tells; RelayForwarding.ForgottenIff covers it.
- Real cryptography: keys and ciphertexts are terms that open only under the key and nonce that sealed them; the control stream is proved for any AEAD that opens what it sealed, adds 16 bytes and takes them off again.
- Low-order points, failing random sources and malformed key lengths, which make the handshake constructors fail, are not modelled.
- Sockets, goroutines, tickers, deadlines and contexts: only lock-protected steps with clock readings as parameters.
- The consumer of a peer's receive channel: the channel is a queue of at most 64 payloads that the model only fills.
- Liveness: nothing says a session is eventually established.
- Key files, hexadecimal keys, `Session.Age` and the 24 h timer itself: forced re-handshakes may happen at any time.
- `ReadFrame` and the plaintext handshake messages of the control connection.
- NAT envelopes, `Close` of the NAT box and its `Stats` snapshot; a closed box is an allocation that fails.
- The coordinator, the agent, TUN devices, JSON messages and user interfaces.
- Replay.ReplayWindow.Commit: requires a fresh nonce, as its comment demands of callers; what it does to a stale one is not stated.
- RelayRuns.RewrapIsReceived: the socket's verdict on a forward is a parameter of the statistics only.
