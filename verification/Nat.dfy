/** The NAT simulator's mapping table as functions of its contents. */
module NatSpec {
  import opened Wrappers

  datatype Address = Address(ip: nat, port: nat)

  datatype Behavior = FullCone | AddressRestricted | Symmetric

  /** Full-cone and restricted boxes keep one mapping, symmetric ones a mapping per destination. */
  datatype Key = Shared | To(dst: Address)

  datatype Socket = Fixed | Allocated(id: nat)

  datatype Entry = Entry(socket: Socket, dst: Key, contacts: set<nat>, lastSeen: nat)

  /** next numbers the next public socket the host hands out. */
  datatype Table = Table(mappings: map<Key, Entry>, next: nat)

  const INIT := Table(map[], 0)

  function KeyFor(b: Behavior, dst: Address): Key {
    if b == Symmetric then To(dst) else Shared
  }

  /** A ttl of 0 or less never expires anything. */
  predicate Expired(e: Entry, ttl: int, now: nat) {
    ttl > 0 && now - e.lastSeen > ttl
  }

  function Refreshed(b: Behavior, e: Entry, dst: Address, now: nat): Entry {
    e.(lastSeen := now, contacts := if b == AddressRestricted then e.contacts + {dst.ip} else e.contacts)
  }

  function Opened(b: Behavior, socket: Socket, dst: Address, now: nat): Entry {
    Entry(socket, KeyFor(b, dst), if b == FullCone then {} else {dst.ip}, now)
  }

  /** One outbound flow; allocOk says whether the host would grant a new public socket. */
  function Outbound(b: Behavior, ttl: int, t: Table, dst: Address, allocOk: bool, now: nat): (Table, Option<Socket>) {
    var k := KeyFor(b, dst);
    if k in t.mappings && !Expired(t.mappings[k], ttl, now) then
      (t.(mappings := t.mappings[k := Refreshed(b, t.mappings[k], dst, now)]), Some(t.mappings[k].socket))
    else if b != Symmetric then
      (t.(mappings := t.mappings[k := Opened(b, Fixed, dst, now)]), Some(Fixed))
    else if !allocOk then
      (t.(mappings := t.mappings - {k}), None)
    else
      (Table(t.mappings[k := Opened(b, Allocated(t.next), dst, now)], t.next + 1), Some(Allocated(t.next)))
  }

  function Live(m: map<Key, Entry>, ttl: int, now: nat): map<Key, Entry> {
    map k | k in m && !Expired(m[k], ttl, now) :: m[k]
  }

  function Cleaned(ttl: int, t: Table, now: nat): Table {
    t.(mappings := Live(t.mappings, ttl, now))
  }

  /** A table in the middle of a cleanup that still has to look at todo. */
  function Reaping(m: map<Key, Entry>, todo: set<Key>, ttl: int, now: nat): map<Key, Entry> {
    map k | k in m && (k in todo || !Expired(m[k], ttl, now)) :: m[k]
  }

  lemma ReapEnds(m: map<Key, Entry>, ttl: int, now: nat)
    ensures Reaping(m, m.Keys, ttl, now) == m && Reaping(m, {}, ttl, now) == Live(m, ttl, now)
  {
  }

  lemma ReapStep(m: map<Key, Entry>, todo: set<Key>, k: Key, ttl: int, now: nat)
    requires k in todo && todo <= m.Keys
    ensures k in Reaping(m, todo, ttl, now) && Reaping(m, todo, ttl, now)[k] == m[k]
    ensures Reaping(m, todo - {k}, ttl, now)
         == if Expired(m[k], ttl, now) then Reaping(m, todo, ttl, now) - {k} else Reaping(m, todo, ttl, now)
  {
  }

  /** What the box lets in: a datagram from src arriving on a public socket. */
  predicate Admits(b: Behavior, ttl: int, t: Table, socket: Socket, src: Address, now: nat) {
    match b
    case Symmetric =>
      To(src) in t.mappings && t.mappings[To(src)].socket == socket && !Expired(t.mappings[To(src)], ttl, now)
    case AddressRestricted =>
      Shared in t.mappings && !Expired(t.mappings[Shared], ttl, now) && src.ip in t.mappings[Shared].contacts
    case FullCone =>
      Shared in t.mappings && !Expired(t.mappings[Shared], ttl, now)
  }

  /** Keys name their own destination, and no two mappings share an allocated socket. */
  ghost predicate Sound(b: Behavior, t: Table) {
    && (forall k :: k in t.mappings ==> t.mappings[k].dst == k && (k == Shared <==> b != Symmetric))
    && (b == Symmetric ==>
          (forall k :: k in t.mappings ==> t.mappings[k].socket.Allocated? && t.mappings[k].socket.id < t.next)
          && forall k, l :: k in t.mappings && l in t.mappings && t.mappings[k].socket == t.mappings[l].socket ==>
             k == l)
  }

  lemma OutboundSound(b: Behavior, ttl: int, t: Table, dst: Address, allocOk: bool, now: nat)
    requires Sound(b, t)
    ensures Sound(b, Outbound(b, ttl, t, dst, allocOk, now).0)
  {
  }

  lemma CleanedSound(b: Behavior, ttl: int, t: Table, now: nat)
    requires Sound(b, t)
    ensures Sound(b, Cleaned(ttl, t, now))
  {
  }
}

/** The box with its mapping table and counters. */
module NatBox {
  import opened Wrappers
  import opened NatSpec

  class Box {
    const behavior: Behavior
    const ttl: int
    const privateHost: Address
    var mappings: map<Key, Entry>
    var next: nat
    var outbound: nat
    var inbound: nat
    var dropped: nat

    ghost function View(): Table
      reads this
    {
      Table(mappings, next)
    }

    constructor (behavior: Behavior, ttl: int, privateHost: Address)
      ensures View() == INIT && Sound(behavior, View()) && this.behavior == behavior && this.ttl == ttl
      ensures outbound == inbound == dropped == 0
    {
      this.behavior, this.ttl, this.privateHost := behavior, ttl, privateHost;
      mappings, next, outbound, inbound, dropped := map[], 0, 0, 0, 0;
    }

    /** Where a flow to this destination leaves from; its mapping is opened, renewed or reopened. */
    method OutboundSocket(dst: Address, allocOk: bool, now: nat) returns (socket: Option<Socket>)
      requires Sound(behavior, View())
      modifies `mappings, `next
      ensures (View(), socket) == Outbound(behavior, ttl, old(View()), dst, allocOk, now)
      ensures Sound(behavior, View())
    {
      OutboundSound(behavior, ttl, View(), dst, allocOk, now);
      var key := if behavior == Symmetric then To(dst) else Shared;
      var e := if key in mappings then Some(mappings[key]) else None;
      if e.Some? && ttl > 0 && now - e.value.lastSeen > ttl {
        mappings := mappings - {key};
        e := None;
      }
      if e.Some? {
        var fresh' := e.value.(lastSeen := now);
        if behavior == AddressRestricted {
          fresh' := fresh'.(contacts := fresh'.contacts + {dst.ip});
        }
        mappings := mappings[key := fresh'];
        return Some(fresh'.socket);
      }
      if behavior != Symmetric {
        mappings := mappings[key := Entry(Fixed, key, if behavior == AddressRestricted then {dst.ip} else {}, now)];
        assert mappings == old(mappings)[key := mappings[key]];
        return Some(Fixed);
      }
      assert mappings == old(mappings) - {key};
      if !allocOk { return None; }
      var pub := Allocated(next);
      next := next + 1;
      mappings := mappings[key := Entry(pub, key, {dst.ip}, now)];
      assert mappings == old(mappings)[key := mappings[key]];
      return Some(pub);
    }

    /** Whether a datagram from src on a public socket is let in. */
    method LookupInbound(socket: Socket, src: Address, now: nat) returns (ok: bool)
      requires Sound(behavior, View())
      ensures ok <==> Admits(behavior, ttl, View(), socket, src, now)
    {
      if behavior == Symmetric {
        var todo := mappings.Keys;
        while todo != {}
          invariant todo <= mappings.Keys
          invariant forall k :: k in mappings && k !in todo ==> mappings[k].socket != socket
          decreases |todo|
        {
          var k :| k in todo;
          var e := mappings[k];
          if e.socket == socket {
            if Expired(e, ttl, now) { return false; }
            return e.dst == To(src);
          }
          todo := todo - {k};
        }
        return false;
      }
      if Shared !in mappings || Expired(mappings[Shared], ttl, now) { return false; }
      if behavior == AddressRestricted { return src.ip in mappings[Shared].contacts; }
      return true;
    }

    /** Reaps every expired mapping. */
    method Cleanup(now: nat)
      requires Sound(behavior, View())
      modifies `mappings
      ensures View() == Cleaned(ttl, old(View()), now) && Sound(behavior, View())
    {
      CleanedSound(behavior, ttl, View(), now);
      if ttl <= 0 { return; }
      var todo := mappings.Keys;
      ReapEnds(mappings, ttl, now);
      while todo != {}
        invariant todo <= old(mappings).Keys && mappings == Reaping(old(mappings), todo, ttl, now)
        decreases |todo|
      {
        var k :| k in todo;
        ReapStep(old(mappings), todo, k, ttl, now);
        if Expired(mappings[k], ttl, now) {
          mappings := mappings - {k};
        }
        todo := todo - {k};
      }
    }

    /** A datagram on the inside door: the destination its envelope names, if it has a well-formed one. */
    method HandleOutbound(src: Address, dst: Option<Address>, allocOk: bool, writeOk: bool, now: nat)
      returns (sent: Option<Socket>)
      requires Sound(behavior, View())
      modifies this
      ensures Sound(behavior, View())
      ensures src != privateHost || dst.None? ==> sent == None && View() == old(View())
      ensures src == privateHost && dst.Some? ==>
                var o := Outbound(behavior, ttl, old(View()), dst.value, allocOk, now);
                View() == o.0 && sent == if writeOk then o.1 else None
      ensures outbound + dropped == old(outbound + dropped) + 1 && inbound == old(inbound)
      ensures sent.Some? <==> outbound == old(outbound) + 1
    {
      sent := None;
      if src != privateHost { dropped := dropped + 1; return; }
      if dst.None? { dropped := dropped + 1; return; }
      var conn := OutboundSocket(dst.value, allocOk, now);
      if conn.None? { dropped := dropped + 1; return; }
      if !writeOk { dropped := dropped + 1; return; }
      outbound := outbound + 1;
      sent := conn;
    }

    /** A datagram on a public socket. */
    method HandleInbound(socket: Socket, src: Address, writeOk: bool, now: nat) returns (delivered: bool)
      requires Sound(behavior, View())
      modifies `inbound, `dropped
      ensures delivered <==> writeOk && Admits(behavior, ttl, View(), socket, src, now)
      ensures inbound + dropped == old(inbound + dropped) + 1
      ensures delivered <==> inbound == old(inbound) + 1
    {
      var ok := LookupInbound(socket, src, now);
      if !ok || !writeOk { dropped := dropped + 1; return false; }
      inbound := inbound + 1;
      return true;
    }
  }
}

/** Whole runs of the three behaviours over one trace. */
module NatRuns {
  import opened Wrappers
  import opened NatSpec

  /** An outbound flow seen by every box, or a cleanup of the boxes in who. */
  datatype Event = Out(dst: Address, allocOk: bool, at: nat) | Clean(who: set<Behavior>, at: nat)

  predicate InOrder(ev: seq<Event>) {
    forall i, j :: 0 <= i < j < |ev| ==> ev[i].at <= ev[j].at
  }

  /** lazy skips every cleanup. */
  function After(b: Behavior, ttl: int, lazy: bool, t: Table, e: Event): Table {
    match e
    case Out(dst, allocOk, at) => Outbound(b, ttl, t, dst, allocOk, at).0
    case Clean(who, at) => if b in who && !lazy then Cleaned(ttl, t, at) else t
  }

  function TableAt(b: Behavior, ttl: int, lazy: bool, ev: seq<Event>, n: nat): Table
    requires n <= |ev|
  {
    if n == 0 then INIT else After(b, ttl, lazy, TableAt(b, ttl, lazy, ev, n - 1), ev[n - 1])
  }

  function TimeAt(ev: seq<Event>, n: nat): nat
    requires n <= |ev|
  {
    if n == 0 then 0 else ev[n - 1].at
  }

  // Symmetric within restricted within full cone

  /** Every mapping of s still alive at t is covered by r's mapping, at least as fresh, with its contact. */
  ghost predicate Covered(ttl: int, s: Table, r: Table, t: nat) {
    forall k :: k in s.mappings && !Expired(s.mappings[k], ttl, t) ==>
      k.To? && Shared in r.mappings && s.mappings[k].lastSeen <= r.mappings[Shared].lastSeen
      && k.dst.ip in r.mappings[Shared].contacts
  }

  ghost predicate NoFuture(t: Table, now: nat) {
    forall k :: k in t.mappings ==> t.mappings[k].lastSeen <= now
  }

  lemma CoveredStep(ttl: int, s: Table, r: Table, t: nat, e: Event)
    requires Covered(ttl, s, r, t) && t <= e.at && NoFuture(s, t) && NoFuture(r, t)
    ensures Covered(ttl, After(Symmetric, ttl, false, s, e), After(AddressRestricted, ttl, false, r, e), e.at)
  {
  }

  /** r's mapping, while alive, is matched by one of f just as fresh. */
  ghost predicate Matched(ttl: int, r: Table, f: Table, t: nat) {
    Shared in r.mappings && !Expired(r.mappings[Shared], ttl, t) ==>
      Shared in f.mappings && r.mappings[Shared].lastSeen <= f.mappings[Shared].lastSeen
  }

  lemma MatchedStep(ttl: int, r: Table, f: Table, t: nat, e: Event)
    requires Matched(ttl, r, f, t) && t <= e.at && NoFuture(f, t)
    ensures Matched(ttl, After(AddressRestricted, ttl, false, r, e), After(FullCone, ttl, false, f, e), e.at)
  {
  }

  lemma {:induction false} NothingFromTheFuture(b: Behavior, ttl: int, lazy: bool, ev: seq<Event>, n: nat)
    requires InOrder(ev) && n <= |ev|
    ensures NoFuture(TableAt(b, ttl, lazy, ev, n), TimeAt(ev, n))
  {
    if n > 0 { NothingFromTheFuture(b, ttl, lazy, ev, n - 1); }
  }

  lemma {:induction false} AllCovered(ttl: int, ev: seq<Event>, n: nat)
    requires InOrder(ev) && n <= |ev|
    ensures Covered(ttl, TableAt(Symmetric, ttl, false, ev, n), TableAt(AddressRestricted, ttl, false, ev, n),
                    TimeAt(ev, n))
    ensures Matched(ttl, TableAt(AddressRestricted, ttl, false, ev, n), TableAt(FullCone, ttl, false, ev, n),
                    TimeAt(ev, n))
  {
    if n > 0 {
      AllCovered(ttl, ev, n - 1);
      NothingFromTheFuture(Symmetric, ttl, false, ev, n - 1);
      NothingFromTheFuture(AddressRestricted, ttl, false, ev, n - 1);
      NothingFromTheFuture(FullCone, ttl, false, ev, n - 1);
      CoveredStep(ttl, TableAt(Symmetric, ttl, false, ev, n - 1), TableAt(AddressRestricted, ttl, false, ev, n - 1),
                  TimeAt(ev, n - 1), ev[n - 1]);
      MatchedStep(ttl, TableAt(AddressRestricted, ttl, false, ev, n - 1), TableAt(FullCone, ttl, false, ev, n - 1),
                  TimeAt(ev, n - 1), ev[n - 1]);
    }
  }

  /** With the same outbound trace and any cleanups of any box in between: at every instant, whatever
      symmetric lets in restricted lets in, and whatever restricted lets in full-cone lets in. */
  lemma Containment(ttl: int, ev: seq<Event>, n: nat, s: Socket, r: Socket, f: Socket, src: Address, now: nat)
    requires InOrder(ev) && n <= |ev| && TimeAt(ev, n) <= now
    ensures Admits(Symmetric, ttl, TableAt(Symmetric, ttl, false, ev, n), s, src, now) ==>
              Admits(AddressRestricted, ttl, TableAt(AddressRestricted, ttl, false, ev, n), r, src, now)
    ensures Admits(AddressRestricted, ttl, TableAt(AddressRestricted, ttl, false, ev, n), r, src, now) ==>
              Admits(FullCone, ttl, TableAt(FullCone, ttl, false, ev, n), f, src, now)
  {
    AllCovered(ttl, ev, n);
  }

  // Eager cleanup and lazy expiry

  /** a forgot only mappings of b that are expired at t. */
  ghost predicate ForgotExpired(ttl: int, a: Table, b: Table, t: nat) {
    && a.next == b.next
    && (forall k :: k in a.mappings ==> k in b.mappings && a.mappings[k] == b.mappings[k])
    && (forall k :: k in b.mappings && k !in a.mappings ==> Expired(b.mappings[k], ttl, t))
  }

  lemma ForgotStep(b: Behavior, ttl: int, x: Table, y: Table, t: nat, e: Event)
    requires ForgotExpired(ttl, x, y, t) && t <= e.at
    ensures ForgotExpired(ttl, After(b, ttl, false, x, e), After(b, ttl, true, y, e), e.at)
    ensures e.Out? ==> Outbound(b, ttl, x, e.dst, e.allocOk, e.at).1 == Outbound(b, ttl, y, e.dst, e.allocOk, e.at).1
  {
  }

  lemma {:induction false} AlwaysForgotExpired(b: Behavior, ttl: int, ev: seq<Event>, n: nat)
    requires InOrder(ev) && n <= |ev|
    ensures ForgotExpired(ttl, TableAt(b, ttl, false, ev, n), TableAt(b, ttl, true, ev, n), TimeAt(ev, n))
  {
    if n > 0 {
      AlwaysForgotExpired(b, ttl, ev, n - 1);
      ForgotStep(b, ttl, TableAt(b, ttl, false, ev, n - 1), TableAt(b, ttl, true, ev, n - 1), TimeAt(ev, n - 1),
                 ev[n - 1]);
    }
  }

  /** A box that reaps eagerly and one that only ever expires lazily let in the same datagrams at
      every instant, and send every outbound flow through the same socket. */
  lemma CleanupChangesNothing(b: Behavior, ttl: int, ev: seq<Event>, n: nat, socket: Socket, src: Address, now: nat)
    requires InOrder(ev) && n <= |ev| && TimeAt(ev, n) <= now
    ensures Admits(b, ttl, TableAt(b, ttl, false, ev, n), socket, src, now)
       <==> Admits(b, ttl, TableAt(b, ttl, true, ev, n), socket, src, now)
    ensures n < |ev| && ev[n].Out? ==>
              Outbound(b, ttl, TableAt(b, ttl, false, ev, n), ev[n].dst, ev[n].allocOk, ev[n].at).1
              == Outbound(b, ttl, TableAt(b, ttl, true, ev, n), ev[n].dst, ev[n].allocOk, ev[n].at).1
  {
    AlwaysForgotExpired(b, ttl, ev, n);
    if n < |ev| {
      ForgotStep(b, ttl, TableAt(b, ttl, false, ev, n), TableAt(b, ttl, true, ev, n), TimeAt(ev, n), ev[n]);
    }
  }

  // What each behaviour lets in, told from the outbound history alone

  predicate Within(ttl: int, from: nat, to: nat) { ttl <= 0 || to - from <= ttl }

  /** The last outbound flow before event n. */
  function LastOut(ev: seq<Event>, n: nat): (i: Option<nat>)
    requires n <= |ev|
    ensures match i
            case Some(k) => k < n && ev[k].Out? && forall j :: k < j < n ==> !ev[j].Out?
            case None => forall j :: 0 <= j < n ==> !ev[j].Out?
  {
    if n == 0 then None else if ev[n - 1].Out? then Some(n - 1) else LastOut(ev, n - 1)
  }

  /** The last outbound flow to one address before event n. */
  function LastTo(ev: seq<Event>, n: nat, dst: Address): (i: Option<nat>)
    requires n <= |ev|
    ensures match i
            case Some(k) => k < n && ev[k].Out? && ev[k].dst == dst && forall j :: k < j < n && ev[j].Out? ==>
                ev[j].dst != dst
            case None => forall j :: 0 <= j < n && ev[j].Out? ==> ev[j].dst != dst
  {
    if n == 0 then None
    else if ev[n - 1].Out? && ev[n - 1].dst == dst then Some(n - 1)
    else LastTo(ev, n - 1, dst)
  }

  function SocketAt(b: Behavior, ttl: int, ev: seq<Event>, i: nat): Option<Socket>
    requires i < |ev| && ev[i].Out?
  {
    Outbound(b, ttl, TableAt(b, ttl, true, ev, i), ev[i].dst, ev[i].allocOk, ev[i].at).1
  }

  /** From event i up to n no two neighbouring outbound flows are more than the ttl apart. */
  ghost predicate Unbroken(ttl: int, ev: seq<Event>, i: nat, n: nat)
    requires i < n <= |ev| && ev[i].Out?
  {
    forall j :: i < j < n && ev[j].Out? ==> Within(ttl, ev[LastOut(ev, j).value].at, ev[j].at)
  }

  /** The private host contacted the address at event i and has kept its mapping alive since. */
  ghost predicate Contacted(ttl: int, ev: seq<Event>, i: nat, n: nat, ip: nat)
    requires n <= |ev|
  {
    i < n && ev[i].Out? && ev[i].dst.ip == ip && Unbroken(ttl, ev, i, n)
  }

  ghost predicate EverContacted(ttl: int, ev: seq<Event>, n: nat, ip: nat)
    requires n <= |ev|
  {
    exists i :: Contacted(ttl, ev, i, n, ip)
  }

  lemma {:induction false} SharedEntry(b: Behavior, ttl: int, ev: seq<Event>, n: nat)
    requires b != Symmetric && n <= |ev|
    ensures var t := TableAt(b, ttl, true, ev, n).mappings;
            match LastOut(ev, n)
            case None => Shared !in t
            case Some(l) => Shared in t && t[Shared].lastSeen == ev[l].at
  {
    if n > 0 { SharedEntry(b, ttl, ev, n - 1); }
  }

  lemma {:induction false} SharedContacts(ttl: int, ev: seq<Event>, n: nat, ip: nat)
    requires n <= |ev|
    ensures var t := TableAt(AddressRestricted, ttl, true, ev, n).mappings;
            Shared in t && ip in t[Shared].contacts <==> EverContacted(ttl, ev, n, ip)
  {
    if n > 0 {
      SharedContacts(ttl, ev, n - 1, ip);
      SharedEntry(AddressRestricted, ttl, ev, n - 1);
      if !ev[n - 1].Out? {
        ContactsKept(ttl, ev, n, ip);
      } else if ev[n - 1].dst.ip == ip {
        assert Contacted(ttl, ev, n - 1, n, ip);
      } else {
        ContactsKept(ttl, ev, n, ip);
      }
    }
  }

  /** Contacts survive event n - 1 unless it is an outbound flow that comes too late. */
  lemma ContactsKept(ttl: int, ev: seq<Event>, n: nat, ip: nat)
    requires 0 < n <= |ev| && (ev[n - 1].Out? ==> ev[n - 1].dst.ip != ip)
    ensures EverContacted(ttl, ev, n, ip)
       <==> EverContacted(ttl, ev, n - 1, ip)
            && (ev[n - 1].Out? ==>
                  LastOut(ev, n - 1).Some? && Within(ttl, ev[LastOut(ev, n - 1).value].at, ev[n - 1].at))
  {
    if EverContacted(ttl, ev, n, ip) {
      var i :| Contacted(ttl, ev, i, n, ip);
      UnbrokenNext(ttl, ev, i, n);
      assert Contacted(ttl, ev, i, n - 1, ip);
    }
    if EverContacted(ttl, ev, n - 1, ip) {
      var i :| Contacted(ttl, ev, i, n - 1, ip);
      UnbrokenNext(ttl, ev, i, n);
      assert Contacted(ttl, ev, i, n, ip) <== Unbroken(ttl, ev, i, n);
    }
  }

  lemma UnbrokenNext(ttl: int, ev: seq<Event>, i: nat, n: nat)
    requires i < n - 1 < |ev| && ev[i].Out?
    ensures Unbroken(ttl, ev, i, n)
       <==> Unbroken(ttl, ev, i, n - 1)
            && (ev[n - 1].Out? ==> Within(ttl, ev[LastOut(ev, n - 1).value].at, ev[n - 1].at))
  {
  }

  lemma {:induction false} OwnEntry(ttl: int, ev: seq<Event>, n: nat, dst: Address)
    requires n <= |ev|
    ensures var t := TableAt(Symmetric, ttl, true, ev, n).mappings;
            match LastTo(ev, n, dst)
            case None => To(dst) !in t
            case Some(l) =>
              if SocketAt(Symmetric, ttl, ev, l).None? then To(dst) !in t
              else
                To(dst) in t && t[To(dst)].lastSeen == ev[l].at
                && Some(t[To(dst)].socket) == SocketAt(Symmetric, ttl, ev, l)
  {
    if n > 0 { OwnEntry(ttl, ev, n - 1, dst); }
  }

  /** Exactly what each behaviour lets in after any run, cleanups included: full-cone anyone while the
      host was last active within the ttl; restricted whoever it contacted without a break since;
      symmetric only the address it last reached from that very socket within the ttl. */
  lemma AdmitsMeans(ttl: int, ev: seq<Event>, n: nat, socket: Socket, src: Address, now: nat)
    requires InOrder(ev) && n <= |ev| && TimeAt(ev, n) <= now
    ensures Admits(FullCone, ttl, TableAt(FullCone, ttl, false, ev, n), socket, src, now)
       <==> LastOut(ev, n).Some? && Within(ttl, ev[LastOut(ev, n).value].at, now)
    ensures Admits(AddressRestricted, ttl, TableAt(AddressRestricted, ttl, false, ev, n), socket, src, now)
       <==> LastOut(ev, n).Some? && Within(ttl, ev[LastOut(ev, n).value].at, now)
            && EverContacted(ttl, ev, n, src.ip)
    ensures Admits(Symmetric, ttl, TableAt(Symmetric, ttl, false, ev, n), socket, src, now)
       <==> LastTo(ev, n, src).Some? && Within(ttl, ev[LastTo(ev, n, src).value].at, now)
            && SocketAt(Symmetric, ttl, ev, LastTo(ev, n, src).value) == Some(socket)
  {
    CleanupChangesNothing(FullCone, ttl, ev, n, socket, src, now);
    CleanupChangesNothing(AddressRestricted, ttl, ev, n, socket, src, now);
    CleanupChangesNothing(Symmetric, ttl, ev, n, socket, src, now);
    SharedEntry(FullCone, ttl, ev, n);
    SharedEntry(AddressRestricted, ttl, ev, n);
    SharedContacts(ttl, ev, n, src.ip);
    OwnEntry(ttl, ev, n, src);
  }

  // Which socket an outbound flow leaves by, told from the outbound history alone

  /** The socket flow i leaves by, cleanups included. */
  function Left(b: Behavior, ttl: int, ev: seq<Event>, i: nat): Option<Socket>
    requires i < |ev| && ev[i].Out?
  {
    Outbound(b, ttl, TableAt(b, ttl, false, ev, i), ev[i].dst, ev[i].allocOk, ev[i].at).1
  }

  lemma LeftIsLazy(b: Behavior, ttl: int, ev: seq<Event>, i: nat)
    requires InOrder(ev) && i < |ev| && ev[i].Out?
    ensures Left(b, ttl, ev, i) == SocketAt(b, ttl, ev, i)
  {
    CleanupChangesNothing(b, ttl, ev, i, Fixed, ev[i].dst, ev[i].at);
  }

  /** Full-cone and restricted mappings hold the one fixed socket, symmetric ones sockets already handed out. */
  ghost predicate Handed(b: Behavior, t: Table) {
    forall k :: k in t.mappings ==>
      if b == Symmetric then t.mappings[k].socket.Allocated? && t.mappings[k].socket.id < t.next
      else t.mappings[k].socket == Fixed
  }

  lemma HandedStep(b: Behavior, ttl: int, t: Table, e: Event)
    requires Handed(b, t)
    ensures Handed(b, After(b, ttl, true, t, e)) && t.next <= After(b, ttl, true, t, e).next
    ensures e.Out? ==> match Outbound(b, ttl, t, e.dst, e.allocOk, e.at).1
                       case None => b == Symmetric
                       case Some(s) =>
                         if b == Symmetric then s.Allocated? && s.id < After(b, ttl, true, t, e).next else s == Fixed
  {
  }

  lemma {:induction false} AlwaysHanded(b: Behavior, ttl: int, ev: seq<Event>, n: nat)
    requires n <= |ev|
    ensures Handed(b, TableAt(b, ttl, true, ev, n))
  {
    if n > 0 {
      AlwaysHanded(b, ttl, ev, n - 1);
      HandedStep(b, ttl, TableAt(b, ttl, true, ev, n - 1), ev[n - 1]);
    }
  }

  /** A socket a symmetric flow left by is never handed out again. */
  lemma {:induction false} UsedUp(ttl: int, ev: seq<Event>, i: nat, n: nat)
    requires i < n <= |ev| && ev[i].Out?
    ensures match SocketAt(Symmetric, ttl, ev, i)
            case None => true
            case Some(s) => s.Allocated? && s.id < TableAt(Symmetric, ttl, true, ev, n).next
    decreases n
  {
    AlwaysHanded(Symmetric, ttl, ev, n - 1);
    HandedStep(Symmetric, ttl, TableAt(Symmetric, ttl, true, ev, n - 1), ev[n - 1]);
    if i < n - 1 { UsedUp(ttl, ev, i, n - 1); }
  }

  /** The last flow to the same address had a socket and is within the ttl. */
  predicate Renews(ttl: int, ev: seq<Event>, j: nat)
    requires j < |ev| && ev[j].Out?
  {
    var last := LastTo(ev, j, ev[j].dst);
    && last.Some? && Within(ttl, ev[last.value].at, ev[j].at)
    && Left(Symmetric, ttl, ev, last.value).Some?
  }

  lemma SymmetricStep(ttl: int, t: Table, dst: Address, allocOk: bool, at: nat)
    ensures var s := Outbound(Symmetric, ttl, t, dst, allocOk, at).1;
            if To(dst) in t.mappings && Within(ttl, t.mappings[To(dst)].lastSeen, at)
            then s == Some(t.mappings[To(dst)].socket)
            else s == if allocOk then Some(Allocated(t.next)) else None
  {
  }

  /** Over every run, cleanups included: a full-cone or restricted box sends every flow from its one socket. A
      symmetric one keeps the socket of the last flow to the same address while that is within the ttl; otherwise it
      takes one no earlier flow left by, or none if the host grants none. */
  lemma SocketRule(b: Behavior, ttl: int, ev: seq<Event>, j: nat, s: Option<Socket>)
    requires InOrder(ev) && j < |ev| && ev[j].Out? && s == Left(b, ttl, ev, j)
    ensures b != Symmetric ==> s == Some(Fixed)
    ensures b == Symmetric && Renews(ttl, ev, j) ==> s == Left(b, ttl, ev, LastTo(ev, j, ev[j].dst).value)
    ensures b == Symmetric && !Renews(ttl, ev, j) ==>
              (s.Some? <==> ev[j].allocOk)
              && forall i :: 0 <= i < j && ev[i].Out? && s.Some? ==> Left(b, ttl, ev, i) != s
  {
    LeftIsLazy(b, ttl, ev, j);
    AlwaysHanded(b, ttl, ev, j);
    if b != Symmetric {
      HandedStep(b, ttl, TableAt(b, ttl, true, ev, j), ev[j]);
    } else {
      SymmetricRule(ttl, ev, j, s, LastTo(ev, j, ev[j].dst));
    }
  }

  lemma SymmetricRule(ttl: int, ev: seq<Event>, j: nat, s: Option<Socket>, last: Option<nat>)
    requires InOrder(ev) && j < |ev| && ev[j].Out? && s == SocketAt(Symmetric, ttl, ev, j)
    requires last == LastTo(ev, j, ev[j].dst)
    ensures Renews(ttl, ev, j) ==> s == Left(Symmetric, ttl, ev, last.value)
    ensures !Renews(ttl, ev, j) ==>
              (s.Some? <==> ev[j].allocOk)
              && forall i :: 0 <= i < j && ev[i].Out? && s.Some? ==> Left(Symmetric, ttl, ev, i) != s
  {
    var t := TableAt(Symmetric, ttl, true, ev, j);
    OwnEntry(ttl, ev, j, ev[j].dst);
    SymmetricStep(ttl, t, ev[j].dst, ev[j].allocOk, ev[j].at);
    if last.Some? { LeftIsLazy(Symmetric, ttl, ev, last.value); }
    if !Renews(ttl, ev, j) && ev[j].allocOk {
      assert s == Some(Allocated(t.next));
      forall i | 0 <= i < j && ev[i].Out? ensures Left(Symmetric, ttl, ev, i) != s {
        UsedUp(ttl, ev, i, j);
        LeftIsLazy(Symmetric, ttl, ev, i);
      }
    }
  }

  // What a cleanup leaves

  lemma CleanedIs(ttl: int, t: Table, now: nat, k: Key)
    ensures k in Cleaned(ttl, t, now).mappings <==> k in t.mappings && Within(ttl, t.mappings[k].lastSeen, now)
  {
  }

  /** Over every run, right after a cleanup the table holds exactly what was active within the ttl: the one mapping of
      a full-cone or restricted box, and a symmetric box's mapping of each address whose last flow had a socket. */
  lemma CleanupLeaves(b: Behavior, ttl: int, ev: seq<Event>, n: nat, dst: Address, t: Table)
    requires InOrder(ev) && n < |ev| && ev[n].Clean? && b in ev[n].who && t == TableAt(b, ttl, false, ev, n + 1)
    ensures b != Symmetric ==>
              (Shared in t.mappings <==> LastOut(ev, n).Some? && Within(ttl, ev[LastOut(ev, n).value].at, ev[n].at))
    ensures b == Symmetric ==>
              (To(dst) in t.mappings
               <==> LastTo(ev, n, dst).Some? && Within(ttl, ev[LastTo(ev, n, dst).value].at, ev[n].at)
                    && Left(b, ttl, ev, LastTo(ev, n, dst).value).Some?)
  {
    var k := if b == Symmetric then To(dst) else Shared;
    AlwaysForgotExpired(b, ttl, ev, n);
    CleanedIs(ttl, TableAt(b, ttl, false, ev, n), ev[n].at, k);
    LiveOnBoth(ttl, TableAt(b, ttl, false, ev, n), TableAt(b, ttl, true, ev, n), TimeAt(ev, n), ev[n].at, k);
    if b == Symmetric {
      OwnEntry(ttl, ev, n, dst);
      if LastTo(ev, n, dst).Some? { LeftIsLazy(b, ttl, ev, LastTo(ev, n, dst).value); }
    } else {
      SharedEntry(b, ttl, ev, n);
    }
  }

  lemma LiveOnBoth(ttl: int, x: Table, y: Table, t: nat, now: nat, k: Key)
    requires ForgotExpired(ttl, x, y, t) && t <= now
    ensures k in x.mappings && Within(ttl, x.mappings[k].lastSeen, now)
       <==> k in y.mappings && Within(ttl, y.mappings[k].lastSeen, now)
  {
  }
}
