/** The message as the mix routers see it, the three kinds they tell apart by
    its id, the ids they synthesise, and the message buffer of a router. */
module Messages {
  import opened Common

  /** A host is identified by its network address. */
  type Addr = int

  /** `core.Message` with the fields the mix routers add to it: the relay
      path `mixlist` (relays, then the real destination), the progress index
      `mixindex` into it, the origination time `mixcreationtime`, and the
      Spray-and-Wait copy count (a message property, hence a Java `int`). */
  datatype Message = Message(
    id: string,
    from: Addr,
    to: Addr,
    size: nat,
    responseSize: nat,
    mixlist: seq<Addr>,
    mixindex: nat,
    mixcreationtime: real,
    copies: int)

  /** `new Message(from, to, id, size)`: no path, index 0, no response size. */
  function NewMessage(from: Addr, to: Addr, id: string, size: nat): (m: Message)
    ensures m.mixlist == [] && m.mixindex == 0 && m.responseSize == 0
  {
    Message(id, from, to, size, 0, [], 0, 0.0, 0)
  }

  /** The path has an entry after the current one, so `mixlist.get(mixindex + 1)`
      succeeds. */
  predicate HasNextHop(msg: Message)
  {
    msg.mixindex + 1 < |msg.mixlist|
  }

  /** How a router's `messageTransferred` ends: it returns the received
      message, or `mixlist.get` throws `IndexOutOfBoundsException` because a
      message due for its next hop has no entry for it. */
  datatype Transfer = Returned(msg: Message) | NoNextHop

  /** A message as the event generator or `createFakeMessage` hands it over:
      no path yet, index 0. */
  predicate Unplanned(msg: Message)
  {
    msg.mixlist == [] && msg.mixindex == 0
  }

  /** How `createNewMessage` classifies a message: by the characters of its id. */
  datatype Kind = Relay | Fake | Original

  /** `"r"` is checked before `"f"`, so an id holding both is a relay step. */
  function KindOf(id: string): (k: Kind)
    ensures k == Relay <==> 'r' in id
    ensures k == Fake <==> 'r' !in id && 'f' in id
    ensures k == Original <==> 'r' !in id && 'f' !in id
  {
    if 'r' in id then Relay else if 'f' in id then Fake else Original
  }

  /** The id of the message synthesised at a relay: `"r" + mixindex + "-" + id`. */
  function RelayId(index: nat, id: string): string
  {
    "r" + Decimal(index) + "-" + id
  }

  /** The id of a dummy message: `"f-" + host + ":" + intTime`. */
  function FakeId(hostName: string, t: nat): string
  {
    "f-" + hostName + ":" + Decimal(t)
  }

  lemma RelayIdIsRelay(index: nat, id: string)
    ensures KindOf(RelayId(index, id)) == Relay
  {
    assert RelayId(index, id)[0] == 'r';
  }

  /** A dummy never goes through the origination window; it is handled as a
      dummy unless the host's own name contains an `r`. */
  lemma FakeIdKind(hostName: string, t: nat)
    ensures KindOf(FakeId(hostName, t)) != Original
    ensures KindOf(FakeId(hostName, t)) == Fake <==> 'r' !in hostName
  {
    var id := FakeId(hostName, t);
    assert id[0] == 'f';
    assert id == ['f', '-'] + hostName + [':'] + Decimal(t);
    forall i | 0 <= i < |Decimal(t)| ensures Decimal(t)[i] != 'r' {
      assert IsDigit(Decimal(t)[i]);
    }
  }

  /** The relay step built in `messageTransferred` once `msg.mixindex` has been
      bumped: from this host, to the next path entry, sized by the predecessor's
      response size, with a copy of the path, the index and the creation time. */
  function Successor(msg: Message, self: Addr): (res: Message)
    requires msg.mixindex + 1 < |msg.mixlist|
    ensures KindOf(res.id) == Relay
    ensures res.mixindex == msg.mixindex + 1 && res.to == msg.mixlist[res.mixindex]
    ensures res.mixlist == msg.mixlist && res.mixcreationtime == msg.mixcreationtime
    ensures res.from == self && res.size == msg.responseSize
  {
    RelayIdIsRelay(msg.mixindex + 1, msg.id);
    var m := NewMessage(self, msg.mixlist[msg.mixindex + 1], RelayId(msg.mixindex + 1, msg.id), msg.responseSize);
    m.(mixlist := msg.mixlist, mixindex := msg.mixindex + 1, mixcreationtime := msg.mixcreationtime)
  }

  /** The relay step the message's current target synthesises. */
  function NextHop(msg: Message): Message
    requires msg.mixindex + 1 < |msg.mixlist|
  {
    Successor(msg, msg.to)
  }

  /** The message after `k` further relay steps. */
  function AfterHops(msg: Message, k: nat): Message
    requires msg.mixindex + k < |msg.mixlist|
    decreases k
  {
    if k == 0 then msg else AfterHops(NextHop(msg), k - 1)
  }

  /** Along a lineage the index rises by exactly one per relay, the path and the
      creation time never change, and each step is addressed to the path entry
      at its index. */
  lemma {:induction false} LineageAdvances(msg: Message, k: nat)
    requires msg.mixindex + k < |msg.mixlist|
    requires msg.to == msg.mixlist[msg.mixindex]
    ensures AfterHops(msg, k).mixindex == msg.mixindex + k
    ensures AfterHops(msg, k).mixlist == msg.mixlist
    ensures AfterHops(msg, k).mixcreationtime == msg.mixcreationtime
    ensures AfterHops(msg, k).to == msg.mixlist[msg.mixindex + k]
    ensures k > 0 ==> KindOf(AfterHops(msg, k).id) == Relay
    decreases k
  {
    if k > 0 {
      LineageAdvances(NextHop(msg), k - 1);
    }
  }

  // ----- the buffer: `getMessageCollection()`, a map from id to message -----

  predicate UniqueIds(buf: seq<Message>)
  {
    forall i, j :: 0 <= i < j < |buf| ==> buf[i].id != buf[j].id
  }

  /** `hasMessage(id)` / `getMessage(id)`. */
  function Find(buf: seq<Message>, id: string): (r: Option<Message>)
    ensures r.Some? ==> r.value in buf && r.value.id == id
    ensures r.None? ==> forall m :: m in buf ==> m.id != id
  {
    if buf == [] then None
    else if buf[0].id == id then Some(buf[0])
    else Find(buf[1..], id)
  }

  /** `removeFromMessages(id)`: the buffer without the message of that id. */
  function RemoveId(buf: seq<Message>, id: string): (r: seq<Message>)
    ensures forall m :: m in r <==> m in buf && m.id != id
    ensures UniqueIds(buf) ==> UniqueIds(r)
    ensures |r| <= |buf|
  {
    if buf == [] then []
    else
      var tail := RemoveId(buf[1..], id);
      if buf[0].id == id then tail
      else
        assert UniqueIds(buf) ==> forall m :: m in tail ==> m.id != buf[0].id by {
          if UniqueIds(buf) {
            forall m | m in tail ensures m.id != buf[0].id {
              var j :| 0 <= j < |buf[1..]| && buf[1..][j] == m;
              assert buf[j + 1] == m;
            }
          }
        }
        [buf[0]] + tail
  }

  /** `addToMessages(m, ...)`: a message of the same id is replaced. */
  function Put(buf: seq<Message>, m: Message): (r: seq<Message>)
    ensures forall x :: x in r <==> x == m || (x in buf && x.id != m.id)
    ensures UniqueIds(buf) ==> UniqueIds(r)
    ensures r[|r| - 1] == m
  {
    RemoveId(buf, m.id) + [m]
  }

  /** What `makeRoomForMessage` leaves: the buffer without the messages it
      chose to drop. The choice is the framework's and arrives as `victims`. */
  function Evict(buf: seq<Message>, victims: set<string>): (r: seq<Message>)
    ensures forall m :: m in r <==> m in buf && m.id !in victims
    ensures UniqueIds(buf) ==> UniqueIds(r)
  {
    if buf == [] then []
    else
      var tail := Evict(buf[1..], victims);
      if buf[0].id in victims then tail
      else
        assert UniqueIds(buf) ==> forall m :: m in tail ==> m.id != buf[0].id by {
          if UniqueIds(buf) {
            forall m | m in tail ensures m.id != buf[0].id {
              var j :| 0 <= j < |buf[1..]| && buf[1..][j] == m;
              assert buf[j + 1] == m;
            }
          }
        }
        [buf[0]] + tail
  }

  /** `msg.updateProperty(copies, c)` on the buffered message of that id. */
  function SetCopies(buf: seq<Message>, id: string, c: int): (r: seq<Message>)
    ensures |r| == |buf|
    ensures forall i :: 0 <= i < |buf| ==> r[i] == if buf[i].id == id then buf[i].(copies := c) else buf[i]
  {
    seq(|buf|, i requires 0 <= i < |buf| => if buf[i].id == id then buf[i].(copies := c) else buf[i])
  }

  /** `super.messageTransferred`: the framework delivers a message whose
      target is this host and buffers any other. */
  function Receive(buf: seq<Message>, m: Message, self: Addr): (r: seq<Message>)
    ensures m.to == self ==> r == buf
    ensures m.to != self ==> forall x :: x in r <==> x == m || (x in buf && x.id != m.id)
    ensures UniqueIds(buf) ==> UniqueIds(r)
  {
    if m.to == self then buf else Put(buf, m)
  }

  /** Re-adding a message that is already the last one written changes nothing. */
  lemma {:induction false} PutTwice(buf: seq<Message>, m: Message)
    ensures Put(Put(buf, m), m) == Put(buf, m)
  {
    RemoveIdIdempotent(buf, m.id);
    RemoveIdSnoc(RemoveId(buf, m.id), m);
  }

  lemma {:induction false} RemoveIdIdempotent(buf: seq<Message>, id: string)
    ensures RemoveId(RemoveId(buf, id), id) == RemoveId(buf, id)
  {
    if buf != [] {
      RemoveIdIdempotent(buf[1..], id);
      if buf[0].id != id {
        assert ([buf[0]] + RemoveId(buf[1..], id))[1..] == RemoveId(buf[1..], id);
      }
    }
  }

  lemma {:induction false} RemoveIdSnoc(buf: seq<Message>, m: Message)
    ensures RemoveId(buf + [m], m.id) == RemoveId(buf, m.id)
  {
    if buf == [] {
      assert [] + [m] == [m];
      assert [m][1..] == [];
    } else {
      assert (buf + [m])[1..] == buf[1..] + [m];
      RemoveIdSnoc(buf[1..], m);
    }
  }
}
