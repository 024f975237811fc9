/** The candidate lists the routers hand to `tryMessagesForConnected`, and
    that framework primitive itself.

    A connection is seen from this host as the peer's address, whether the
    peer's router is transferring, and the ids the peer's router holds
    (`othRouter.hasMessage`). */
module Offers {
  import opened Common
  import opened Messages

  datatype Link = Link(peer: Addr, peerTransferring: bool, peerHolds: set<string>)

  /** A `Tuple<Message, Connection>` of a candidate list. */
  datatype Offer = Offer(msg: Message, link: Link)

  /** `tryMessagesForConnected`: the offers are tried in list order and the
      first one the framework starts (`startTransfer` answers `RCV_OK`) is
      returned; `starts` stands for that framework decision. */
  function FirstStarted(offers: seq<Offer>, starts: Offer -> bool): (r: Option<Offer>)
    ensures r.None? <==> forall i :: 0 <= i < |offers| ==> !starts(offers[i])
    ensures r.Some? ==> exists i :: 0 <= i < |offers| && offers[i] == r.value && starts(r.value) &&
                                    forall j :: 0 <= j < i ==> !starts(offers[j])
  {
    if offers == [] then None
    else if starts(offers[0]) then Some(offers[0])
    else
      var r := FirstStarted(offers[1..], starts);
      assert forall i :: 1 <= i < |offers| ==> offers[i] == offers[1..][i - 1];
      if r.Some? then
        var i :| 0 <= i < |offers[1..]| && offers[1..][i] == r.value && starts(r.value) &&
                 forall j :: 0 <= j < i ==> !starts(offers[1..][j]);
        assert offers[i + 1] == r.value;
        assert forall j :: 0 <= j < i + 1 ==> !starts(offers[j]) by {
          forall j | 0 <= j < i + 1 ensures !starts(offers[j]) {
            if j > 0 { assert offers[j] == offers[1..][j - 1]; }
          }
        }
        r
      else r
  }

  // ----- Epidemic and Spray-and-Wait: every unheld message to every idle peer -----

  /** The candidates the inner loop adds for one link: the messages, in order,
      whose id the peer does not hold. */
  function Unheld(link: Link, msgs: seq<Message>): seq<Offer>
  {
    if msgs == [] then []
    else
      var last := msgs[|msgs| - 1];
      Unheld(link, msgs[..|msgs| - 1]) + (if last.id in link.peerHolds then [] else [Offer(last, link)])
  }

  /** The reference candidate list: for each link in order, nothing when the
      peer is transferring, else its unheld messages. */
  function FloodOffers(links: seq<Link>, msgs: seq<Message>): (offers: seq<Offer>)
    ensures msgs == [] ==> offers == []
    ensures (forall l :: l in links ==> l.peerTransferring) ==> offers == []
  {
    if links == [] then []
    else
      var link := links[|links| - 1];
      FloodOffers(links[..|links| - 1], msgs) + (if link.peerTransferring then [] else Unheld(link, msgs))
  }

  lemma {:induction false} UnheldMembers(link: Link, msgs: seq<Message>)
    ensures forall o :: o in Unheld(link, msgs) <==> o.link == link && o.msg in msgs && o.msg.id !in link.peerHolds
  {
    if msgs != [] {
      UnheldMembers(link, msgs[..|msgs| - 1]);
      assert msgs == msgs[..|msgs| - 1] + [msgs[|msgs| - 1]];
    }
  }

  /** A candidate pairs an idle peer with a buffered message the peer lacks,
      and every such pair is a candidate; there is no target filter. */
  lemma {:induction false} FloodOffersMembers(links: seq<Link>, msgs: seq<Message>)
    ensures forall o :: o in FloodOffers(links, msgs) <==>
      o.link in links && !o.link.peerTransferring && o.msg in msgs && o.msg.id !in o.link.peerHolds
  {
    if links != [] {
      FloodOffersMembers(links[..|links| - 1], msgs);
      UnheldMembers(links[|links| - 1], msgs);
      assert links == links[..|links| - 1] + [links[|links| - 1]];
    }
  }

  /** No buffered messages or no idle peer: the list is empty and
      `tryOtherMessages` returns null without trying anything. */
  lemma FloodOffersEmpty(links: seq<Link>, msgs: seq<Message>)
    ensures FloodOffers(links, msgs) == [] <==>
      forall l, m :: l in links && m in msgs ==> l.peerTransferring || m.id in l.peerHolds
  {
    FloodOffersMembers(links, msgs);
    if FloodOffers(links, msgs) == [] {
      forall l, m | l in links && m in msgs ensures l.peerTransferring || m.id in l.peerHolds {
        assert Offer(m, l) !in FloodOffers(links, msgs);
      }
    } else {
      assert FloodOffers(links, msgs)[0] in FloodOffers(links, msgs);
    }
  }

  /** The nested loops of `tryOtherMessages` in the Epidemic and Spray-and-Wait
      routers. */
  method CollectOffers(links: seq<Link>, msgs: seq<Message>) returns (offers: seq<Offer>)
    ensures offers == FloodOffers(links, msgs)
  {
    offers := [];
    for c := 0 to |links|
      invariant offers == FloodOffers(links[..c], msgs)
    {
      var link := links[c];
      assert links[..c + 1][..c] == links[..c];
      if link.peerTransferring {
        continue;
      }
      var before := offers;
      for k := 0 to |msgs|
        invariant offers == before + Unheld(link, msgs[..k])
      {
        assert msgs[..k + 1][..k] == msgs[..k];
        if msgs[k].id in link.peerHolds {
          continue;
        }
        offers := offers + [Offer(msgs[k], link)];
      }
      assert msgs[..|msgs|] == msgs;
    }
    assert links[..|links|] == links;
  }

  // ----- MixnetRouter: pending messages for the peer that is their target -----

  /** The candidate condition of the plain mix router: idle peer, pending
      message it lacks, and the peer is the message's current target. */
  predicate AddressedOffer(links: seq<Link>, pending: set<Message>, o: Offer)
  {
    o.link in links && !o.link.peerTransferring && o.msg in pending
    && o.msg.id !in o.link.peerHolds && o.msg.to == o.link.peer
  }

  /** The nested loops of `MixnetRouter.tryOtherMessages`. The pending set is a
      `HashSet`, so the order in which its messages come out is left open;
      what is fixed is which pairs end up in the list. */
  method CollectAddressedOffers(links: seq<Link>, pending: set<Message>) returns (offers: seq<Offer>)
    ensures forall o :: o in offers <==> AddressedOffer(links, pending, o)
  {
    offers := [];
    for c := 0 to |links|
      invariant forall o :: o in offers <==> AddressedOffer(links[..c], pending, o)
    {
      var link := links[c];
      assert forall l :: l in links[..c + 1] <==> l in links[..c] || l == link;
      if link.peerTransferring {
        continue;
      }
      var rest := pending;
      while rest != {}
        invariant rest <= pending
        invariant forall o :: o in offers <==>
          AddressedOffer(links[..c], pending, o) || (AddressedOffer(links[..c + 1], pending, o) && o.link == link && o.msg !in rest)
        decreases rest
      {
        var m :| m in rest;
        rest := rest - {m};
        if m.id in link.peerHolds {
          continue;
        }
        if m.to == link.peer {
          offers := offers + [Offer(m, link)];
        }
      }
    }
    assert links[..|links|] == links;
  }
}
