/** What became of the frames that the CAN bridge received: each is still in the batch, was shipped
    in a datagram or was dropped, and the shipped ones left in the order in which they came.
 */
module CanFates {
  import opened CanDatagram
  import opened CanPacing
  import opened Numerals
  import opened Slices

  datatype Fate = Batched | Shipped | Dropped

  /** The frames with the given fate, in the order of reception. */
  function Chosen(received: seq<Frame>, fates: seq<Fate>, fate: Fate): seq<Frame>
    requires |fates| == |received|
  {
    if received == [] then []
    else
      var n := |received| - 1;
      Chosen(received[..n], fates[..n], fate) + if fates[n] == fate then [received[n]] else []
  }

  /** No frame overtakes another: behind a frame that still waits nothing was shipped. */
  predicate InOrder(fates: seq<Fate>) {
    forall i, j :: 0 <= i < j < |fates| && fates[i].Batched? ==> !fates[j].Shipped?
  }

  /** The end of all waiting. */
  function Settled(fates: seq<Fate>, fate: Fate): (r: seq<Fate>)
    ensures |r| == |fates|
  {
    if fates == [] then []
    else
      var n := |fates| - 1;
      Settled(fates[..n], fate) + [if fates[n].Batched? then fate else fates[n]]
  }

  lemma {:induction false} SettledAt(fates: seq<Fate>, fate: Fate)
    ensures forall i :: 0 <= i < |fates| ==> Settled(fates, fate)[i] == if fates[i].Batched? then fate else fates[i]
  {
    if fates != [] {
      SettledAt(fates[..|fates| - 1], fate);
    }
  }

  /** What a receiver reads from the datagrams. */
  function Delivered(sent: seq<seq<byte>>): seq<Frame> {
    if sent == [] then [] else Delivered(sent[..|sent| - 1]) + FramesOf(sent[|sent| - 1])
  }

  /** The frames received, what became of each, the batch they wait in, the datagrams handed to the
      UDP client, and the frames that were ever put into a batch. */
  datatype Ledger = Ledger(received: seq<Frame>, fates: seq<Fate>, batch: seq<Frame>, sent: seq<seq<byte>>, seen: seq<Frame>)

  function Collect(l: Ledger, frame: Frame): Ledger {
    Ledger(l.received + [frame], l.fates + [Batched], l.batch + [frame], l.sent, l.seen + [frame])
  }

  function Refuse(l: Ledger, frame: Frame): Ledger {
    Ledger(l.received + [frame], l.fates + [Dropped], l.batch, l.sent, l.seen)
  }

  function Send(l: Ledger, datagram: seq<byte>): Ledger {
    Ledger(l.received, Settled(l.fates, Shipped), [], l.sent + [datagram], l.seen)
  }

  function Discard(l: Ledger): Ledger {
    Ledger(l.received, Settled(l.fates, Dropped), [], l.sent, l.seen)
  }

  /** The batch is what still waits, in order, and the receiver of the datagrams reads what was
      shipped, in order. */
  ghost predicate Accounted(l: Ledger) {
    && |l.fates| == |l.received|
    && InOrder(l.fates)
    && Chosen(l.received, l.fates, Batched) == l.batch
    && Chosen(l.received, l.fates, Shipped) == Delivered(l.sent)
  }

  lemma {:induction false} ChosenAppend(received: seq<Frame>, fates: seq<Fate>, fate: Fate, frame: Frame, its: Fate)
    requires |fates| == |received|
    ensures Chosen(received + [frame], fates + [its], fate) ==
            Chosen(received, fates, fate) + if its == fate then [frame] else []
  {
    Halves(received, [frame]);
    Halves(fates, [its]);
  }

  lemma {:induction false} NoneChosen(received: seq<Frame>, fates: seq<Fate>, fate: Fate)
    requires |fates| == |received| && fate !in fates
    ensures Chosen(received, fates, fate) == []
  {
    if received != [] {
      NoneChosen(received[..|received| - 1], fates[..|fates| - 1], fate);
    }
  }

  lemma {:induction false} ChosenNone(received: seq<Frame>, fates: seq<Fate>, fate: Fate)
    requires |fates| == |received| && Chosen(received, fates, fate) == []
    ensures fate !in fates
  {
    if received != [] {
      ChosenNone(received[..|received| - 1], fates[..|fates| - 1], fate);
    }
  }

  lemma {:induction false} SettledPrefix(fates: seq<Fate>, fate: Fate)
    requires fates != []
    ensures Settled(fates, fate)[..|fates| - 1] == Settled(fates[..|fates| - 1], fate)
  {
  }

  /** Shipping the batch sends what waits behind everything shipped before. */
  lemma {:induction false} SettleShipped(received: seq<Frame>, fates: seq<Fate>)
    requires |fates| == |received| && InOrder(fates)
    ensures Chosen(received, Settled(fates, Shipped), Shipped) ==
            Chosen(received, fates, Shipped) + Chosen(received, fates, Batched)
  {
    if received != [] {
      var n := |received| - 1;
      var head, last := fates[..n], fates[n];
      SettleShipped(received[..n], head);
      SettledPrefix(fates, Shipped);
      var shipped, batched := Chosen(received[..n], head, Shipped), Chosen(received[..n], head, Batched);
      if last.Shipped? {
        assert Batched !in head;
        NoneChosen(received[..n], head, Batched);
        Whole(shipped);
        Whole(shipped + [received[n]]);
      } else {
        Associative(shipped, batched, if last.Batched? then [received[n]] else []);
        Whole(shipped);
        Whole(shipped + batched);
      }
    }
  }

  lemma {:induction false} SettleDropped(received: seq<Frame>, fates: seq<Fate>)
    requires |fates| == |received|
    ensures Chosen(received, Settled(fates, Dropped), Shipped) == Chosen(received, fates, Shipped)
  {
    if received != [] {
      var n := |received| - 1;
      SettleDropped(received[..n], fates[..n]);
      SettledPrefix(fates, Dropped);
    }
  }

  lemma {:induction false} SettledIsInOrder(fates: seq<Fate>, fate: Fate)
    requires !fate.Batched?
    ensures InOrder(Settled(fates, fate)) && Batched !in Settled(fates, fate)
  {
    SettledAt(fates, fate);
  }

  lemma CollectIsAccounted(l: Ledger, frame: Frame)
    requires Accounted(l)
    ensures Accounted(Collect(l, frame))
  {
    ChosenAppend(l.received, l.fates, Batched, frame, Batched);
    ChosenAppend(l.received, l.fates, Shipped, frame, Batched);
    Whole(Delivered(l.sent));
  }

  lemma RefuseIsAccounted(l: Ledger, frame: Frame)
    requires Accounted(l)
    ensures Accounted(Refuse(l, frame))
  {
    ChosenAppend(l.received, l.fates, Batched, frame, Dropped);
    ChosenAppend(l.received, l.fates, Shipped, frame, Dropped);
    Whole(l.batch);
    Whole(Delivered(l.sent));
  }

  lemma {:induction false} DatagramIsDelivered(sent: seq<seq<byte>>, batch: seq<Frame>)
    requires forall f :: f in batch ==> Encodable(f)
    ensures Delivered(sent + [Datagram(batch)]) == Delivered(sent) + batch
  {
    Halves(sent, [Datagram(batch)]);
    Whole(Datagram(batch));
    DatagramThenMore(batch, []);
    Whole(batch);
  }

  lemma {:induction false} SendIsAccounted(l: Ledger)
    requires Accounted(l) && forall f :: f in l.batch ==> Encodable(f)
    ensures Accounted(Send(l, Datagram(l.batch)))
  {
    SettleShipped(l.received, l.fates);
    SettledIsInOrder(l.fates, Shipped);
    NoneChosen(l.received, Settled(l.fates, Shipped), Batched);
    DatagramIsDelivered(l.sent, l.batch);
  }

  lemma DiscardIsAccounted(l: Ledger)
    requires Accounted(l)
    ensures Accounted(Discard(l))
  {
    SettleDropped(l.received, l.fates);
    SettledIsInOrder(l.fates, Dropped);
    NoneChosen(l.received, Settled(l.fates, Dropped), Batched);
  }

  ghost function Census(received: seq<Frame>, fates: seq<Fate>, fate: Fate): multiset<Frame>
    requires |fates| == |received|
  {
    multiset(Chosen(received, fates, fate))
  }

  lemma CensusStep(received: seq<Frame>, fates: seq<Fate>, fate: Fate)
    requires |fates| == |received| > 0
    ensures var n := |received| - 1;
            Census(received, fates, fate) ==
            Census(received[..n], fates[..n], fate) + if fates[n] == fate then multiset{received[n]} else multiset{}
  {
  }

  /** Every frame received is in exactly one place. */
  lemma {:induction false} NothingVanishes(received: seq<Frame>, fates: seq<Fate>)
    requires |fates| == |received|
    ensures multiset(received) ==
            Census(received, fates, Batched) + Census(received, fates, Shipped) + Census(received, fates, Dropped)
  {
    if received != [] {
      var n := |received| - 1;
      var last := multiset{received[n]};
      NothingVanishes(received[..n], fates[..n]);
      assert multiset(received) == multiset(received[..n]) + last by {
        assert received == received[..n] + [received[n]];
      }
      CensusStep(received, fates, Batched);
      CensusStep(received, fates, Shipped);
      CensusStep(received, fates, Dropped);
    }
  }
}
