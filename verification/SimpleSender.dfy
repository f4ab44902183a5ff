/** The best-effort connection of network/src/simple_sender.rs: one attempt per message, in order. */
module SimpleSender {
  import opened Seqs
  import opened Words
  import Bundle
  import C = Coalescer
  import Receiver
  import Sizes
  import Transport

  function Flat(groups: seq<seq<Bytes>>): seq<Bytes> {
    if groups == [] then [] else groups[0] + Flat(groups[1..])
  }

  /** The frame that carries a group of messages. */
  function Wire(batched: bool, group: seq<Bytes>): Bytes {
    if batched then Bundle.Encode(group) else if |group| == 1 then group[0] else []
  }

  /** The groups that leave: cut off by the cap when batching, otherwise single messages. */
  predicate Cut(batched: bool, cap: nat, group: seq<Bytes>) {
    if batched then Sizes.Capped(cap, group) else |group| == 1
  }

  /** `frames` carry `groups`, one each. */
  predicate Carries(batched: bool, cap: nat, frames: seq<Bytes>, groups: seq<seq<Bytes>>) {
    && |frames| == |groups|
    && forall i :: 0 <= i < |frames| ==> frames[i] == Wire(batched, groups[i]) && Cut(batched, cap, groups[i])
  }

  predicate AllShort(frames: seq<Bytes>) {
    forall i :: 0 <= i < |frames| ==> |frames[i]| <= Transport.MAX_FRAME_LENGTH
  }

  function Frames(queue: seq<(nat, Bytes)>): (fs: seq<Bytes>)
    ensures |fs| == |queue| && forall i :: 0 <= i < |queue| ==> fs[i] == queue[i].1
  {
    seq(|queue|, i requires 0 <= i < |queue| => queue[i].1)
  }

  /** `frame` was written at once, or lost with the connection, or scheduled when there is a latency. */
  predicate Emitted(latency: nat, at: nat, frame: Bytes, up: bool, open: bool, written: seq<Bytes>, written': seq<Bytes>,
                    queue: seq<(nat, Bytes)>, queue': seq<(nat, Bytes)>)
  {
    if latency == 0 then
      && (open <==> up && |frame| <= Transport.MAX_FRAME_LENGTH)
      && written' == (if open then written + [frame] else written) && queue' == queue
    else
      open && written' == written && queue' == queue + [(at + latency, frame)]
  }

  /** The size check on an accumulator that holds `held`: at the cap it leaves as one bundle, below it
      stays; `kept` is what it holds afterwards. */
  predicate Checked(cap: nat, held: seq<Bytes>, kept: seq<Bytes>, latency: nat, at: nat, up: bool, open: bool,
                    written: seq<Bytes>, written': seq<Bytes>, queue: seq<(nat, Bytes)>, queue': seq<(nat, Bytes)>)
  {
    if Bundle.TotalLength(held) >= cap then
      kept == [] && Emitted(latency, at, Bundle.Encode(held), up, open, written, written', queue, queue')
    else
      open && kept == held && written' == written && queue' == queue
  }

  /** Release instants never decrease along the queue and none is after `latest`. */
  predicate Scheduled(queue: seq<(nat, Bytes)>, latest: nat) {
    && (forall i, j :: 0 <= i < j < |queue| ==> queue[i].0 <= queue[j].0)
    && (forall i :: 0 <= i < |queue| ==> queue[i].0 <= latest)
  }

  lemma {:induction false} FlatSnoc(groups: seq<seq<Bytes>>, group: seq<Bytes>)
    ensures Flat(groups + [group]) == Flat(groups) + group
  {
    if groups == [] {
      assert groups + [group] == [group] && [group][1..] == [];
    } else {
      FlatSnoc(groups[1..], group);
      assert (groups + [group])[1..] == groups[1..] + [group];
    }
  }

  /** What was received, in order: written, failed, delayed, held. */
  ghost predicate Balanced(sent: seq<seq<Bytes>>, lost: seq<Bytes>, delayed: seq<seq<Bytes>>, held: seq<Bytes>, received: seq<Bytes>)
  {
    Flat(sent) + lost + Flat(delayed) + held == received
  }

  lemma StartBalanced()
    ensures Balanced([], [], [], [], [])
  {
  }

  lemma FourParts(a: seq<Bytes>, b: seq<Bytes>, c: seq<Bytes>, d: seq<Bytes>)
    ensures a + (b + c + d) == a + b + c + d
  {
  }

  lemma BalanceAfterWrite(sent: seq<seq<Bytes>>, group: seq<Bytes>, sent': seq<seq<Bytes>>, lost: seq<Bytes>,
                          delayed: seq<seq<Bytes>>, held: seq<Bytes>, received: seq<Bytes>)
    requires Balanced(sent, group, delayed, held, received)
    requires Flat(sent') + lost == Flat(sent) + group
    ensures Balanced(sent', lost, delayed, held, received)
  {
  }

  lemma BalanceAfterDelay(sent: seq<seq<Bytes>>, delayed: seq<seq<Bytes>>, group: seq<Bytes>, received: seq<Bytes>)
    requires Balanced(sent, [], delayed, group, received)
    ensures Balanced(sent, [], delayed + [group], [], received)
  {
    FlatSnoc(delayed, group);
    assert Flat(sent) + [] + Flat(delayed) + group == Flat(sent) + [] + (Flat(delayed) + group) + [];
  }

  lemma BalanceAtRelease(sent: seq<seq<Bytes>>, delayed: seq<seq<Bytes>>, held: seq<Bytes>, received: seq<Bytes>)
    requires delayed != [] && Balanced(sent, [], delayed, held, received)
    ensures Balanced(sent, delayed[0], delayed[1..], held, received)
  {
    assert Flat(sent) + [] + (delayed[0] + Flat(delayed[1..])) + held == Flat(sent) + delayed[0] + Flat(delayed[1..]) + held;
  }

  lemma BalanceInHand(sent: seq<seq<Bytes>>, group: seq<Bytes>, received: seq<Bytes>)
    requires Balanced(sent, [], [], group, received)
    ensures Balanced(sent, group, [], [], received)
  {
    assert Flat(sent) + [] + Flat([]) + group == Flat(sent) + group + Flat([]) + [];
  }

  lemma BalanceAfterReceive(sent: seq<seq<Bytes>>, delayed: seq<seq<Bytes>>, held: seq<Bytes>, received: seq<Bytes>, data: Bytes)
    requires Balanced(sent, [], delayed, held, received)
    ensures Balanced(sent, [], delayed, held + [data], received + [data])
  {
    assert Flat(sent) + [] + Flat(delayed) + (held + [data]) == Flat(sent) + [] + Flat(delayed) + held + [data];
  }

  lemma ScheduledSnoc(queue: seq<(nat, Bytes)>, latest: nat, frame: Bytes)
    requires Scheduled(queue, latest)
    ensures Scheduled(queue + [(latest, frame)], latest)
  {
  }

  lemma CarriesSnoc(batched: bool, cap: nat, frames: seq<Bytes>, groups: seq<seq<Bytes>>, frame: Bytes, group: seq<Bytes>)
    requires Carries(batched, cap, frames, groups)
    requires frame == Wire(batched, group) && Cut(batched, cap, group)
    ensures Carries(batched, cap, frames + [frame], groups + [group])
  {
  }

  /** What no frame exceeds as long as no message is empty. */
  function WireBound(batched: bool, cap: nat, largest: nat): nat {
    if batched then Sizes.BundleBound(cap, largest) else largest
  }

  lemma GroupFits(batched: bool, cap: nat, group: seq<Bytes>, largest: nat)
    requires Cut(batched, cap, group) && forall d :: d in group ==> 1 <= |d| <= largest
    ensures |Wire(batched, group)| <= WireBound(batched, cap, largest)
  {
    assert forall i :: 0 <= i < |group| ==> group[i] in group;
    if batched {
      Sizes.NoEmpties(group);
      Sizes.CappedBundleSize(cap, group, largest);
    }
  }

  lemma {:induction false} FlatMember(groups: seq<seq<Bytes>>, g: seq<Bytes>, d: Bytes)
    requires g in groups && d in g
    ensures d in Flat(groups)
  {
    if groups[0] != g {
      FlatMember(groups[1..], g, d);
    }
  }

  lemma GroupReceived(sent: seq<seq<Bytes>>, lost: seq<Bytes>, delayed: seq<seq<Bytes>>, held: seq<Bytes>,
                      received: seq<Bytes>, g: seq<Bytes>)
    requires Balanced(sent, lost, delayed, held, received) && (g in sent || g in delayed || g == lost)
    ensures forall d :: d in g ==> d in received
  {
    forall d | d in g ensures d in received {
      if g in sent {
        FlatMember(sent, g, d);
      } else if g in delayed {
        FlatMember(delayed, g, d);
      }
    }
  }

  /** The peer decodes short frames into exactly the messages they carry. */
  lemma {:induction false} FramesReadBack(batched: bool, cap: nat, frames: seq<Bytes>, groups: seq<seq<Bytes>>)
    requires Carries(batched, cap, frames, groups) && AllShort(frames)
    ensures Receiver.AllMessages(batched, frames) == Flat(groups)
  {
    if frames != [] {
      FramesReadBack(batched, cap, frames[1..], groups[1..]);
      if batched {
        assert frames[0] == Bundle.Encode(groups[0]) + [];
        Bundle.ShortBundleFits(groups[0]);
        Bundle.RoundTrip(groups[0], []);
      }
    }
  }

  class Sender {
    const batched: bool
    const maxBytes: nat
    const maxDelay: nat
    const latency: nat
    const coalescer: C.Coalescer<()>
    var deadline: Option<nat>
    var queue: seq<(nat, Bytes)>
    var written: seq<Bytes>
    var open: bool
    var now: nat
    var connected: bool
    /** What was taken from the channel and discarded before the connection was made. */
    ghost var refused: seq<Bytes>
    /** Everything taken from the channel since. */
    ghost var received: seq<Bytes>
    /** The messages of the written and of the delayed frames, and those of a frame that failed. */
    ghost var sent: seq<seq<Bytes>>
    ghost var delayed: seq<seq<Bytes>>
    ghost var lost: seq<Bytes>
    /** When the oldest message of the accumulator arrived. */
    ghost var oldest: nat

    /** What the connection still holds or lost with its failure. */
    ghost function Pending(): seq<Bytes>
      reads this, coalescer
    {
      lost + Flat(delayed) + C.Firsts(coalescer.items)
    }

    ghost predicate Conserved()
      reads this, coalescer
    {
      && Carries(batched, maxBytes, written, sent) && AllShort(written)
      && Carries(batched, maxBytes, Frames(queue), delayed)
      && Balanced(sent, lost, delayed, C.Firsts(coalescer.items), received)
      && (open ==> lost == []) && (lost != [] ==> Cut(batched, maxBytes, lost))
    }

    ghost predicate Timely()
      reads this, coalescer
    {
      && (deadline.Some? <==> coalescer.items != [])
      && (deadline.Some? ==> deadline.value == oldest + maxDelay && oldest <= now)
      && (coalescer.items != [] ==> batched && Bundle.TotalLength(C.Firsts(coalescer.items)) < maxBytes)
      && Scheduled(queue, now + latency)
      && (latency == 0 ==> queue == [])
    }

    ghost predicate Valid()
      reads this, coalescer
    {
      coalescer.Valid() && Conserved() && Timely() && (!connected ==> received == [])
    }

    constructor (batched: bool, maxBytes: nat, maxDelay: nat, latency: nat)
      ensures Valid() && fresh(coalescer) && open && !connected && refused == [] && received == [] && written == []
      ensures this.batched == batched && this.maxBytes == maxBytes && this.maxDelay == maxDelay && this.latency == latency
    {
      this.batched, this.maxBytes, this.maxDelay, this.latency := batched, maxBytes, maxDelay, latency;
      coalescer := new C.Coalescer<()>();
      deadline, queue, written, open, now, connected := None, [], [], true, 0, false;
      refused, received, sent, delayed, lost, oldest := [], [], [], [], [], 0;
      new;
      StartBalanced();
      assert C.Firsts(coalescer.items) == [] && Frames(queue) == [];
    }

    /** While connecting, what arrives before the retry timer fires is discarded and nothing is kept. */
    method DrainUntil(arrivals: seq<Bytes>)
      requires Valid() && !connected
      modifies this`refused
      ensures Valid() && refused == old(refused) + arrivals
    {
      var discarded := 0;
      while discarded < |arrivals|
        invariant discarded <= |arrivals| && refused == old(refused) + arrivals[..discarded]
      {
        refused := refused + [arrivals[discarded]];
        discarded := discarded + 1;
      }
      assert arrivals[..|arrivals|] == arrivals;
    }

    method Connect()
      requires Valid() && !connected
      modifies this`connected
      ensures Valid() && connected
    {
      connected := true;
    }

    /** The peer has read, or will read, a prefix of what was received; the rest is still held or
        was lost when the connection failed. Nothing is repeated, reordered or skipped. */
    lemma PeerReadsInOrder()
      requires Valid()
      ensures Receiver.AllMessages(batched, written) + Pending() == received
    {
      FramesReadBack(batched, maxBytes, written, sent);
      FourParts(Flat(sent), lost, Flat(delayed), C.Firsts(coalescer.items));
    }

    /** With non-empty messages of at most `largest` bytes every frame, written, scheduled or failed, is
        within 5B + 3 + M bytes; so within the frame limit none was or will be refused for its size. */
    lemma FramesFit(largest: nat)
      requires Valid() && forall d :: d in received ==> 1 <= |d| <= largest
      ensures forall g :: g in sent || g in delayed || (g == lost && lost != []) ==>
                |Wire(batched, g)| <= WireBound(batched, maxBytes, largest)
    {
      forall g | g in sent || g in delayed || (g == lost && lost != [])
        ensures |Wire(batched, g)| <= WireBound(batched, maxBytes, largest)
      {
        GroupReceived(sent, lost, delayed, C.Firsts(coalescer.items), received, g);
        GroupFits(batched, maxBytes, g, largest);
      }
    }

    /** Hands one frame to the writer; a failed or oversized frame ends the connection. */
    method Write(frame: Bytes, up: bool, ghost group: seq<Bytes>)
      requires open && lost == []
      requires Carries(batched, maxBytes, written, sent) && AllShort(written)
      requires frame == Wire(batched, group) && Cut(batched, maxBytes, group)
      modifies this`written, this`open, this`sent, this`lost
      ensures open <==> up && |frame| <= Transport.MAX_FRAME_LENGTH
      ensures written == if open then old(written) + [frame] else old(written)
      ensures Carries(batched, maxBytes, written, sent) && AllShort(written)
      ensures Flat(sent) + lost == Flat(old(sent)) + group && (open ==> lost == [])
      ensures lost != [] ==> Cut(batched, maxBytes, lost)
    {
      if up && |frame| <= Transport.MAX_FRAME_LENGTH {
        FlatSnoc(sent, group);
        written, sent := written + [frame], sent + [group];
      } else {
        open, lost := false, group;
      }
    }

    /** `group` has left the accumulator and is about to be written or scheduled. */
    ghost predicate InHand(group: seq<Bytes>)
      reads this, coalescer
    {
      && open && lost == [] && coalescer.items == []
      && Carries(batched, maxBytes, written, sent) && AllShort(written)
      && Carries(batched, maxBytes, Frames(queue), delayed)
      && Balanced(sent, [], delayed, group, received)
      && Scheduled(queue, now + latency)
      && (latency == 0 ==> queue == [])
    }

    /** Appends a frame to the delay queue. */
    method Schedule(frame: Bytes, ghost group: seq<Bytes>)
      requires InHand(group) && latency > 0
      requires frame == Wire(batched, group) && Cut(batched, maxBytes, group)
      modifies this`queue, this`delayed
      ensures Conserved() && Scheduled(queue, now + latency)
      ensures queue == old(queue) + [(now + latency, frame)]
    {
      BalanceAfterDelay(sent, delayed, group, received);
      ScheduledSnoc(queue, now + latency, frame);
      CarriesSnoc(batched, maxBytes, Frames(queue), delayed, frame, group);
      queue, delayed := queue + [(now + latency, frame)], delayed + [group];
      assert Frames(queue) == Frames(old(queue)) + [frame];
    }

    /** Writes at once without artificial latency, otherwise schedules the release. */
    method Dispatch(frame: Bytes, up: bool, ghost group: seq<Bytes>)
      requires InHand(group)
      requires frame == Wire(batched, group) && Cut(batched, maxBytes, group)
      modifies this`written, this`open, this`sent, this`lost, this`queue, this`delayed
      ensures Conserved()
      ensures Scheduled(queue, now + latency) && (latency == 0 ==> queue == [])
      ensures Emitted(latency, now, frame, up, open, old(written), written, old(queue), queue)
    {
      if latency == 0 {
        assert delayed == [];
        BalanceInHand(sent, group, received);
        Write(frame, up, group);
        BalanceAfterWrite(old(sent), group, sent, lost, delayed, [], received);
      } else {
        Schedule(frame, group);
      }
    }

    /** Moves the accumulated bundle out. */
    method Flush(up: bool)
      requires open && coalescer.Valid() && Conserved() && coalescer.items != [] && batched
      requires Scheduled(queue, now + latency) && (latency == 0 ==> queue == [])
      requires Sizes.Capped(maxBytes, C.Firsts(coalescer.items)) && (!connected ==> received == [])
      modifies this`deadline, this`written, this`open, this`sent, this`lost, this`queue, this`delayed, coalescer
      ensures Valid() && coalescer.items == []
      ensures Emitted(latency, now, Bundle.Encode(C.Firsts(old(coalescer.items))), up, open, old(written), written, old(queue), queue)
    {
      ghost var group := C.Firsts(coalescer.items);
      var bundle, extras := coalescer.Flush();
      deadline := None;
      Dispatch(bundle, up, group);
    }

    /** The batching deadline passes. */
    method DeadlineDue(up: bool)
      requires Valid() && open && deadline.Some? && deadline.value <= now
      modifies this`deadline, this`written, this`open, this`sent, this`lost, this`queue, this`delayed, coalescer
      ensures Valid() && coalescer.items == []
      ensures Emitted(latency, now, Bundle.Encode(C.Firsts(old(coalescer.items))), up, open, old(written), written, old(queue), queue)
    {
      Sizes.CappedBelow(maxBytes, C.Firsts(coalescer.items));
      Flush(up);
    }

    /** A message has joined the accumulator and the cap has not been checked yet. */
    ghost predicate Grown()
      reads this, coalescer
    {
      && open && connected && batched && coalescer.Valid() && Conserved()
      && coalescer.items != [] && Sizes.Capped(maxBytes, C.Firsts(coalescer.items))
      && deadline == Some(oldest + maxDelay) && oldest <= now
      && Scheduled(queue, now + latency) && (latency == 0 ==> queue == [])
    }

    /** Appends to the accumulator, arming the deadline with its first message. */
    method Accumulate(data: Bytes)
      requires Valid() && open && connected && batched
      modifies this`deadline, this`oldest, this`received, coalescer
      ensures Grown() && C.Firsts(coalescer.items) == C.Firsts(old(coalescer.items)) + [data]
      ensures received == old(received) + [data]
      ensures oldest == if old(coalescer.items) == [] then now else old(oldest)
    {
      BalanceAfterReceive(sent, delayed, C.Firsts(coalescer.items), received, data);
      Sizes.CappedSnoc(maxBytes, C.Firsts(coalescer.items), data);
      received := received + [data];
      var armed := coalescer.Push(data, ());
      assert C.Firsts(coalescer.items) == C.Firsts(old(coalescer.items)) + [data];
      if armed {
        deadline, oldest := Some(now + maxDelay), now;
      }
    }

    /** The size check after a message joined the accumulator. */
    method Settle(up: bool)
      requires Grown()
      modifies this`deadline, this`written, this`open, this`sent, this`lost, this`queue, this`delayed, coalescer
      ensures Valid()
      ensures Checked(maxBytes, C.Firsts(old(coalescer.items)), C.Firsts(coalescer.items), latency, now, up, open,
                      old(written), written, old(queue), queue)
    {
      var over := coalescer.OverCap(maxBytes);
      if over {
        Flush(up);
      }
    }

    /** A message arrives while batching: it joins the accumulator, which leaves once it reaches the cap. */
    method ReceiveBatched(data: Bytes, up: bool)
      requires Valid() && open && connected && batched
      modifies this`received, this`oldest, this`deadline, this`written, this`open, this`sent, this`lost, this`queue, this`delayed, coalescer
      ensures Valid() && received == old(received) + [data]
      ensures oldest == if old(coalescer.items) == [] then now else old(oldest)
      ensures Checked(maxBytes, C.Firsts(old(coalescer.items)) + [data], C.Firsts(coalescer.items), latency, now, up, open,
                      old(written), written, old(queue), queue)
    {
      ghost var held := C.Firsts(coalescer.items) + [data];
      Accumulate(data);
      assert C.Firsts(coalescer.items) == held;
      Settle(up);
    }

    /** A message arrives without batching: it is its own frame. */
    method ReceiveSingle(data: Bytes, up: bool)
      requires Valid() && open && connected && !batched
      modifies this`received, this`written, this`open, this`sent, this`lost, this`queue, this`delayed
      ensures Valid() && received == old(received) + [data]
      ensures Emitted(latency, now, data, up, open, old(written), written, old(queue), queue)
    {
      assert C.Firsts(coalescer.items) == [];
      BalanceAfterReceive(sent, delayed, [], received, data);
      received := received + [data];
      assert [] + [data] == [data];
      Dispatch(data, up, [data]);
    }

    /** The first delayed frame is due. */
    method ReleaseDue(up: bool)
      requires Valid() && open && queue != [] && queue[0].0 <= now
      modifies this`written, this`open, this`sent, this`lost, this`queue, this`delayed
      ensures Valid() && queue == old(queue)[1..]
      ensures open <==> up && |old(queue)[0].1| <= Transport.MAX_FRAME_LENGTH
      ensures written == if open then old(written) + [old(queue)[0].1] else old(written)
    {
      var frame := PopFront();
      ghost var group, held := old(delayed)[0], C.Firsts(coalescer.items);
      Write(frame, up, group);
      BalanceAfterWrite(old(sent), group, sent, lost, delayed, held, received);
    }

    /** Takes the front of the delay queue; its messages are then the next to be written. */
    method PopFront() returns (frame: Bytes)
      requires Valid() && open && queue != []
      modifies this`queue, this`delayed
      ensures frame == old(queue)[0].1 && queue == old(queue)[1..] && Timely()
      ensures old(delayed) != [] && frame == Wire(batched, old(delayed)[0]) && Cut(batched, maxBytes, old(delayed)[0])
      ensures Carries(batched, maxBytes, Frames(queue), delayed)
      ensures Balanced(sent, old(delayed)[0], delayed, C.Firsts(coalescer.items), received)
    {
      frame := queue[0].1;
      BalanceAtRelease(sent, delayed, C.Firsts(coalescer.items), received);
      queue, delayed := queue[1..], delayed[1..];
      assert Frames(queue) == Frames(old(queue))[1..];
    }

    /** A reply is read and ignored; anything else ends the connection. */
    method Reply(ok: bool)
      requires Valid() && open
      modifies this`open
      ensures Valid() && (open <==> ok)
    {
      if !ok {
        open := false;
      }
    }

    method Advance(step: nat)
      requires Valid()
      modifies this`now
      ensures Valid() && now == old(now) + step
    {
      now := now + step;
    }
  }
}
