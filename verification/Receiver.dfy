/** The per-connection read loop of network/src/receiver.rs: acknowledge, unbundle, dispatch. */
module Receiver {
  import opened Seqs
  import opened Words
  import Bundle

  /** Acknowledgements written, messages the handler accepted, and whether the loop still runs. */
  datatype Runner = Runner(acks: nat, dispatched: seq<Bytes>, running: bool)

  /** The logical messages of one frame. */
  function Messages(batch: bool, payload: Bytes): Result<seq<Bytes>, Bundle.Error> {
    if batch then Bundle.Decode(payload) else Ok([payload])
  }

  /** One frame: acknowledged first, then dispatched up to the handler's first refusal.
      `acked` is whether the acknowledgement could be written, `handled` how many messages the
      handler accepts. */
  function OnFrame(batch: bool, r: Runner, payload: Bytes, acked: bool, handled: nat): Runner {
    var acks := r.acks + (if acked then 1 else 0);
    match Messages(batch, payload)
    case Err(_) => Runner(acks, r.dispatched, false)
    case Ok(ms) =>
      if handled < |ms| then Runner(acks, r.dispatched + ms[..handled], false)
      else Runner(acks, r.dispatched + ms, r.running)
  }

  /** All messages of a list of frames; nothing after a frame that does not decode. */
  function AllMessages(batch: bool, payloads: seq<Bytes>): seq<Bytes> {
    if payloads == [] then []
    else match Messages(batch, payloads[0])
      case Err(_) => []
      case Ok(ms) => ms + AllMessages(batch, payloads[1..])
  }

  /** Every frame of the list decodes. */
  predicate AllDecode(batch: bool, payloads: seq<Bytes>) {
    forall p :: p in payloads ==> Messages(batch, p).Ok?
  }

  lemma {:induction false} AllMessagesConcat(batch: bool, xs: seq<Bytes>, ys: seq<Bytes>)
    requires AllDecode(batch, xs)
    ensures AllMessages(batch, xs + ys) == AllMessages(batch, xs) + AllMessages(batch, ys)
  {
    if xs == [] {
      assert xs + ys == ys;
    } else {
      var all, ms := xs + ys, Messages(batch, xs[0]).value;
      var rest, more := AllMessages(batch, xs[1..]), AllMessages(batch, ys);
      AllMessagesConcat(batch, xs[1..], ys);
      assert all[0] == xs[0] && all[1..] == xs[1..] + ys;
      assert ms + (rest + more) == ms + rest + more;
    }
  }

  lemma AllMessagesSnoc(batch: bool, xs: seq<Bytes>, y: Bytes)
    requires AllDecode(batch, xs)
    ensures AllMessages(batch, xs + [y])
         == AllMessages(batch, xs) + (if Messages(batch, y).Ok? then Messages(batch, y).value else [])
  {
    AllMessagesConcat(batch, xs, [y]);
    assert [y][1..] == [];
  }

  class Connection {
    const batch: bool
    const acking: bool
    var acks: nat
    var dispatched: seq<Bytes>
    var running: bool

    ghost function View(): Runner
      reads this
    {
      Runner(acks, dispatched, running)
    }

    constructor (batch: bool, acking: bool)
      ensures this.batch == batch && this.acking == acking && View() == Runner(0, [], true)
    {
      this.batch := batch;
      this.acking := acking;
      acks := 0;
      dispatched := [];
      running := true;
    }

    /** One turn of the read loop on a decoded frame. */
    method Serve(payload: Bytes, written: bool, handled: nat)
      requires running
      modifies this
      ensures View() == OnFrame(batch, old(View()), payload, acking && written, handled)
    {
      if acking && written {
        acks := acks + 1;
      }
      if batch {
        var r := Bundle.DecodeBundle(payload);
        match r
        case Err(_) =>
          running := false;
          return;
        case Ok(messages) =>
          ghost var before := dispatched;
          for i := 0 to |messages|
            invariant i <= handled && dispatched == before + messages[..i]
            invariant acks == old(acks) + (if acking && written then 1 else 0) && running
          {
            if i == handled {
              running := false;
              return;
            }
            assert messages[..i + 1] == messages[..i] + [messages[i]];
            dispatched := dispatched + [messages[i]];
          }
          assert messages[..|messages|] == messages;
      } else if handled == 0 {
        assert [payload][..0] == [];
        running := false;
      } else {
        dispatched := dispatched + [payload];
      }
    }
  }
}
