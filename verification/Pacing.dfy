/** The transaction client's rate accumulator and sample marking, node/src/client.rs. */
module Pacing {
  import opened Seqs
  import opened Words

  const PRECISION: nat := 20

  /** A transaction's marker (0 sample, 1 background, 2 uncounted) and identifier. */
  datatype Tx = Tx(marker: nat, id: nat)

  // ---- The rate ----------------------------------------------------------------------------

  function Carry(rate: nat, ticks: nat): nat {
    if ticks == 0 then 0 else (Carry(rate, ticks - 1) + rate) % PRECISION
  }

  function Burst(rate: nat, tick: nat): nat {
    (Carry(rate, tick) + rate) / PRECISION
  }

  function Sent(rate: nat, ticks: nat): nat {
    if ticks == 0 then 0 else Sent(rate, ticks - 1) + Burst(rate, ticks - 1)
  }

  /** Nothing is lost to rounding: the carry is exactly what has not been sent yet. */
  lemma {:induction false} CarryIsTheRemainder(rate: nat, ticks: nat)
    ensures PRECISION * Sent(rate, ticks) + Carry(rate, ticks) == ticks * rate
    ensures Carry(rate, ticks) < PRECISION
  {
    if ticks > 0 {
      CarryIsTheRemainder(rate, ticks - 1);
      assert ticks * rate == (ticks - 1) * rate + rate;
    }
  }

  /** Any stretch of ticks sends its share of the rate, less than one transaction off. */
  lemma StretchIsProportional(rate: nat, from: nat, ticks: nat)
    ensures -20 < PRECISION * (Sent(rate, from + ticks) - Sent(rate, from)) - ticks * rate < PRECISION
  {
    CarryIsTheRemainder(rate, from);
    CarryIsTheRemainder(rate, from + ticks);
    assert (from + ticks) * rate == from * rate + ticks * rate;
  }

  /** Any twenty consecutive ticks, which is one second, send exactly the rate. */
  lemma SecondIsExact(rate: nat, from: nat)
    ensures Sent(rate, from + PRECISION) == Sent(rate, from) + rate
  {
    StretchIsProportional(rate, from, PRECISION);
  }

  // ---- One burst ---------------------------------------------------------------------------

  /** A background or uncounted transaction; identifiers are 64-bit. */
  function Identified(counted: bool, id: nat): Tx {
    Tx(if counted then 1 else 2, id % U64)
  }

  /** How many of the first `x` transactions draw an identifier, the sample being at `sample`. */
  function Background(counted: bool, sample: nat, x: nat): nat {
    if counted && x > sample then x - 1 else x
  }

  /** The `x`th transaction of tick `counter`, when `id` identifiers were drawn before it. */
  function Transaction(counted: bool, counter: nat, sample: nat, id: nat, x: nat): Tx {
    if counted && x == sample then Tx(0, counter) else Identified(counted, id + Background(counted, sample, x + 1))
  }

  function BatchAt(counted: bool, counter: nat, sample: nat, n: nat, id: nat): (batch: seq<Tx>)
    ensures |batch| == n
  {
    seq(n, x requires 0 <= x => Transaction(counted, counter, sample, id, x))
  }

  function SamplePosition(counter: nat, n: nat): (sample: nat)
    ensures n > 0 ==> sample < n
  {
    if n == 0 then 0 else counter % n
  }

  function Batch(counted: bool, counter: nat, n: nat, id: nat): (batch: seq<Tx>)
    ensures |batch| == n
  {
    BatchAt(counted, counter, SamplePosition(counter, n), n, id)
  }

  function IsSample(): Tx -> bool {
    (tx: Tx) => tx.marker == 0
  }

  function IsBackground(): Tx -> bool {
    (tx: Tx) => tx.marker != 0
  }

  /** `count` transactions with the identifiers that follow `id`. */
  function Identifiers(counted: bool, id: nat, count: nat): (txs: seq<Tx>)
    ensures |txs| == count
  {
    seq(count, j requires 0 <= j => Identified(counted, id + j + 1))
  }

  lemma IdentifiersContinue(counted: bool, id: nat, a: nat, b: nat)
    ensures Identifiers(counted, id, a) + Identifiers(counted, id + a, b) == Identifiers(counted, id, a + b)
  {
    var xs, ys, all := Identifiers(counted, id, a), Identifiers(counted, id + a, b), Identifiers(counted, id, a + b);
    forall j | 0 <= j < b ensures ys[j] == all[a + j] {
      assert id + a + j + 1 == id + (a + j) + 1;
    }
    assert xs + ys == all;
  }

  lemma IdentifiersSnoc(counted: bool, id: nat, k: nat)
    ensures Identifiers(counted, id, k + 1) == Identifiers(counted, id, k) + [Identified(counted, id + k + 1)]
  {
  }

  lemma KeepLast(txs: seq<Tx>, k: nat, keep: Tx -> bool)
    requires k < |txs|
    ensures Keep(txs[..k + 1], keep) == Keep(txs[..k], keep) + if keep(txs[k]) then [txs[k]] else []
  {
    assert txs[..k + 1] == txs[..k] + [txs[k]];
    KeepConcat(txs[..k], [txs[k]], keep);
    KeepOne(txs[k], keep);
  }

  /** The samples among the first `k` transactions of a tick. */
  lemma {:induction false} SampleOfBatch(counted: bool, counter: nat, sample: nat, n: nat, id: nat, k: nat)
    requires k <= n
    ensures Keep(BatchAt(counted, counter, sample, n, id)[..k], IsSample()) == if counted && sample < k then [Tx(0, counter)] else []
  {
    if k > 0 {
      SampleOfBatch(counted, counter, sample, n, id, k - 1);
      KeepLast(BatchAt(counted, counter, sample, n, id), k - 1, IsSample());
    }
  }

  /** The background transactions among the first `k` of a tick. */
  lemma {:induction false} BackgroundOfBatch(counted: bool, counter: nat, sample: nat, n: nat, id: nat, k: nat)
    requires k <= n
    ensures Keep(BatchAt(counted, counter, sample, n, id)[..k], IsBackground())
         == Identifiers(counted, id, Background(counted, sample, k))
  {
    if k > 0 {
      BackgroundOfBatch(counted, counter, sample, n, id, k - 1);
      KeepLast(BatchAt(counted, counter, sample, n, id), k - 1, IsBackground());
      IdentifiersSnoc(counted, id, Background(counted, sample, k - 1));
    }
  }

  /** How many identifiers a tick of `n` transactions draws. */
  function Draws(counted: bool, n: nat): nat {
    if counted && n > 0 then n - 1 else n
  }

  /** A counted tick that sends anything carries exactly one sample, numbered by the tick, an uncounted
      one carries none, and the other transactions carry the next identifiers in order. */
  lemma WholeBatch(counted: bool, counter: nat, n: nat, id: nat)
    ensures Keep(Batch(counted, counter, n, id), IsSample()) == if counted && n > 0 then [Tx(0, counter)] else []
    ensures Keep(Batch(counted, counter, n, id), IsBackground()) == Identifiers(counted, id, Draws(counted, n))
  {
    var batch, sample := Batch(counted, counter, n, id), SamplePosition(counter, n);
    SampleOfBatch(counted, counter, sample, n, id, n);
    BackgroundOfBatch(counted, counter, sample, n, id, n);
    assert batch[..n] == batch;
  }

  // ---- A whole run ---------------------------------------------------------------------------

  /** How many identifiers ticks of these sizes draw. */
  function Drawn(counted: bool, bursts: seq<nat>): nat {
    if bursts == [] then 0 else Drawn(counted, bursts[..|bursts| - 1]) + Draws(counted, bursts[|bursts| - 1])
  }

  /** Everything ticks of these sizes send, from the identifier `id` on. */
  function History(counted: bool, bursts: seq<nat>, id: nat): seq<Tx> {
    if bursts == [] then []
    else
      var front, n := bursts[..|bursts| - 1], bursts[|bursts| - 1];
      History(counted, front, id) + Batch(counted, |front|, n, id + Drawn(counted, front))
  }

  /** One sample for each counted tick that sends anything, numbered by the tick. */
  function Samples(counted: bool, bursts: seq<nat>): seq<Tx> {
    if bursts == [] then []
    else
      var front, n := bursts[..|bursts| - 1], bursts[|bursts| - 1];
      Samples(counted, front) + if counted && n > 0 then [Tx(0, |front|)] else []
  }

  /** Over any number of ticks the samples sent are exactly the numbers of the counted, non-empty
      ticks. */
  lemma {:induction false} RunSendsSamples(counted: bool, bursts: seq<nat>, id: nat)
    ensures Keep(History(counted, bursts, id), IsSample()) == Samples(counted, bursts)
  {
    if bursts != [] {
      var front, n := bursts[..|bursts| - 1], bursts[|bursts| - 1];
      var at := id + Drawn(counted, front);
      RunSendsSamples(counted, front, id);
      KeepConcat(History(counted, front, id), Batch(counted, |front|, n, at), IsSample());
      WholeBatch(counted, |front|, n, at);
    }
  }

  /** Background identifiers run on from tick to tick without a gap or a repetition, modulo 2^64. */
  lemma {:induction false} RunSendsIdentifiers(counted: bool, bursts: seq<nat>, id: nat)
    ensures Keep(History(counted, bursts, id), IsBackground()) == Identifiers(counted, id, Drawn(counted, bursts))
  {
    if bursts != [] {
      var front, n := bursts[..|bursts| - 1], bursts[|bursts| - 1];
      var drawn := Drawn(counted, front);
      RunSendsIdentifiers(counted, front, id);
      KeepConcat(History(counted, front, id), Batch(counted, |front|, n, id + drawn), IsBackground());
      WholeBatch(counted, |front|, n, id + drawn);
      IdentifiersContinue(counted, id, drawn, Draws(counted, n));
    }
  }

  /** The samples of a run are in increasing order, one for each counted, non-empty tick. */
  lemma {:induction false} SamplesNumberTicks(counted: bool, bursts: seq<nat>)
    ensures forall i, j :: 0 <= i < j < |Samples(counted, bursts)| ==> Samples(counted, bursts)[i].id < Samples(counted, bursts)[j].id
    ensures forall k: nat :: Tx(0, k) in Samples(counted, bursts) <==> k < |bursts| && counted && bursts[k] > 0
    ensures forall tx :: tx in Samples(counted, bursts) ==> tx.marker == 0 && tx.id < |bursts|
  {
    if bursts != [] {
      SamplesNumberTicks(counted, bursts[..|bursts| - 1]);
    }
  }

  /** The bursts of the first `ticks` ticks at a rate. */
  function Bursts(rate: nat, ticks: nat): (bursts: seq<nat>)
    ensures |bursts| == ticks
  {
    if ticks == 0 then [] else Bursts(rate, ticks - 1) + [Burst(rate, ticks - 1)]
  }

  lemma HistoryGrows(counted: bool, bursts: seq<nat>, n: nat, id: nat)
    ensures History(counted, bursts + [n], id) == History(counted, bursts, id) + Batch(counted, |bursts|, n, id + Drawn(counted, bursts))
    ensures Drawn(counted, bursts + [n]) == Drawn(counted, bursts) + Draws(counted, n)
  {
    assert (bursts + [n])[..|bursts|] == bursts;
  }

  lemma TickGrows(counted: bool, rate: nat, ticks: nat, id: nat)
    ensures
      var before, n := Bursts(rate, ticks), Burst(rate, ticks);
      && History(counted, Bursts(rate, ticks + 1), id) == History(counted, before, id) + Batch(counted, ticks, n, id + Drawn(counted, before))
      && Drawn(counted, Bursts(rate, ticks + 1)) == Drawn(counted, before) + Draws(counted, n)
  {
    HistoryGrows(counted, Bursts(rate, ticks), Burst(rate, ticks), id);
  }

  function Sum(bursts: seq<nat>): nat {
    if bursts == [] then 0 else Sum(bursts[..|bursts| - 1]) + bursts[|bursts| - 1]
  }

  lemma {:induction false} HistoryLength(counted: bool, bursts: seq<nat>, id: nat)
    ensures |History(counted, bursts, id)| == Sum(bursts)
  {
    if bursts != [] {
      HistoryLength(counted, bursts[..|bursts| - 1], id);
    }
  }

  lemma {:induction false} BurstsSum(rate: nat, ticks: nat)
    ensures Sum(Bursts(rate, ticks)) == Sent(rate, ticks)
  {
    if ticks > 0 {
      BurstsSum(rate, ticks - 1);
      assert Bursts(rate, ticks)[..ticks - 1] == Bursts(rate, ticks - 1);
    }
  }

  /** The run sends as many transactions as the rate prescribes. */
  lemma RunFollowsRate(counted: bool, rate: nat, id: nat, ticks: nat)
    ensures |History(counted, Bursts(rate, ticks), id)| == Sent(rate, ticks)
  {
    HistoryLength(counted, Bursts(rate, ticks), id);
    BurstsSum(rate, ticks);
  }

  lemma SuccessorModulo(a: nat)
    ensures (a % U64 + 1) % U64 == (a + 1) % U64
  {
  }

  lemma TakeNext(before: seq<Tx>, batch: seq<Tx>, x: nat, tx: Tx)
    requires x < |batch| && tx == batch[x]
    ensures before + batch[..x] + [tx] == before + batch[..x + 1]
  {
  }

  /** How many identifiers a run has drawn, counted from its first one. */
  function DrawnBy(rate: nat, counted: bool, first: nat, ticks: nat): nat {
    first + Drawn(counted, Bursts(rate, ticks))
  }

  /** The client's variables after `ticks` ticks. */
  ghost predicate InRun(rate: nat, counted: bool, first: nat, ticks: nat, carry: nat, id: nat, sent: seq<Tx>) {
    && carry == Carry(rate, ticks)
    && id == DrawnBy(rate, counted, first, ticks) % U64
    && sent == History(counted, Bursts(rate, ticks), first)
  }

  lemma NextTick(rate: nat, counted: bool, first: nat, ticks: nat, carry: nat, carry': nat, id: nat, id': nat, sent: seq<Tx>)
    requires InRun(rate, counted, first, ticks, carry, id, sent)
    requires carry' == Carry(rate, ticks + 1)
    requires id' == (DrawnBy(rate, counted, first, ticks) + Draws(counted, Burst(rate, ticks))) % U64
    ensures InRun(rate, counted, first, ticks + 1, carry', id',
                  sent + Batch(counted, ticks, Burst(rate, ticks), DrawnBy(rate, counted, first, ticks)))
  {
    TickGrows(counted, rate, ticks, first);
    DrawnGrows(rate, counted, first, ticks);
  }

  lemma DrawnGrows(rate: nat, counted: bool, first: nat, ticks: nat)
    ensures DrawnBy(rate, counted, first, ticks + 1) == DrawnBy(rate, counted, first, ticks) + Draws(counted, Burst(rate, ticks))
  {
    TickGrows(counted, rate, ticks, first);
  }

  class Client {
    const rate: nat
    const counted: bool
    var carry: nat
    var counter: nat
    var randomId: nat
    var sent: seq<Tx>
    /** The random identifier the client started from. */
    ghost const first: nat

    /** How many identifiers have been drawn, counted from `first`. */
    ghost function Position(): nat
      reads this
    {
      DrawnBy(rate, counted, first, counter)
    }

    ghost predicate Valid()
      reads this
    {
      InRun(rate, counted, first, counter, carry, randomId, sent)
    }

    constructor (rate: nat, counted: bool, id: nat)
      requires id < U64
      ensures Valid() && this.rate == rate && this.counted == counted
      ensures counter == 0 && first == id && sent == []
    {
      this.rate, this.counted, first := rate, counted, id;
      carry, counter, randomId, sent := 0, 0, id, [];
    }

    /** The header of transaction `x` of a burst of `n`. */
    method Header(x: nat, n: nat, ghost id: nat) returns (tx: Tx)
      requires x < n && randomId == (id + Background(counted, counter % n, x)) % U64
      modifies this`randomId
      ensures tx == Transaction(counted, counter, counter % n, id, x)
      ensures randomId == (id + Background(counted, counter % n, x + 1)) % U64
    {
      SuccessorModulo(id + Background(counted, counter % n, x));
      if !counted {
        randomId := (randomId + 1) % U64;
        tx := Tx(2, randomId);
      } else if x == counter % n {
        tx := Tx(0, counter);
      } else {
        randomId := (randomId + 1) % U64;
        tx := Tx(1, randomId);
      }
    }

    /** Sends `n` transactions; `room` is how many the connection still takes before it fails. */
    method Send(n: nat, room: nat, ghost id: nat) returns (alive: bool)
      requires randomId == id % U64
      modifies this`sent, this`randomId
      ensures alive <==> n <= room
      ensures alive ==> randomId == (id + Draws(counted, n)) % U64
      ensures
        var batch := Batch(counted, counter, n, id);
        sent == old(sent) + if alive then batch else batch[..room]
    {
      ghost var batch, before := Batch(counted, counter, n, id), sent;
      for x := 0 to n
        invariant x <= room && sent == before + batch[..x]
        invariant randomId == (id + Background(counted, SamplePosition(counter, n), x)) % U64
      {
        var tx := Header(x, n, id);
        if x == room {
          return false;
        }
        TakeNext(before, batch, x, tx);
        sent := sent + [tx];
      }
      assert batch[..n] == batch;
      return true;
    }

    /** The fractional accumulator. */
    method Pace() returns (n: nat)
      requires carry == Carry(rate, counter)
      modifies this`carry
      ensures n == Burst(rate, counter) && carry == Carry(rate, counter + 1)
    {
      carry := carry + rate;
      n := carry / PRECISION;
      carry := carry % PRECISION;
    }

    /** One tick: the burst the rate allows, and the carry kept for the next one. Everything sent so far
        is the history of the run, or a prefix of it when the connection fails. */
    method Tick(room: nat) returns (alive: bool)
      requires Valid()
      modifies this
      ensures alive <==> Burst(rate, old(counter)) <= room
      ensures alive ==> Valid() && counter == old(counter) + 1
      ensures !alive ==> sent == old(sent) + Batch(counted, old(counter), Burst(rate, old(counter)), old(Position()))[..room]
    {
      ghost var carry', id', sent' := carry, randomId, sent;
      var n := Pace();
      alive := Send(n, room, Position());
      if !alive {
        return;
      }
      NextTick(rate, counted, first, counter, carry', carry, id', randomId, sent');
      counter := counter + 1;
    }
  }
}
