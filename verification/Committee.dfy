/** Stake thresholds of a committee (config/src/lib.rs). */
module Committee {
  import opened Words

  /** Stake of the authorities whose index is in `voters`. */
  function StakeOf(stakes: seq<nat>, voters: set<nat>): nat {
    if stakes == [] then 0
    else
      var last := |stakes| - 1;
      StakeOf(stakes[..last], voters) + (if last in voters then stakes[last] else 0)
  }

  function Everyone(stakes: seq<nat>): (everyone: set<nat>)
    ensures forall i :: i in everyone <==> 0 <= i < |stakes|
  {
    if stakes == [] then {} else Everyone(stakes[..|stakes| - 1]) + {|stakes| - 1}
  }

  function Total(stakes: seq<nat>): nat {
    StakeOf(stakes, Everyone(stakes))
  }

  /** The fault budget of a total stake. */
  function Faults(total: nat): nat {
    if total == 0 then 0 else (total - 1) / 3
  }

  /** `2 * total / 3 + 1` in 32-bit arithmetic, as is the sum the total comes from. */
  function QuorumThreshold(stakes: seq<nat>): nat {
    2 * (Total(stakes) % U32) % U32 / 3 + 1
  }

  /** `total.div_ceil(3)` in 32-bit arithmetic. */
  function ValidityThreshold(stakes: seq<nat>): nat {
    (Total(stakes) % U32 + 2) / 3
  }

  /** The quorum is the total without the fault budget exactly while the doubled total fits 32 bits. */
  lemma QuorumIsTotalLessFaults(stakes: seq<nat>)
    ensures QuorumThreshold(stakes) == Total(stakes) - Faults(Total(stakes)) <==> 1 <= Total(stakes) < 0x8000_0000
  {
    var n := Total(stakes);
    if n < 0x8000_0000 {
      assert n % U32 == n && 2 * n % U32 == 2 * n;
    } else {
      var doubled := 2 * (n % U32) % U32;
      assert doubled % 2 == 0 && doubled < U32;
    }
  }

  /** The validity threshold is one more than the fault budget exactly while the total fits 32 bits. */
  lemma ValidityIsOneMoreThanFaults(stakes: seq<nat>)
    ensures ValidityThreshold(stakes) == Faults(Total(stakes)) + 1 <==> 1 <= Total(stakes) < U32
  {
    var n := Total(stakes);
    if n >= U32 {
      assert n % U32 < U32;
    }
  }

  /** The documented `2f + 1` is the quorum only when the total is `3f + 1`. */
  lemma QuorumIsTwoFaultsPlusOne(stakes: seq<nat>)
    requires 1 <= Total(stakes) < 0x8000_0000
    ensures var f := Faults(Total(stakes)); QuorumThreshold(stakes) == 2 * f + 1 <==> Total(stakes) == 3 * f + 1
  {
    QuorumIsTotalLessFaults(stakes);
  }

  // ---- Stake of sets ---------------------------------------------------------------------

  lemma {:induction false} StakeSplits(stakes: seq<nat>, a: set<nat>, b: set<nat>)
    ensures StakeOf(stakes, a) + StakeOf(stakes, b) == StakeOf(stakes, a * b) + StakeOf(stakes, a + b)
  {
    if stakes != [] {
      StakeSplits(stakes[..|stakes| - 1], a, b);
    }
  }

  lemma {:induction false} StakeMonotone(stakes: seq<nat>, a: set<nat>, b: set<nat>)
    requires forall i :: 0 <= i < |stakes| && i in a ==> i in b
    ensures StakeOf(stakes, a) <= StakeOf(stakes, b)
  {
    if stakes != [] {
      StakeMonotone(stakes[..|stakes| - 1], a, b);
    }
  }

  lemma {:induction false} NoStake(stakes: seq<nat>, a: set<nat>)
    requires forall i :: 0 <= i < |stakes| ==> i !in a
    ensures StakeOf(stakes, a) == 0
  {
    if stakes != [] {
      NoStake(stakes[..|stakes| - 1], a);
    }
  }

  /** Any two sets of quorum stake share at least validity stake. */
  lemma QuorumsIntersect(stakes: seq<nat>, a: set<nat>, b: set<nat>)
    requires 1 <= Total(stakes) < 0x8000_0000
    requires StakeOf(stakes, a) >= QuorumThreshold(stakes) && StakeOf(stakes, b) >= QuorumThreshold(stakes)
    ensures StakeOf(stakes, a * b) >= ValidityThreshold(stakes)
  {
    StakeSplits(stakes, a, b);
    StakeMonotone(stakes, a + b, Everyone(stakes));
    QuorumIsTotalLessFaults(stakes);
    ValidityIsOneMoreThanFaults(stakes);
  }

  /** Removing any set of at most the fault budget leaves a quorum. */
  lemma QuorumSurvivesFaults(stakes: seq<nat>, faulty: set<nat>)
    requires 1 <= Total(stakes) < 0x8000_0000 && StakeOf(stakes, faulty) <= Faults(Total(stakes))
    ensures StakeOf(stakes, Everyone(stakes) - faulty) >= QuorumThreshold(stakes)
  {
    var rest := Everyone(stakes) - faulty;
    StakeSplits(stakes, rest, faulty);
    NoStake(stakes, rest * faulty);
    StakeMonotone(stakes, Everyone(stakes), rest + faulty);
    QuorumIsTotalLessFaults(stakes);
  }

  /** Any set of validity stake has stake outside every set within the fault budget. */
  lemma ValidityReachesACorrectOne(stakes: seq<nat>, voters: set<nat>, faulty: set<nat>)
    requires 1 <= Total(stakes) < U32
    requires StakeOf(stakes, voters) >= ValidityThreshold(stakes) && StakeOf(stakes, faulty) <= Faults(Total(stakes))
    ensures StakeOf(stakes, voters - faulty) > 0
  {
    var outside, inside := voters - faulty, voters * faulty;
    StakeSplits(stakes, outside, inside);
    NoStake(stakes, outside * inside);
    StakeMonotone(stakes, voters, outside + inside);
    StakeMonotone(stakes, inside, faulty);
    ValidityIsOneMoreThanFaults(stakes);
  }
}
