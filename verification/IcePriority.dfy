/** Candidate and candidate-pair priorities (rtc-ice/src/candidate/mod.rs, rtc-ice/src/candidate/candidate_pair.rs). */
module IcePriority {
  import opened Bytes

  datatype CandidateType = Unspecified | Host | ServerReflexive | PeerReflexive | Relay
  datatype TcpType = NoTcpType | Active | Passive | SimultaneousOpen

  datatype Candidate = Candidate(typ: CandidateType, tcp: bool, tcpType: TcpType, component: nat, priorityOverride: U32)

  function Preference(t: CandidateType): nat {
    match t
    case Host => 126
    case PeerReflexive => 110
    case ServerReflexive => 100
    case _ => 0
  }

  function DirectionPreference(t: CandidateType, k: TcpType): nat {
    match t
    case Unspecified => 0
    case Host => (match k case Active => 6 case Passive => 4 case SimultaneousOpen => 2 case NoTcpType => 0)
    case Relay => (match k case Active => 6 case Passive => 4 case SimultaneousOpen => 2 case NoTcpType => 0)
    case _ => (match k case SimultaneousOpen => 6 case Active => 4 case Passive => 2 case NoTcpType => 0)
  }

  function LocalPreference(c: Candidate): nat {
    if c.tcp then 0x2000 * DirectionPreference(c.typ, c.tcpType) + 8191 else 65535
  }

  /** A component above 256 would make the source's unsigned subtraction wrap. */
  function CandidatePriority(c: Candidate): nat
    requires c.component <= 256
  {
    if c.priorityOverride != 0 then c.priorityOverride
    else 0x100_0000 * Preference(c.typ) + 0x100 * LocalPreference(c) + (256 - c.component)
  }

  /** Computed priorities stay in the range RFC 8445 section 5.1.2 prescribes. */
  lemma ComputedInRange(c: Candidate)
    requires c.component <= 256 && c.priorityOverride == 0
    ensures 1 <= CandidatePriority(c) <= 0x7FFF_FFFF
  {
    assert DirectionPreference(c.typ, c.tcpType) <= 6;
    assert 8191 <= LocalPreference(c) <= 65535;
  }

  /** Candidates of a preferred type come first, whatever the transport and the component from 1 up. */
  lemma TypeDominates(c: Candidate, d: Candidate)
    requires 1 <= c.component <= 256 && 1 <= d.component <= 256 && c.priorityOverride == 0 && d.priorityOverride == 0
    requires Preference(c.typ) < Preference(d.typ)
    ensures CandidatePriority(c) < CandidatePriority(d)
  {
    assert DirectionPreference(c.typ, c.tcpType) <= 6;
    assert LocalPreference(c) <= 65535;
  }

  function Min(a: nat, b: nat): nat {
    if a < b then a else b
  }

  function Max(a: nat, b: nat): nat {
    if a > b then a else b
  }

  function Bit(g: nat, d: nat): nat {
    if g > d then 1 else 0
  }

  /** `g` is the controlling side's priority, `d` the controlled side's. */
  function PairPriority(g: nat, d: nat): nat {
    0xFFFF_FFFF * Min(g, d) + 2 * Max(g, d) + Bit(g, d)
  }

  /** The pair's priority as one of the two agents computes it. */
  function PriorityAt(controlling: bool, local: nat, remote: nat): nat {
    if controlling then PairPriority(local, remote) else PairPriority(remote, local)
  }

  /** The formula of RFC 5245 section 5.7.2. */
  function RfcPriority(g: nat, d: nat): nat {
    0x1_0000_0000 * Min(g, d) + 2 * Max(g, d) + Bit(g, d)
  }

  /** For any 32-bit priorities the source's formula fits 64 bits, and reaches the largest value only at the top. */
  lemma PairPriorityFits(g: U32, d: U32)
    ensures PairPriority(g, d) <= 0xFFFF_FFFF_FFFF_FFFF
    ensures PairPriority(g, d) == 0xFFFF_FFFF_FFFF_FFFF <==> g == d == 0xFFFF_FFFF
  {
  }

  /** The RFC's own formula does not fit: this is what the smaller factor is for. */
  lemma RfcPriorityOverflows()
    ensures RfcPriority(0xFFFF_FFFF, 0xFFFF_FFFF) > 0xFFFF_FFFF_FFFF_FFFF
  {
  }

  ghost predicate Before(g: nat, d: nat, g': nat, d': nat) {
    || Min(g, d) < Min(g', d')
    || (Min(g, d) == Min(g', d') && Max(g, d) < Max(g', d'))
    || (Min(g, d) == Min(g', d') && Max(g, d) == Max(g', d') && Bit(g, d) < Bit(g', d'))
  }

  /** Within 31 bits, pair priorities order pairs by minimum, then maximum, then which side is larger. */
  lemma PairPriorityOrders(g: nat, d: nat, g': nat, d': nat)
    requires g <= 0x7FFF_FFFF && d <= 0x7FFF_FFFF && g' <= 0x7FFF_FFFF && d' <= 0x7FFF_FFFF
    ensures PairPriority(g, d) < PairPriority(g', d') <==> Before(g, d, g', d')
  {
    if Before(g, d, g', d') {
      OrdersOneWay(g, d, g', d');
    } else if Before(g', d', g, d) {
      OrdersOneWay(g', d', g, d);
    }
  }

  lemma OrdersOneWay(g: nat, d: nat, g': nat, d': nat)
    requires g <= 0x7FFF_FFFF && d <= 0x7FFF_FFFF && Before(g, d, g', d')
    ensures PairPriority(g, d) < PairPriority(g', d') && RfcPriority(g, d) < RfcPriority(g', d')
  {
    if Min(g, d) < Min(g', d') {
      assert 0xFFFF_FFFF * (Min(g, d) + 1) <= 0xFFFF_FFFF * Min(g', d');
      assert 0x1_0000_0000 * (Min(g, d) + 1) <= 0x1_0000_0000 * Min(g', d');
    }
  }

  /** The source orders pairs exactly as the formula of RFC 5245 does. */
  lemma OrdersAsRfc(g: nat, d: nat, g': nat, d': nat)
    requires g <= 0x7FFF_FFFF && d <= 0x7FFF_FFFF && g' <= 0x7FFF_FFFF && d' <= 0x7FFF_FFFF
    ensures PairPriority(g, d) < PairPriority(g', d') <==> RfcPriority(g, d) < RfcPriority(g', d')
  {
    if Before(g, d, g', d') {
      OrdersOneWay(g, d, g', d');
    } else if Before(g', d', g, d) {
      OrdersOneWay(g', d', g, d);
    }
  }

  /** Distinct pairs have distinct priorities. */
  lemma PairPriorityInjective(g: nat, d: nat, g': nat, d': nat)
    requires g <= 0x7FFF_FFFF && d <= 0x7FFF_FFFF && g' <= 0x7FFF_FFFF && d' <= 0x7FFF_FFFF
    requires PairPriority(g, d) == PairPriority(g', d')
    ensures g == g' && d == d'
  {
    if Before(g, d, g', d') {
      OrdersOneWay(g, d, g', d');
    } else if Before(g', d', g, d) {
      OrdersOneWay(g', d', g, d);
    }
  }

  /** One step beyond 31 bits two different pairs already collide. */
  lemma CollisionAbove31Bits()
    ensures PairPriority(0x8000_0000, 0) == PairPriority(1, 1)
  {
  }

  /** Both agents compute the same priority for the pair. */
  lemma SameFromBothSides(g: nat, d: nat)
    ensures PriorityAt(true, g, d) == PriorityAt(false, d, g)
  {
  }
}
