/**
 * DCTCP congestion control (src/internet/model/tcp-dctcp.cc). The sender keeps alpha, a moving
 * average of the fraction of acknowledged bytes that carried an ECN echo, updated once per round
 * trip, and cuts the window by alpha / 2. The receiver side tracks whether the last data packet
 * was CE-marked and, when that changes while an ACK is being delayed, sends the delayed ACK at
 * once with ECE echoing the previous state (section 3.2 of RFC 8257).
 */
module Dctcp {
  import opened Wrappers
  import opened Words

  /** Default of the g attribute: the weight of the newest round trip in alpha. */
  const DEFAULT_G: real := 0.0625

  /** TcpSocketState's congestion states. */
  datatype CongState = CaOpen | CaDisorder | CaCwr | CaRecovery | CaLoss

  /** The congestion events CwndEvent reacts to; every other event is Other. */
  datatype CongEvent = EcnIsCe | EcnNoCe | DelayAckReserved | DelayAckNoReserved | Other

  /** The flags of the empty segment CwndEvent sends: ACK, or ACK | ECE. */
  datatype AckFlags = Ack | AckEce

  /** The fields of TcpSocketState that DCTCP reads or writes. */
  class TcpSocketState {
    var cWnd: nat
    var segmentSize: nat
    var congState: CongState
    var demandCwr: bool

    constructor (cWnd: nat, segmentSize: nat, congState: CongState)
      ensures this.cWnd == cWnd && this.segmentSize == segmentSize
      ensures this.congState == congState && !demandCwr
    {
      this.cWnd := cWnd;
      this.segmentSize := segmentSize;
      this.congState := congState;
      demandCwr := false;
    }
  }

  /** The marked fraction of a round trip: 0 when nothing was acknowledged. */
  function MarkedFraction(ecnBytesAcked: nat, bytesAcked: nat): (f: real)
    ensures ecnBytesAcked <= bytesAcked ==> 0.0 <= f <= 1.0
    ensures bytesAcked > 0 && ecnBytesAcked == bytesAcked ==> f == 1.0
    ensures ecnBytesAcked == 0 ==> f == 0.0
  {
    if bytesAcked == 0 then 0.0 else (ecnBytesAcked as real) / (bytesAcked as real)
  }

  /** UpdateAlpha's new alpha: (1 - g) * alpha + g * f. */
  function NextAlpha(alpha: real, g: real, f: real): real
  {
    (1.0 - g) * alpha + g * f
  }

  /** With 0 <= g <= 1, alpha stays between 0 and 1, and it moves towards the newest fraction. */
  lemma AlphaBounds(alpha: real, g: real, f: real)
    requires 0.0 <= g <= 1.0 && 0.0 <= alpha <= 1.0 && 0.0 <= f <= 1.0
    ensures 0.0 <= NextAlpha(alpha, g, f) <= 1.0
    ensures f <= alpha ==> f <= NextAlpha(alpha, g, f) <= alpha
    ensures alpha <= f ==> alpha <= NextAlpha(alpha, g, f) <= f
  {
    var a' := NextAlpha(alpha, g, f);
    assert a' - alpha == g * (f - alpha);
    assert a' - f == (1.0 - g) * (alpha - f);
    assert 0.0 <= (1.0 - g) * alpha;
    assert 0.0 <= g * f;
    assert (1.0 - g) * alpha <= 1.0 - g by {
      assert (1.0 - g) * (1.0 - alpha) >= 0.0;
    }
    assert g * f <= g by {
      assert g * (1.0 - f) >= 0.0;
    }
    if f <= alpha {
      MulNonNegative(g, alpha - f);
      MulNonNegative(1.0 - g, alpha - f);
      assert g * (f - alpha) == -(g * (alpha - f));
    } else {
      MulNonNegative(g, f - alpha);
      MulNonNegative(1.0 - g, f - alpha);
      assert (1.0 - g) * (alpha - f) == -((1.0 - g) * (f - alpha));
    }
  }

  lemma MulNonNegative(a: real, b: real)
    requires 0.0 <= a && 0.0 <= b
    ensures 0.0 <= a * b
  {
  }

  /** (1 - g)^k */
  function Decay(g: real, k: nat): real
  {
    if k == 0 then 1.0 else (1.0 - g) * Decay(g, k - 1)
  }

  /** alpha after k round trips with the given marked fractions. */
  function AlphaAfter(alpha: real, g: real, fs: seq<real>): real
    decreases |fs|
  {
    if fs == [] then alpha else AlphaAfter(NextAlpha(alpha, g, fs[0]), g, fs[1..])
  }

  /** Round trips without marks shrink alpha geometrically: after k of them it is (1 - g)^k * alpha. */
  lemma {:induction false} UnmarkedRoundsDecay(alpha: real, g: real, fs: seq<real>)
    requires forall i :: 0 <= i < |fs| ==> fs[i] == 0.0
    ensures AlphaAfter(alpha, g, fs) == Decay(g, |fs|) * alpha
    decreases |fs|
  {
    if fs != [] {
      UnmarkedRoundsDecay(NextAlpha(alpha, g, 0.0), g, fs[1..]);
      assert NextAlpha(alpha, g, 0.0) == (1.0 - g) * alpha;
      assert Decay(g, |fs|) == (1.0 - g) * Decay(g, |fs| - 1);
    }
  }

  /** Whatever the marks, alpha stays a fraction. */
  lemma {:induction false} AlphaStaysFraction(alpha: real, g: real, fs: seq<real>)
    requires 0.0 <= g <= 1.0 && 0.0 <= alpha <= 1.0
    requires forall i :: 0 <= i < |fs| ==> 0.0 <= fs[i] <= 1.0
    ensures 0.0 <= AlphaAfter(alpha, g, fs) <= 1.0
    decreases |fs|
  {
    if fs != [] {
      AlphaBounds(alpha, g, fs[0]);
      AlphaStaysFraction(NextAlpha(alpha, g, fs[0]), g, fs[1..]);
    }
  }

  /** (1 - alpha / 2) * cWnd, truncated as static_cast<uint32_t> truncates. */
  function ReducedWindow(alpha: real, cWnd: nat): (w: int)
    ensures 0.0 <= alpha <= 1.0 ==> cWnd / 2 <= w <= cWnd
  {
    ReducedWindowBounds(alpha, cWnd);
    ((1.0 - alpha / 2.0) * (cWnd as real)).Floor
  }

  lemma ReducedWindowBounds(alpha: real, cWnd: nat)
    ensures 0.0 <= alpha <= 1.0 ==>
      cWnd / 2 <= ((1.0 - alpha / 2.0) * (cWnd as real)).Floor <= cWnd
  {
    if 0.0 <= alpha <= 1.0 {
      var x := (1.0 - alpha / 2.0) * (cWnd as real);
      assert (cWnd as real) / 2.0 <= x <= cWnd as real by {
        assert x == (cWnd as real) - (alpha / 2.0) * (cWnd as real);
        assert 0.0 <= (alpha / 2.0) * (cWnd as real) <= (cWnd as real) / 2.0;
      }
      assert ((cWnd / 2) as real) <= (cWnd as real) / 2.0;
    }
  }

  class TcpDctcp {
    var g: real
    var alpha: real
    var isCe: bool
    var hasDelayedAck: bool
    var bytesAcked: nat
    var ecnBytesAcked: nat
    var highTxMark: nat

    /** alpha is a fraction, g a weight, and echoed bytes are part of the acknowledged ones. */
    predicate Valid()
      reads this
    {
      0.0 <= g <= 1.0 && 0.0 <= alpha <= 1.0 && ecnBytesAcked <= bytesAcked
    }

    constructor ()
      ensures Valid()
      ensures g == DEFAULT_G && alpha == 1.0 && !isCe && !hasDelayedAck
      ensures bytesAcked == 0 && ecnBytesAcked == 0 && highTxMark == 0
    {
      g, alpha, isCe, hasDelayedAck := DEFAULT_G, 1.0, false, false;
      bytesAcked, ecnBytesAcked, highTxMark := 0, 0, 0;
    }

    /** The copy constructor (used by Fork) keeps g, alpha and the counters but not the receiver state. */
    constructor Copy(sock: TcpDctcp)
      requires sock.Valid()
      ensures Valid()
      ensures g == sock.g && alpha == sock.alpha && !isCe && !hasDelayedAck
      ensures bytesAcked == sock.bytesAcked && ecnBytesAcked == sock.ecnBytesAcked
      ensures highTxMark == sock.highTxMark
    {
      g, alpha, isCe, hasDelayedAck := sock.g, sock.alpha, false, false;
      bytesAcked, ecnBytesAcked, highTxMark := sock.bytesAcked, sock.ecnBytesAcked, sock.highTxMark;
    }

    /** PktsAcked: count the acknowledged bytes; once per round trip update alpha. */
    method PktsAcked(tcb: TcpSocketState, segmentsAcked: nat, withEce: bool, highTxMark': nat, ackNumber: nat)
      requires Valid()
      modifies this
      ensures Valid() && g == old(g) && isCe == old(isCe) && hasDelayedAck == old(hasDelayedAck)
      ensures var acked := old(bytesAcked) + segmentsAcked * tcb.segmentSize;
        var echoed := old(ecnBytesAcked) + if withEce then segmentsAcked * tcb.segmentSize else 0;
        if ackNumber >= old(highTxMark)
        then alpha == NextAlpha(old(alpha), g, MarkedFraction(echoed, acked))
             && bytesAcked == 0 && ecnBytesAcked == 0 && highTxMark == highTxMark'
        else alpha == old(alpha) && bytesAcked == acked && ecnBytesAcked == echoed
             && highTxMark == old(highTxMark)
    {
      bytesAcked := bytesAcked + segmentsAcked * tcb.segmentSize;
      if withEce {
        ecnBytesAcked := ecnBytesAcked + segmentsAcked * tcb.segmentSize;
      }
      if ackNumber >= highTxMark {
        highTxMark := highTxMark';
        UpdateAlpha();
      }
    }

    /** UpdateAlpha: fold the round trip's marked fraction into alpha and restart the counts. */
    method UpdateAlpha()
      requires Valid()
      modifies this
      ensures Valid() && g == old(g) && isCe == old(isCe) && hasDelayedAck == old(hasDelayedAck)
      ensures highTxMark == old(highTxMark)
      ensures alpha == NextAlpha(old(alpha), g, MarkedFraction(old(ecnBytesAcked), old(bytesAcked)))
      ensures bytesAcked == 0 && ecnBytesAcked == 0
    {
      var f := MarkedFraction(ecnBytesAcked, bytesAcked);
      AlphaBounds(alpha, g, f);
      alpha := (1.0 - g) * alpha + g * f;
      bytesAcked := 0;
      ecnBytesAcked := 0;
    }

    /**
     * CwndEvent: on a change of the CE state, the delayed ACK (if one is pending) goes out at
     * once, with ECE exactly when the old state was CE; demandCWR follows the new state.
     */
    method CwndEvent(tcb: TcpSocketState, ev: CongEvent) returns (sent: Option<AckFlags>)
      modifies this, tcb
      ensures g == old(g) && alpha == old(alpha) && bytesAcked == old(bytesAcked)
      ensures ecnBytesAcked == old(ecnBytesAcked) && highTxMark == old(highTxMark)
      ensures tcb.cWnd == old(tcb.cWnd) && tcb.segmentSize == old(tcb.segmentSize)
      ensures tcb.congState == old(tcb.congState)
      ensures (isCe, hasDelayedAck, sent) == CeStep(old(isCe), old(hasDelayedAck), ev)
      ensures tcb.demandCwr == if old(isCe) != isCe then isCe else old(tcb.demandCwr)
    {
      sent := None;
      if ev == EcnIsCe && !isCe {
        if hasDelayedAck {
          sent := Some(Ack);
        }
        tcb.demandCwr := true;
        isCe := true;
      } else if ev == EcnNoCe && isCe {
        if hasDelayedAck {
          sent := Some(AckEce);
        }
        tcb.demandCwr := false;
        isCe := false;
      } else if ev == DelayAckReserved {
        hasDelayedAck := true;
      } else if ev == DelayAckNoReserved {
        hasDelayedAck := false;
      }
    }

    /**
     * IncreaseWindow: held in CWR; otherwise NewReno's increase, which is not part of this model
     * and is given as renoIncrease from the old window and the acknowledged segments.
     */
    method IncreaseWindow(tcb: TcpSocketState, segmentsAcked: nat, renoIncrease: (nat, nat) -> nat)
      modifies tcb
      ensures tcb.cWnd == if old(tcb.congState) == CaCwr then old(tcb.cWnd) else renoIncrease(old(tcb.cWnd), segmentsAcked)
      ensures tcb.congState == old(tcb.congState) && tcb.demandCwr == old(tcb.demandCwr)
      ensures tcb.segmentSize == old(tcb.segmentSize)
    {
      if tcb.congState != CaCwr {
        tcb.cWnd := renoIncrease(tcb.cWnd, segmentsAcked);
      }
    }

    /**
     * GetSsThresh: NewReno's threshold (given as renoSsThresh) in recovery, otherwise the larger
     * of the alpha-reduced window and half the bytes in flight.
     */
    function GetSsThresh(tcb: TcpSocketState, bytesInFlight: nat, renoSsThresh: nat): (t: int)
      requires Valid()
      reads this, tcb
      ensures tcb.congState != CaRecovery ==> t >= bytesInFlight / 2 && t >= tcb.cWnd / 2
      ensures tcb.congState != CaRecovery && bytesInFlight / 2 <= tcb.cWnd / 2 ==> t <= tcb.cWnd
    {
      if tcb.congState == CaRecovery then renoSsThresh
      else
        var reduced := ReducedWindow(alpha, tcb.cWnd);
        if reduced >= bytesInFlight / 2 then reduced else bytesInFlight / 2
    }

    /** GetCwnd: the window cut by alpha / 2, between half the window and the window. */
    function GetCwnd(tcb: TcpSocketState): (w: int)
      requires Valid()
      reads this, tcb
      ensures tcb.cWnd / 2 <= w <= tcb.cWnd
    {
      ReducedWindow(alpha, tcb.cWnd)
    }
  }

  /** The receiver's CE state machine: new isCE, new hasDelayedACK and the segment sent, if any. */
  function CeStep(isCe: bool, hasDelayedAck: bool, ev: CongEvent): (r: (bool, bool, Option<AckFlags>))
    ensures r.2.Some? ==> hasDelayedAck && r.0 != isCe && (r.2.value == AckEce <==> isCe)
    ensures r.0 != isCe && hasDelayedAck ==> r.2.Some?
    ensures r.0 == if ev == EcnIsCe then true else if ev == EcnNoCe then false else isCe
    ensures r.1 == if ev == DelayAckReserved then true else if ev == DelayAckNoReserved then false else hasDelayedAck
  {
    if ev == EcnIsCe && !isCe then (true, hasDelayedAck, if hasDelayedAck then Some(Ack) else None)
    else if ev == EcnNoCe && isCe then (false, hasDelayedAck, if hasDelayedAck then Some(AckEce) else None)
    else if ev == DelayAckReserved then (isCe, true, None)
    else if ev == DelayAckNoReserved then (isCe, false, None)
    else (isCe, hasDelayedAck, None)
  }

  /** The CE state after a series of events starting from isCe. */
  function CeAfter(isCe: bool, hasDelayedAck: bool, evs: seq<CongEvent>): bool
    decreases |evs|
  {
    if evs == [] then isCe
    else var (ce, delayed, _) := CeStep(isCe, hasDelayedAck, evs[0]); CeAfter(ce, delayed, evs[1..])
  }

  /** The index of the last ECN event in evs, if any. */
  function LastEcnEvent(evs: seq<CongEvent>): (i: Option<nat>)
    ensures i.Some? ==> i.value < |evs| && evs[i.value] in {EcnIsCe, EcnNoCe}
    ensures i.Some? ==> forall j :: i.value < j < |evs| ==> evs[j] !in {EcnIsCe, EcnNoCe}
    ensures i.None? ==> forall j :: 0 <= j < |evs| ==> evs[j] !in {EcnIsCe, EcnNoCe}
    decreases |evs|
  {
    if evs == [] then None
    else if evs[|evs| - 1] in {EcnIsCe, EcnNoCe} then Some(|evs| - 1)
    else LastEcnEvent(evs[..|evs| - 1])
  }

  /** The receiver's CE state is the CE state of the last data packet seen (or the initial one). */
  lemma {:induction false} CeTracksLastPacket(isCe: bool, hasDelayedAck: bool, evs: seq<CongEvent>)
    ensures CeAfter(isCe, hasDelayedAck, evs) ==
      match LastEcnEvent(evs) case None => isCe case Some(i) => evs[i] == EcnIsCe
    decreases |evs|
  {
    if evs != [] {
      var (ce, delayed, _) := CeStep(isCe, hasDelayedAck, evs[0]);
      CeTracksLastPacket(ce, delayed, evs[1..]);
      var tail := evs[1..];
      match LastEcnEvent(tail)
      case Some(i) =>
        assert evs[i + 1] == tail[i];
        LastEcnShift(evs);
      case None =>
        LastEcnShift(evs);
    }
  }

  /** Dropping the first event shifts the last ECN event by one, unless it was the first one. */
  lemma {:induction false} LastEcnShift(evs: seq<CongEvent>)
    requires evs != []
    ensures match LastEcnEvent(evs[1..])
      case Some(i) => LastEcnEvent(evs) == Some(i + 1)
      case None => LastEcnEvent(evs) == if evs[0] in {EcnIsCe, EcnNoCe} then Some(0) else None
    decreases |evs|
  {
    if |evs| > 1 {
      var last := evs[|evs| - 1];
      assert evs[1..][..|evs[1..]| - 1] == evs[..|evs| - 1][1..];
      if last !in {EcnIsCe, EcnNoCe} {
        LastEcnShift(evs[..|evs| - 1]);
      }
    }
  }
}
