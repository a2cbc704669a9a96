/** Band follow as a function of the follow context, and what any number of follows come to. */
module KpaFollow {
  import opened Text
  import opened SafetyGate
  import opened Serial
  import opened KpaLines

  datatype FollowContext = FollowContext(
    band: Option<Band>, wire: Option<string>, requested: Option<nat>, confirmed: Option<nat>,
    matched: Option<bool>, sent: nat, skipped: nat, stale: nat, retries: nat)

  function Skipped(f: FollowContext): FollowContext {
    f.(skipped := SaturatingAdd(f.skipped, 1))
  }

  /** A band that was transmitted, whether or not the amplifier confirmed it. */
  function Followed(f: FollowContext, band: Band, wire: string, c: Confirmation): FollowContext {
    f.(band := Some(band), wire := Some(wire), requested := Some(c.requested),
       confirmed := c.confirmed, matched := Some(c.matched),
       stale := SaturatingAdd(f.stale, c.stale), retries := SaturatingAdd(f.retries, c.retries),
       sent := SaturatingAdd(f.sent, 1))
  }

  /** A report of a confirmed band, in terms of the lines drained and of the trace of its
      transmissions. */
  ghost predicate ReportsBand(c: Confirmation, band: Band, drained: seq<string>, body: seq<PortEvent>)
    requires band != Unknown
  {
    && c.requested == BandOrder(band)
    && ReportsTrace(c, BandWire(band).value, EchoedBand, drained, body)
    && ReportsLast(c.response, c.confirmed, c.aside, LastLines(body), EchoedBand, _ => false,
                   "timeout_waiting_for_exact_bn_echo")
  }

  predicate Transmitting(a: Amp) {
    a.state == TransmitA || a.state == TransmitB
  }

  predicate FollowGateOpen(g: Gate) {
    !g.dryRun && g.allowControl
  }

  /** Would a follow transmit this band now? */
  predicate FollowSends(f: FollowContext, a: Amp, tuning: bool, band: Band, g: Gate) {
    && BandWire(band).Some? && f.wire != BandWire(band)
    && !Transmitting(a) && !tuning && FollowGateOpen(g)
  }

  /** The follow context after one follow. `outcome` is what the peer made of a transmission. */
  function FollowStep(f: FollowContext, a: Amp, tuning: bool, band: Band, g: Gate,
                      outcome: Option<Confirmation>): FollowContext {
    if BandWire(band).None? then Skipped(f)
    else if f.wire == BandWire(band) then f
    else if FollowSends(f, a, tuning, band, g) && outcome.Some?
    then Followed(f, band, BandWire(band).value, outcome.value)
    else Skipped(f)
  }

  lemma FollowStepSends(f: FollowContext, a: Amp, tuning: bool, band: Band, g: Gate)
    requires FollowSends(f, a, tuning, band, g)
    ensures band != Unknown && FollowGateOpen(g) && f.wire != BandWire(band) && BandWire(band).Some?
    ensures FollowStep(f, a, tuning, band, g, None) == Skipped(f)
    ensures forall c :: FollowStep(f, a, tuning, band, g, Some(c)) == Followed(f, band, BandWire(band).value, c)
  {
  }

  /** Follows of one band while nothing tunes, with what the peer made of each. */
  function FollowRun(f: FollowContext, a: Amp, band: Band, g: Gate, outcomes: seq<Confirmation>): FollowContext {
    if outcomes == [] then f
    else
      FollowStep(FollowRun(f, a, band, g, outcomes[..|outcomes| - 1]), a, false, band, g,
                 Some(outcomes[|outcomes| - 1]))
  }

  /** With a known band, no tune, an amplifier as runs keep it, an open gate and no I/O error, one
      follow records the band. However many follows come after it, none transmits again, even
      if the amplifier never confirmed the band. */
  lemma {:induction false} FollowConverges(f: FollowContext, a: Amp, band: Band, g: Gate,
                                           outcomes: seq<Confirmation>)
    requires band != Unknown && Plausible(a) && FollowGateOpen(g)
    ensures var end := FollowRun(f, a, band, g, outcomes);
            && (outcomes != [] ==> end.wire == BandWire(band))
            && (outcomes != [] && f.wire != BandWire(band) ==>
                  end == Followed(f, band, BandWire(band).value, outcomes[0]))
            && (f.wire == BandWire(band) ==> end == f)
  {
    if outcomes != [] {
      FollowConverges(f, a, band, g, outcomes[..|outcomes| - 1]);
    }
  }

  /** A shut gate lets no band through, however many follows there are. */
  lemma {:induction false} ShutGateNeverFollows(f: FollowContext, a: Amp, band: Band, g: Gate,
                                                outcomes: seq<Confirmation>)
    requires !FollowGateOpen(g)
    ensures var end := FollowRun(f, a, band, g, outcomes);
            end.wire == f.wire && end.sent == f.sent
  {
    if outcomes != [] {
      ShutGateNeverFollows(f, a, band, g, outcomes[..|outcomes| - 1]);
    }
  }
}
