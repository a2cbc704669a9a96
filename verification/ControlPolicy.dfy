/** From the configuration file to the drivers' safety gates, and from there to the wires. */
module ControlPolicy {
  import opened Text
  import opened SafetyGate
  import Serial
  import KatLines
  import KpaLines
  import KatWires
  import KatBatch
  import TuneLifecycle
  import Kat500
  import KpaWires
  import KpaControl
  import Kpa500

  datatype Operational = Operational(
    realControls: bool, katTune: bool, katBypass: bool, katAntenna: bool,
    kpaStandby: bool, kpaOperate: bool, clearFault: bool, confirmation: string)

  /** The parts of a configuration that decide what may be controlled: the gate each device
      section asks for by itself, and the operational section that can override it. */
  datatype Config = Config(kat: Gate, kpa: Gate, operational: Operational)

  datatype ConfigError = NotConfirmed | NeedsRealControls

  predicate ControlsConfirmed(op: Operational) {
    op.confirmation == "I understand"
  }

  function Validate(op: Operational): Result<(), ConfigError> {
    if op.realControls && !ControlsConfirmed(op) then Failure(NotConfirmed)
    else if (op.kpaOperate || op.katTune || op.clearFault) && !op.realControls then Failure(NeedsRealControls)
    else Success(())
  }

  datatype Policy = Policy(
    katTune: bool, katBypass: bool, katAntenna: bool,
    kpaStandby: bool, kpaOperate: bool, clearFault: bool,
    kat: Gate, kpa: Gate)

  predicate Override(op: Operational) {
    op.realControls && ControlsConfirmed(op)
  }

  function EffectivePolicy(cfg: Config): Policy {
    var op, confirmed := cfg.operational, Override(cfg.operational);
    var katTune := (!cfg.kat.dryRun && cfg.kat.allowRfRisk) || (confirmed && op.katTune);
    var katBypass := (!cfg.kat.dryRun && cfg.kat.allowControl) || (confirmed && op.katBypass);
    var katAntenna := (!cfg.kat.dryRun && cfg.kat.allowControl) || (confirmed && op.katAntenna);
    var kpaStandby := (!cfg.kpa.dryRun && cfg.kpa.allowControl) || (confirmed && op.kpaStandby);
    var kpaOperate := (!cfg.kpa.dryRun && cfg.kpa.allowRfRisk) || (confirmed && op.kpaOperate);
    var clearFault := confirmed && op.clearFault;
    Policy(katTune, katBypass, katAntenna, kpaStandby, kpaOperate, clearFault,
      Gate(!(katTune || katBypass || katAntenna) && cfg.kat.dryRun,
           cfg.kat.allowControl || katBypass || katAntenna, cfg.kat.allowRfRisk || katTune),
      Gate(!(kpaStandby || kpaOperate || clearFault) && cfg.kpa.dryRun,
           cfg.kpa.allowControl || kpaStandby, cfg.kpa.allowRfRisk || kpaOperate))
  }

  // ---------------------------------------------------------------- the policy against the gates

  /** Both forms of the gate say the same. */
  lemma GatesAgree(g: Gate, safety: Safety)
    ensures EnsureCanSend(g, safety).None? <==> CommandAllowed(g, safety)
  {
  }

  /** A configuration is accepted exactly when real controls are confirmed and every dangerous
      control that is switched on has them behind it; a missing confirmation is reported first. */
  lemma ValidatesExactly(op: Operational)
    ensures Validate(op).Success? <==>
      && (op.realControls ==> op.confirmation == "I understand")
      && (op.katTune || op.kpaOperate || op.clearFault ==> Override(op))
    ensures Validate(op) == Failure(NotConfirmed) <==> op.realControls && op.confirmation != "I understand"
  {
  }

  /** In a validated configuration the override is active exactly when real controls are
      enabled, and every dangerous control that is switched on takes effect. */
  lemma ValidatedControlsTakeEffect(cfg: Config)
    requires Validate(cfg.operational).Success?
    ensures var op, policy := cfg.operational, EffectivePolicy(cfg);
            && (Override(op) <==> op.realControls)
            && (op.katTune ==> policy.katTune) && (op.kpaOperate ==> policy.kpaOperate)
            && (op.clearFault <==> policy.clearFault)
  {
  }

  /** Every control the policy reports as enabled passes its driver's gate. */
  lemma EnabledControlsPass(cfg: Config)
    ensures var p := EffectivePolicy(cfg);
            && (p.katTune ==> CommandAllowed(p.kat, KatLines.SafetyOf(KatLines.Autotune)))
            && (p.katBypass ==> CommandAllowed(p.kat, KatLines.SafetyOf(KatLines.BypassOn))
                                && CommandAllowed(p.kat, KatLines.SafetyOf(KatLines.BypassOff)))
            && (p.katAntenna ==> forall n :: CommandAllowed(p.kat, KatLines.SafetyOf(KatLines.AntennaSelect(n))))
            && (p.kpaStandby ==> CommandAllowed(p.kpa, KpaLines.SafetyOf(KpaLines.SetStandby)))
            && (p.kpaOperate ==> CommandAllowed(p.kpa, KpaLines.SafetyOf(KpaLines.SetOperate)))
            && (p.clearFault ==> CommandAllowed(p.kpa, KpaLines.SafetyOf(KpaLines.ClearFault)))
  {
  }

  /** A device's raw settings that are shut by dry run alone. */
  predicate ShutByDryRun(raw: Gate, allowed: bool) {
    raw.dryRun && allowed
  }

  /** The gates are per safety class, so the converse fails, and exactly here: the override
      opens the device for one control, and a raw permission that dry run had kept shut opens
      with it for another. */
  lemma GateOpensBeyondPolicy(cfg: Config)
    ensures var p, op, confirmed := EffectivePolicy(cfg), cfg.operational, Override(cfg.operational);
            && (CommandAllowed(p.kat, RfRisk) && !p.katTune
                <==> ShutByDryRun(cfg.kat, cfg.kat.allowRfRisk) && confirmed
                     && (op.katBypass || op.katAntenna) && !op.katTune)
            && (CommandAllowed(p.kat, StateChangeSafe) && !p.katBypass && !p.katAntenna
                <==> ShutByDryRun(cfg.kat, cfg.kat.allowControl) && confirmed
                     && op.katTune && !op.katBypass && !op.katAntenna)
            && (CommandAllowed(p.kpa, RfRisk) && !p.kpaOperate
                <==> ShutByDryRun(cfg.kpa, cfg.kpa.allowRfRisk) && confirmed
                     && (op.kpaStandby || op.clearFault) && !op.kpaOperate)
            && (CommandAllowed(p.kpa, StateChangeSafe) && !p.kpaStandby
                <==> ShutByDryRun(cfg.kpa, cfg.kpa.allowControl) && confirmed
                     && (op.kpaOperate || op.clearFault) && !op.kpaStandby)
            && (CommandAllowed(p.kpa, DestructiveOrUnknown) && !p.clearFault
                <==> (!cfg.kpa.dryRun || (confirmed && (op.kpaStandby || op.kpaOperate)))
                     && !(confirmed && op.clearFault))
  {
  }

  /** The bypass and antenna controls share one gate: either opens it for the other. */
  lemma SwitchesShareAGate(cfg: Config)
    ensures var p := EffectivePolicy(cfg);
            p.katBypass || p.katAntenna ==>
              && CommandAllowed(p.kat, KatLines.SafetyOf(KatLines.BypassOn))
              && forall n :: CommandAllowed(p.kat, KatLines.SafetyOf(KatLines.AntennaSelect(n)))
    ensures var p, op := EffectivePolicy(cfg), cfg.operational;
            p.katBypass && !p.katAntenna <==> Override(op) && op.katBypass && !op.katAntenna
                                              && (cfg.kat.dryRun || !cfg.kat.allowControl)
    ensures var p, op := EffectivePolicy(cfg), cfg.operational;
            p.katAntenna && !p.katBypass <==> Override(op) && op.katAntenna && !op.katBypass
                                              && (cfg.kat.dryRun || !cfg.kat.allowControl)
  {
  }

  // ---------------------------------------------------------------- from configuration to wires

  /** Has the configuration deliberately opened the tuner for control? */
  predicate TunerOpened(cfg: Config) {
    var op := cfg.operational;
    !cfg.kat.dryRun || (Override(op) && (op.katTune || op.katBypass || op.katAntenna))
  }

  predicate AmplifierOpened(cfg: Config) {
    var op := cfg.operational;
    !cfg.kpa.dryRun || (Override(op) && (op.kpaStandby || op.kpaOperate || op.clearFault))
  }

  /** What the tuner may be sent under a configuration, without mention of the gate. */
  predicate TunerMayReceive(cfg: Config, wire: string) {
    var op := cfg.operational;
    var confirmed := Override(op);
    var tune := cfg.kat.allowRfRisk || (confirmed && op.katTune);
    var switches := cfg.kat.allowControl || (confirmed && (op.katBypass || op.katAntenna));
    || wire in KatWires.READ_ONLY_WIRES
    || (TunerOpened(cfg) &&
        (|| (wire == "T;" && tune)
         || (wire in KatWires.SWITCH_WIRES && switches)
         || (KatWires.IsFrequencyWire(wire) && (tune || switches))))
  }

  predicate AmplifierMayReceive(cfg: Config, wire: string) {
    var op := cfg.operational;
    var confirmed := Override(op);
    || wire in KpaWires.READ_ONLY_WIRES
    || (AmplifierOpened(cfg) &&
        (|| (wire == "^OS1;" && (cfg.kpa.allowRfRisk || (confirmed && op.kpaOperate)))
         || ((wire == "^OS0;" || KpaWires.IsBandWire(wire))
             && (cfg.kpa.allowControl || (confirmed && op.kpaStandby)))))
  }

  /** The driver's gate under the effective policy allows exactly what the configuration does. */
  lemma PolicyPermitsExactly(cfg: Config, wire: string)
    ensures KatWires.Permitted(EffectivePolicy(cfg).kat, wire) <==> TunerMayReceive(cfg, wire)
    ensures KpaWires.Permitted(EffectivePolicy(cfg).kpa, wire) <==> AmplifierMayReceive(cfg, wire)
  {
    hide KatWires.IsFrequencyWire, KpaWires.IsBandWire;
  }

  /** A run of the tuner driver under a configuration: what may be on its trace, and what must be.
      With tuning enabled, a tune request that was not suppressed is transmitted; with a switch
      enabled, both switch requests are, unless their batch was dropped before. */
  ghost predicate TunerServed(cfg: Config, passes: seq<KatBatch.Pass>) {
    var p := EffectivePolicy(cfg);
    && (forall wire <- Serial.Wires(KatBatch.RunTrace(passes)) :: TunerMayReceive(cfg, wire))
    && (!TunerOpened(cfg) ==>
          forall wire <- Serial.Wires(KatBatch.RunTrace(passes)) :: wire in KatWires.READ_ONLY_WIRES)
    && KatWires.ControlWires(Serial.Wires(KatBatch.RunTrace(passes))) == KatBatch.CarriedBy(KatBatch.BatchesOf(passes))
    && forall b <- KatBatch.BatchesOf(passes) :: EnabledIsCarried(p, b)
  }

  predicate EnabledIsCarried(p: Policy, b: KatBatch.Batch) {
    && (p.katTune && b.asked.autotune && KatBatch.FateOf(b) != Some(TuneLifecycle.Suppressed) ==> b.tune.Some?)
    && (p.katAntenna && b.asked.antenna.Some? && KatBatch.GoesToSwitches(b) ==> b.antenna.Some?)
    && (p.katBypass && b.asked.bypass.Some? && KatBatch.GoesToSwitches(b)
        && (b.asked.antenna.None? || KatBatch.Answered(b.antenna)) ==>
          b.bypass.Some?)
  }

  /** What the policy reports as enabled is carried out. */
  lemma EnabledRequestsGoOut(cfg: Config, b: KatBatch.Batch)
    requires KatBatch.IsCarriedOut(b, EffectivePolicy(cfg).kat)
    ensures EnabledIsCarried(EffectivePolicy(cfg), b)
  {
    hide KatBatch.IsExchangeOf, KatWires.ControlWires, Serial.Wires, EffectivePolicy;
    EnabledControlsPass(cfg);
    GatesAgree(EffectivePolicy(cfg).kat, RfRisk);
    GatesAgree(EffectivePolicy(cfg).kat, StateChangeSafe);
    assert KatLines.SafetyOf(KatLines.AntennaSelect(1)) == StateChangeSafe;
    assert b.record.Some? ==> b.record.value.fate.Executed? || b.record.value.fate.Failed?
                              || b.record.value.fate.Suppressed?;
  }

  /** A whole run of the tuner driver under a configuration. */
  method RunTuner(cfg: Config, baud: nat, followFrequency: bool, tgxlPlays: bool, tuner: KatLines.TunerState,
                  port: Serial.SerialPort, rounds: nat)
    returns (ghost passes: seq<KatBatch.Pass>)
    modifies port
    ensures port.trace == old(port.trace) + KatBatch.RunTrace(passes) && TunerServed(cfg, passes)
  {
    hide KatWires.Permitted, Serial.Wires, KatBatch.RunTrace, KatBatch.BatchesOf, KatBatch.IsCarriedOut,
         KatBatch.CarriedBy, KatWires.ControlWires, EnabledIsCarried, TunerMayReceive, EffectivePolicy;
    var gate := EffectivePolicy(cfg).kat;
    var driver := new Kat500.Kat500Driver(Kat500.Settings(baud, gate, followFrequency, tgxlPlays), tuner);
    ghost var sends;
    passes, sends := driver.RunSerialLoop(port, rounds);
    forall wire <- Serial.Wires(KatBatch.RunTrace(passes))
      ensures TunerMayReceive(cfg, wire) && (!TunerOpened(cfg) ==> wire in KatWires.READ_ONLY_WIRES)
    {
      PolicyPermitsExactly(cfg, wire);
      ShutTunerReadsOnly(cfg, wire);
    }
    forall b <- KatBatch.BatchesOf(passes)
      ensures EnabledIsCarried(EffectivePolicy(cfg), b)
    {
      EnabledRequestsGoOut(cfg, b);
    }
  }

  lemma ShutTunerReadsOnly(cfg: Config, wire: string)
    requires TunerMayReceive(cfg, wire)
    ensures !TunerOpened(cfg) ==> wire in KatWires.READ_ONLY_WIRES
  {
  }

  lemma ShutAmplifierReadsOnly(cfg: Config, wire: string)
    requires AmplifierMayReceive(cfg, wire)
    ensures !AmplifierOpened(cfg) ==> wire in KpaWires.READ_ONLY_WIRES
    ensures wire != "^FLC;"
  {
    NoClearFault(cfg);
  }

  /** The control of an enabled request passes the amplifier's gate. */
  lemma EnabledControlsAllowed(cfg: Config)
    ensures var p := EffectivePolicy(cfg);
            && (p.kpaOperate ==> KpaControl.Allowed(Some(true), p.kpa) == ["^OS1;"])
            && (p.kpaStandby ==> KpaControl.Allowed(Some(false), p.kpa) == ["^OS0;"])
  {
  }

  /** A whole run of the amplifier driver under a configuration. By EnabledControlsAllowed, a
      request for an enabled control is transmitted whenever it is found pending. */
  method RunAmplifier(cfg: Config, followBand: bool, strictStartup: bool, port: Serial.SerialPort, rounds: nat)
    returns (ghost passes: seq<KpaControl.Pass>, ghost events: seq<Serial.PortEvent>)
    modifies port
    ensures port.trace == old(port.trace) + events && events == KpaControl.RunTrace(passes)
    ensures forall wire <- Serial.Wires(events) :: AmplifierMayReceive(cfg, wire)
    ensures !AmplifierOpened(cfg) ==> forall wire <- Serial.Wires(events) :: wire in KpaWires.READ_ONLY_WIRES
    ensures "^FLC;" !in Serial.Wires(events)
    ensures KpaWires.ControlWires(Serial.Wires(events)) == KpaControl.AllAllowed(passes, EffectivePolicy(cfg).kpa)
  {
    hide KpaWires.Permitted, Serial.Wires, KpaControl.RunTrace, KpaControl.AllAllowed, KpaWires.ControlWires,
         KpaControl.IsPass, AmplifierMayReceive, AmplifierOpened, EffectivePolicy;
    var gate := EffectivePolicy(cfg).kpa;
    var driver := new Kpa500.Kpa500Driver(Kpa500.Settings(gate, followBand, strictStartup));
    ghost var sends;
    passes, sends := driver.RunSerialLoop(port, rounds);
    events := KpaControl.RunTrace(passes);
    forall wire <- Serial.Wires(events)
      ensures AmplifierMayReceive(cfg, wire) && wire != "^FLC;"
      ensures !AmplifierOpened(cfg) ==> wire in KpaWires.READ_ONLY_WIRES
    {
      PolicyPermitsExactly(cfg, wire);
      ShutAmplifierReadsOnly(cfg, wire);
    }
  }

  /** No configuration lets the amplifier's loop clear a fault. */
  lemma NoClearFault(cfg: Config)
    ensures !AmplifierMayReceive(cfg, "^FLC;")
  {
    forall band: KpaLines.Band | band != KpaLines.Unknown
      ensures KpaLines.BandWire(band).value != "^FLC;"
    {
      assert KpaLines.BandWire(band).value[1] == 'B';
    }
  }
}
