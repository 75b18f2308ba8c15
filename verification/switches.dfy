/** The redundancy switch (ftqc/core/qswitches.py): an operational unit,
    a list of spares, and a role swap chosen by a switching policy. */
module Switches {
  import opened Failures
  import opened Entities

  /** `QuantumSwitchUnit`: a record and its fault detector. Python compares
      units by identity, which `key` stands for; the detector is an opaque
      id whose verdict comes from the caller. */
  datatype SwitchUnit = SwitchUnit(key: nat, measurement: Measurements, detector: nat)

  /** `QuantumRedundancySwitch`: the operational unit and the spares. */
  datatype RedundancySwitch = RedundancySwitch(operational: SwitchUnit, spares: seq<SwitchUnit>)

  /** What `switch_if_necessary` leaves behind and returns. */
  datatype SwitchOutcome = SwitchOutcome(switch: RedundancySwitch, measurement: Measurements)

  /** `QuantumSwitchUnit.fault_detected`: the detector's verdict on the
      unit's own record. `accept` stands for the detectors' `accept`. */
  function FaultDetected(u: SwitchUnit, accept: (nat, Measurements) -> bool): bool {
    accept(u.detector, u.measurement)
  }

  /** Index of the first occurrence of `x`. */
  function FirstIndex(xs: seq<SwitchUnit>, x: SwitchUnit): (i: nat)
    requires x in xs
    ensures i < |xs| && xs[i] == x && x !in xs[..i]
  {
    if xs[0] == x then 0
    else
      assert x in xs[1..];
      var k := FirstIndex(xs[1..], x);
      assert xs[..k + 1] == [xs[0]] + xs[1..][..k];
      k + 1
  }

  /** `list.remove`: drops the first occurrence of `x`, and raises when
      there is none. */
  function Remove(xs: seq<SwitchUnit>, x: SwitchUnit): (r: Result<seq<SwitchUnit>>)
    ensures r.Err? <==> x !in xs
    ensures r.Err? ==> r.error == NotInSpares
    ensures r.Ok? ==> r.value == xs[..FirstIndex(xs, x)] + xs[FirstIndex(xs, x) + 1..]
  {
    if xs == [] then Err(NotInSpares)
    else if xs[0] == x then Ok(xs[1..])
    else
      var rest :- Remove(xs[1..], x);
      RemoveStep(xs, x);
      Ok([xs[0]] + rest)
  }

  /** Removing past a head that differs from `x` keeps the head. */
  lemma RemoveStep(xs: seq<SwitchUnit>, x: SwitchUnit)
    requires xs != [] && xs[0] != x && x in xs[1..]
    ensures FirstIndex(xs, x) == FirstIndex(xs[1..], x) + 1
    ensures var k := FirstIndex(xs[1..], x);
            [xs[0]] + (xs[1..][..k] + xs[1..][k + 1..]) == xs[..k + 1] + xs[k + 2..]
  {
    var k := FirstIndex(xs[1..], x);
    assert xs[1..][..k] == xs[1..k + 1];
    assert xs[1..][k + 1..] == xs[k + 2..];
    assert [xs[0]] + xs[1..k + 1] == xs[..k + 1];
  }

  /** The base class's `do_switch` has only a docstring, so it returns None. */
  function BaseDoSwitch(sw: RedundancySwitch): Option<SwitchUnit> {
    None
  }

  /** `QuantumRedundancySwitch.switch_if_necessary`. The guard reads the
      method `fault_detected` without calling it, and a bound method is
      always truthy, so every call switches: the policy `doSwitch` picks
      the new operational unit, its first occurrence leaves the spares
      (raising when it is not a spare), the old operational unit joins the
      end of the spares, and the new unit's record is returned. */
  function SwitchIfNecessary(sw: RedundancySwitch, doSwitch: RedundancySwitch -> Option<SwitchUnit>)
    : (r: Result<SwitchOutcome>)
    ensures r.Err? <==> doSwitch(sw).None? || doSwitch(sw).value !in sw.spares
    ensures r.Err? ==> r.error == NotInSpares
    ensures r.Ok? ==> doSwitch(sw).Some? && r.value.switch.operational == doSwitch(sw).value
    ensures r.Ok? ==> r.value.measurement == r.value.switch.operational.measurement
    ensures r.Ok? ==> (doSwitch(sw).Some? && doSwitch(sw).value in sw.spares &&
              var i := FirstIndex(sw.spares, doSwitch(sw).value);
              r.value.switch.spares == sw.spares[..i] + sw.spares[i + 1..] + [sw.operational])
    ensures r.Ok? ==> |r.value.switch.spares| == |sw.spares|
    ensures r.Ok? ==> multiset([r.value.switch.operational] + r.value.switch.spares)
                      == multiset([sw.operational] + sw.spares)
  {
    match doSwitch(sw)
    case None => Err(NotInSpares)
    case Some(next) =>
      var rest :- Remove(sw.spares, next);
      var i := FirstIndex(sw.spares, next);
      assert sw.spares == sw.spares[..i] + [next] + sw.spares[i + 1..];
      var after := RedundancySwitch(next, rest + [sw.operational]);
      Ok(SwitchOutcome(after, next.measurement))
  }

  /** A switch happens even when the operational unit's detector reports
      no fault: the detector is never consulted. */
  lemma SwitchWithoutFault(sw: RedundancySwitch, doSwitch: RedundancySwitch -> Option<SwitchUnit>,
                           accept: (nat, Measurements) -> bool)
    requires !FaultDetected(sw.operational, accept)
    requires doSwitch(sw).Some? && doSwitch(sw).value in sw.spares
    ensures SwitchIfNecessary(sw, doSwitch).Ok?
    ensures SwitchIfNecessary(sw, doSwitch).value.switch.operational == doSwitch(sw).value
  {
  }

  /** With the base class's own `do_switch` every call raises. */
  lemma BaseSwitchRaises(sw: RedundancySwitch)
    ensures SwitchIfNecessary(sw, BaseDoSwitch) == Err(NotInSpares)
  {
  }

  /** Switching to the first spare rotates the units: the old operational
      unit goes last and the other spares keep their order. */
  lemma SwitchToFirstSpareRotates(sw: RedundancySwitch, doSwitch: RedundancySwitch -> Option<SwitchUnit>)
    requires sw.spares != [] && doSwitch(sw) == Some(sw.spares[0])
    ensures SwitchIfNecessary(sw, doSwitch) ==
              Ok(SwitchOutcome(RedundancySwitch(sw.spares[0], sw.spares[1..] + [sw.operational]),
                               sw.spares[0].measurement))
  {
    assert FirstIndex(sw.spares, sw.spares[0]) == 0;
  }
}
