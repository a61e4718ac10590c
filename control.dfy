/** Driving the unit through `systemctl` (`Service::action` and `Service::reload_unit_config` in
    `src/systemd/service.rs`). Running the command is not modelled: the exit status it ends
    with is a parameter. */
module Control {
  import opened Results
  import opened Text
  import opened Units

  const NO_BLOCK := "--no-block"
  const SERVICE_SUFFIX := ".service"

  /** `ExitStatus::success`, and the error the service code raises otherwise. */
  function Checked(status: ExitStatus): (r: Result<()>)
    ensures r.Ok? <==> status == Exited(0)
    ensures r.Err? ==> r.error == SystemctlFailed(status)
  {
    if status == Exited(0) then Ok(()) else Err(SystemctlFailed(status))
  }

  /** The arguments `action` passes to `systemctl`: the verb, `--no-block` unless asked to
      block, and the unit. */
  function ActionArgs(verb: string, block: bool, svc: Service): (argv: seq<string>)
  {
    [verb] + (if block then [] else [NO_BLOCK]) + [UnitName(svc)]
  }

  /** `Service::action`: the argument vector built push by push, and the outcome the exit status
      of `systemctl` gives. */
  method Action(verb: string, block: bool, svc: Service, status: ExitStatus)
    returns (argv: seq<string>, r: Result<()>)
    ensures argv == ActionArgs(verb, block, svc)
    ensures r == Checked(status)
  {
    var unit := UnitName(svc);
    argv := [verb];
    if !block {
      argv := argv + [NO_BLOCK];
    }
    argv := argv + [unit];
    r := Checked(status);
  }

  /** The verb comes first and the unit last; `--no-block` sits between them exactly when the
      call does not block. */
  lemma ActionArgsShape(verb: string, block: bool, svc: Service)
    ensures var argv := ActionArgs(verb, block, svc);
      |argv| == (if block then 2 else 3)
      && argv[0] == verb
      && (NO_BLOCK in argv[1..] <==> !block)
      && argv[|argv| - 1] == UnitName(svc)
  {
    var argv := ActionArgs(verb, block, svc);
    var unit := UnitName(svc);
    assert |unit| >= |SERVICE_SUFFIX| && unit[|unit| - 1] == 'e';
    assert NO_BLOCK[|NO_BLOCK| - 1] == 'k';
    if block {
      assert argv[1..] == [unit];
    } else {
      assert argv[1..] == [NO_BLOCK, unit];
    }
  }

  /** The unit handed to `systemctl` names the service it came from: parsing it back, without
      the `.service` suffix, gives the unit token the service was made from. */
  lemma ActionTargetsUnit(verb: string, block: bool, unit: string)
    ensures var argv := ActionArgs(verb, block, New(unit));
      StartsWith(argv[|argv| - 1], unit)
      && argv[|argv| - 1][|unit|..] == SERVICE_SUFFIX
  {
    UnitNameOfNew(unit);
  }

  /** The single argument of `reload_unit_config`. */
  const RELOAD_ARGS := ["daemon-reload"]

  /** `Service::reload_unit_config`: `systemctl daemon-reload`, failing unless it exits with 0. */
  method ReloadUnitConfig(status: ExitStatus) returns (argv: seq<string>, r: Result<()>)
    ensures argv == RELOAD_ARGS
    ensures r.Ok? <==> status == Exited(0)
    ensures r.Err? ==> r.error == SystemctlFailed(status)
  {
    argv := RELOAD_ARGS;
    r := Checked(status);
  }
}
