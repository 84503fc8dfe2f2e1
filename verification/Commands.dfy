/** The bounded command set: builders behind an allow-list and a force flag. */
module Commands {
  import opened Options
  import Rounding

  const CMD_RETURN_TO_LAUNCH := 20
  const CMD_DO_SET_MODE := 176
  const CMD_DO_REPOSITION := 192
  const CMD_ARM_DISARM := 400
  const CUSTOM_MODE_ENABLED := 1.0
  const FRAME_GLOBAL_RELATIVE_ALT_INT := 6
  const FORCE_DISARM_MAGIC := 21196.0
  const DEG_E7 := 10000000.0

  /** COMMAND_LONG carries all seven parameters, COMMAND_INT the first four and a position. */
  datatype Wire = Long | Int

  datatype Spec = Spec(
    name: string, command: int, wire: Wire, params: seq<real>,
    frame: int, x: int, y: int, z: real, requiresForceConfirm: bool)

  datatype Settings = Settings(
    allowed: set<string>, allowForceDisarm: bool,
    ackTimeoutS: real, maxAttempts: int, armReportMaxAgeS: real)

  datatype BuildError = UnknownCommand | NotAllowed | ForceDisarmDisabled | BadParameters

  datatype BuildResult = Built(spec: Spec) | Refused(error: BuildError)

  /** Keyword arguments as they arrive from the caller. */
  type Arguments = map<string, real>

  function LongSpec(name: string, command: int, p1: real, p2: real, force: bool): Spec {
    Spec(name, command, Long, [p1, p2, 0.0, 0.0, 0.0, 0.0, 0.0], 0, 0, 0, 0.0, force)
  }

  /** Builder by name; `None` when the keyword arguments do not fit its parameters. */
  function Builder(name: string, args: Arguments): Option<Spec>
    requires name in Known
  {
    if name == "arm" then
      if args.Keys == {} then Some(LongSpec("arm", CMD_ARM_DISARM, 1.0, 0.0, false)) else None
    else if name == "disarm" then
      if args.Keys == {} then Some(LongSpec("disarm", CMD_ARM_DISARM, 0.0, 0.0, false)) else None
    else if name == "force_disarm" then
      if args.Keys == {} then Some(LongSpec("force_disarm", CMD_ARM_DISARM, 0.0, FORCE_DISARM_MAGIC, true)) else None
    else if name == "rtl" then
      if args.Keys == {} then Some(LongSpec("rtl", CMD_RETURN_TO_LAUNCH, 0.0, 0.0, false)) else None
    else if name == "set_mode" then
      if args.Keys == {"custom_mode"}
      then Some(LongSpec("set_mode", CMD_DO_SET_MODE, CUSTOM_MODE_ENABLED, args["custom_mode"], false)) else None
    else
      if args.Keys == {"lat_deg", "lon_deg", "alt_m"}
      then Some(Spec("goto", CMD_DO_REPOSITION, Int, [-1.0, 0.0, 0.0, 0.0], FRAME_GLOBAL_RELATIVE_ALT_INT,
                     Rounding.Round(args["lat_deg"] * DEG_E7), Rounding.Round(args["lon_deg"] * DEG_E7),
                     args["alt_m"], false))
      else None
  }

  const Known: set<string> := {"arm", "disarm", "force_disarm", "rtl", "set_mode", "goto"}

  function BuildCommand(name: string, c: Settings, args: Arguments): BuildResult {
    if name !in Known then Refused(UnknownCommand)
    else if name !in c.allowed then Refused(NotAllowed)
    else if name == "force_disarm" && !c.allowForceDisarm then Refused(ForceDisarmDisabled)
    else match Builder(name, args)
      case None => Refused(BadParameters)
      case Some(spec) => Built(spec)
  }

  /** Some request builds exactly this command under these settings. */
  ghost predicate Buildable(c: Settings, spec: Spec) {
    exists name, args :: BuildCommand(name, c, args) == Built(spec)
  }

  // What the autopilot makes of a command, judged by the wire content alone.

  predicate Arms(spec: Spec) {
    spec.command == CMD_ARM_DISARM && |spec.params| > 1 && spec.params[0] == 1.0
  }

  predicate ForceDisarms(spec: Spec) {
    spec.command == CMD_ARM_DISARM && |spec.params| > 1 && spec.params[1] == FORCE_DISARM_MAGIC
  }

  /** The keyword parameters of the builder by this name. */
  function Parameters(name: string): set<string> {
    if name == "set_mode" then {"custom_mode"}
    else if name == "goto" then {"lat_deg", "lon_deg", "alt_m"}
    else {}
  }

  /** A request is built exactly when it is known, allowed, not a disabled force-disarm, and carries the arguments
      of its builder; otherwise the first of these that fails is the error. */
  lemma BuildsExactly(name: string, c: Settings, args: Arguments)
    ensures BuildCommand(name, c, args).Built? <==>
            && name in Known && name in c.allowed
            && (name == "force_disarm" ==> c.allowForceDisarm)
            && args.Keys == Parameters(name)
    ensures var r := BuildCommand(name, c, args);
            r.Refused? ==>
              r.error == if name !in Known then UnknownCommand
                         else if name !in c.allowed then NotAllowed
                         else if name == "force_disarm" && !c.allowForceDisarm then ForceDisarmDisabled
                         else BadParameters
  {
  }

  // What each request asks for, as the autopilot reads it off the wire.

  /** A scaled coordinate is the integer nearest to the degrees times ten million. */
  predicate Scales(scaled: int, degrees: real) {
    -0.5 <= degrees * 10000000.0 - scaled as real <= 0.5
  }

  /** COMMAND_LONG with this number, all parameters zero but perhaps the first two, and nothing positional. */
  predicate IsLong(spec: Spec, command: int, param1: real, param2: real) {
    && spec.wire.Long? && spec.command == command && |spec.params| == 7
    && spec.params[0] == param1 && spec.params[1] == param2
    && (forall i | 2 <= i < 7 :: spec.params[i] == 0.0)
    && spec.frame == 0 && spec.x == 0 && spec.y == 0 && spec.z == 0.0
  }

  /** The position to go to, above home: latitude first, at the default speed and heading. */
  predicate IsReposition(spec: Spec, latitude: real, longitude: real, altitude: real) {
    && spec.wire.Int? && spec.command == 192 && |spec.params| == 4
    && spec.params[0] == -1.0 && (forall i | 1 <= i < 4 :: spec.params[i] == 0.0)
    && spec.frame == 6 && spec.z == altitude
    && Scales(spec.x, latitude) && Scales(spec.y, longitude)
  }

  /** The command that a request of this name and these arguments means. */
  predicate Means(name: string, args: Arguments, spec: Spec)
    requires args.Keys == Parameters(name)
  {
    && spec.name == name && (spec.requiresForceConfirm <==> name == "force_disarm")
    && (name == "arm" ==> IsLong(spec, 400, 1.0, 0.0))
    && (name == "disarm" ==> IsLong(spec, 400, 0.0, 0.0))
    && (name == "force_disarm" ==> IsLong(spec, 400, 0.0, 21196.0))
    && (name == "rtl" ==> IsLong(spec, 20, 0.0, 0.0))
    && (name == "set_mode" ==> IsLong(spec, 176, 1.0, args["custom_mode"]))
    && (name == "goto" ==> IsReposition(spec, args["lat_deg"], args["lon_deg"], args["alt_m"]))
  }

  /** What is built is what was asked for. */
  lemma BuiltMeansRequest(name: string, c: Settings, args: Arguments)
    requires BuildCommand(name, c, args).Built?
    ensures args.Keys == Parameters(name) && Means(name, args, BuildCommand(name, c, args).spec)
  {
  }

  /** The name and the flag that the gates test agree with what goes over the wire, and
      nothing outside the allow-list or behind the force flag is ever built. */
  lemma BuiltIsWhatItSays(c: Settings, spec: Spec)
    requires Buildable(c, spec)
    ensures spec.name in c.allowed && spec.name in Known
    ensures Arms(spec) <==> spec.name == "arm"
    ensures ForceDisarms(spec) <==> spec.name == "force_disarm"
    ensures spec.requiresForceConfirm <==> ForceDisarms(spec)
    ensures ForceDisarms(spec) ==> c.allowForceDisarm
    ensures |spec.params| == if spec.wire == Long then 7 else 4
    ensures exists args: Arguments :: args.Keys == Parameters(spec.name) && Means(spec.name, args, spec)
  {
    var name, args :| BuildCommand(name, c, args) == Built(spec);
    BuiltMeansRequest(name, c, args);
  }
}
