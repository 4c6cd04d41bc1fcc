/** The survival content's own state and handlers, in its two versions
  * (`GameContent` of `simpleland/contentbundles/survival_grid.py` and of the
  * newer `landia/survival/survival_content.py`): the per-player input mode
  * machine, the step duration and its cache, the reset handshake, the
  * per-step reward report, the console and message lists kept in a
  * player's data, the admin commands, and the sector loading that follows
  * a player's object. The two versions differ only where `newer` says so. */
module SurvivalContent {
  import opened Base
  import Events
  import Players
  import PlayerTable
  import SurvivalMap
  import SurvivalObjects
  import SurvivalUtils

  const Play := DStr("PLAY")
  const Console := DStr("CONSOLE")
  const Admin := DStr("ADMIN")

  /** A player's input mode; `PLAY` when unset. */
  function ModeOf(data: map<string, Datum>): Datum
  {
    if "INPUT_MODE" in data then data["INPUT_MODE"] else Play
  }

  /** `get_data_value(key, default)` on a data bag. */
  function ValueOf(data: map<string, Datum>, key: string, default: Datum): Datum
  {
    if key in data then data[key] else default
  }

  /** The zoom events of the held keys: in by 50 for key 32, then out by 50
    * for key 31. */
  function Zooms(pid: string, keydown: set<int>): (r: seq<Events.EventKind>)
    ensures |r| == (if 32 in keydown then 1 else 0) + (if 31 in keydown then 1 else 0)
    ensures forall e :: e in r ==> e.ViewEvent? && e.viewPlayerId == pid
    ensures Events.ViewEvent(pid, 50) in r <==> 32 in keydown
    ensures Events.ViewEvent(pid, -50) in r <==> 31 in keydown
  {
    (if 32 in keydown then [Events.ViewEvent(pid, 50)] else []) + (if 31 in keydown then [Events.ViewEvent(pid, -50)] else [])
  }

  // ------------------------------------------------------------ camera pan

  /** What `camera_update` does to an admin's camera: the position offset
    * decreases by `step`, and the angle becomes `angle` when present. */
  datatype Pan = Pan(step: Vec, angle: Option<int>)

  /** The direction and facing of the held pan keys: of W (23), S (19),
    * D (4) and A (1) the last one tested wins. */
  function PanKey(keydown: set<int>): (r: Option<(Vec, int)>)
    ensures r.None? <==> 23 !in keydown && 19 !in keydown && 4 !in keydown && 1 !in keydown
    ensures 1 in keydown ==> r == Some((Vec(-1, 0), 90))
  {
    if 1 in keydown then Some((Vec(-1, 0), 90))
    else if 4 in keydown then Some((Vec(1, 0), 270))
    else if 19 in keydown then Some((Vec(0, 1), 0))
    else if 23 in keydown then Some((Vec(0, -1), 180))
    else None
  }

  /** `camera_update` as written: the older version moves the offset by the
    * direction and never turns; the newer one moves it by five times the
    * direction and turns to the key's angle, whose variable is unbound
    * when no pan key is held. */
  function CameraPanAsWritten(newer: bool, keydown: set<int>): Result<Pan>
  {
    var key := PanKey(keydown);
    if !newer then Ok(Pan(if key.Some? then key.value.0 else Vec(0, 0), None))
    else if key.None? then Err(NameError("new_angle"))
    else Ok(Pan(Vec(5 * key.value.0.x, 5 * key.value.0.y), Some(key.value.1)))
  }

  /** `camera_update` with the angle kept when no pan key is held. */
  function CameraPan(newer: bool, keydown: set<int>): (r: Pan)
    ensures PanKey(keydown).None? ==> r == Pan(Vec(0, 0), None)
    ensures newer && PanKey(keydown).Some? ==>
              r.angle == Some(PanKey(keydown).value.1) && r.step.x == 5 * PanKey(keydown).value.0.x && r.step.y == 5 * PanKey(keydown).value.0.y
    ensures !newer ==> r.angle.None?
  {
    var key := PanKey(keydown);
    if key.None? then Pan(Vec(0, 0), None)
    else if newer then Pan(Vec(5 * key.value.0.x, 5 * key.value.0.y), Some(key.value.1))
    else Pan(key.value.0, None)
  }

  /** As written, an admin in the newer version whose input holds no pan key
    * (a zoom alone, say) raises; the corrected pan leaves the camera
    * still. Otherwise the two agree. */
  lemma PanWithoutKeyRaises()
    ensures CameraPanAsWritten(true, {32}) == Err(NameError("new_angle"))
    ensures CameraPan(true, {32}) == Pan(Vec(0, 0), None)
  {
  }

  lemma PanAgrees(newer: bool, keydown: set<int>)
    ensures CameraPanAsWritten(newer, keydown).Err? <==> newer && PanKey(keydown).None?
    ensures CameraPanAsWritten(newer, keydown).Ok? ==> CameraPanAsWritten(newer, keydown).value == CameraPan(newer, keydown)
  {
  }

  /** What an input event produced: view events, whether the game is to
    * stop, the admin camera pan, and whether the input was queued on the
    * player's object. */
  datatype InputOutcome = InputOutcome(events: seq<Events.EventKind>, stop: bool, pan: Option<Pan>, queued: bool)

  const Quiet := InputOutcome([], false, None, false)

  /** The step-duration factor after the keys: key 80 lowers it by one
    * hundredth but not below 0, key 81 raises it by one. */
  function NewFactor(factor: int, keydown: set<int>): (f: int)
    ensures 80 in keydown && 81 !in keydown ==> f >= 0 && (factor >= 1 ==> f == factor - 1)
    ensures 80 !in keydown ==> f == factor + (if 81 in keydown then 1 else 0)
  {
    var f := if 80 in keydown then (if factor - 1 > 0 then factor - 1 else 0) else factor;
    if 81 in keydown then f + 1 else f
  }

  /** The mode after the keys in PLAY handling: key 99 (console) wins over
    * key 13 (admin). */
  function NewMode(data: map<string, Datum>, keydown: set<int>): (d: map<string, Datum>)
    ensures 99 in keydown ==> d == data["INPUT_MODE" := Console]
    ensures 99 !in keydown && 13 in keydown ==> d == data["INPUT_MODE" := Admin]
    ensures 99 !in keydown && 13 !in keydown ==> d == data
  {
    if 99 in keydown then data["INPUT_MODE" := Console]
    else if 13 in keydown then data["INPUT_MODE" := Admin]
    else data
  }

  /** `step_duration` before caching, in hundredths of a tick: the tick
    * rate (1 when unset or 0) times the factor (in hundredths), at least
    * one tick. */
  function Duration(tickRate: Option<int>, factor: int): (d: int)
    ensures d >= 100
    ensures var rate := if tickRate.None? || tickRate.value == 0 then 1 else tickRate.value;
            d >= rate * factor && (d == 100 || d == rate * factor)
  {
    var rate := if tickRate.None? || tickRate.value == 0 then 1 else tickRate.value;
    if rate * factor > 100 then rate * factor else 100
  }

  /** With a positive rate a larger factor never gives a shorter step. */
  lemma DurationMonotone(tickRate: Option<int>, f1: int, f2: int)
    requires tickRate.None? || tickRate.value >= 0
    requires f1 <= f2
    ensures Duration(tickRate, f1) <= Duration(tickRate, f2)
  {
    var rate := if tickRate.None? || tickRate.value == 0 then 1 else tickRate.value;
    assert rate * f2 - rate * f1 == rate * (f2 - f1);
  }

  /** A data entry that, when present, holds a list. */
  predicate ListOrAbsent(data: map<string, Datum>, key: string)
  {
    key !in data || data[key].DList?
  }

  /** The list stored under `key`, empty when missing. */
  function ListAt(data: map<string, Datum>, key: string): seq<Datum>
  {
    if key in data && data[key].DList? then data[key].items else []
  }

  /** The data bag with `item` appended to the list under `key`. */
  function Appended(data: map<string, Datum>, key: string, item: Datum): (r: map<string, Datum>)
    ensures r.Keys == data.Keys + {key} && ListAt(r, key) == ListAt(data, key) + [item]
    ensures forall k :: k in data && k != key ==> r[k] == data[k]
  {
    data[key := DList(ListAt(data, key) + [item])]
  }

  /** `f"{clock.get_ticks()}: {message}"`. */
  function Stamped(now: int, message: string): string
  {
    Players.Str(Players.IntUid(now)) + ": " + message
  }

  /** Every player's reset flag (`True` when unset) is set. */
  ghost predicate AllFlagged(players: map<string, Players.Player>)
    reads players.Values
  {
    forall k :: k in players ==> Truthy(ValueOf(players[k].data, "reset_required", DBool(true)))
  }

  // ------------------------------------------------------------ step info

  /** What `get_step_info` reports besides the observation: the reward,
    * the done flag, the info message and whether to skip the step. */
  datatype StepInfo = StepInfo(reward: Option<int>, done: Option<Datum>, msg: Option<string>, skip: bool)

  function PlayerSet(p: Option<Players.Player>): set<Players.Player>
  {
    if p.Some? then {p.value} else {}
  }

  function ObjectSet(o: Option<SurvivalObjects.AnimateObject>): set<SurvivalObjects.AnimateObject>
  {
    if o.Some? then {o.value} else {}
  }

  // ------------------------------------------------------------ admin commands

  /** The admin commands, as recognised from the command text. */
  datatype Command =
    | ResetCmd
    | InputModeCmd(arg: Option<string>)
    | SpawnCmd
    | SaveCmd
    | LoadCmd
    | RunCmd
    | ControllerCmd
    | UnknownCmd

  predicate StartsWith(s: string, prefix: string)
  {
    |prefix| <= |s| && s[..|prefix|] == prefix
  }

  /** The text up to the first space. */
  function UpToSpace(s: string): (r: string)
    ensures |r| <= |s| && r == s[..|r|] && ' ' !in r
    ensures |r| < |s| ==> s[|r|] == ' '
  {
    if s == [] || s[0] == ' ' then [] else [s[0]] + UpToSpace(s[1..])
  }

  /** `value.split(" ")[1]` when the split has a second part. */
  function SecondWord(s: string): Option<string>
  {
    var first := UpToSpace(s);
    if |first| < |s| then Some(UpToSpace(s[|first| + 1..])) else None
  }

  /** The command of a command text, tested in the order the handler
    * tests; save, load and run exist only in the newer version. */
  function Classify(newer: bool, value: string): Command
  {
    if value == "reset" then ResetCmd
    else if StartsWith(value, "input_mode") then InputModeCmd(SecondWord(value))
    else if StartsWith(value, "spawn") then SpawnCmd
    else if newer && StartsWith(value, "save") then SaveCmd
    else if newer && StartsWith(value, "load") then LoadCmd
    else if newer && StartsWith(value, "run") then RunCmd
    else if StartsWith(value, "controller") then ControllerCmd
    else UnknownCmd
  }

  function LowerChar(c: char): char
  {
    if 'A' <= c <= 'Z' then (c as int + 32) as char else c
  }

  function UpperChar(c: char): char
  {
    if 'a' <= c <= 'z' then (c as int - 32) as char else c
  }

  /** ASCII `lower()` and `upper()`. */
  function Lower(s: string): (r: string)
    ensures |r| == |s| && forall i :: 0 <= i < |s| ==> r[i] == LowerChar(s[i])
  {
    seq(|s|, i requires 0 <= i < |s| => LowerChar(s[i]))
  }

  function Upper(s: string): (r: string)
    ensures |r| == |s| && forall i :: 0 <= i < |s| ==> r[i] == UpperChar(s[i])
  {
    seq(|s|, i requires 0 <= i < |s| => UpperChar(s[i]))
  }

  /** The modes an `input_mode` command may name, in lower case. */
  predicate KnownMode(arg: string)
  {
    Lower(arg) in {"play", "console", "admin"}
  }

  /** The error message a command reports, if any (the corrected
    * `input_mode` check included). */
  function CommandError(cmd: Command): Option<string>
  {
    match cmd
    case InputModeCmd(None) => Some("missing argument")
    case InputModeCmd(Some(a)) => if KnownMode(a) then None else Some("invalid input mode " + a)
    case UnknownCmd => Some("Invalid or unknown")
    case _ => None
  }

  function FailureLine(value: string, error: Option<string>): string
  {
    "Command failed :\"" + value + "\"  Message:" + (if error.Some? then error.value else "None")
  }

  /** The console line a command writes, as the newer version writes it: a
    * reset is announced, an error reported, and nothing else logged. */
  function CommandLine(cmd: Command, value: string): (line: Option<string>)
    ensures cmd.ResetCmd? ==> line == Some("RUNNING COMMAND: " + value)
    ensures !cmd.ResetCmd? ==> (line.Some? <==> CommandError(cmd).Some?)
  {
    if cmd.ResetCmd? then Some("RUNNING COMMAND: " + value)
    else if CommandError(cmd).Some? then Some(FailureLine(value, CommandError(cmd)))
    else None
  }

  /** `len(value.split(" ")) == 2`: the text has exactly one space. */
  predicate TwoParts(value: string)
  {
    ' ' in value && multiset(value)[' '] == 1
  }

  /** The save name of a `save` command: its second word when the command
    * has exactly two words, otherwise "default". */
  function SaveName(value: string): (name: string)
    ensures TwoParts(value) ==> SecondWord(value) == Some(name)
    ensures !TwoParts(value) ==> name == "default"
  {
    if TwoParts(value) then
      var first := UpToSpace(value);
      UpToSpace(value[|first| + 1..])
    else "default"
  }

  /** `os.path.join(a, b)` on POSIX: an absolute `b` replaces `a`; otherwise
    * the two are joined by one slash unless `a` is empty or ends in one. */
  function JoinPath(a: string, b: string): (p: string)
    ensures |b| > 0 && b[0] == '/' ==> p == b
    ensures (|b| == 0 || b[0] != '/') && (a == [] || a[|a| - 1] == '/') ==> p == a + b
    ensures (|b| == 0 || b[0] != '/') && a != [] && a[|a| - 1] != '/' ==> p == a + "/" + b
  {
    if |b| > 0 && b[0] == '/' then b
    else if a == [] || a[|a| - 1] == '/' then a + b
    else a + "/" + b
  }

  /** What the handler raises for a command, given whether the issuing
    * player exists and has an object: a known `input_mode` or a `spawn`
    * or `controller` command from a missing player (`AttributeError` on
    * `None`), a `spawn` or `controller` command whose player has no object,
    * and a `controller` or `run` command without a second word
    * (`command_parts[1]`). */
  function AdminError(cmd: Command, value: string, hasTarget: bool, hasObject: bool): Option<Error>
  {
    match cmd
    case InputModeCmd(Some(a)) => if KnownMode(a) && !hasTarget then Some(AttributeError("set_data_value")) else None
    case SpawnCmd =>
      if !hasTarget then Some(AttributeError("get_object_id"))
      else if !hasObject then Some(AttributeError("get_view_position"))
      else None
    case ControllerCmd =>
      if SecondWord(value).None? then Some(IndexError(1))
      else if !hasTarget then Some(AttributeError("get_object_id"))
      else if !hasObject then Some(AttributeError("get_view_position"))
      else None
    case RunCmd => if SecondWord(value).None? then Some(IndexError(1)) else None
    case _ => None
  }

  /** The console line a command writes in the newer version: a reset is
    * announced, a save names the file it writes under `savePath`, a script
    * that raises is reported, and an error is reported. */
  function AdminLine(cmd: Command, value: string, savePath: string, scriptError: Option<string>): (line: Option<string>)
    ensures cmd.SaveCmd? ==> line == Some("Saving to " + JoinPath(savePath, SaveName(value) + ".json"))
    ensures cmd.RunCmd? ==> (line.Some? <==> scriptError.Some?)
    ensures !cmd.SaveCmd? && !cmd.RunCmd? ==> line == CommandLine(cmd, value)
  {
    if cmd.SaveCmd? then Some("Saving to " + JoinPath(savePath, SaveName(value) + ".json"))
    else if cmd.RunCmd? then (if scriptError.Some? then Some("Error running script: " + scriptError.value) else None)
    else CommandLine(cmd, value)
  }

  /** The commands whose whole effect on the players' bags the model
    * captures: all but `spawn`, `controller` and `load`, and a `run` whose
    * script raises. */
  predicate Accounted(cmd: Command, scriptError: Option<string>)
  {
    !cmd.SpawnCmd? && !cmd.ControllerCmd? && !cmd.LoadCmd? && (cmd.RunCmd? ==> scriptError.Some?)
  }

  /** The console lines of the older version as written: after every
    * command, successful or not, a "Command failed" line; an `input_mode`
    * command with an argument raises `TypeError` before that, because
    * `set` takes a single argument. */
  function CommandLinesAsWritten(value: string): Result<seq<string>>
  {
    var cmd := Classify(false, value);
    if cmd.InputModeCmd? && cmd.arg.Some? then Err(TypeError("set expected at most 1 argument"))
    else
      var error := if cmd.InputModeCmd? then Some("missing argument") else if cmd.UnknownCmd? then Some("Invalid or unknown") else None;
      Ok((if cmd.ResetCmd? then ["RUNNING COMMAND: " + value] else []) + [FailureLine(value, error)])
  }

  /** The older version reports a successful reset as failed, and rejects
    * every `input_mode` command that names a mode; the corrected handler
    * only announces the reset and accepts a known mode. */
  lemma SuccessLoggedAsFailure()
    ensures CommandLinesAsWritten("reset") == Ok(["RUNNING COMMAND: reset", FailureLine("reset", None)])
    ensures CommandLine(Classify(false, "reset"), "reset") == Some("RUNNING COMMAND: reset")
  {
    assert Classify(false, "reset") == ResetCmd;
    var line := "RUNNING COMMAND: " + "reset";
    assert |line| == 22 && forall i :: 0 <= i < 22 ==> line[i] == "RUNNING COMMAND: reset"[i];
    assert line == "RUNNING COMMAND: reset";
    assert [line] + [FailureLine("reset", None)] == [line, FailureLine("reset", None)];
  }

  /** Every `input_mode` command that names a mode raises `TypeError` as
    * written, in both versions: they classify it alike. */
  lemma InputModeAlwaysRaises(value: string)
    requires StartsWith(value, "input_mode") && ' ' in value
    ensures CommandLinesAsWritten(value).Err?
    ensures Classify(false, value).InputModeCmd? && Classify(false, value).arg.Some?
    ensures Classify(true, value) == Classify(false, value)
  {
    var first := UpToSpace(value);
    assert |first| < |value|;
  }

  lemma KnownModeAccepted()
    ensures Classify(false, "input_mode Admin") == InputModeCmd(Some("Admin"))
    ensures CommandError(InputModeCmd(Some("Admin"))).None?
  {
    var value := "input_mode Admin";
    assert value[..10] == "input_mode";
    assert |value| != |"reset"|;
    AdminSecondWord();
    AdminLower();
  }

  lemma AdminSecondWord()
    ensures SecondWord("input_mode Admin") == Some("Admin")
  {
    var value := "input_mode Admin";
    assert value == "input_mode" + " Admin";
    UpToSpaceOfWord("input_mode", " Admin");
    UpToSpaceOfWord("Admin", "");
    assert "Admin" + "" == "Admin";
    var rest := value[11..];
    assert |rest| == 5 && rest[0] == 'A' && rest[1] == 'd' && rest[2] == 'm' && rest[3] == 'i' && rest[4] == 'n';
    assert rest == "Admin";
  }

  lemma {:induction false} UpToSpaceOfWord(word: string, rest: string)
    requires ' ' !in word && (rest == [] || rest[0] == ' ')
    ensures UpToSpace(word + rest) == word
    decreases |word|
  {
    if word != [] {
      assert (word + rest)[1..] == word[1..] + rest;
      UpToSpaceOfWord(word[1..], rest);
    } else {
      assert word + rest == rest;
    }
  }

  lemma AdminLower()
    ensures KnownMode("Admin")
  {
    var l := Lower("Admin");
    assert l[0] == 'a' && l[1] == 'd' && l[2] == 'm' && l[3] == 'i' && l[4] == 'n';
    assert l == "admin";
  }

  /** The data a command leaves in a player's bag before logging: a reset
    * sets the reset flag; a known `input_mode` sets the target's mode to
    * the upper-cased name. */
  function CommandEffect(cmd: Command, data: map<string, Datum>, isTarget: bool): map<string, Datum>
  {
    if cmd.ResetCmd? then data["reset_required" := DBool(true)]
    else if cmd.InputModeCmd? && cmd.arg.Some? && KnownMode(cmd.arg.value) && isTarget then data["INPUT_MODE" := DStr(Upper(cmd.arg.value))]
    else data
  }

  /** A player's bag after the line (if any) is logged to it at tick `now`. */
  function Logged(data: map<string, Datum>, line: Option<string>, now: int): map<string, Datum>
  {
    if line.None? then data else Appended(data, "log", DStr(Stamped(now, line.value)))
  }

  // ------------------------------------------------------------ the content

  /** `GameContent`: the step-duration factor (in hundredths) and its cached
    * duration (in hundredths of a tick), and the map. */
  class GameContent {
    /** Whether this is the newer version of the class. */
    const newer: bool
    const gamemap: SurvivalMap.GameMap
    var stepDurationFactor: int
    var stepDuration: Option<int>

    predicate Valid()
      reads this, gamemap
    {
      gamemap.Valid()
    }

    constructor (newer: bool, gamemap: SurvivalMap.GameMap, stepDurationFactor: int)
      requires gamemap.Valid()
      ensures Valid() && this.newer == newer && this.gamemap == gamemap
      ensures this.stepDurationFactor == stepDurationFactor && stepDuration.None?
    {
      this.newer := newer;
      this.gamemap := gamemap;
      this.stepDurationFactor := stepDurationFactor;
      stepDuration := None;
    }

    /** The cache holds the duration of the current factor at `tickRate`. */
    predicate CacheFresh(tickRate: Option<int>)
      reads this
    {
      stepDuration.None? || stepDuration.value == Duration(tickRate, stepDurationFactor)
    }

    /** `step_duration`: the cached duration, computed and cached when
      * missing; while the tick rate stays the same it is always the
      * duration of the current factor. */
    method StepDuration(tickRate: Option<int>) returns (d: int)
      modifies this`stepDuration
      ensures d == if old(stepDuration).Some? then old(stepDuration).value else Duration(tickRate, stepDurationFactor)
      ensures stepDuration == Some(d) && CacheFresh(tickRate) == old(CacheFresh(tickRate))
      ensures old(CacheFresh(tickRate)) ==> d == Duration(tickRate, stepDurationFactor)
    {
      if stepDuration.Some? {
        return stepDuration.value;
      }
      var rate := if tickRate.None? || tickRate.value == 0 then 1 else tickRate.value;
      d := if rate * stepDurationFactor > 100 then rate * stepDurationFactor else 100;
      stepDuration := Some(d);
    }

    /** `process_input_event` for the player found (if any), the held keys,
      * the client-only flag and the player's object (`Some(enabled)` when
      * it exists). The older version ignores players that may not give
      * input. Escape stops the game in PLAY mode and returns to PLAY
      * otherwise; CONSOLE only zooms; ADMIN zooms and pans; any other mode
      * zooms, changes the step factor and the mode, and the input is queued
      * on the object only in PLAY mode for an enabled object of a player
      * that may give input and needs no reset. */
    method ProcessInputEvent(p: Option<Players.Player>, keydown: set<int>, clientOnly: bool, objEnabled: Option<bool>)
      returns (out: InputOutcome)
      modifies this`stepDurationFactor, this`stepDuration, PlayerSet(p)`data
      ensures p.None? ==> out == Quiet
      ensures p.Some? && !newer && !Truthy(ValueOf(old(p.value.data), "allow_input", DBool(false))) ==> out == Quiet
      ensures p.Some? && (newer || Truthy(ValueOf(old(p.value.data), "allow_input", DBool(false)))) ==>
                var data, mode := old(p.value.data), ModeOf(old(p.value.data));
                var zooms := Zooms(Players.Str(p.value.uid), keydown);
                && (27 in keydown ==>
                      out == InputOutcome([], mode == Play, None, false)
                      && p.value.data == (if mode == Play then data else data["INPUT_MODE" := Play]))
                && (27 !in keydown && mode == Console ==> out == InputOutcome(zooms, false, None, false) && p.value.data == data)
                && (27 !in keydown && mode == Admin ==>
                      out == InputOutcome(zooms, false, Some(CameraPan(newer, keydown)), false) && p.value.data == data)
                && (27 !in keydown && mode != Console && mode != Admin ==>
                      && out.events == zooms && !out.stop && out.pan.None?
                      && p.value.data == NewMode(data, keydown)
                      && stepDurationFactor == NewFactor(old(stepDurationFactor), keydown)
                      && (out.queued <==> mode == Play && !clientOnly && objEnabled == Some(true)
                                          && !Truthy(ValueOf(data, "reset_required", DBool(false)))
                                          && Truthy(ValueOf(data, "allow_input", DBool(false)))))
      ensures (p.None? || 27 in keydown || ModeOf(old(p.value.data)) == Console || ModeOf(old(p.value.data)) == Admin
               || (80 !in keydown && 81 !in keydown)) ==>
                stepDurationFactor == old(stepDurationFactor) && stepDuration == old(stepDuration)
      ensures stepDurationFactor != old(stepDurationFactor) ==> stepDuration.None?
      ensures p.None? || (!newer && !Truthy(ValueOf(old(p.value.data), "allow_input", DBool(false)))) ==>
                p.None? || p.value.data == old(p.value.data)
    {
      if p.None? {
        return Quiet;
      }
      var player := p.value;
      if !newer && !Truthy(ValueOf(player.data, "allow_input", DBool(false))) {
        return Quiet;
      }
      var mode := ModeOf(player.data);
      if 27 in keydown {
        if mode != Play {
          player.SetDataValue("INPUT_MODE", Play);
        }
        return InputOutcome([], mode == Play, None, false);
      }
      var events := Zooms(Players.Str(player.uid), keydown);
      if mode == Console {
        return InputOutcome(events, false, None, false);
      } else if mode == Admin {
        return InputOutcome(events, false, Some(CameraPan(newer, keydown)), false);
      }
      if 80 in keydown || 81 in keydown {
        stepDurationFactor := NewFactor(stepDurationFactor, keydown);
        stepDuration := None;
      }
      // key 13 then key 99 set the mode, so the console wins
      player.data := NewMode(player.data, keydown);
      var queued := !clientOnly && objEnabled == Some(true)
                    && !Truthy(ValueOf(player.data, "reset_required", DBool(false)))
                    && Truthy(ValueOf(player.data, "allow_input", DBool(false)))
                    && mode == Play;
      out := InputOutcome(events, false, None, queued);
    }

    /** `request_reset`: every player's reset flag is set, so a reset is
      * then required. */
    method RequestReset(players: map<string, Players.Player>)
      modifies players.Values`data
      ensures forall k :: k in players ==> players[k].data == old(players[k].data)["reset_required" := DBool(true)]
      ensures AllFlagged(players)
    {
      var todo := players.Values;
      while todo != {}
        invariant todo <= players.Values
        invariant forall q :: q in players.Values ==> q.data == if q in todo then old(q.data) else old(q.data)["reset_required" := DBool(true)]
        decreases todo
      {
        var q := Pick(todo);
        q.SetDataValue("reset_required", DBool(true));
        todo := todo - {q};
      }
    }

    /** `reset_required`: every player's flag (set when missing) is set; so
      * with no players a reset is required. */
    method ResetRequired(players: map<string, Players.Player>) returns (r: bool)
      ensures r <==> AllFlagged(players)
    {
      var todo := players.Keys;
      while todo != {}
        invariant todo <= players.Keys
        invariant forall k :: k in players.Keys - todo ==> Truthy(ValueOf(players[k].data, "reset_required", DBool(true)))
        decreases todo
      {
        var k := Pick(todo);
        if !Truthy(players[k].GetDataValue("reset_required", DBool(true))) {
          return false;
        }
        todo := todo - {k};
      }
      r := true;
    }

    /** `get_step_info` without the observation: no player gives an info
      * message; a player not allowed observations is skipped with nothing
      * changed; a missing object is skipped; otherwise the object's reward
      * is reported and zeroed, and a done player loses its observations. */
    method GetStepInfo(p: Option<Players.Player>, obj: Option<SurvivalObjects.AnimateObject>) returns (r: StepInfo)
      modifies PlayerSet(p)`data, ObjectSet(obj)`reward
      ensures p.None? ==> r == StepInfo(Some(0), Some(DBool(false)), Some("no player found"), false)
      ensures p.Some? && !Truthy(ValueOf(old(p.value.data), "allow_obs", DBool(false))) ==>
                r == StepInfo(None, None, None, true) && p.value.data == old(p.value.data)
      ensures p.Some? && Truthy(ValueOf(old(p.value.data), "allow_obs", DBool(false))) && obj.None? ==>
                r == StepInfo(Some(0), Some(DBool(false)), None, true) && p.value.data == old(p.value.data)
      ensures p.Some? && Truthy(ValueOf(old(p.value.data), "allow_obs", DBool(false))) && obj.Some? ==>
                var done := ValueOf(old(p.value.data), "reset_required", DBool(false));
                && r == StepInfo(Some(old(obj.value.reward)), Some(done), None, false)
                && obj.value.reward == 0
                && p.value.data == if Truthy(done) then old(p.value.data)["allow_obs" := DBool(false)] else old(p.value.data)
      ensures p.None? || obj.None? || !Truthy(ValueOf(old(p.value.data), "allow_obs", DBool(false))) ==>
                obj.None? || obj.value.reward == old(obj.value.reward)
    {
      if p.None? {
        return StepInfo(Some(0), Some(DBool(false)), Some("no player found"), false);
      }
      var player := p.value;
      if !Truthy(player.GetDataValue("allow_obs", DBool(false))) {
        return StepInfo(None, None, None, true);
      }
      if obj.None? {
        return StepInfo(Some(0), Some(DBool(false)), None, true);
      }
      var done := player.GetDataValue("reset_required", DBool(false));
      if Truthy(done) {
        player.SetDataValue("allow_obs", DBool(false));
      }
      var reward := obj.value.reward;
      obj.value.reward := 0;
      r := StepInfo(Some(reward), Some(done), None, false);
    }

    /** `message_player`: `(due tick, message)` is appended to the player's
      * message list (which the newer version can clear first), due
      * `duration` steps from `now`, truncated to whole ticks. */
    method MessagePlayer(p: Players.Player, message: string, duration: int, clearMessages: bool, tickRate: Option<int>, now: int)
      requires ListOrAbsent(p.data, "messages")
      modifies p`data, this`stepDuration
      ensures var steps := if old(stepDuration).Some? then old(stepDuration).value else Duration(tickRate, stepDurationFactor);
              var due := SurvivalUtils.TruncDiv(duration * steps, 100) + now;
              var before := if clearMessages && newer then [] else ListAt(old(p.data), "messages");
              p.data == old(p.data)["messages" := DList(before + [DList([DInt(due), DStr(message)])])]
    {
      var d := StepDuration(tickRate);
      var msgs := if clearMessages && newer then [] else ListAt(p.data, "messages");
      var delay := SurvivalUtils.TruncDiv(duration * d, 100);
      p.SetDataValue("messages", DList(msgs + [DList([DInt(delay + now), DStr(message)])]));
    }

    /** `log_console`: the stamped line is appended to the log of every
      * player, or only of the one named. */
    method LogConsole(players: map<string, Players.Player>, message: string, playerId: Option<string>, now: int)
      requires PlayerTable.Unaliased(players)
      requires forall k :: k in players ==> ListOrAbsent(players[k].data, "log")
      modifies players.Values`data
      ensures forall k :: k in players ==>
                players[k].data == if playerId.None? || k == playerId.value then Appended(old(players[k].data), "log", DStr(Stamped(now, message)))
                                   else old(players[k].data)
    {
      var line := DStr(Stamped(now, message));
      var todo := players.Keys;
      while todo != {}
        invariant todo <= players.Keys
        invariant forall k :: k in players ==>
                    players[k].data == if k in todo || !(playerId.None? || k == playerId.value) then old(players[k].data)
                                       else Appended(old(players[k].data), "log", line)
        decreases todo
      {
        var k := Pick(todo);
        if playerId.None? || k == playerId.value {
          var q := players[k];
          q.SetDataValue("log", DList(ListAt(q.data, "log") + [line]));
        }
        todo := todo - {k};
      }
    }

    /** `process_admin_command_event` with the corrected mode check and
      * logging (see `CommandLinesAsWritten`): a reset is requested and
      * announced; a known mode is set on the issuing player (`target`);
      * a save announces its file (`savePath` stands for the configured
      * `save_path`); a script that raises (`scriptError`, its message) is
      * reported; errors are logged; and the handler raises as `AdminError`
      * says (`hasObject`: whether the issuing player's object exists). */
    method ProcessAdminCommand(value: string, players: map<string, Players.Player>, target: Option<Players.Player>,
                               hasObject: bool, savePath: string, scriptError: Option<string>, now: int)
      returns (err: Option<Error>)
      requires PlayerTable.Unaliased(players)
      requires forall k :: k in players ==> ListOrAbsent(players[k].data, "log")
      requires target.Some? ==> target.value in players.Values
      modifies players.Values`data
      ensures err == AdminError(Classify(newer, value), value, target.Some?, hasObject)
      ensures var cmd := Classify(newer, value);
              err.None? && Accounted(cmd, scriptError) ==> forall k :: k in players ==>
                players[k].data == Logged(CommandEffect(cmd, old(players[k].data), target == Some(players[k])),
                                          AdminLine(cmd, value, savePath, scriptError), now)
      ensures err.Some? ==> forall k :: k in players ==> players[k].data == old(players[k].data)
    {
      var cmd := Classify(newer, value);
      // every raise comes before the handler changes anything
      err := AdminError(cmd, value, target.Some?, hasObject);
      if err.Some? {
        return;
      }
      if cmd.ResetCmd? {
        RequestReset(players);
        assert forall k :: k in players ==> ListOrAbsent(players[k].data, "log");
        LogConsole(players, "RUNNING COMMAND: " + value, None, now);
      } else if cmd.InputModeCmd? && cmd.arg.Some? && KnownMode(cmd.arg.value) {
        target.value.SetDataValue("INPUT_MODE", DStr(Upper(cmd.arg.value)));
        assert forall k :: k in players && players[k] != target.value ==> players[k].data == old(players[k].data);
      } else if cmd.SaveCmd? {
        // the snapshot file itself is not written here
        LogConsole(players, "Saving to " + JoinPath(savePath, SaveName(value) + ".json"), None, now);
      } else if cmd.RunCmd? {
        if scriptError.Some? {
          LogConsole(players, "Error running script: " + scriptError.value, None, now);
        }
      } else if !cmd.SpawnCmd? && !cmd.ControllerCmd? {
        // the location search and the new object of `spawn` and
        // `controller`, and the save file `load` reads, are not part of
        // this model
        var error := CommandError(cmd);
        if error.Some? {
          LogConsole(players, FailureLine(value, error), None, now);
        }
      }
    }

    /** `process_position_change_event`: when a player's object crosses
      * into another sector, the sectors around the new one are loaded:
      * those not loaded before are read in the order `order`, and their
      * objects placed and spawn points recorded as `LoadSectorsNearCoord`
      * says. */
    method ProcessPositionChange(isPlayerObj: bool, oldPos: Option<Vec>, newPos: Option<Vec>)
      returns (placed: seq<SurvivalMap.Placement>, ghost order: seq<Coord>)
      requires Valid()
      modifies gamemap`sectors, gamemap`sectorsLoaded, gamemap`spawnPoints
      ensures var ns := SurvivalMap.SectorCoordFromPos(newPos, gamemap.tileSize, gamemap.sectorSize);
              if isPlayerObj && SurvivalMap.SectorCoordFromPos(oldPos, gamemap.tileSize, gamemap.sectorSize) != ns
              then && gamemap.sectorsLoaded == old(gamemap.sectorsLoaded) + {ns} + SurvivalMap.NeighCoords(ns)
                   && (forall k :: k in order <==> k in ({ns} + SurvivalMap.NeighCoords(ns)) - old(gamemap.sectorsLoaded))
                   && SurvivalMap.Distinct(order)
                   && placed == SurvivalMap.Placements(gamemap.newer, SurvivalMap.SectorEntries(old(gamemap.sectors), order),
                                                       gamemap.contentTileSize)
                   && gamemap.spawnPoints == SurvivalMap.WithSpawnPoints(old(gamemap.spawnPoints), gamemap.newer,
                        SurvivalMap.SectorEntries(old(gamemap.sectors), order), gamemap.contentTileSize)
              else placed == [] && order == [] && gamemap.sectorsLoaded == old(gamemap.sectorsLoaded)
                   && gamemap.sectors == old(gamemap.sectors) && gamemap.spawnPoints == old(gamemap.spawnPoints)
    {
      placed, order := [], [];
      if !isPlayerObj {
        return;
      }
      var os := SurvivalMap.SectorCoordFromPos(oldPos, gamemap.tileSize, gamemap.sectorSize);
      var ns := SurvivalMap.SectorCoordFromPos(newPos, gamemap.tileSize, gamemap.sectorSize);
      if os != ns {
        placed, order := gamemap.LoadSectorsNearCoord(ns);
      }
    }
  }
}
