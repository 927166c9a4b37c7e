/** The ST3215 servo ID changer: locating the single servo on the bus,
    the guarded ID change of direct mode, the prompt loop of interactive mode
    and the command-line dispatch between the two.

    Each workflow is a method on the bus, proved equal to a specification
    function that gives its outcome, the driver calls it makes and the bus
    afterwards; the safety rules are lemmas about those functions (in module
    IdChangerProperties). */
module IdChanger {
  import opened Values
  import opened Text
  import opened ServoBus

  /** The environment variable naming the serial port. */
  const PortVariable := "ST3215_DEV"

  /** The IDs a servo may be given; 254 is the broadcast address. */
  const MinId := 1
  const MaxId := 253
  const BroadcastId := 254

  predicate InRange(id: int) {
    MinId <= id <= MaxId
  }

  /** The exceptions that escape the script; Python then exits with status 1. */
  datatype Escape =
    | EnvironmentError(variable: string)  // raised by get_serial_port
    | EndOfInput                          // EOFError from input()

  /** `get_serial_port`: the value of ST3215_DEV, which must be set and
      non-empty. */
  function GetSerialPort(env: Option<string>): (r: Result<string, Escape>)
    ensures r.Failure? <==> env == None || env == Some("")
    ensures r.Success? ==> env == Some(r.value)
    ensures r.Failure? ==> r.error == EnvironmentError(PortVariable)
  {
    if env.None? || env.value == "" then Failure(EnvironmentError(PortVariable))
    else Success(env.value)
  }

  // ---------------------------------------------------------------------
  // Single-servo locator

  /** What a bus scan says about changing an ID safely. */
  datatype Located =
    | NotFound
    | Ambiguous(count: nat)  // more than one ID answered: refuse
    | Single(id: int)

  /** The decision `find_single_servo` takes on the list `ListServos` returns. */
  function LocateSingle(scan: seq<int>): (r: Located)
    ensures r == NotFound <==> scan == []
    ensures r.Ambiguous? <==> |scan| > 1
    ensures r.Single? ==> scan == [r.id]
  {
    if scan == [] then NotFound
    else if |scan| > 1 then Ambiguous(|scan|)
    else Single(scan[0])
  }

  /** The same decision stated on the set of answering IDs. */
  ghost function Locate(ids: set<int>): (r: Located)
    ensures r == NotFound <==> ids == {}
    ensures r.Ambiguous? <==> |ids| > 1
    ensures r.Single? ==> ids == {r.id}
  {
    if ids == {} then NotFound
    else if |ids| > 1 then Ambiguous(|ids|)
    else
      HasMember(ids);
      var id :| id in ids;
      assert |ids - {id}| == 0;
      assert ids == {id};
      Single(id)
  }

  /** Whatever order the driver lists the IDs in, the scan's decision is the
      one the set of answering IDs determines. */
  lemma ScanDecidesLikeBus(scan: seq<int>, servos: multiset<int>)
    requires Distinct(scan)
    requires forall id :: id in scan <==> id in servos
    ensures LocateSingle(scan) == Locate(Support(servos))
  {
    DistinctCard(scan);
    assert (set id | id in scan) == Support(servos);
    if |scan| == 1 {
      assert scan[0] in Support(servos);
    }
  }

  /** `find_single_servo`: one scan of the bus. */
  method FindSingleServo(bus: Bus) returns (r: Located)
    requires bus.isOpen
    modifies bus`calls
    ensures r == Locate(Support(bus.servos))
    ensures bus.calls == old(bus.calls) + [Scan]
  {
    var scan := bus.ListServos();
    ScanDecidesLikeBus(scan, bus.servos);
    r := LocateSingle(scan);
  }

  // ---------------------------------------------------------------------
  // Direct mode: change_servo_id

  /** A workflow's result, the driver calls it made and the bus afterwards. */
  datatype Run<+R> = Run(result: R, calls: seq<Call>, servos: multiset<int>)

  /** How `change_servo_id` ends: an exception, or its boolean result. */
  datatype Direct = Raised(error: Escape) | Returned(success: bool)

  /** `change_servo_id(currentId, newId)` against the bus `w`. */
  function DirectSpec(env: Option<string>, w: World, currentId: int, newId: int): Run<Direct>
  {
    var port := GetSerialPort(env);
    if port.Failure? then Run(Raised(port.error), [], w.servos)
    else if !w.openOk then Run(Returned(false), [], w.servos)
    else GuardedSpec(w, currentId, newId)
  }

  /** `change_servo_id` once the port is open: the presence check, the
      collision check, the write and the verification ping. */
  function GuardedSpec(w: World, currentId: int, newId: int): Run<Direct>
  {
    if currentId !in w.servos then
      Run(Returned(false), [Ping(currentId), Scan], w.servos)
    else if currentId != newId && newId in w.servos then
      Run(Returned(false), [Ping(currentId), Ping(newId)], w.servos)
    else
      var probes := if currentId != newId then [Ping(currentId), Ping(newId)] else [Ping(currentId)];
      var write := WriteSpec(w, currentId, newId);
      Run(write.result, probes + write.calls, write.servos)
  }

  /** The ID write and, when it is acknowledged, the verification ping,
      whose answer does not affect the result. */
  function WriteSpec(w: World, currentId: int, newId: int): Run<Direct>
  {
    if w.writeReply.None? then
      Run(Returned(true), [Write(currentId, newId), Ping(newId)], Acknowledged(w, currentId, newId))
    else
      Run(Returned(false), [Write(currentId, newId)], w.servos)
  }

  method ChangeServoId(bus: Bus, env: Option<string>, currentId: int, newId: int) returns (r: Direct)
    modifies bus
    ensures var run := DirectSpec(env, old(bus.State()), currentId, newId);
      r == run.result && bus.calls == old(bus.calls) + run.calls && bus.servos == run.servos
  {
    var port := GetSerialPort(env);
    if port.Failure? {
      return Raised(port.error);
    }
    var ok := bus.Open();
    if !ok {
      return Returned(false);
    }
    r := GuardedChange(bus, currentId, newId);
  }

  method GuardedChange(bus: Bus, currentId: int, newId: int) returns (r: Direct)
    requires bus.isOpen
    modifies bus`servos, bus`calls
    ensures var run := GuardedSpec(old(bus.State()), currentId, newId);
      r == run.result && bus.calls == old(bus.calls) + run.calls && bus.servos == run.servos
  {
    var found := bus.PingServo(currentId);
    if !found {
      var _ := bus.ListServos();
      return Returned(false);
    }
    if currentId != newId {
      var taken := bus.PingServo(newId);
      if taken {
        return Returned(false);
      }
    }
    ghost var probed := bus.calls;
    ghost var write := WriteSpec(old(bus.State()), currentId, newId);
    LogAppend(old(bus.calls), probed[|old(bus.calls)|..], write.calls);
    assert old(bus.calls) + probed[|old(bus.calls)|..] == probed;
    r := WriteAndVerify(bus, currentId, newId);
  }

  method WriteAndVerify(bus: Bus, currentId: int, newId: int) returns (r: Direct)
    requires bus.isOpen
    modifies bus`servos, bus`calls
    ensures var run := WriteSpec(old(bus.State()), currentId, newId);
      r == run.result && bus.calls == old(bus.calls) + run.calls && bus.servos == run.servos
  {
    var reply := bus.ChangeId(currentId, newId);
    if reply.None? {
      var _ := bus.PingServo(newId);
      return Returned(true);
    }
    return Returned(false);
  }

  // ---------------------------------------------------------------------
  // Interactive mode

  /** How the new-ID prompt ends. */
  datatype Choice =
    | Quit           // 'q' or 'Q'
    | Same           // the servo's current ID
    | Chosen(id: int)
    | Exhausted      // input ended (EOFError)

  /** A prompt's choice and how many input lines it consumed. */
  datatype Prompted = Prompted(choice: Choice, used: nat)

  /** What the prompt does with one input line. */
  datatype Step = Reprompt | Stop(choice: Choice)

  /** One pass of the new-ID loop of `interactive_mode`: the line is
      stripped; 'q' in either case quits; otherwise it must be a number
      (`parse` is Python's `int()`) in [1, 253], and the current ID ends the
      prompt without a change. */
  function Classify(line: string, currentId: int, parse: string -> Option<int>): (s: Step)
    ensures s.Stop? ==> !s.choice.Exhausted?
  {
    var entry := Strip(line);
    if Lower(entry) == "q" then Stop(Quit)
    else match parse(entry)
      case None => Reprompt
      case Some(n) =>
        if !InRange(n) then Reprompt
        else if n == currentId then Stop(Same)
        else Stop(Chosen(n))
  }

  /** What each outcome of `Classify` means for the line typed. */
  lemma ClassifyMeaning(line: string, currentId: int, parse: string -> Option<int>)
    ensures var s := Classify(line, currentId, parse);
      && (s == Stop(Quit) <==> IsAnswer(line, "q"))
      && (s == Reprompt <==>
            !IsAnswer(line, "q") && (parse(Strip(line)).None? || !InRange(parse(Strip(line)).value)))
      && (s == Stop(Same) <==>
            !IsAnswer(line, "q") && parse(Strip(line)) == Some(currentId) && InRange(currentId))
      && (s.Stop? && s.choice.Chosen? <==>
            !IsAnswer(line, "q") && parse(Strip(line)).Some? && InRange(parse(Strip(line)).value)
            && parse(Strip(line)).value != currentId)
      && (s.Stop? && s.choice.Chosen? ==> parse(Strip(line)) == Some(s.choice.id))
  {
  }

  function After(n: nat, p: Prompted): Prompted {
    Prompted(p.choice, p.used + n)
  }

  /** The new-ID prompt of `interactive_mode` over successive input lines:
      it asks again after every line `Classify` rejects and stops at the
      first line it accepts, or when the input ends. */
  function PromptNewId(inputs: seq<string>, currentId: int, parse: string -> Option<int>): (p: Prompted)
    ensures p.used <= |inputs|
    ensures p.choice == Exhausted ==> p.used == |inputs|
    ensures p.choice != Exhausted ==>
      0 < p.used && Classify(inputs[p.used - 1], currentId, parse) == Stop(p.choice)
    ensures forall k :: 0 <= k < p.used && (k < p.used - 1 || p.choice == Exhausted) ==>
      Classify(inputs[k], currentId, parse) == Reprompt
    decreases |inputs|
  {
    if inputs == [] then Prompted(Exhausted, 0)
    else match Classify(inputs[0], currentId, parse)
      case Reprompt => After(1, PromptNewId(inputs[1..], currentId, parse))
      case Stop(choice) => Prompted(choice, 1)
  }

  /** How `interactive_mode` ends. */
  datatype Session =
    | Aborted(error: Escape)
    | OpenFailed
    | NoSingleServo(found: Located)
    | Cancelled
    | AlreadyHasId(id: int)
    | Declined
    | WriteFailed(detail: string)
    | Changed(from: int, to: int)

  /** `interactive_mode` against the bus `w`, reading the lines `inputs`. */
  ghost function InteractiveSpec(env: Option<string>, w: World, inputs: seq<string>,
                                 parse: string -> Option<int>): Run<Session>
  {
    var port := GetSerialPort(env);
    if port.Failure? then Run(Aborted(port.error), [], w.servos)
    else if !w.openOk then Run(OpenFailed, [], w.servos)
    else ScanSpec(w, inputs, parse)
  }

  /** `interactive_mode` once the port is open: the scan, then the session
      with the single servo found. */
  ghost function ScanSpec(w: World, inputs: seq<string>, parse: string -> Option<int>): Run<Session>
  {
    var found := Locate(Support(w.servos));
    if !found.Single? then Run(NoSingleServo(found), [Scan], w.servos)
    else
      var s := SessionSpec(w, found.id, inputs, parse);
      Run(s.result, [Scan] + s.calls, s.servos)
  }

  /** The rest of `interactive_mode` once the single servo answered to
      `currentId`: the new-ID prompt, the confirmation and the write. */
  function SessionSpec(w: World, currentId: int, inputs: seq<string>,
                       parse: string -> Option<int>): Run<Session>
  {
    var p := PromptNewId(inputs, currentId, parse);
    match p.choice
    case Exhausted => Run(Aborted(EndOfInput), [], w.servos)
    case Quit => Run(Cancelled, [], w.servos)
    case Same => Run(AlreadyHasId(currentId), [], w.servos)
    case Chosen(newId) => ConfirmSpec(w, currentId, newId, inputs[p.used..])
  }

  /** The confirmation prompt and the write, on the input lines left after
      the new ID was chosen. */
  function ConfirmSpec(w: World, currentId: int, newId: int, rest: seq<string>): Run<Session>
  {
    if rest == [] then Run(Aborted(EndOfInput), [], w.servos)
    else if !IsAnswer(rest[0], "y") then Run(Declined, [], w.servos)
    else if w.writeReply.None? then
      Run(Changed(currentId, newId), [Write(currentId, newId), Ping(newId)], Acknowledged(w, currentId, newId))
    else
      Run(WriteFailed(w.writeReply.value), [Write(currentId, newId)], w.servos)
  }

  method InteractiveMode(bus: Bus, env: Option<string>, inputs: seq<string>,
                         parse: string -> Option<int>) returns (r: Session)
    modifies bus
    ensures var run := InteractiveSpec(env, old(bus.State()), inputs, parse);
      r == run.result && bus.calls == old(bus.calls) + run.calls && bus.servos == run.servos
  {
    var port := GetSerialPort(env);
    if port.Failure? {
      return Aborted(port.error);
    }
    var ok := bus.Open();
    if !ok {
      return OpenFailed;
    }
    r := ScanAndChange(bus, inputs, parse);
  }

  /** The scan for the single servo and what follows it. */
  method ScanAndChange(bus: Bus, inputs: seq<string>, parse: string -> Option<int>) returns (r: Session)
    requires bus.isOpen
    modifies bus`servos, bus`calls
    ensures var run := ScanSpec(old(bus.State()), inputs, parse);
      r == run.result && bus.calls == old(bus.calls) + run.calls && bus.servos == run.servos
  {
    var found := FindSingleServo(bus);
    if !found.Single? {
      return NoSingleServo(found);
    }
    ghost var s := SessionSpec(bus.State(), found.id, inputs, parse);
    LogAppend(old(bus.calls), [Scan], s.calls);
    r := ChangeFoundServo(bus, found.id, inputs, parse);
  }

  /** What `interactive_mode` does once the single servo is found. */
  method ChangeFoundServo(bus: Bus, currentId: int, inputs: seq<string>, parse: string -> Option<int>)
      returns (r: Session)
    requires bus.isOpen
    modifies bus`servos, bus`calls
    ensures var run := SessionSpec(old(bus.State()), currentId, inputs, parse);
      r == run.result && bus.calls == old(bus.calls) + run.calls && bus.servos == run.servos
  {
    var p := AskNewId(inputs, currentId, parse);
    match p.choice {
      case Exhausted => return Aborted(EndOfInput);
      case Quit => return Cancelled;
      case Same => return AlreadyHasId(currentId);
      case Chosen(newId) =>
        r := ConfirmAndWrite(bus, currentId, newId, inputs[p.used..]);
    }
  }

  /** The confirmation step and the write that follows it. */
  method ConfirmAndWrite(bus: Bus, currentId: int, newId: int, rest: seq<string>) returns (r: Session)
    requires bus.isOpen
    modifies bus`servos, bus`calls
    ensures var run := ConfirmSpec(old(bus.State()), currentId, newId, rest);
      r == run.result && bus.calls == old(bus.calls) + run.calls && bus.servos == run.servos
  {
    if rest == [] {
      return Aborted(EndOfInput);
    }
    var answer := Lower(Strip(rest[0]));
    if answer != "y" {
      return Declined;
    }
    var reply := bus.ChangeId(currentId, newId);
    if reply.None? {
      var _ := bus.PingServo(newId);
      return Changed(currentId, newId);
    }
    return WriteFailed(reply.value);
  }

  /** The new-ID prompt loop of `interactive_mode`. */
  method AskNewId(inputs: seq<string>, currentId: int, parse: string -> Option<int>) returns (p: Prompted)
    ensures p == PromptNewId(inputs, currentId, parse)
  {
    var i := 0;
    while true
      invariant 0 <= i <= |inputs|
      invariant PromptNewId(inputs, currentId, parse) == After(i, PromptNewId(inputs[i..], currentId, parse))
      decreases |inputs| - i
    {
      if i == |inputs| {
        return Prompted(Exhausted, i);
      }
      assert inputs[i..][0] == inputs[i] && inputs[i..][1..] == inputs[i + 1..];
      var entry := Strip(inputs[i]);
      i := i + 1;
      if Lower(entry) == "q" {
        return Prompted(Quit, i);
      }
      var parsed := parse(entry);
      if parsed.None? {
        continue;
      }
      var n := parsed.value;
      if !InRange(n) {
        continue;
      }
      if n == currentId {
        return Prompted(Same, i);
      }
      return Prompted(Chosen(n), i);
    }
  }

  // ---------------------------------------------------------------------
  // Command-line dispatch

  /** The `__main__` block: `args` is `sys.argv` (program name first); the
      result is the exit status. */
  ghost function DispatchSpec(args: seq<string>, env: Option<string>, w: World, inputs: seq<string>,
                              parse: string -> Option<int>): Run<int>
  {
    if |args| == 1 then
      var s := InteractiveSpec(env, w, inputs, parse);
      Run(if s.result.Aborted? then 1 else 0, s.calls, s.servos)
    else if |args| == 3 then
      match (parse(args[1]), parse(args[2]))
      case (Some(currentId), Some(newId)) =>
        if !InRange(currentId) || !InRange(newId) then Run(1, [], w.servos)
        else
          var d := DirectSpec(env, w, currentId, newId);
          Run(if d.result == Returned(true) then 0 else 1, d.calls, d.servos)
      case _ => Run(1, [], w.servos)
    else Run(1, [], w.servos)
  }

  method Dispatch(bus: Bus, args: seq<string>, env: Option<string>, inputs: seq<string>,
                  parse: string -> Option<int>) returns (status: int)
    modifies bus
    ensures var run := DispatchSpec(args, env, old(bus.State()), inputs, parse);
      status == run.result && bus.calls == old(bus.calls) + run.calls && bus.servos == run.servos
  {
    if |args| == 1 {
      var s := InteractiveMode(bus, env, inputs, parse);
      status := if s.Aborted? then 1 else 0;
    } else if |args| == 3 {
      var current := parse(args[1]);
      var next := parse(args[2]);
      if current.None? || next.None? {
        return 1;
      }
      var currentId, newId := current.value, next.value;
      if !InRange(currentId) {
        return 1;
      }
      if !InRange(newId) {
        return 1;
      }
      var d := ChangeServoId(bus, env, currentId, newId);
      status := if d == Returned(true) then 0 else 1;
    } else {
      status := 1;
    }
  }
}
