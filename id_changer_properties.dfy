/** Safety and outcome properties of the ID changer's two entry points and
    its command-line dispatch, stated over the specification functions that
    the workflow methods of module IdChanger are proved to follow. */
module IdChangerProperties {
  import opened Values
  import opened Text
  import opened ServoBus
  import opened IdChanger

  // ---------------------------------------------------------------------
  // Direct mode (change_servo_id)

  /** Without ST3215_DEV the workflow raises before touching the bus. */
  lemma DirectNeedsPort(env: Option<string>, w: World, currentId: int, newId: int)
    requires env == None || env == Some("")
    ensures DirectSpec(env, w, currentId, newId) == Run(Raised(EnvironmentError(PortVariable)), [], w.servos)
  {
  }

  /** A port that does not open ends the workflow with false and no driver
      call. */
  lemma DirectOpenFailure(env: Option<string>, w: World, currentId: int, newId: int)
    requires GetSerialPort(env).Success? && !w.openOk
    ensures DirectSpec(env, w, currentId, newId) == Run(Returned(false), [], w.servos)
  {
  }

  /** A current ID that does not answer ends the workflow with false; the only
      call after the ping is the diagnostic scan, and nothing is written. */
  lemma DirectCurrentAbsent(env: Option<string>, w: World, currentId: int, newId: int)
    requires GetSerialPort(env).Success? && w.openOk && currentId !in w.servos
    ensures DirectSpec(env, w, currentId, newId) == Run(Returned(false), [Ping(currentId), Scan], w.servos)
  {
  }

  /** Collision guard: a new ID that already answers ends the workflow with
      false before any write, and the bus is unchanged. */
  lemma DirectCollisionGuard(env: Option<string>, w: World, currentId: int, newId: int)
    requires GetSerialPort(env).Success? && w.openOk
    requires currentId in w.servos && currentId != newId && newId in w.servos
    ensures DirectSpec(env, w, currentId, newId) == Run(Returned(false), [Ping(currentId), Ping(newId)], w.servos)
  {
  }

  /** Direct mode has no shortcut for an unchanged ID: the collision ping is
      skipped and the write is still issued, leaving the bus as it was. */
  lemma DirectSameIdStillWrites(env: Option<string>, w: World, id: int)
    requires GetSerialPort(env).Success? && w.openOk && id in w.servos
    ensures var run := DirectSpec(env, w, id, id);
      && run.calls[..2] == [Ping(id), Write(id, id)]
      && run.result == Returned(w.writeReply.None?)
      && run.servos == w.servos
  {
    if w.writeReply.None? {
      assert Rename(w.servos, id, id) == w.servos;
    }
  }

  /** Every write the workflow issues is the requested one, and is issued
      only on an open port, with the current ID answering and the new ID
      free (or equal to the current one); at most one write is issued. */
  lemma DirectWritesOnlyWhenSafe(env: Option<string>, w: World, currentId: int, newId: int)
    ensures var run := DirectSpec(env, w, currentId, newId);
      && WriteCount(run.calls) <= 1
      && forall a, b :: Write(a, b) in run.calls ==>
           a == currentId && b == newId && w.openOk && GetSerialPort(env).Success?
           && currentId in w.servos && (currentId == newId || newId !in w.servos)
  {
    var run := DirectSpec(env, w, currentId, newId);
    if GetSerialPort(env).Success? && w.openOk && currentId in w.servos
       && (currentId == newId || newId !in w.servos) {
      var probes := if currentId != newId then [Ping(currentId), Ping(newId)] else [Ping(currentId)];
      var write := WriteSpec(w, currentId, newId);
      WriteCountAppend(probes, write.calls);
      assert WriteCount(probes) == 0;
      assert WriteCount(write.calls) == 1 by {
        assert write.calls[1..] == [] || write.calls[1..] == [Ping(newId)];
      }
    }
  }

  /** The result is true exactly when the write was issued and the driver
      acknowledged it; the verification ping after it does not decide the
      result. */
  lemma DirectSuccessIffAcknowledged(env: Option<string>, w: World, currentId: int, newId: int)
    ensures var run := DirectSpec(env, w, currentId, newId);
      run.result == Returned(true) <==> Write(currentId, newId) in run.calls && w.writeReply.None?
  {
    var run := DirectSpec(env, w, currentId, newId);
    if Write(currentId, newId) in run.calls {
      DirectWritesOnlyWhenSafe(env, w, currentId, newId);
    }
  }

  /** After an acknowledged write the last call is the verification ping,
      and the servo answers it exactly when the write took effect (or the ID
      did not change); either way the result is true. */
  lemma DirectVerifiedAfterSuccess(env: Option<string>, w: World, currentId: int, newId: int)
    requires DirectSpec(env, w, currentId, newId).result == Returned(true)
    ensures var run := DirectSpec(env, w, currentId, newId);
      && run.calls[|run.calls| - 1] == Ping(newId)
      && (newId in run.servos <==> w.writeApplies || newId == currentId)
  {
  }

  /** Why the collision guard is there: writing to a new ID that is already
      taken leaves two units on one ID. */
  lemma UnguardedWriteCollides(servos: multiset<int>, currentId: int, newId: int)
    requires currentId != newId && currentId in servos && newId in servos
    ensures !UniqueIds(Rename(servos, currentId, newId))
  {
    assert Rename(servos, currentId, newId)[newId] >= 2;
  }

  /** With the guard, a bus whose units have distinct IDs keeps them distinct,
      and no unit is lost or added. */
  lemma DirectKeepsIdsUnique(env: Option<string>, w: World, currentId: int, newId: int)
    requires UniqueIds(w.servos)
    ensures var run := DirectSpec(env, w, currentId, newId);
      UniqueIds(run.servos) && |run.servos| == |w.servos|
  {
    var run := DirectSpec(env, w, currentId, newId);
    if run.servos != w.servos {
      RenameKeepsIdsUnique(w.servos, currentId, newId);
    }
  }

  /** Renaming the units at a present ID to a free ID keeps IDs distinct. */
  lemma RenameKeepsIdsUnique(servos: multiset<int>, from: int, to: int)
    requires UniqueIds(servos) && (from == to || to !in servos)
    ensures UniqueIds(Rename(servos, from, to))
  {
    var r := Rename(servos, from, to);
    forall id ensures r[id] <= 1 {
      if id == to && from != to {
        assert r[id] == servos[from];
      } else if id == to {
        assert r[id] == servos[id];
      }
    }
  }

  /** Replaying a successful change fails cleanly: the current ID no longer
      answers, so nothing is written and the bus stays as it is. */
  lemma DirectReplayFails(env: Option<string>, w: World, currentId: int, newId: int)
    requires currentId != newId && w.writeApplies
    requires DirectSpec(env, w, currentId, newId).result == Returned(true)
    ensures var after := DirectSpec(env, w, currentId, newId).servos;
      DirectSpec(env, w.(servos := after), currentId, newId) == Run(Returned(false), [Ping(currentId), Scan], after)
  {
  }

  // ---------------------------------------------------------------------
  // Interactive mode

  /** Lines the prompt rejects are skipped: the prompt continues with what
      follows them. */
  lemma {:induction false} PromptSkipsRejected(rejected: seq<string>, rest: seq<string>, currentId: int,
                                               parse: string -> Option<int>)
    requires forall k :: 0 <= k < |rejected| ==> Classify(rejected[k], currentId, parse) == Reprompt
    ensures PromptNewId(rejected + rest, currentId, parse) == After(|rejected|, PromptNewId(rest, currentId, parse))
  {
    if rejected == [] {
      assert rejected + rest == rest;
    } else {
      assert (rejected + rest)[0] == rejected[0];
      assert (rejected + rest)[1..] == rejected[1..] + rest;
      PromptSkipsRejected(rejected[1..], rest, currentId, parse);
    }
  }

  /** With more than one ID answering, or none, interactive mode stops after
      the scan and writes nothing. */
  lemma InteractiveNeedsSingleServo(env: Option<string>, w: World, inputs: seq<string>,
                                    parse: string -> Option<int>)
    requires GetSerialPort(env).Success? && w.openOk && |Support(w.servos)| != 1
    ensures InteractiveSpec(env, w, inputs, parse)
      == Run(NoSingleServo(Locate(Support(w.servos))), [Scan], w.servos)
  {
  }

  /** With a single ID answering, interactive mode is the scan followed by
      the session with that servo. */
  lemma InteractiveAfterScan(env: Option<string>, w: World, currentId: int, inputs: seq<string>,
                             parse: string -> Option<int>)
    requires GetSerialPort(env).Success? && w.openOk && Support(w.servos) == {currentId}
    ensures var s := SessionSpec(w, currentId, inputs, parse);
      InteractiveSpec(env, w, inputs, parse) == Run(s.result, [Scan] + s.calls, s.servos)
  {
    assert Locate(Support(w.servos)) == Single(currentId);
  }

  /** The prompt stops at the first line it accepts, however many rejected
      lines came before it. */
  lemma PromptStopsAt(rejected: seq<string>, line: string, rest: seq<string>, currentId: int,
                      parse: string -> Option<int>)
    requires forall k :: 0 <= k < |rejected| ==> Classify(rejected[k], currentId, parse) == Reprompt
    requires Classify(line, currentId, parse).Stop?
    ensures PromptNewId(rejected + [line] + rest, currentId, parse)
      == Prompted(Classify(line, currentId, parse).choice, |rejected| + 1)
  {
    assert rejected + [line] + rest == rejected + ([line] + rest);
    PromptSkipsRejected(rejected, [line] + rest, currentId, parse);
    assert ([line] + rest)[0] == line;
  }

  /** 'q' (either case, any surrounding whitespace) at the prompt, after any
      number of rejected lines, cancels without a write. */
  lemma InteractiveQuit(env: Option<string>, w: World, currentId: int, rejected: seq<string>,
                        line: string, rest: seq<string>, parse: string -> Option<int>)
    requires GetSerialPort(env).Success? && w.openOk && Support(w.servos) == {currentId}
    requires forall k :: 0 <= k < |rejected| ==> Classify(rejected[k], currentId, parse) == Reprompt
    requires Strip(line) == "q" || Strip(line) == "Q"
    ensures InteractiveSpec(env, w, rejected + [line] + rest, parse) == Run(Cancelled, [Scan], w.servos)
  {
    var inputs := rejected + [line] + rest;
    AnswerIsLetter(line, 'q');
    ClassifyMeaning(line, currentId, parse);
    PromptStopsAt(rejected, line, rest, currentId, parse);
    assert SessionSpec(w, currentId, inputs, parse) == Run(Cancelled, [], w.servos);
    InteractiveAfterScan(env, w, currentId, inputs, parse);
  }

  /** Entering the servo's own ID, after any number of rejected lines, ends
      the session with no confirmation and no write. */
  lemma InteractiveSameId(env: Option<string>, w: World, currentId: int, rejected: seq<string>,
                          line: string, rest: seq<string>, parse: string -> Option<int>)
    requires GetSerialPort(env).Success? && w.openOk && Support(w.servos) == {currentId}
    requires forall k :: 0 <= k < |rejected| ==> Classify(rejected[k], currentId, parse) == Reprompt
    requires !IsAnswer(line, "q") && parse(Strip(line)) == Some(currentId) && InRange(currentId)
    ensures InteractiveSpec(env, w, rejected + [line] + rest, parse) == Run(AlreadyHasId(currentId), [Scan], w.servos)
  {
    var inputs := rejected + [line] + rest;
    ClassifyMeaning(line, currentId, parse);
    PromptStopsAt(rejected, line, rest, currentId, parse);
    assert SessionSpec(w, currentId, inputs, parse) == Run(AlreadyHasId(currentId), [], w.servos);
    InteractiveAfterScan(env, w, currentId, inputs, parse);
  }

  /** Once the servo is found, the session writes at most once, and only
      the ID chosen at the prompt (in [1, 253], not the current one) to the
      current ID, after the next line reads 'y'. */
  lemma SessionWritesOnlyConfirmed(w: World, currentId: int, inputs: seq<string>,
                                   parse: string -> Option<int>)
    ensures var s := SessionSpec(w, currentId, inputs, parse);
      && WriteCount(s.calls) <= 1
      && forall a, b :: Write(a, b) in s.calls ==>
           && a == currentId && InRange(b) && b != currentId
           && var p := PromptNewId(inputs, currentId, parse);
              p.choice == Chosen(b) && p.used < |inputs| && IsAnswer(inputs[p.used], "y")
  {
    var p := PromptNewId(inputs, currentId, parse);
    if p.choice.Chosen? {
      ClassifyMeaning(inputs[p.used - 1], currentId, parse);
      ConfirmWritesOnlyAfterYes(w, currentId, p.choice.id, inputs[p.used..]);
    }
  }

  /** The confirmation step writes at most once, only the pair it was given,
      and only when the line it reads is 'y'. */
  lemma ConfirmWritesOnlyAfterYes(w: World, currentId: int, newId: int, rest: seq<string>)
    ensures var c := ConfirmSpec(w, currentId, newId, rest);
      && WriteCount(c.calls) <= 1
      && forall a, b :: Write(a, b) in c.calls ==>
           a == currentId && b == newId && rest != [] && IsAnswer(rest[0], "y")
  {
    var c := ConfirmSpec(w, currentId, newId, rest);
    if c.calls != [] {
      assert c.calls[1..] == [] || c.calls[1..] == [Ping(newId)];
    }
  }

  /** Interactive mode writes only to the single servo on the bus, only a new
      ID in [1, 253] that differs from its current one (and so is free), only
      after the line following the chosen ID reads 'y', and at most once. */
  lemma InteractiveWriteRequiresConfirmation(env: Option<string>, w: World, inputs: seq<string>,
                                             parse: string -> Option<int>)
    ensures var run := InteractiveSpec(env, w, inputs, parse);
      && WriteCount(run.calls) <= 1
      && forall a, b :: Write(a, b) in run.calls ==>
           && Support(w.servos) == {a}
           && InRange(b) && b != a && b !in w.servos
           && var p := PromptNewId(inputs, a, parse);
              p.choice == Chosen(b) && p.used < |inputs| && IsAnswer(inputs[p.used], "y")
  {
    var run := InteractiveSpec(env, w, inputs, parse);
    var found := Locate(Support(w.servos));
    if GetSerialPort(env).Success? && w.openOk && found.Single? {
      var currentId := found.id;
      var s := SessionSpec(w, currentId, inputs, parse);
      InteractiveAfterScan(env, w, currentId, inputs, parse);
      assert run.calls == [Scan] + s.calls;
      WriteCountAppend([Scan], s.calls);
      SessionWritesOnlyConfirmed(w, currentId, inputs, parse);
      forall a, b | Write(a, b) in run.calls
        ensures Support(w.servos) == {a} && b !in w.servos
      {
        assert Write(a, b) in s.calls;
        assert b !in Support(w.servos);
      }
    } else {
      assert run.calls == [] || run.calls == [Scan];
    }
  }

  /** Interactive mode never leaves two units on one ID if there were none. */
  lemma InteractiveKeepsIdsUnique(env: Option<string>, w: World, inputs: seq<string>,
                                  parse: string -> Option<int>)
    requires UniqueIds(w.servos)
    ensures UniqueIds(InteractiveSpec(env, w, inputs, parse).servos)
  {
    var found := Locate(Support(w.servos));
    if GetSerialPort(env).Success? && w.openOk && found.Single? {
      InteractiveAfterScan(env, w, found.id, inputs, parse);
      SessionKeepsIdsUnique(w, found.id, inputs, parse);
    }
  }

  /** The session with the single servo keeps distinct IDs distinct. */
  lemma SessionKeepsIdsUnique(w: World, currentId: int, inputs: seq<string>, parse: string -> Option<int>)
    requires UniqueIds(w.servos) && Support(w.servos) == {currentId}
    ensures UniqueIds(SessionSpec(w, currentId, inputs, parse).servos)
  {
    var p := PromptNewId(inputs, currentId, parse);
    if p.choice.Chosen? {
      ClassifyMeaning(inputs[p.used - 1], currentId, parse);
      assert p.choice.id !in Support(w.servos);
      RenameKeepsIdsUnique(w.servos, currentId, p.choice.id);
    }
  }

  // ---------------------------------------------------------------------
  // Command-line dispatch

  /** Any argument count other than none or two exits 1 without bus work. */
  lemma DispatchArgumentCount(args: seq<string>, env: Option<string>, w: World, inputs: seq<string>,
                              parse: string -> Option<int>)
    requires |args| != 1 && |args| != 3
    ensures DispatchSpec(args, env, w, inputs, parse) == Run(1, [], w.servos)
  {
  }

  /** In command-line mode, an ID that is not a number or is outside
      [1, 253] exits 1 before any bus work. */
  lemma DispatchChecksIdsFirst(args: seq<string>, env: Option<string>, w: World, inputs: seq<string>,
                               parse: string -> Option<int>)
    requires |args| == 3
    requires parse(args[1]).None? || parse(args[2]).None?
             || !InRange(parse(args[1]).value) || !InRange(parse(args[2]).value)
    ensures DispatchSpec(args, env, w, inputs, parse) == Run(1, [], w.servos)
  {
  }

  /** In command-line mode, the exit status is 0 exactly when the requested
      write was issued and acknowledged. */
  lemma DispatchDirectStatus(args: seq<string>, env: Option<string>, w: World, inputs: seq<string>,
                             parse: string -> Option<int>)
    requires |args| == 3 && parse(args[1]).Some? && parse(args[2]).Some?
    ensures var run := DispatchSpec(args, env, w, inputs, parse);
      run.result == 0 <==> Write(parse(args[1]).value, parse(args[2]).value) in run.calls && w.writeReply.None?
  {
    var c, n := parse(args[1]).value, parse(args[2]).value;
    if InRange(c) && InRange(n) {
      DirectSuccessIffAcknowledged(env, w, c, n);
    }
  }

  /** Interactive mode exits 1 exactly when an exception escapes it: the port
      variable is missing, or, with the single servo found, the input ends
      at the new-ID prompt or at the confirmation. Every other ending (the
      port does not open, no or several servos, 'q', the same ID, a refusal,
      a failed write) exits 0. */
  lemma DispatchInteractiveStatus(args: seq<string>, env: Option<string>, w: World, inputs: seq<string>,
                                  parse: string -> Option<int>)
    requires |args| == 1
    ensures var run := DispatchSpec(args, env, w, inputs, parse);
      var found := Locate(Support(w.servos));
      run.result == 1 <==>
        || GetSerialPort(env).Failure?
        || (&& w.openOk && found.Single?
            && var p := PromptNewId(inputs, found.id, parse);
               p.choice == Exhausted || (p.choice.Chosen? && p.used == |inputs|))
  {
    var found := Locate(Support(w.servos));
    if GetSerialPort(env).Success? && w.openOk && found.Single? {
      InteractiveAfterScan(env, w, found.id, inputs, parse);
      SessionAborts(w, found.id, inputs, parse);
    }
  }

  /** Once the servo is found, the session ends in an exception exactly when
      the input runs out at the new-ID prompt or at the confirmation. */
  lemma SessionAborts(w: World, currentId: int, inputs: seq<string>, parse: string -> Option<int>)
    ensures var p := PromptNewId(inputs, currentId, parse);
      SessionSpec(w, currentId, inputs, parse).result.Aborted? <==>
        p.choice == Exhausted || (p.choice.Chosen? && p.used == |inputs|)
  {
    var p := PromptNewId(inputs, currentId, parse);
    if p.choice.Chosen? {
      assert inputs[p.used..] == [] <==> p.used == |inputs|;
    }
  }

  /** Whatever the arguments and the input, a write never targets an ID
      outside [1, 253] (so never the broadcast address), and in command-line
      mode never addresses one either. */
  lemma DispatchWritesOnlyValidIds(args: seq<string>, env: Option<string>, w: World, inputs: seq<string>,
                                   parse: string -> Option<int>)
    ensures var run := DispatchSpec(args, env, w, inputs, parse);
      forall a, b :: Write(a, b) in run.calls ==>
        InRange(b) && b != BroadcastId && (|args| == 3 ==> InRange(a))
  {
    if |args| == 1 {
      InteractiveWriteRequiresConfirmation(env, w, inputs, parse);
    } else if |args| == 3 && parse(args[1]).Some? && parse(args[2]).Some? {
      DirectWritesOnlyWhenSafe(env, w, parse(args[1]).value, parse(args[2]).value);
    }
  }

  // ---------------------------------------------------------------------
  // Worked scenarios

  /** One servo at 5, ID 9 free, write acknowledged: success, and the
      servo answers at 9. */
  lemma ScenarioMoveFiveToNine()
    ensures DirectSpec(Some("/dev/ttyUSB0"), World(multiset{5}, true, None, true), 5, 9)
      == Run(Returned(true), [Ping(5), Ping(9), Write(5, 9), Ping(9)], multiset{9})
  {
    assert Rename(multiset{5}, 5, 9) == multiset{9};
  }

  /** Two servos at 3 and 7: the scan is ambiguous and interactive mode stops
      without a write. */
  lemma ScenarioTwoServos(inputs: seq<string>, parse: string -> Option<int>)
    ensures LocateSingle([3, 7]) == Ambiguous(2)
    ensures InteractiveSpec(Some("/dev/ttyUSB0"), World(multiset{3, 7}, true, None, true), inputs, parse)
      == Run(NoSingleServo(Ambiguous(2)), [Scan], multiset{3, 7})
  {
    assert Support(multiset{3, 7}) == {3, 7};
  }
}
