# ST3215 servo ID changer

This project models `cupi/change_id.py`. The script gives a Waveshare ST3215
serial servo a new bus ID, and the servo stores that ID in its EEPROM. The
model covers the script's two ways of working and the safety rules they keep.

- **Direct mode** (`change_id.py <current> <new>`): `change_servo_id` reads the
  serial port from `ST3215_DEV` and opens the bus. It pings the current ID, and
  if nothing answers, it scans the bus and fails. When the two IDs differ, it
  pings the new ID and refuses if another unit answers there. It then writes the
  new ID. If the driver acknowledges the write, it pings the new ID once more.
  The result is true exactly when the write was acknowledged.
- **Interactive mode** (no arguments): `interactive_mode` opens the bus and scans
  it with `find_single_servo`, which proceeds only when exactly one ID answers.
  It then prompts for a new ID until it gets `q`, a number in [1, 253], or the
  end of input. It asks for confirmation and writes only when the answer is `y`.
- **Dispatch** (the `__main__` block): it picks the mode from the argument count.
  It parses and range-checks both IDs before any bus traffic and turns the
  outcome into an exit status.

The ST3215 driver is outside this model. The class `ServoBus.Bus` stands in for
it.
- It holds the current ID of every unit on the bus as a multiset, one entry per
  physical unit, so two units sharing an ID can be expressed.
- It records every driver call in a ghost log.
- Each workflow is a module-level method that takes the bus as a parameter. Its `ensures` ties it to a
  specification function of the starting bus: `DirectSpec`, `InteractiveSpec` or
  `DispatchSpec`. That function gives the result, the calls made and the bus
  afterwards.
- The safety rules are lemmas about those functions, in `IdChangerProperties`.

Some inputs come from outside the script, and the model takes them as
parameters:
- the environment variable, as `env: Option<string>`;
- the lines typed at the prompts, as `inputs: seq<string>`;
- Python's `int()` on a string, as `parse: string -> Option<int>`;
- the bus, together as a `World`: which units are present, whether the port
  opens, what the driver replies to a write, and whether an acknowledged write
  takes effect. The last one covers the case the verification ping is there
  for: the write is acknowledged but the servo does not answer at its new ID.

Interactive mode checks the new ID against [1, 253], but it never checks the
current ID it finds on the bus. A servo found at 0 or 254 is renamed all the
same. The model follows the code here.

Direct mode has no shortcut for an unchanged ID. When the two IDs are equal, it
skips the collision ping but still writes. `DirectSameIdStillWrites` states
this.

## Model

| member | source | states |
|---|---|---|
| `Text.IsSpace` | cupi/change_id.py:141 | the characters `str.strip()` removes: Python's `isspace` set |
| `Text.Strip` | cupi/change_id.py:141 | `str.strip()`: the result is the input minus its leading whitespace (the prefix `LeadingSpaces` counts) and its trailing whitespace, i.e. a slice of the input starting there whose remainder is all whitespace; it is empty exactly when the input is all whitespace, and otherwise neither starts nor ends with whitespace |
| `Text.StripTrimmed` | cupi/change_id.py:141 | text that neither starts nor ends with whitespace is returned unchanged by `strip()` |
| `Text.StripIdempotent` | cupi/change_id.py:141 | stripping twice gives the same as stripping once |
| `Text.Lower` | cupi/change_id.py:143 | `str.lower()` keeps the length and folds each character, pointwise |
| `Text.LowerIsLetter` | cupi/change_id.py:143 | for a lower-case letter c, the lowered text is exactly "c" if and only if the text is "c" or its capital |
| `Text.IsAnswer` | cupi/change_id.py:163-165 | the test `raw.strip().lower() == answer` both prompts apply |
| `Text.AnswerIsLetter` | cupi/change_id.py:163-165 | `raw.strip().lower() == 'y'` (or `'q'`) holds exactly when the stripped line is the letter in either case |
| `ServoBus.Rename` | cupi/change_id.py:85 | effect of an acknowledged `ChangeId(from, to)`: the number of units is kept, nothing answers at `from` afterwards (when from ≠ to), something answers at `to`, and every other ID is untouched |
| `ServoBus.Acknowledged` | cupi/change_id.py:85-95 | the units after an acknowledged write: renamed when the write takes effect, unchanged when it does not |
| `ServoBus.EnumerateIds` | cupi/change_id.py:35 | the list `ListServos` returns: each answering ID exactly once and nothing else |
| `ServoBus.DistinctCard` | cupi/change_id.py:42 | a duplicate-free scan has as many entries as there are answering IDs, so `len(servo_ids)` counts servos |
| `ServoBus.Bus.constructor` | cupi/change_id.py:60 | a bus starts closed, with an empty call log, the given units and the given driver behaviour |
| `ServoBus.Bus.Open` | cupi/change_id.py:59-64 | `ST3215(port)` succeeds or fails as the world says, and only a successful open leaves the port open |
| `ServoBus.Bus.PingServo` | cupi/change_id.py:67 | a ping answers true exactly when some unit has that ID; it logs the ping and changes nothing else |
| `ServoBus.Bus.ListServos` | cupi/change_id.py:35 | a scan returns the answering IDs without repetition; it logs the scan and changes nothing else |
| `ServoBus.Bus.ChangeId` | cupi/change_id.py:85-87 | the write returns the driver's reply; only on `None`, and only when the write takes effect, are the units at `from` renamed to `to`; the write is logged |
| `IdChanger.InRange` | cupi/change_id.py:149 | the valid IDs [1, 253]; 254 is broadcast |
| `IdChanger.GetSerialPort` | cupi/change_id.py:18-26 | the port is `ST3215_DEV`'s value; an unset or empty variable raises `EnvironmentError` naming it (both directions) |
| `IdChanger.LocateSingle` | cupi/change_id.py:37-48 | not found exactly for an empty scan, refusal exactly for more than one ID, otherwise the one ID scanned |
| `IdChanger.Locate` | cupi/change_id.py:29-48 | the same decision on the set of answering IDs: none, more than one, or exactly `{id}` |
| `IdChanger.ScanDecidesLikeBus` | cupi/change_id.py:35-48 | whatever order the driver lists the IDs in, the decision depends only on which IDs answer |
| `IdChanger.FindSingleServo` | cupi/change_id.py:29-48 | one scan; the outcome is `Locate` of the answering IDs; the bus is unchanged |
| `IdChanger.DirectSpec` | cupi/change_id.py:51-98 | `change_servo_id` as a function of the port variable and the bus: `EnvironmentError` without a port, false when the port does not open, otherwise `GuardedSpec` |
| `IdChanger.GuardedSpec` | cupi/change_id.py:66-98 | presence ping (false after a diagnostic scan when absent), collision ping only when the IDs differ (false when taken), otherwise the probes followed by `WriteSpec` |
| `IdChanger.WriteSpec` | cupi/change_id.py:83-98 | the write; on acknowledgement the verification ping and true, whatever the ping answers; otherwise false |
| `IdChanger.ChangeServoId` | cupi/change_id.py:51-98 | `change_servo_id` makes exactly the calls of `DirectSpec`, returns its result and leaves the bus as `DirectSpec` says |
| `IdChanger.GuardedChange` | cupi/change_id.py:66-98 | after the port is open: presence ping, collision ping only when the IDs differ, then the write, as `GuardedSpec` says |
| `IdChanger.WriteAndVerify` | cupi/change_id.py:83-98 | the write; on acknowledgement a verification ping and true, otherwise false, as `WriteSpec` says |
| `IdChanger.Classify` | cupi/change_id.py:141-159 | one pass of the new-ID loop never reports the end of input |
| `IdChanger.ClassifyMeaning` | cupi/change_id.py:141-159 | a line quits exactly when it strips and lowers to `q`; it is rejected exactly when it is not a number in [1, 253]; it ends the session exactly when it is the current ID; otherwise it chooses that ID |
| `IdChanger.PromptNewId` | cupi/change_id.py:139-159 | the prompt stops at the first line it accepts and every line before it was rejected; if it runs out of input it consumed every line and all were rejected |
| `IdChanger.AskNewId` | cupi/change_id.py:139-159 | the `while True` loop consumes the lines and ends exactly as `PromptNewId` says |
| `IdChanger.InteractiveSpec` | cupi/change_id.py:101-180 | `interactive_mode` as a function of the port variable, the bus and the input lines: `EnvironmentError` without a port, an early return when the port does not open, otherwise `ScanSpec` |
| `IdChanger.ScanSpec` | cupi/change_id.py:120-180 | one scan; no or several IDs end the run; one ID goes on to `SessionSpec` |
| `IdChanger.SessionSpec` | cupi/change_id.py:139-180 | the prompt's outcome: end of input raises `EOFError`, `q` cancels, the same ID returns, a chosen ID goes to `ConfirmSpec` on the remaining lines |
| `IdChanger.ConfirmSpec` | cupi/change_id.py:161-180 | end of input raises `EOFError`; anything but `y` declines; `y` writes, then pings on acknowledgement or reports the driver's error |
| `IdChanger.InteractiveMode` | cupi/change_id.py:101-180 | `interactive_mode` makes exactly the calls of `InteractiveSpec`, ends as it says and leaves the bus as it says |
| `IdChanger.ScanAndChange` | cupi/change_id.py:120-180 | the scan, then the session only when exactly one ID answered |
| `IdChanger.ChangeFoundServo` | cupi/change_id.py:139-180 | the prompt outcome decides: quit, same ID and end of input stop without bus traffic; a chosen ID goes to confirmation |
| `IdChanger.ConfirmAndWrite` | cupi/change_id.py:161-180 | end of input raises `EOFError`; an answer other than `y` declines; a `y` writes, then pings on acknowledgement or reports the driver's error |
| `IdChanger.DispatchSpec` | cupi/change_id.py:206-231 | the `__main__` block: no arguments runs interactive mode (status 1 only on an escaped exception); two arguments are parsed and range-checked, then direct mode (status 0 only on true); any other count exits 1 |
| `IdChanger.Dispatch` | cupi/change_id.py:206-231 | the `__main__` block returns the exit status of `DispatchSpec` and makes exactly its calls |
| `IdChangerProperties.DirectNeedsPort` | cupi/change_id.py:55 | without a port, direct mode raises before any bus call |
| `IdChangerProperties.DirectOpenFailure` | cupi/change_id.py:59-64 | a port that does not open gives false with no bus calls |
| `IdChangerProperties.DirectCurrentAbsent` | cupi/change_id.py:66-75 | a current ID that does not answer gives false after one ping and one scan, with no write |
| `IdChangerProperties.DirectCollisionGuard` | cupi/change_id.py:77-81 | a new ID already answering gives false after two pings, with no write |
| `IdChangerProperties.DirectSameIdStillWrites` | cupi/change_id.py:78-85 | equal IDs skip the collision ping, still write, and leave the bus as it was |
| `IdChangerProperties.DirectWritesOnlyWhenSafe` | cupi/change_id.py:55-85 | at most one write, and only `Write(current, new)` on an open port with the current ID answering and the new ID free or equal |
| `IdChangerProperties.DirectSuccessIffAcknowledged` | cupi/change_id.py:85-98 | the result is true exactly when the write was issued and acknowledged |
| `IdChangerProperties.DirectVerifiedAfterSuccess` | cupi/change_id.py:92-95 | after a successful run the last call is the verification ping, and the servo answers it exactly when the write took effect or the ID was unchanged; the result is true either way |
| `IdChangerProperties.UnguardedWriteCollides` | cupi/change_id.py:5-6 | without the collision guard, a write to a taken ID leaves two units on one ID |
| `IdChangerProperties.RenameKeepsIdsUnique` | cupi/change_id.py:77-85 | renaming to a free ID keeps every ID on at most one unit |
| `IdChangerProperties.DirectKeepsIdsUnique` | cupi/change_id.py:66-98 | direct mode keeps a bus with distinct IDs distinct, and no unit is lost or added |
| `IdChangerProperties.DirectReplayFails` | cupi/change_id.py:66-75 | rerunning a successful change that took effect fails at the presence check, with no write and no change |
| `IdChangerProperties.PromptSkipsRejected` | cupi/change_id.py:139-159 | rejected lines are skipped: the prompt goes on with the lines after them |
| `IdChangerProperties.InteractiveNeedsSingleServo` | cupi/change_id.py:120-123 | if zero or several IDs answer, interactive mode stops after the scan, with no write |
| `IdChangerProperties.InteractiveAfterScan` | cupi/change_id.py:120-180 | with one servo found, the run is the scan followed by the session with that servo |
| `IdChangerProperties.PromptStopsAt` | cupi/change_id.py:139-159 | after any rejected lines, the prompt stops at the first accepted line, having used exactly the lines up to it |
| `IdChangerProperties.InteractiveQuit` | cupi/change_id.py:141-145 | after any rejected lines, `q` or `Q` cancels with only the scan made |
| `IdChangerProperties.InteractiveSameId` | cupi/change_id.py:153-155 | entering the servo's current ID ends the session with only the scan made |
| `IdChangerProperties.SessionWritesOnlyConfirmed` | cupi/change_id.py:139-170 | a session writes at most once: the chosen in-range new ID, to the current ID, after the next line reads `y` |
| `IdChangerProperties.ConfirmWritesOnlyAfterYes` | cupi/change_id.py:163-170 | the confirmation step writes at most once, only the pair it was given, and only when the line it reads is `y` |
| `IdChangerProperties.InteractiveWriteRequiresConfirmation` | cupi/change_id.py:101-180 | interactive mode writes at most once, only to the single servo found, only a free in-range ID chosen at the prompt, and only after `y` |
| `IdChangerProperties.InteractiveKeepsIdsUnique` | cupi/change_id.py:101-180 | interactive mode keeps a bus with distinct IDs distinct |
| `IdChangerProperties.SessionKeepsIdsUnique` | cupi/change_id.py:139-180 | the session with the single servo keeps distinct IDs distinct |
| `IdChangerProperties.SessionAborts` | cupi/change_id.py:139-165 | once the servo is found, the session ends in an exception exactly when the input runs out at the new-ID prompt or at the confirmation |
| `IdChangerProperties.DispatchArgumentCount` | cupi/change_id.py:229-231 | any argument count other than none or two exits 1 with no bus calls |
| `IdChangerProperties.DispatchChecksIdsFirst` | cupi/change_id.py:212-228 | non-integer or out-of-range IDs exit 1 before any bus calls |
| `IdChangerProperties.DispatchDirectStatus` | cupi/change_id.py:223-224 | command-line mode exits 0 exactly when the requested write was issued and acknowledged |
| `IdChangerProperties.DispatchInteractiveStatus` | cupi/change_id.py:207-209 | without arguments the exit status is 1 exactly when the port variable is missing, or when a single servo was found and the input ran out at the new-ID prompt or the confirmation; an unopened port, no or several servos, `q`, the same ID, a refusal and a failed write all exit 0 |
| `IdChangerProperties.DispatchWritesOnlyValidIds` | cupi/change_id.py:206-231 | no write ever targets an ID outside [1, 253], such as the broadcast address 254; in command-line mode no write addresses one either |
| `IdChangerProperties.ScenarioMoveFiveToNine` | cupi/change_id.py:190 | one servo at 5 moved to 9: success, four calls, and the servo now at 9 |
| `IdChangerProperties.ScenarioTwoServos` | cupi/change_id.py:42-46 | servos at 3 and 7: the scan is ambiguous and interactive mode stops without a write |

## Left out

- The ST3215 driver (`st3215` package) is not part of this model. Its four operations get the behaviour described above. Exceptions it might raise inside `PingServo`, `ListServos` or `ChangeId` are not modelled. Whether the port opens is a property of the world, independent of the port string.
- A ping with several units on one ID is modelled as answering. Bus contention on a real serial line is not modelled.
- The order in which `ListServos` returns IDs is chosen by the driver. The model leaves it arbitrary and proves that no decision depends on it.
- The display of position and voltage (cupi/change_id.py:127-133) is left out. It only reads registers and prints.
- All printed messages and `print_usage` (cupi/change_id.py:183-203) are left out. Only the outcomes and exit statuses are kept.
- `load_dotenv` (cupi/change_id.py:13-15) is left out. The environment variable's value, after any `.env` file was read, is the `env` parameter.
- Python's `int()` is the `parse` parameter. It accepts signs, underscores and surrounding whitespace, and the model does not fix which strings those are. Every property holds for any `parse`.
- Text.Lower: folds only ASCII letters, because the script compares the lowered text only with `q` and `y`. No other character lowers to either of them.
- `KeyboardInterrupt` and other signals are not modelled. The escaping exceptions modelled are `EnvironmentError` and `EOFError`, both giving exit status 1.
- `cupi/custom_list.py` and `cupi/test.py` are not part of this model. They are separate scripts that do not change IDs.
