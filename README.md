# Run lifecycle of the sim-stats game handlers, in Dafny

sim-stats records timed runs from racing games. Each supported game has a handler class
derived from `GameHandler`. The handler keeps the run-lifecycle state
(`IDLE`, `WAITING_FOR_START`, `RUNNING`, `FINISHED`, `ABORTED`), the finished run's record and the
game's UDP settings. The one concrete handler, `GameDirtRally2`, decodes DiRT Rally 2.0
telemetry datagrams. Each datagram is a flat array of 66 four-byte floats, and field `i` sits at
byte offset `4*i`. The handler polls the latest datagram in a loop and watches the decoded run
time. A 0 → non-zero step means the run has started (`RUNNING`). A non-zero → 0 step means the
run has ended: the handler stores that sample's record, sets `FINISHED` and stops polling.

The project has four modules:

- `Floats` and `RunData` (`run_data.dfy`): a float is kept as its 4-byte little-endian bit
  pattern. `IsZero` holds exactly for +0.0 and −0.0, which is what Python's `== 0` tests. A NaN
  is not zero. `RunData` is the two-field record (`run_time_sec`, `last_lap_time_sec`), and both
  fields are 0 when fresh.
- `GameHandler` (`game_handler.dfy`):
  - the state enum;
  - the game-name derivation;
  - the settings fallback over a `map<string, Settings>` store;
  - the class `GameHandler`, with fields `state`, `runResult` and `gameSettings`. A ghost field
    `transitions` records every state passed to `SetState`, in order;
  - `Create`, the constructor with its error path.
- `GameDirtRally2` (`game_dirt_rally2.dfy`):
  - the field table, as 66 named constants;
  - the total field read and `ParseUdpData`;
  - a specification of the edge detector over a sequence of run times;
  - the polling loop `GatherData`, and `StartRun`, as methods on a handler.
- `Wrappers` (`wrappers.dfy`): `Option` and `Result`.

Threads are removed. The datagram the loop would find on each iteration is passed in as a
sequence of payloads. `None` means nothing has been received yet. The loop stops at the first end
step, or when the sequence runs out.

What the code does, and the model with it:

- The code always sets `FINISHED` and never `ABORTED`: `stop_run` is abstract and
  `GameDirtRally2` does not implement it.
- `RunData` has only the two times.
- The loop stores its result in `run_result`, while `__init__` initialises `_run_result`. The
  model has one field, `runResult`, that plays both roles.
- Because `stop_run` is still abstract, Python would refuse to instantiate `GameDirtRally2`. The
  model checks only the class-name guard that `__init__` itself performs.

## Model

| member | source | states |
|---|---|---|
| `Floats.Float32.IsZero` | backend/classes/game/GameDirtRally2.py:85-88 | the test `== 0` on lines 85 and 88 holds for exactly two bit patterns, +0.0 and -0.0 |
| `RunData.Fresh` | backend/classes/game/RunData.py:6-8 | a fresh record has run time and last lap time both 0 |
| `GameHandler.GameHandlerState.Value` | backend/classes/game/GameHandler.py:141-150 | every state has one of the values 0..4 |
| `GameHandler.StateOf` | backend/classes/game/GameHandler.py:141-150 | the enum lookup is defined exactly on 0..4 and returns the state carrying that value |
| `GameHandler.StateValuesDistinct` | backend/classes/game/GameHandler.py:141-150 | two states have the same value if and only if they are the same state, so the five values are distinct |
| `GameHandler.GameName` | backend/classes/game/GameHandler.py:33 | removing "Game" never makes a name longer |
| `GameHandler.GameNameLeftmost` | backend/classes/game/GameHandler.py:33 | the leftmost "Game" is removed, the text before it is kept, and removal resumes right after it (the semantics of `str.replace`) |
| `GameHandler.GameNameNoOccurrence` | backend/classes/game/GameHandler.py:33 | a name without "Game" is unchanged |
| `GameHandler.GameNameOfDirtRally2` | backend/classes/game/GameHandler.py:33 | `GameDirtRally2` becomes `DirtRally2` |
| `GameHandler.ResolveSettings` | backend/classes/game/GameHandler.py:34-42 | a stored entry is used and the store is unchanged; otherwise the defaults (port 20777, buffer 1024, lines 51-55) are used and written back under the game name; other entries are kept; afterwards the store maps the name to the settings in use |
| `GameHandler.ResolveSettingsIdempotent` | backend/classes/game/GameHandler.py:16-17 | resolving again against the updated store gives the same settings and leaves the store as it is |
| `GameHandler.ResolveSettingsAsWritten` | backend/classes/game/GameHandler.py:34-42 | as written, a stored entry is found, but a missing entry raises instead of falling back |
| `GameHandler.FallbackAsWrittenFails` | backend/classes/game/GameHandler.py:41 | on an empty store the as-written lookup fails, while the intended one returns the defaults and writes them back |
| `GameHandler.DefaultSettings` | backend/classes/game/GameHandler.py:51-55 | the defaults are UDP port 20777 and buffer size 1024 |
| `GameHandler.GameHandler.GetState` | backend/classes/game/GameHandler.py:98-102 | returns the handler's current state and changes nothing |
| `GameHandler.GameHandler.IsRunOver` | backend/classes/game/GameHandler.py:106-107 | true exactly when the state is FINISHED or ABORTED |
| `GameHandler.GameHandler.SetState` | backend/classes/game/GameHandler.py:89-102 | afterwards `GetState()` returns the new state, and the run result and settings are unchanged |
| `GameHandler.GameHandler.constructor` | backend/classes/game/GameHandler.py:23-24 | a new handler is IDLE with no run result |
| `GameHandler.Create` | backend/classes/game/GameHandler.py:12-45 | class name `GameHandler` fails with NotImplementedError and leaves the store untouched; any other name gives a fresh IDLE handler with no result that is not over, named by `GameName`, with settings and store from `ResolveSettings` |
| `GameDirtRally2.Offset` | backend/classes/game/GameDirtRally2.py:27-32 | a field's byte offset is a multiple of 4, and its 4-byte window lies inside a full 66-field datagram |
| `GameDirtRally2.FieldWindowsDisjoint` | backend/classes/game/GameDirtRally2.py:120-185 | distinct fields have non-overlapping 4-byte windows |
| `GameDirtRally2.BitStreamToFloat32` | backend/classes/game/GameDirtRally2.py:12-16 | the read uses exactly bytes [pos, pos+4); it returns 0 when there is no payload or fewer than 4 bytes there; it never fails |
| `GameDirtRally2.Pack` | backend/classes/game/GameDirtRally2.py:110-118 | a datagram of n fields has 4n bytes |
| `GameDirtRally2.ReadPacked` | backend/classes/game/GameDirtRally2.py:12-16 | reading at offset 4i of a packed datagram gives back field i (decode after encode) |
| `GameDirtRally2.ParseUdpData` | backend/classes/game/GameDirtRally2.py:22-38 | the run time is read at byte 4 and the last lap time at byte 248; with no payload the record is the fresh one |
| `GameDirtRally2.ParsePacket` | backend/classes/game/GameDirtRally2.py:27-38 | on a full datagram the record is exactly (field `lap_time` = 1, field `last_lap_time` = 62), not `run_time` (0) |
| `GameDirtRally2.RunTimes` | backend/classes/game/GameDirtRally2.py:77-81 | one decoded run time per datagram, in order |
| `GameDirtRally2.StartsAt` | backend/classes/game/GameDirtRally2.py:85-86 | a 0 → non-zero step; because the previous value starts at 0, the first sample starts the run exactly when it is non-zero |
| `GameDirtRally2.EndsAt` | backend/classes/game/GameDirtRally2.py:88-91 | a non-zero → 0 step; the first sample never ends a run |
| `GameDirtRally2.Emitted` | backend/classes/game/GameDirtRally2.py:85-91 | the loop sets at most one state per sample, and only RUNNING or FINISHED |
| `GameDirtRally2.OneTransitionPerSample` | backend/classes/game/GameDirtRally2.py:85-91 | no sample is both a start step and an end step |
| `GameDirtRally2.StartedStep` | backend/classes/game/GameDirtRally2.py:85-86 | a longer prefix has started exactly when the shorter one had, or the new sample is a start step |
| `GameDirtRally2.FirstEnd` | backend/classes/game/GameDirtRally2.py:88-91 | the first non-zero → 0 step at or after `from`, or the length when there is none |
| `GameDirtRally2.Consumed` | backend/classes/game/GameDirtRally2.py:76-91 | the loop never decodes more datagrams than it is given |
| `GameDirtRally2.EmittedBeforeEnd` | backend/classes/game/GameDirtRally2.py:71-86 | before any end step, RUNNING has been set at most once, and it has been set exactly when the latest run time is non-zero (the previous value starts at 0, so a first non-zero sample starts the run) |
| `GameDirtRally2.EmittedShape` | backend/classes/game/GameDirtRally2.py:71-91 | over a whole stream the loop sets RUNNING then FINISHED when an end step exists (FINISHED never without RUNNING before it), RUNNING alone when a run started but did not end, and nothing otherwise |
| `GameDirtRally2.ExampleRun` | backend/classes/game/GameDirtRally2.py:44-46 | on a sample stream that starts and then ends a run, the states set are RUNNING then FINISHED, in that order (the stream itself is chosen for the model) |
| `GameDirtRally2.GatherData` | backend/classes/game/GameDirtRally2.py:70-91 | the loop decodes datagrams up to and including the first end step and no further; it records the states it sets; on an end step the state is FINISHED and the result is that step's record; otherwise the result is untouched and the state is RUNNING if a run started |
| `GameDirtRally2.StartRun` | backend/classes/game/GameDirtRally2.py:42-56 | WAITING_FOR_START is set before polling; the final state is FINISHED, RUNNING or WAITING_FOR_START according to the stream; the run is over exactly when the stream has an end step; then the result is that step's record, otherwise the result is unchanged |

## Findings

| source | as written | input that shows it | evidently intended | confidence | as-written member | corrected member |
|---|---|---|---|---|---|---|
| backend/classes/game/GameHandler.py:41 | `self.__class__.get_default_settings()` calls an instance method on the class without an instance. That raises `TypeError` inside the `except` block, so construction fails. | a settings file with no `game_settings` entry for the game | use the defaults and write them back (docstring, lines 16-17). The write-back on line 42 calls `AppSettings().append_setting`, which backend/classes/base/AppSettings.py:1-17 does not define, so it would raise `AttributeError` even once line 41 is corrected; the corrected member models the intended write-back | high (not executed) | `GameHandler.ResolveSettingsAsWritten` | `GameHandler.ResolveSettings` |

## Left out

- The UDP listener (`UdpHandler`), its daemon thread and the socket are left out. The loop is fed
  the sequence of datagrams it would read instead.
- `_start_listening`, `_stop_listening` and `udp_data` are left out. They only delegate to the
  listener.
- The busy-wait in `start_run` is left out, because it is thread synchronisation. The
  `mm:ss:mmm` print of the result is also left out: it is console output using float floor and
  modulo.
- IEEE-754 decoding (`struct.unpack("f")`) is left out, because it is floating point. A float is
  kept as its bit pattern, and only the test against 0 is interpreted. The model assumes
  little-endian byte order; the source uses the machine's native order.
- ParseUdpData: `parse_udp_data` calls `udp_data()` once per field (lines 27-32), so one record
  can mix two datagrams if a new one arrives in between. The model reads both fields from one
  payload per iteration.
- GatherData: the source polls forever until an end step. The model stops when the given
  datagrams run out.
- The settings file (`AppSettings`, JSON I/O) is left out. It is modelled as a map from game
  name to settings. A file with no `game_settings` section at all is treated as an empty map.
- `stop_run`, `get_run_progress` and `process_run` are left out. They are abstract or have empty
  bodies, so there is no ABORTED transition and no post-run processing.
- Car and track identification and lap-time aggregation are left out. The code does not
  implement them.
- Persistence (`DBHandler`, the ORM models), the web API, `GameWrapper`'s subclass reflection,
  `main.py` and the frontend are left out. They are I/O or library glue around this core.
