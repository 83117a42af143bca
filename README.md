# finchboard controllers in Dafny

A model of the deterministic logic of three controllers of the finchboard behaviour-testing
apparatus:

- **peckboard** (`src/peckboard/lib.rs`). This is the peck-input board. At start-up it discovers
  which of four chip-2 lines (22 to 25) carries the key interrupt. It then runs a loop over the
  edges of that line: rising edges are skipped; on a falling edge it reads the three key lines,
  decodes the read to a position (the first line at 1, or 3 for none) and "pecks" that position.
  A peck advances the position's LED state round the cycle Off, Blue, Red, Green, All and writes
  the new state's 3-bit pattern to that position's LED group.
- **playback** (`src/playback/main.rs`). It converts a sound file's samples between mono and
  stereo to match the output device. It then hands them to the device in slices of at most 512
  samples.
- **house-light** (`src/house-light/main.rs`). It reads lines from standard input. Each line is
  either `auto` or a brightness 0..255. It writes either the brightness (sysfs LED) or a PWM
  duty cycle derived from it.

Files:

- `words.dfy` (module `Words`): the `u8`, `u32` and `i16` ranges, plus `Option` and `Result`.
- `led_states.dfy` (module `LedStates`): `LedState`, `Next`, `AsValue` and the cycle lemmas.
- `peck_board.dfy` (module `Peckboard`): discovery and key decoding. It also holds the classes
  `PeckLeds` and `PeckBoard`, and the monitoring loop with its specification `Replay`.
- `playback.dfy` (module `Playback`): `process_audio` and the `playback_io` loop.
- `house_light.dfy` (module `HouseLight`): the duty cycle, `trim`, `parse::<u8>`, `to_string`
  and the read/branch/write loop.

How each part is modelled:

- The LED bank `PeckLeds` is a class. It holds the state vector (a `seq` field) and, for each
  output group, the pattern last written to it. `Valid()` says that every group shows the pattern
  of its stored state. The constructor establishes it and `Pecked` keeps it.
- The monitoring loop is a method over a finite sequence of events. Each event is an edge kind
  plus the key read that follows it. The method is proved equal to the fold `Replay` and to
  "each position advanced by its number of pecks modulo 5".
- `writei` is a function parameter `device(k, slice)`. Its reply is a count of frames written, or
  an error. It is honest: frames times channels never exceeds the slice length.

## Model

| member | source | states |
|---|---|---|
| `LedStates.Next` | src/peckboard/lib.rs:203-212 | the successor is one step further round the five-state cycle (rank + 1 mod 5), so no state is its own successor |
| `LedStates.NextBijective` | src/peckboard/lib.rs:203-212 | every state has exactly one predecessor, so `next` is a bijection |
| `LedStates.AdvanceRank` | src/peckboard/lib.rs:203-212 | n applications of `next` move a state n places round the cycle, modulo 5 |
| `LedStates.AdvanceMod5` | src/peckboard/lib.rs:203-212 | only the number of applications modulo 5 matters |
| `LedStates.CycleLengthFive` | src/peckboard/lib.rs:203-212 | n applications return to the start exactly when n is a multiple of 5 |
| `LedStates.AsValue` | src/peckboard/lib.rs:213-221 | every pattern has three lines, each 0 or 1 |
| `LedStates.AsValueLit` | src/peckboard/lib.rs:213-221 | Off lights no line, All lights all three, Red, Blue and Green light exactly one |
| `LedStates.FromValue` | src/peckboard/lib.rs:213-221 | any pattern read back as a state is that state's pattern |
| `LedStates.FromAsValue` | src/peckboard/lib.rs:213-221 | reading a state's pattern back gives the state |
| `LedStates.AsValueInjective` | src/peckboard/lib.rs:213-221 | distinct states drive distinct patterns |
| `Peckboard.Discover` | src/peckboard/lib.rs:38-74 | the chosen line is the first arrival on one of lines 22 to 25; there is none exactly when no candidate ever fires |
| `Peckboard.DiscoverSingleWiredLine` | src/peckboard/lib.rs:69-74 | when only one candidate line fires, discovery chooses it |
| `Peckboard.FirstHigh` | src/peckboard/lib.rs:111 | the index found holds 1 and no earlier line does; none is found only when no line is 1 |
| `Peckboard.DecodeKey` | src/peckboard/lib.rs:111 | the decoded position is the first line at 1, or 3 when no line is 1 |
| `Peckboard.DecodeLowestHigh` | src/peckboard/lib.rs:111 | a one-hot read names its line; with several lines at 1 the lowest wins |
| `Peckboard.Peck` | src/peckboard/lib.rs:151-177 | a peck advances exactly the pecked entry; out-of-range positions change nothing |
| `Peckboard.Handle` | src/peckboard/lib.rs:106-112 | a rising edge leaves every state as it is; a falling edge advances exactly the decoded position and no other, and changes nothing when no key line reads 1 |
| `Peckboard.Replay` | src/peckboard/lib.rs:103-118 | the loop over the events keeps one state per position; `ReplayCounts` gives each final state |
| `Peckboard.ReplayCounts` | src/peckboard/lib.rs:103-118 | after any event sequence each position has advanced once per falling edge decoded to it |
| `Peckboard.ReplayIgnoresNoKey` | src/peckboard/lib.rs:107-112 | rising edges and reads with no line at 1 leave every state unchanged |
| `Peckboard.RisingThenFallingOnCenter` | src/peckboard/lib.rs:107-112 | a rising then a falling edge with the center key down advances the center only, once |
| `Peckboard.DoublePeckOnCenter` | src/peckboard/lib.rs:107-112 | two falling edges on the center key from the start give Off, Red, Off |
| `Peckboard.PeckLeds.constructor` | src/peckboard/lib.rs:129-150 | all three states start Off and every group is requested with Off's pattern |
| `Peckboard.PeckLeds.Pecked` | src/peckboard/lib.rs:151-177 | for positions 0 to 2, that entry advances and its group gets the new state's pattern; other entries and groups are unchanged; positions 3 and up change nothing; output matches state afterwards |
| `Peckboard.PeckBoard.constructor` | src/peckboard/lib.rs:28-83 | the board keeps the discovered line and starts with all positions Off and consistent outputs |
| `Peckboard.PeckBoard.Monitor` | src/peckboard/lib.rs:103-118 | the loop leaves the states equal to the fold of the events, each position advanced by its pecks mod 5, outputs still matching states |
| `Playback.Duplicate` | src/playback/main.rs:91-97 | mono to stereo gives length 2n with both samples of frame i equal to input i |
| `Playback.EvenSamples` | src/playback/main.rs:100-106 | stereo to mono keeps the even-indexed samples in order, length (n+1)/2 |
| `Playback.ProcessAudio` | src/playback/main.rs:87-109 | 1 to 2 channels duplicates, 2 to 1 keeps even samples; other pairings pass one- and two-channel data through and give nothing for other inputs |
| `Playback.EvenSamplesOfDuplicate` | src/playback/main.rs:92-105 | taking even samples undoes duplication |
| `Playback.MonoStereoRoundTrip` | src/playback/main.rs:89-106 | converting mono to stereo and back returns the input |
| `Playback.Slice` | src/playback/main.rs:139 | the slice is the data from the pointer, 512 samples long or up to the end |
| `Playback.Written` | src/playback/main.rs:140-147 | the pointer advance taken from a reply: the count `writei` returned, or 0 after an error and recovery |
| `Playback.Run` | src/playback/main.rs:135-148 | the calls the loop makes from a pointer, up to `frames-1` or the observed calls; `RunWellFormed` states their properties |
| `Playback.RunWellFormed` | src/playback/main.rs:126-148 | every slice handed over is non-empty, at most 512 long and in bounds; the pointer is below frames-1 at each call; each call starts where the last advanced it (by the count written, 0 on error); the loop stops at frames-1 or when the observed calls run out |
| `Playback.PlaybackIo` | src/playback/main.rs:124-167 | fails exactly on empty data (the `frames-1` underflow); otherwise makes the calls of `Run`, which satisfy `RunWellFormed` |
| `Playback.TakesAll` | src/playback/main.rs:140 | a blocking device writing every whole frame is honest |
| `Playback.StereoReplaysSamples` | src/playback/main.rs:140-148 | on two channels the second call restarts half-way into samples already delivered |
| `Playback.LastSampleNeverWritten` | src/playback/main.rs:138 | a one-sample buffer is never handed to the device |
| `Playback.FixedRunDeliversInOrder` | src/playback/main.rs:138-148 | the corrected loop delivers the data from its start, each sample once and in order, and stops short only when calls run out |
| `Playback.FixedRunDeliversSingleSample` | src/playback/main.rs:138 | the corrected loop delivers a one-sample buffer |
| `HouseLight.DutyCycle` | src/house-light/main.rs:59 | no u32 underflow or overflow; the duty cycle is 500000 for brightness 0..254 and 0 for 255, never above the period |
| `HouseLight.AutoDutyCycleIsFullPeriod` | src/house-light/main.rs:46-49 | on the `auto` path brightness is at most 127, so the duty cycle is always the full period |
| `HouseLight.IsWhitespace` | src/house-light/main.rs:44 | the Unicode White_Space set of `char::is_whitespace`: space, tab, LF and CR are whitespace; digits and `+` never are |
| `HouseLight.TrimStart` | src/house-light/main.rs:45 | removes exactly the leading whitespace |
| `HouseLight.TrimEnd` | src/house-light/main.rs:45 | removes exactly the trailing whitespace |
| `HouseLight.Trim` | src/house-light/main.rs:45 | the result is what `TrimStart` leaves with its trailing whitespace removed: a prefix of it, everything dropped is whitespace, and neither end of the result is whitespace |
| `HouseLight.ParseU8` | src/house-light/main.rs:57 | with one optional leading `+` removed, the text is accepted exactly when it is non-empty decimal digits denoting at most 255, and the result is the number they denote |
| `HouseLight.ToDecimal` | src/house-light/main.rs:51 | `to_string` gives non-empty decimal digits with no leading zero |
| `HouseLight.DecimalRoundTrip` | src/house-light/main.rs:51 | the digits written denote the number |
| `HouseLight.ParseU8OfDecimal` | src/house-light/main.rs:57-64 | parsing a written brightness gives it back |
| `HouseLight.TrimDecimal` | src/house-light/main.rs:45 | trimming a written number leaves it unchanged |
| `HouseLight.ModeFor` | src/house-light/main.rs:29-38 | sysfs mode exactly when the sysfs brightness file exists, PWM otherwise |
| `HouseLight.Output` | src/house-light/main.rs:48-55 | PWM mode writes the duty cycle (0 or 500000); sysfs mode writes the brightness, which parses back to itself |
| `HouseLight.Respond` | src/house-light/main.rs:44-65 | an `auto` line always leads to a write and every write is decimal digits; `RespondMeaning` gives the value written and when a line aborts |
| `HouseLight.RespondMeaning` | src/house-light/main.rs:45-66 | `auto` writes the full period (PWM) or the computed brightness (sysfs); other lines abort exactly when not a u8; sysfs writes the number read, PWM writes 0 only for 255 |
| `HouseLight.SysfsEcho` | src/house-light/main.rs:57-64 | in sysfs mode, a written value typed back in is written again unchanged |
| `HouseLight.Serve` | src/house-light/main.rs:41-67 | the values written are one per line, as `Respond` gives them, up to the first line that aborts |

## Left out

- GPIO chip, line and handle acquisition are not modelled. This covers the IR emitter outputs in
  `PeckKeys::new` and the re-request of the interrupt line in `monitor`. They are foreign hardware
  calls. Failures there are `.unwrap()` panics, except the `?` on the first `Chip::new`.
- The `tokio::spawn` that makes `monitor` return `Ok(())` at once is not modelled. The model runs
  the spawned loop in place.
- Discover: when edges on two candidate lines are ready at the same poll, `select!` picks one at
  random. The model takes the earlier arrival. Edges between discovery and the monitor's own
  request of the line are lost in the source; the model has no such gap.
- PeckBoard.constructor: requires that some candidate line fires, because otherwise `new` never
  returns.
- An LED write failure panics through `.unwrap()` and is not modelled. The code advances the state
  before writing (src/peckboard/lib.rs:154-156), so a write that fails leaves the advanced state
  stored; the model follows the code.
- Errors of the event stream and of the key read (`.unwrap()` panics) are not modelled. The event
  stream is a finite sequence; the loop ends with it, as it does on `None`.
- `Error` and `ChipNumber` are data only. `src/peckboard/main.rs` is not part of this model.
- playback: ALSA device and mixer setup, `get_hw_config`, `avail_update`, the PCM state handling
  and recovery after each write, `sndfile` reading and argument parsing are not modelled. They
  are foreign library calls.
- PlaybackIo: the source loop is unbounded, and a device that keeps failing keeps it running. The
  model observes at most `calls` calls; `RunWellFormed` says the loop stopped early only when
  those ran out.
- PlaybackIo: on empty data the model returns `EmptyData`. In the source `frames - 1` underflows
  `usize`: a debug build panics, and a release build wraps and loops on empty slices.
- house-light: `calc_altitude` and `calc_brightness` are not modelled (floating point, `sin`, the
  wall clock). Their result is an input in 0..127: an `i8` clamped below at 0.
- `pwm_setup` and the file writes are not modelled (sysfs I/O). `PwmPeriod` records the period it
  configures. A failed file write, or a failed read of standard input, panics; neither is
  modelled.
- Serve: models a finite run of input lines. Past the last line `read_line` gives an empty line.
  That line does not parse, so the source aborts there. A normal return of `Serve` stands for that
  abort.
- The vl53l4cd and vcnl4040 sensor loops and the stepper-motor feeder are not part of this model.
  They are thin loops over driver crates.

## Findings

| source | as written | input that shows it | evidently intended | confidence | as-written member | corrected member |
|---|---|---|---|---|---|---|
| src/playback/main.rs:140-148 | the pointer counts samples but is advanced by what `writei` returns, which is a count of frames | 1024 samples, 2 hardware channels, a device that writes every frame: the second call starts at sample 256, so samples 256..511 are played twice | advance the pointer by frames written times channels | medium, not executed (it rests on `writei` counting frames, as ALSA's `snd_pcm_writei` does) | `Playback.StereoReplaysSamples` | `Playback.FixedRunDeliversInOrder` |
| src/playback/main.rs:138 | the loop runs while `pointer < frames-1` | a one-sample buffer: no call is made, and the sample is never played | run while `pointer < frames` | high, not executed | `Playback.LastSampleNeverWritten` | `Playback.FixedRunDeliversSingleSample` |
