# gpio-evdev-driver, modelled in Dafny

`gpio-evdev-driver.py` turns buttons wired to the Raspberry Pi's BCM pins 0 .. 26 into
synthetic keyboard events. Pins are pulled up, so a pin reads 1 at rest and 0 while its
button is pressed. This project models the runtime mapping engine of that script and proves
its emission rules:

- **Action table** (`ActionTable`, `create_mapping`): the ordered action records become a
  pin -> key dictionary for single-pin actions and an ordered list of chords (multi-pin
  actions). Actions without pins or without a key are skipped. A later single-pin action on
  the same pin overwrites an earlier one.
- **Polling cycle** (`Engine` for the meaning, `Polling` for the imperative driver): the class
  `Poller` holds `pin_state` (27 levels, all 1 at start) and `combination_state` (one flag
  per chord, all false at start) as arrays. `Cycle` runs the edge pass over pins 0 .. 26 and
  then the chord pass. It is proved to return exactly the events `Engine.Emitted` describes
  and to leave exactly the state `Engine.Next` describes. `Run` runs one cycle per snapshot.
- **Button learning** (`PinLearning`, `wait_pins`): rounds of samples are folded into the
  `pressed` and `released` sets until something was pressed and everything pressed was
  released.
- **Key learning** (`KeyLearning`, `assign_keys`): each action in turn takes the next
  key-down code that no earlier action has taken.

Modelling choices:

- A snapshot is the sequence of the 27 values `GPIO.input` returns in one cycle, each 0 or 1
  (type `Level`). The edge pass reads a pin and decides for that pin before reading the next
  one. Each decision depends only on that pin's read, so reading all 27 first gives the same
  events. The chord pass reads `pin_state` after line 143 has overwritten it, so it sees exactly
  the snapshot.
- Each `uinput.write(EV_KEY, key, value)` followed by `uinput.syn()` is one `Event`: a key code
  and a direction (`Down` is value 1, `Up` is value 0).
- Events carry no record of which pin or chord sent them, just as the written events do not.
  Per-pin and per-chord statements (balance) are about `PinHistory` and `ChordHistory`. These
  are the parts of each cycle's events that the edge pass contributes for that pin, or the
  chord pass for that chord.
- Chord pins must lie in 0 .. 26 (the `Poller` constructor requires it). In the source, a
  chord pin of 27 or more raises in the first cycle in which the `hit` loop reaches it. That is
  a cycle where every earlier pin of the chord reads 0, because the loop stops at the first pin
  reading 1 (line 151). The model excludes such chords from the start. A single-pin action on a
  pin outside 0 .. 26 is allowed: the edge pass never looks at it, so it never sends anything.
- A learning walk reads a finite sequence of samples (or key presses). If the input runs out
  before the walk ends, the result is `None`.

The code does not reject a second single-pin action on the same pin: line 113 overwrites the
first binding. Nor does it reject records without pins or without a key: line 110 skips them.
The model does the same.

## Model

| member | source | states |
|---|---|---|
| `ActionTable.CreateMapping` | gpio-evdev-driver.py:104-116 | the one-pass loop builds exactly the dictionary and chord list of the action table |
| `ActionTable.SingleMapLastWins` | gpio-evdev-driver.py:110-113 | a pin is in the dictionary iff some enabled single-pin action names it, and then its key is that of the last such action |
| `ActionTable.SingleMapConcat` | gpio-evdev-driver.py:107-113 | the dictionary of two runs of actions is the first run's overwritten by the second's |
| `ActionTable.ChordListConcat` | gpio-evdev-driver.py:107-115 | chords keep configuration order: the chords of a concatenation are the concatenation of the chords |
| `ActionTable.ChordListMember` | gpio-evdev-driver.py:110-115 | a chord is listed iff some action with pins, a key and more than one pin gives exactly those pins and that key |
| `ActionTable.ChordListArity` | gpio-evdev-driver.py:112-115 | every listed chord has at least two pins |
| `ActionTable.ChordListInRange` | gpio-evdev-driver.py:146-149 | multi-pin actions whose pins are in 0 .. 26 give chords whose pins can index `pin_state`; single-pin actions may name any pin |
| `ActionTable.DefaultConfig` | gpio-evdev-driver.py:96-100 | the generated configuration has one action per default name, in order |
| `ActionTable.DisabledContributeNothing` | gpio-evdev-driver.py:110 | actions none of which has both pins and a key give an empty table |
| `ActionTable.DefaultTableEmpty` | gpio-evdev-driver.py:92-116 | the generated default configuration gives an empty dictionary and no chords |
| `Engine.EdgeEvent` | gpio-evdev-driver.py:134-140 | a pin sends at most one event, only if it is mapped and its level changed; the event carries the pin's key and goes down exactly when the new level is 0 |
| `Engine.ChordEvent` | gpio-evdev-driver.py:152-159 | a chord sends key down exactly on released -> hit, key up exactly on engaged -> not hit, nothing when the two agree |
| `Engine.EdgePassMember` | gpio-evdev-driver.py:130-140 | an event is in the edge pass iff some pin of the pass sends it |
| `Engine.EdgePassQuiet` | gpio-evdev-driver.py:130-140 | pins whose level did not change add nothing to the edge pass |
| `Engine.ChordPassMember` | gpio-evdev-driver.py:146-159 | an event is in the chord pass iff some chord of the pass sends it |
| `Engine.ChordPassQuiet` | gpio-evdev-driver.py:146-159 | chords whose flag already matches their hit add nothing to the chord pass |
| `Engine.Idempotent` | gpio-evdev-driver.py:130-159 | a second cycle on the same snapshot sends no event, neither from the edge pass nor from the chord pass |
| `Engine.LowAtStartPresses` | gpio-evdev-driver.py:123-137 | since every stored level starts at 1, a mapped pin already low in the first cycle sends its key down then |
| `Engine.EmittedSources` | gpio-evdev-driver.py:130-159 | every event of a cycle is a mapped pin's key in the direction of its level change, or a chord's key in the direction of its flag change |
| `Engine.ChordHistoryStep` | gpio-evdev-driver.py:146-159 | one more cycle adds the chord event its flag change calls for, and leaves the flag equal to whether all its pins read 0 |
| `Engine.PinBalanceFrom` | gpio-evdev-driver.py:130-143 | over any run, a pin's key downs minus key ups equals the change in whether it is mapped and stored low |
| `Engine.PinBalance` | gpio-evdev-driver.py:123-143 | from the start, a mapped pin's downs minus ups is always 0 or 1, and 1 exactly while its stored level is 0; an unmapped pin sends nothing |
| `Engine.UnmappedPinSilent` | gpio-evdev-driver.py:135-140 | over any run, a pin that is not in the dictionary sends no event at all |
| `Engine.ChordBalanceFrom` | gpio-evdev-driver.py:146-159 | over any run, a chord's downs minus ups equals the change in its flag |
| `Engine.ChordBalance` | gpio-evdev-driver.py:124-159 | from the start, a chord's downs minus ups is always 0 or 1, and 1 exactly while its flag is true |
| `Polling.ChordHit` | gpio-evdev-driver.py:147-151 | the `hit` loop, which stops at the first pin reading 1, answers whether every pin of the chord reads 0 |
| `Polling.Poller.constructor` | gpio-evdev-driver.py:119-124 | every stored level starts at 1 and every chord flag at false |
| `Polling.Poller.DetectEdges` | gpio-evdev-driver.py:130-143 | the edge pass sends the events of the pins in ascending order and stores the snapshot for every pin, mapped or not |
| `Polling.Poller.TrackChords` | gpio-evdev-driver.py:146-159 | the chord pass sends the chord events in list order and leaves each flag true iff all the chord's pins read 0 |
| `Polling.Poller.Cycle` | gpio-evdev-driver.py:126-159 | one cycle sends all single-pin events, then all chord events; afterwards the stored levels are the snapshot and each chord flag is its hit |
| `Polling.Poller.Run` | gpio-evdev-driver.py:126-164 | a finite run of the loop sends the cycles' events one after another and ends in the state of the run |
| `PinLearning.SampleRound` | gpio-evdev-driver.py:60-65 | one round adds the pins reading 0 to pressed and the already-pressed pins reading 1 to released; pressed only grows and released stays within pressed |
| `PinLearning.WaitPins` | gpio-evdev-driver.py:56-67 | the walk ends at the first round boundary where pressed is non-empty and equals released, and answers pressed; it answers nothing if no such boundary is reached |
| `PinLearning.LearnedMeaning` | gpio-evdev-driver.py:57-65 | a pin is pressed iff it read 0 in some round, released iff it read 1 in a later round; released is within pressed |
| `PinLearning.PressedGrows` | gpio-evdev-driver.py:59-65 | pressed after k rounds is within pressed after any later number of rounds |
| `PinLearning.WaitPinsAnswer` | gpio-evdev-driver.py:59-67 | when the walk ends the answer is non-empty, and each pin in it was pressed in one round and released in a later one |
| `KeyLearning.DedupSpec` | gpio-evdev-driver.py:44-52 | the codes in order of first appearance hold each code once, and only codes that were pressed |
| `KeyLearning.DedupPrefix` | gpio-evdev-driver.py:46-53 | the distinct codes of a prefix of the presses are a prefix of the distinct codes of all presses |
| `KeyLearning.AssignKeys` | gpio-evdev-driver.py:43-54 | the actions receive the first n distinct pressed codes, pairwise distinct and in order; there is no answer iff fewer than n distinct codes were pressed |
| `Scenarios.SingleButton` | gpio-evdev-driver.py:130-143 | pin 3 sampled high, low, low, high sends key down on the second cycle, nothing on the third, key up on the fourth |
| `Scenarios.TwoPinChordStep` | gpio-evdev-driver.py:146-159 | one cycle of a chord over pins 3 and 4, with its hit decided by those two pins |
| `Scenarios.TwoPinChord` | gpio-evdev-driver.py:146-159 | a chord over pins 3 and 4 goes down on the cycle the last pin closes and up on the cycle the first pin opens |
| `Scenarios.SameCycleOrder` | gpio-evdev-driver.py:130-140 | two buttons pressed in the same cycle send their key downs in ascending pin order |

## Left out

- `init_gpio` and `GPIO.input` (lines 33-35, 61, 132): hardware access. They are replaced by snapshot parameters.
- `UInput()`, `uinput.write` and `uinput.syn` (lines 121, 136-140, 154-159): device output. Each write and its syn is one `Event` value in the returned sequence.
- `sleep(POLLING_INTERVAL)` (lines 66, 84, 164): timing is not modelled. In `wait_pins` the line-66 sleep follows the `for` loop inside the `while`, so it runs once per round, after all 27 reads.
- The endless `while True` of `polling_loop`: non-termination. `Poller.Run` models any finite run of it.
- `wait_key` and the device read in `assign_keys` (lines 38-41, 45): the key-down codes arrive as a sequence parameter. The prompts at lines 47 and 72 are not modelled.
- `assign_pins` (lines 69-75): it only stores the answer of `wait_pins` in the configuration.
- `read_config` file access and `write_config` (lines 87-95): JSON file I/O. Only the generated default configuration (lines 96-100) is modelled.
- `test_pins` (lines 77-84), the argument parsing (lines 22-31), the stream redirection (lines 209-210) and the message printed at line 111: I/O plumbing.
- Install and uninstall of the init script (lines 186-206): service-manager side effects.
- Python's negative list indices: a chord pin in -27 .. -1 would read another pin's level instead of failing. The model requires chord pins in 0 .. 26.
- `PinLearning.WaitPins`: returns a set. The source returns `list(pressed)`, whose order Python leaves unspecified.
- `ActionTable.CreateMapping`: takes the actions as a sequence. The source iterates a dictionary keyed by action name, so names there are unique. Names do not affect the table.
