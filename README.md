# langpets: the virtual pet, modelled in Dafny

langpets is a terminal toy with one animated pet, "Turtly". The pet has three
gauges: hunger, happiness and energy. Each gauge is clamped to [0, 100]. Two
counters record good actions (feeding, playing) and smacks. The mood is happy,
neutral or sad, depending on how the two counters compare. A frame counter
picks the next text-art frame for the current mood. The main loop runs one
cycle after another. In each cycle the pet decays by one tick, the display
takes one frame, and at most one typed line is dispatched: "1" feeds, "2"
plays, "3" smacks and "4" quits.

The project has four modules:

- `Pets` (pets.dfy) describes the pet as a value, `PetState`. It has one
  function per operation (`Feed`, `Play`, `Smack`, `Tick`, `FrameAt`), the
  reachability invariant `Inv`, and lemmas about single operations and about
  whole sequences of actions.
- `PetObject` (pet_object.dfy) holds the class `Pet`. Its fields are updated
  in place, as in the program. Each method's contract ties the object's new
  `State()` to the `Pets` function applied to its old state.
- `Commands` (commands.dfy) models how an input line is read. Python's
  `str.strip()` is modelled over the characters `str.isspace()` accepts, and
  the stripped text is then looked up in the menu.
- `Loop` (loop.dfy) models the interaction loop. `Step` is one cycle on
  values. `RunFrom` is a run over a finite sequence of queue readings, where
  `None` means the queue was empty in that cycle. It is `RunWith`, the run
  for any cycle function, applied to `Step`; facts about the shape of a run
  are proved once for `RunWith`. The imperative `Cycle` and
  `Run` do the same to a `Pet` object and are proved equal to `Step` and
  `RunFrom`.

Gauges are Dafny `real`s, so the fractional tick steps are exact. The
program's floating-point drift is not reproduced.

Two consequences of the code worth keeping in mind:

- Feeding a fresh pet makes it happy, since it then has 1 good action
  against 0 smacks (`FeedThenSmackScenario`).
- An unknown line changes nothing beyond the cycle's tick and frame
  advance, which come before the input is read (`StepDispatch`).

## Model

| member | source | states |
|---|---|---|
| `Pets.MoodOf` | langpets/__init__.py:75-81 | The mood is happy exactly when good actions outnumber smacks, sad exactly when smacks outnumber good actions, and neutral exactly when they are equal. |
| `Pets.ActionsMoveMoodOneWay` | langpets/__init__.py:75-81 | One more good action never makes the mood worse, and one more smack never makes it better. |
| `Pets.Initial` | langpets/__init__.py:10-18 | A fresh pet (gauges at 50, mood neutral, counters and frame index at 0) satisfies the invariant: gauges in [0, 100] and mood in step with the counters. |
| `Pets.Feed` | langpets/__init__.py:83-86 | Hunger becomes max(0, hunger - 10) and good actions go up by exactly 1. Happiness, energy, smacks, frame index and name are unchanged. The mood is recomputed from the counters, and the invariant is preserved. |
| `Pets.Play` | langpets/__init__.py:89-93 | Happiness becomes min(100, happiness + 10), energy becomes max(0, energy - 5) and good actions go up by 1. Hunger, smacks and frame index are unchanged. The mood is recomputed, and the invariant is preserved. |
| `Pets.Smack` | langpets/__init__.py:96-99 | Happiness becomes max(0, happiness - 10) and smacks go up by 1. Hunger, energy, good actions and frame index are unchanged. The mood is recomputed, and the invariant is preserved. |
| `Pets.Tick` | langpets/__init__.py:102-106 | Hunger becomes min(100, hunger + 0.3), happiness becomes max(0, happiness - 0.1) and energy becomes max(0, energy - 0.05). Mood, both counters, frame index and name are never changed, and the invariant is preserved. |
| `Pets.AdvanceFrame` | langpets/__init__.py:111 | Taking a frame moves the frame index up by exactly 1 and changes no other field, so the invariant is kept. |
| `Pets.TickDrifts` | langpets/__init__.py:102-106 | One tick raises hunger and lowers happiness and energy, and never past 100 or 0. Each gauge reaches its bound exactly when it was within one step of it: hunger from 99.7, happiness from 0.1, energy from 0.05. |
| `Pets.TicksClosedForm` | langpets/__init__.py:102-106 | n ticks in a row equal one clamped step n times as large: hunger becomes min(100, h + 0.3n), happiness max(0, p - 0.1n), energy max(0, e - 0.05n). Mood, counters and frame index are unchanged. |
| `Pets.StarvesWhenLeftAlone` | langpets/__init__.py:102-106 | From any reachable state, hunger is 100 after 334 ticks. |
| `Pets.Expressions` | langpets/__init__.py:21-73 | Every mood has a non-empty list of frames, so the frame index can always be reduced modulo its length (the lists hold two, one and two placeholder frames). |
| `Pets.FrameAt` | langpets/__init__.py:108-110 | The frame chosen for a mood and a counter is one of that mood's frames. |
| `Pets.FrameAtCycles` | langpets/__init__.py:108-112 | Frame selection repeats with the length of the mood's frame list as its period. |
| `Pets.MoodColorInjective` | langpets/__init__.py:114-119 | The colour lookup (green, yellow, red) gives each mood a different colour. |
| `Pets.MoodColor` | langpets/__init__.py:114-119 | The colour lookup is total: every mood gets one of green, yellow or red. |
| `Pets.ApplyAllKeepsInvariant` | langpets/__init__.py:83-106 | Any sequence of feed, play, smack and tick from a reachable state keeps all three gauges in [0, 100] and the mood in step with the counters. Good actions grow by exactly the number of feeds and plays, smacks by exactly the number of smacks, so neither counter decreases. The frame index is unchanged. |
| `Pets.FreshPetStaysInRange` | langpets/__init__.py:10-106 | Starting from a fresh pet, every action sequence keeps the gauges in [0, 100], and the mood is the comparison of the numbers of good actions and smacks in the sequence. |
| `Pets.FeedThenSmackScenario` | langpets/__init__.py:83-100 | Feeding a fresh pet gives hunger 40, one good action and a happy mood. Then smacking it gives happiness 40, one smack and a neutral mood. |
| `Pets.PlayScenario` | langpets/__init__.py:89-93 | Playing with a fresh pet gives happiness 60, energy 45, one good action and a happy mood, and changes nothing else. |
| `PetObject.Pet.constructor` | langpets/__init__.py:10-18 | A new pet (named "Turtly" unless a name is given) has the initial state and is valid. |
| `PetObject.Pet.UpdateMood` | langpets/__init__.py:75-81 | Only the mood field is written. Afterwards it is happy, sad or neutral exactly as good actions compare with smacks. |
| `PetObject.Pet.Feed` | langpets/__init__.py:83-87 | The object's new state is `Pets.Feed` of its old state and stays valid. The reply carries the name and the new hunger. |
| `PetObject.Pet.Play` | langpets/__init__.py:89-94 | The object's new state is `Pets.Play` of its old state and stays valid. The reply carries the name and the new happiness. |
| `PetObject.Pet.Smack` | langpets/__init__.py:96-100 | The object's new state is `Pets.Smack` of its old state and stays valid. The reply carries the name and the new happiness. |
| `PetObject.Pet.Tick` | langpets/__init__.py:102-106 | The object's new state is `Pets.Tick` of its old state and stays valid. |
| `PetObject.Pet.GetFrame` | langpets/__init__.py:108-112 | Returns the current mood's frame at index frame_index modulo the number of frames, then advances frame_index by exactly 1. Only frame_index is written, and it is never reset. |
| `Commands.TrimStart` | langpets/__init__.py:152 | The result is a suffix of the line. Everything removed before it is whitespace, and the result does not start with whitespace. |
| `Commands.TrimEnd` | langpets/__init__.py:152 | The result is a prefix of the line. Everything removed after it is whitespace, and the result does not end with whitespace. |
| `Commands.Strip` | langpets/__init__.py:152 | The stripped text has no whitespace at either end and is no longer than the line. That it is exactly the line with its padding removed is stated by `StripPadded`. |
| `Commands.TrimStartPadded` | langpets/__init__.py:152 | Removing leading whitespace from padding followed by a word removes exactly the padding. |
| `Commands.TrimEndPadded` | langpets/__init__.py:152 | Removing trailing whitespace from a word followed by padding removes exactly the padding. |
| `Commands.StripTrimmed` | langpets/__init__.py:152 | A text with no whitespace at its ends is left unchanged by stripping. |
| `Commands.StripPadded` | langpets/__init__.py:152 | Stripping whitespace padding on both sides of such a text gives back exactly that text. |
| `Commands.StripIdempotent` | langpets/__init__.py:152 | Stripping twice gives the same text as stripping once. |
| `Commands.ParseIgnoresPadding` | langpets/__init__.py:152-163 | Whitespace around a typed choice does not change which command it selects. |
| `Commands.ParseRejectsTwoChoices` | langpets/__init__.py:152-163 | A line holding "1 2" is not a command, since only the exact texts "1" to "4" are. |
| `Commands.IsSpace` | langpets/__init__.py:152 | The whitespace set that `strip()` removes includes space, tab, newline and carriage return and never includes a digit, so a menu choice is never stripped away. |
| `Commands.Parse` | langpets/__init__.py:152-163 | A line selects feed, play, smack or quit exactly when its stripped text is "1", "2", "3" or "4" respectively. |
| `Commands.Choose` | langpets/__init__.py:153-163 | The menu comparison selects feed, play, smack or quit exactly for the texts "1" to "4", and anything else is unknown. |
| `Loop.Respond` | langpets/__init__.py:153-163 | A command keeps the pet valid and leaves its frame index and name alone. It ends the loop exactly when it is the quit choice. Feed, play and smack apply exactly that operation and reply with the name and the new hunger or happiness. Quit replies goodbye and an unknown line is refused, both leaving the pet unchanged. |
| `Loop.Dispatch` | langpets/__init__.py:153-163 | Comparing the stripped line with "1" to "4" in turn, in place on the object, has exactly the effect `Respond` gives for the command the line names, and keeps the object valid. |
| `Loop.Step` | langpets/__init__.py:148-163 | One cycle preserves the invariant and shows the frame for the pre-cycle mood and index. It advances the frame index by exactly 1. It ends the loop exactly when the line strips to "4", and then replies goodbye. It replies exactly when a line was read. |
| `Loop.StepDispatch` | langpets/__init__.py:148-163 | The tick always comes first, then the frame. "1", "2" and "3" apply exactly feed, play or smack to that state. "4" quits with no further change. Any other line or an empty queue leaves the state as the tick and frame left it. |
| `Loop.StepCounters` | langpets/__init__.py:151-158 | A cycle adds 1 to good actions exactly when it feeds or plays, and 1 to smacks exactly when it smacks. Otherwise the counters are unchanged. |
| `Loop.RunWith` | langpets/__init__.py:147-165 | For any cycle function, a run yields one frame and one reply slot per cycle run. It runs one cycle per reading unless a cycle quits, and a run that quit has shown at least one frame. |
| `Loop.RunFrom` | langpets/__init__.py:147-165 | A run over the queue readings yields one frame and one reply slot per cycle run. It runs one cycle per reading unless it quits, and it quits only after showing a frame, with the farewell as its last reply. |
| `Loop.RunKeepsInvariant` | langpets/__init__.py:147-163 | Over any run the pet stays valid. |
| `Loop.RunStopsAtFirstQuit` | langpets/__init__.py:151-161 | A run quits exactly when some reading is a line that strips to "4". It then stops at the first such reading: the last cycle run read it, and no earlier reading was a quit. |
| `Loop.NothingAfterQuit` | langpets/__init__.py:159-161 | After the quit choice nothing more happens: later inputs change neither the pet nor the output. |
| `Loop.IdleFramesCycle` | langpets/__init__.py:147-149 | Over any stretch of cycles with an empty queue the loop keeps running and the mood holds. The frames shown are the consecutive frames of that mood's cycle, starting at the current frame index. |
| `Loop.IdleFreshPet` | langpets/__init__.py:141-149 | A fresh pet left alone shows its single neutral frame in every cycle. |
| `Loop.Cycle` | langpets/__init__.py:148-163 | Ticking, taking a frame and then dispatching the stripped line, if one was read, in place on the object yields exactly what `Step` describes, and keeps the object valid. |
| `Loop.Run` | langpets/__init__.py:141-165 | The loop over a finite sequence of queue readings, on a freshly created pet, yields exactly the trace `RunFrom` describes: final status, pet, frames and replies. The pet stays valid. |

## Left out

- Terminal rendering: the console, panel, live display, styled text, markup and status line (langpets/__init__.py:1-7, 122-133). Only `get_frame`'s effect on the frame counter, called while the panel is built, is modelled.
- The text art itself (langpets/__init__.py:23-71). Each frame is a placeholder string; only the number of frames per mood (2, 1, 2) is kept.
- The input thread and the shared queue (langpets/__init__.py:136-144). This is concurrency. The queue is modelled as what it yields in each cycle: one line or nothing.
- The 0.6-second sleep and the endless `while True` (langpets/__init__.py:147, 165). This is timing. The loop is modelled over a finite sequence of cycles.
- `sys.exit(0)` (langpets/__init__.py:161) is the `Quit` status, not process termination.
- The emoji, markup and wording of the printed messages (langpets/__init__.py:87, 94, 100, 154-163). A reply value carries the pet's name and the number each message shows.
- IEEE-754 rounding of tick's 0.3, 0.1 and 0.05 steps. Gauges are exact reals, so the long-run float drift of the program is not reproduced.
- The `int()` truncation of gauges in the status line (langpets/__init__.py:126), which is presentation only.
- Unicode beyond whitespace: stripping removes exactly the characters Python's `str.isspace()` accepts; no other Unicode handling is modelled.
