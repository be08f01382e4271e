/** The interaction loop: every cycle the pet decays by one tick, one frame is
    taken for the display, and at most one queued input line is dispatched.
    `Step` and `RunFrom` say on values what one cycle and a run of cycles do
    (`RunFrom` is `RunWith`, the run for any cycle function, applied to `Step`);
    `Cycle` and `Run` do the same to a `Pet` object. */
module Loop {
  import opened Pets
  import opened Commands
  import opened PetObject

  datatype Option<T> = None | Some(value: T)

  /** The loop keeps running until the quit choice arrives. */
  datatype Status = Running | Quit

  /** What one cycle leaves behind: whether the loop goes on, the pet, the
      frame shown, and the message printed for the input, if any. */
  datatype StepResult = StepResult(status: Status, pet: PetState, frame: string, reply: Option<Reply>)

  /** What one cycle does, as a function of the pet and the reading. */
  type StepFunction = (PetState, Option<string>) -> StepResult

  /** What dispatching a command leaves behind: whether the loop goes on,
      the pet, and the message printed. */
  datatype Outcome = Outcome(status: Status, pet: PetState, reply: Reply)

  /** The effect of one command on pet `t`: the three actions apply their
      operation, the quit choice ends the loop, anything else is refused. */
  function Respond(t: PetState, command: Command): (o: Outcome)
    ensures Inv(t) ==> Inv(o.pet)
    ensures o.status == Quit <==> command == QuitCommand
    ensures o.pet.frameIndex == t.frameIndex && o.pet.name == t.name
    ensures command == FeedCommand ==> o.pet == Feed(t) && o.reply == Fed(t.name, Feed(t).hunger)
    ensures command == PlayCommand ==> o.pet == Play(t) && o.reply == Played(t.name, Play(t).happiness)
    ensures command == SmackCommand ==> o.pet == Smack(t) && o.reply == Smacked(t.name, Smack(t).happiness)
    ensures command == QuitCommand ==> o.pet == t && o.reply == Goodbye
    ensures command == Unknown ==> o.pet == t && o.reply == InvalidChoice
  {
    match command
    case FeedCommand =>
      var u := Feed(t); Outcome(Running, u, Fed(u.name, u.hunger))
    case PlayCommand =>
      var u := Play(t); Outcome(Running, u, Played(u.name, u.happiness))
    case SmackCommand =>
      var u := Smack(t); Outcome(Running, u, Smacked(u.name, u.happiness))
    case QuitCommand => Outcome(Quit, t, Goodbye)
    case Unknown => Outcome(Running, t, InvalidChoice)
  }

  /** One cycle on pet `s`; `input` is the line taken from the queue, or None
      when the queue was empty. */
  function Step(s: PetState, input: Option<string>): (r: StepResult)
    ensures Inv(s) ==> Inv(r.pet)
    ensures r.frame == FrameAt(s.mood, s.frameIndex)
    ensures r.pet.frameIndex == s.frameIndex + 1 && r.pet.name == s.name
    ensures r.status == Quit <==> input.Some? && Parse(input.value) == QuitCommand
    ensures r.status == Quit ==> r.reply == Some(Goodbye)
    ensures r.reply.None? <==> input.None?
  {
    var shown := Tick(s);
    var frame := FrameAt(shown.mood, shown.frameIndex);
    var t := AdvanceFrame(shown);
    match input
    case None => StepResult(Running, t, frame, None)
    case Some(line) =>
      var o := Respond(t, Parse(line));
      StepResult(o.status, o.pet, frame, Some(o.reply))
  }

  /** The tick comes first in every cycle; then exactly the chosen action is
      applied, and the quit choice, an unknown line and an empty queue leave
      the pet as the tick (and the frame) left it. */
  lemma StepDispatch(s: PetState, input: Option<string>)
    ensures var base := AdvanceFrame(Tick(s));
      var r := Step(s, input);
      match input
      case None => r.pet == base && r.status == Running
      case Some(line) =>
        (Parse(line) == FeedCommand ==> r.pet == Feed(base) && r.status == Running) &&
        (Parse(line) == PlayCommand ==> r.pet == Play(base) && r.status == Running) &&
        (Parse(line) == SmackCommand ==> r.pet == Smack(base) && r.status == Running) &&
        (Parse(line) == QuitCommand ==> r.pet == base && r.reply == Some(Goodbye)) &&
        (Parse(line) == Unknown ==> r.pet == base && r.status == Running && r.reply == Some(InvalidChoice))
  {
  }

  /** A cycle changes the counters only through the chosen action: each goes
      up by at most one, and only the matching choice moves it. */
  lemma StepCounters(s: PetState, input: Option<string>)
    ensures var r := Step(s, input);
      var good := input.Some? && (Parse(input.value) == FeedCommand || Parse(input.value) == PlayCommand);
      var smack := input.Some? && Parse(input.value) == SmackCommand;
      r.pet.goodActions == s.goodActions + (if good then 1 else 0) &&
      r.pet.smacks == s.smacks + (if smack then 1 else 0)
  {
    match input
    case None =>
    case Some(line) =>
      var c := Parse(line);
      assert Step(s, input).pet == Respond(AdvanceFrame(Tick(s)), c).pet;
  }

  /** What a run of cycles leaves behind: the final status and pet, and the
      frames shown and messages printed, one per cycle run. */
  datatype Trace = Trace(status: Status, pet: PetState, frames: seq<string>, replies: seq<Option<Reply>>)

  /** `t` with one more cycle's frames and messages in front. */
  function Prepend(frames: seq<string>, replies: seq<Option<Reply>>, t: Trace): Trace
  {
    Trace(t.status, t.pet, frames + t.frames, replies + t.replies)
  }

  /** Runs one cycle of `step` per element of `inputs`, stopping after the
      first cycle whose status is Quit. Written for any step function, so
      that facts about the shape of a run are proved once, without looking
      inside a cycle. */
  function RunWith(step: StepFunction, s: PetState, inputs: seq<Option<string>>): (t: Trace)
    ensures |t.frames| == |t.replies| <= |inputs|
    ensures t.status == Running ==> |t.frames| == |inputs|
    ensures t.status == Quit ==> t.frames != []
    decreases |inputs|
  {
    if inputs == [] then Trace(Running, s, [], [])
    else
      var r := step(s, inputs[0]);
      if r.status == Quit then Trace(Quit, r.pet, [r.frame], [r.reply])
      else Prepend([r.frame], [r.reply], RunWith(step, r.pet, inputs[1..]))
  }

  /** Runs one cycle per element of `inputs`, stopping after the cycle that
      reads the quit choice; the last message of a run that quit is the
      goodbye. */
  function RunFrom(s: PetState, inputs: seq<Option<string>>): (t: Trace)
    ensures |t.frames| == |t.replies| <= |inputs|
    ensures t.status == Running ==> |t.frames| == |inputs|
    ensures t.status == Quit ==> t.frames != [] && t.replies[|t.replies| - 1] == Some(Goodbye)
  {
    QuitRepliesWith(Step, Some(Goodbye), s, inputs);
    RunWith(Step, s, inputs)
  }

  /** When every quitting cycle of `step` replies `last`, a run that quit
      ends with `last`. */
  lemma {:induction false} QuitRepliesWith(step: StepFunction, last: Option<Reply>, s: PetState, inputs: seq<Option<string>>)
    requires forall p, x :: step(p, x).status == Quit ==> step(p, x).reply == last
    ensures var t := RunWith(step, s, inputs);
      t.status == Quit ==> t.replies[|t.replies| - 1] == last
    decreases |inputs|
  {
    if inputs != [] {
      var r := step(s, inputs[0]);
      if r.status != Quit {
        QuitRepliesWith(step, last, r.pet, inputs[1..]);
      }
    }
  }

  /** Prepending twice is prepending the joined frames and messages. */
  lemma PrependTwice(f1: seq<string>, r1: seq<Option<Reply>>, f2: seq<string>, r2: seq<Option<Reply>>, t: Trace)
    ensures Prepend(f1, r1, Prepend(f2, r2, t)) == Prepend(f1 + f2, r1 + r2, t)
  {
    assert f1 + (f2 + t.frames) == (f1 + f2) + t.frames;
    assert r1 + (r2 + t.replies) == (r1 + r2) + t.replies;
  }

  /** Over any run the pet stays valid. */
  lemma {:induction false} RunKeepsInvariant(s: PetState, inputs: seq<Option<string>>)
    requires Inv(s)
    ensures Inv(RunFrom(s, inputs).pet)
    decreases |inputs|
  {
    if inputs != [] {
      var r := Step(s, inputs[0]);
      if r.status != Quit {
        RunKeepsInvariant(r.pet, inputs[1..]);
      }
    }
  }

  /** The reading that asks the loop to quit. */
  predicate IsQuit(x: Option<string>)
  {
    x.Some? && Parse(x.value) == QuitCommand
  }

  /** A run quits exactly when some reading is the quit choice, and then it
      stops at the first such reading: the cycle that reads it is the last
      one run, and no earlier reading was a quit. (`quits` is `IsQuit` taken
      as a value, the form in which `StopsAtFirstWith` states it.) */
  lemma RunStopsAtFirstQuit(s: PetState, inputs: seq<Option<string>>)
    ensures var t, quits := RunFrom(s, inputs), IsQuit;
      (t.status == Quit <==> exists i :: 0 <= i < |inputs| && quits(inputs[i])) &&
      (t.status == Quit ==>
        quits(inputs[|t.frames| - 1]) &&
        forall j :: 0 <= j < |t.frames| - 1 ==> !quits(inputs[j]))
  {
    StopsAtFirstWith(Step, IsQuit, s, inputs);
  }

  /** The same for any step function whose status is Quit exactly on the
      readings `stop` accepts. */
  lemma {:induction false} StopsAtFirstWith(step: StepFunction, stop: Option<string> -> bool,
                                            s: PetState, inputs: seq<Option<string>>)
    requires forall p, x :: step(p, x).status == Quit <==> stop(x)
    ensures var t := RunWith(step, s, inputs);
      (t.status == Quit <==> exists i :: 0 <= i < |inputs| && stop(inputs[i])) &&
      (t.status == Quit ==>
        stop(inputs[|t.frames| - 1]) &&
        forall j :: 0 <= j < |t.frames| - 1 ==> !stop(inputs[j]))
    decreases |inputs|
  {
    if inputs != [] {
      var r := step(s, inputs[0]);
      if r.status == Quit {
        assert stop(inputs[0]);
      } else {
        assert !stop(inputs[0]);
        var rest := inputs[1..];
        StopsAtFirstWith(step, stop, r.pet, rest);
        var t, u := RunWith(step, s, inputs), RunWith(step, r.pet, rest);
        assert t == Prepend([r.frame], [r.reply], u);
        if u.status == Quit {
          var i :| 0 <= i < |rest| && stop(rest[i]);
          assert stop(inputs[i + 1]);
          assert inputs[|t.frames| - 1] == rest[|u.frames| - 1];
          forall j | 0 <= j < |t.frames| - 1
            ensures !stop(inputs[j])
          {
            if j > 0 {
              assert inputs[j] == rest[j - 1];
            }
          }
        } else {
          forall i | 0 <= i < |inputs|
            ensures !stop(inputs[i])
          {
            if i > 0 {
              assert inputs[i] == rest[i - 1];
            }
          }
        }
      }
    }
  }

  /** Once the quit choice has been read nothing more happens: inputs that
      would have come later change nothing. */
  lemma NothingAfterQuit(s: PetState, inputs: seq<Option<string>>, later: seq<Option<string>>)
    requires RunFrom(s, inputs).status == Quit
    ensures RunFrom(s, inputs + later) == RunFrom(s, inputs)
  {
    NothingAfterQuitWith(Step, s, inputs, later);
  }

  /** The same for any step function. */
  lemma {:induction false} NothingAfterQuitWith(step: StepFunction, s: PetState,
                                                inputs: seq<Option<string>>, later: seq<Option<string>>)
    requires RunWith(step, s, inputs).status == Quit
    ensures RunWith(step, s, inputs + later) == RunWith(step, s, inputs)
    decreases |inputs|
  {
    var all := inputs + later;
    assert all[0] == inputs[0] && all[1..] == inputs[1..] + later;
    var r := step(s, inputs[0]);
    if r.status != Quit {
      NothingAfterQuitWith(step, r.pet, inputs[1..], later);
    }
  }

  /** One unfolding of `RunFrom` on a non-empty list of readings. */
  lemma RunFromCons(s: PetState, x: Option<string>, rest: seq<Option<string>>)
    ensures var r := Step(s, x);
      RunFrom(s, [x] + rest) ==
        if r.status == Quit then Trace(Quit, r.pet, [r.frame], [r.reply])
        else Prepend([r.frame], [r.reply], RunFrom(r.pet, rest))
  {
    assert ([x] + rest)[0] == x && ([x] + rest)[1..] == rest;
  }

  /** While the queue stays empty the mood holds still, so the frames shown
      are consecutive frames of that mood's cycle. */
  lemma {:induction false} IdleFramesCycle(s: PetState, idle: seq<Option<string>>)
    requires forall k :: 0 <= k < |idle| ==> idle[k].None?
    ensures var t := RunFrom(s, idle);
      t.status == Running && |t.frames| == |idle| &&
      t.pet.mood == s.mood && t.pet.frameIndex == s.frameIndex + |idle| &&
      forall k :: 0 <= k < |idle| ==> t.frames[k] == FrameAt(s.mood, s.frameIndex + k)
    decreases |idle|
  {
    if idle != [] {
      var rest := idle[1..];
      assert idle == [None] + rest;
      var r := Step(s, None);
      assert r.pet.mood == s.mood && r.frame == FrameAt(s.mood, s.frameIndex);
      RunFromCons(s, None, rest);
      IdleFramesCycle(r.pet, rest);
      var t, u := RunFrom(s, idle), RunFrom(r.pet, rest);
      assert t.frames == [r.frame] + u.frames;
      forall k | 0 <= k < |idle|
        ensures t.frames[k] == FrameAt(s.mood, s.frameIndex + k)
      {
        if k > 0 {
          assert r.pet.frameIndex + (k - 1) == s.frameIndex + k;
          assert t.frames[k] == u.frames[k - 1];
        }
      }
    }
  }

  /** A fresh pet left alone shows its one neutral frame at every cycle. */
  lemma IdleFreshPet(n: nat)
    ensures var t := RunFrom(Initial("Turtly"), seq(n, _ => None));
      |t.frames| == n && forall k :: 0 <= k < n ==> t.frames[k] == Expressions(Neutral)[0]
  {
    IdleFramesCycle(Initial("Turtly"), seq(n, _ => None));
  }

  /** Dispatches a stripped input line on the pet object, comparing it with
      the menu choices one after another. */
  method Dispatch(pet: Pet, choice: string) returns (status: Status, reply: Reply)
    requires pet.Valid()
    modifies pet
    ensures pet.Valid()
    ensures Respond(old(pet.State()), Choose(choice)) == Outcome(status, pet.State(), reply)
  {
    status := Running;
    if choice == "1" {
      reply := pet.Feed();
    } else if choice == "2" {
      reply := pet.Play();
    } else if choice == "3" {
      reply := pet.Smack();
    } else if choice == "4" {
      reply := Goodbye;
      status := Quit;
    } else {
      reply := InvalidChoice;
    }
  }

  /** One cycle of the loop on the pet object: tick, take a frame, and
      dispatch the input line, if there is one, on its stripped text. */
  method Cycle(pet: Pet, input: Option<string>) returns (status: Status, frame: string, reply: Option<Reply>)
    requires pet.Valid()
    modifies pet
    ensures pet.Valid()
    ensures Step(old(pet.State()), input) == StepResult(status, pet.State(), frame, reply)
  {
    ghost var before := pet.State();
    pet.Tick();
    frame := pet.GetFrame();
    assert pet.State() == AdvanceFrame(Tick(before));
    if input.Some? {
      var r;
      status, r := Dispatch(pet, Strip(input.value));
      reply := Some(r);
    } else {
      status, reply := Running, None;
    }
  }

  /** A run with some cycles already behind it, advanced by the cycle that
      reads `inputs[i]` and gives `next`. */
  lemma RunOneMore(s: PetState, inputs: seq<Option<string>>, i: nat, next: StepResult,
                   frames: seq<string>, replies: seq<Option<Reply>>, whole: Trace)
    requires i < |inputs| && next == Step(s, inputs[i])
    requires whole == Prepend(frames, replies, RunFrom(s, inputs[i..]))
    ensures next.status == Running ==>
      whole == Prepend(frames + [next.frame], replies + [next.reply], RunFrom(next.pet, inputs[i + 1..]))
    ensures next.status == Quit ==>
      whole == Trace(Quit, next.pet, frames + [next.frame], replies + [next.reply])
  {
    assert inputs[i..] == [inputs[i]] + inputs[i + 1..];
    RunFromCons(s, inputs[i], inputs[i + 1..]);
    if next.status == Running {
      PrependTwice(frames, replies, [next.frame], [next.reply], RunFrom(next.pet, inputs[i + 1..]));
    }
  }

  /** The loop over a finite sequence of queue readings, on a pet created
      with the default name; it stops at the quit choice. */
  method Run(inputs: seq<Option<string>>) returns (pet: Pet, trace: Trace)
    ensures fresh(pet) && pet.Valid()
    ensures trace == RunFrom(Initial("Turtly"), inputs)
    ensures trace.pet == pet.State()
  {
    pet := new Pet();
    ghost var whole := RunFrom(pet.State(), inputs);
    var status := Running;
    var frames: seq<string> := [];
    var replies: seq<Option<Reply>> := [];
    var i := 0;
    assert inputs[i..] == inputs && Prepend(frames, replies, whole) == whole;
    while i < |inputs| && status == Running
      invariant 0 <= i <= |inputs|
      invariant pet.Valid()
      invariant status == Running ==> whole == Prepend(frames, replies, RunFrom(pet.State(), inputs[i..]))
      invariant status == Quit ==> whole == Trace(Quit, pet.State(), frames, replies)
    {
      ghost var before := pet.State();
      var st, frame, reply := Cycle(pet, inputs[i]);
      RunOneMore(before, inputs, i, StepResult(st, pet.State(), frame, reply), frames, replies, whole);
      frames, replies := frames + [frame], replies + [reply];
      status := st;
      i := i + 1;
    }
    if status == Running {
      assert inputs[i..] == [];
    }
    trace := Trace(status, pet.State(), frames, replies);
  }
}
