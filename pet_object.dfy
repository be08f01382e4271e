/** The pet as the program holds it: one object whose fields every action
    updates in place. Each method is specified by the function of module
    Pets that describes the same change on values. */
module PetObject {
  import opened Pets

  class Pet {
    const name: string
    var hunger: real
    var happiness: real
    var energy: real
    var mood: Mood
    var smacks: nat
    var goodActions: nat
    var frameIndex: nat

    /** The object's fields as a value. */
    function State(): PetState
      reads this
    {
      PetState(name, hunger, happiness, energy, mood, smacks, goodActions, frameIndex)
    }

    /** The object invariant: gauges in [0, 100], mood in step with the counters. */
    predicate Valid()
      reads this
    {
      Inv(State())
    }

    constructor (name: string := "Turtly")
      ensures State() == Initial(name)
      ensures Valid()
    {
      this.name := name;
      hunger, happiness, energy := 50.0, 50.0, 50.0;
      mood := Neutral;
      smacks, goodActions, frameIndex := 0, 0, 0;
    }

    /** Recomputes the mood from the counters; nothing else changes. */
    method UpdateMood()
      modifies this`mood
      ensures mood == MoodOf(goodActions, smacks)
      ensures mood == Happy <==> goodActions > smacks
      ensures mood == Sad <==> goodActions < smacks
      ensures mood == Neutral <==> goodActions == smacks
    {
      if goodActions > smacks {
        mood := Happy;
      } else if goodActions < smacks {
        mood := Sad;
      } else {
        mood := Neutral;
      }
    }

    method Feed() returns (reply: Reply)
      requires Valid()
      modifies this
      ensures Valid()
      ensures State() == Pets.Feed(old(State()))
      ensures reply == Fed(name, hunger)
    {
      hunger := Max(0.0, hunger - 10.0);
      goodActions := goodActions + 1;
      UpdateMood();
      reply := Fed(name, hunger);
    }

    method Play() returns (reply: Reply)
      requires Valid()
      modifies this
      ensures Valid()
      ensures State() == Pets.Play(old(State()))
      ensures reply == Played(name, happiness)
    {
      happiness := Min(100.0, happiness + 10.0);
      energy := Max(0.0, energy - 5.0);
      goodActions := goodActions + 1;
      UpdateMood();
      reply := Played(name, happiness);
    }

    method Smack() returns (reply: Reply)
      requires Valid()
      modifies this
      ensures Valid()
      ensures State() == Pets.Smack(old(State()))
      ensures reply == Smacked(name, happiness)
    {
      happiness := Max(0.0, happiness - 10.0);
      smacks := smacks + 1;
      UpdateMood();
      reply := Smacked(name, happiness);
    }

    method Tick()
      requires Valid()
      modifies this
      ensures Valid()
      ensures State() == Pets.Tick(old(State()))
    {
      hunger := Min(100.0, hunger + 0.3);
      happiness := Max(0.0, happiness - 0.1);
      energy := Max(0.0, energy - 0.05);
    }

    /** Returns the frame for the current mood and the current counter, then
        advances the counter; the counter is not reset when the mood changes. */
    method GetFrame() returns (frame: string)
      modifies this`frameIndex
      ensures frame == FrameAt(mood, old(frameIndex))
      ensures frame in Expressions(mood)
      ensures State() == AdvanceFrame(old(State()))
    {
      var frames := Expressions(mood);
      frame := frames[frameIndex % |frames|];
      frameIndex := frameIndex + 1;
    }
  }
}
