/** The virtual pet as a value: three clamped gauges, a mood derived from two
    action counters, and the index of the next animation frame. The class in
    pet_object.dfy is specified against the functions of this module. */
module Pets {

  datatype Mood = Happy | Neutral | Sad

  /** The mood shown for given counters: a three-way comparison of good
      actions against smacks. */
  function MoodOf(goodActions: nat, smacks: nat): (m: Mood)
    ensures m == Happy <==> goodActions > smacks
    ensures m == Sad <==> goodActions < smacks
    ensures m == Neutral <==> goodActions == smacks
  {
    if goodActions > smacks then Happy
    else if goodActions < smacks then Sad
    else Neutral
  }

  /** An order on moods, worst first, to state which way an action moves the mood. */
  function Rank(m: Mood): nat
  {
    match m
    case Sad => 0
    case Neutral => 1
    case Happy => 2
  }

  /** The display colour of each mood. */
  function MoodColor(m: Mood): (c: string)
    ensures c in {"green", "yellow", "red"}
  {
    match m
    case Happy => "green"
    case Neutral => "yellow"
    case Sad => "red"
  }

  /** The animation frames of each mood, in display order. The text art
      itself is not modelled; each frame is a placeholder naming it. */
  function Expressions(m: Mood): (frames: seq<string>)
    ensures frames != []
  {
    match m
    case Happy => ["happy/eyes-open", "happy/wink"]
    case Neutral => ["neutral/plain"]
    case Sad => ["sad/eyes-closed", "sad/one-eye"]
  }

  /** The frame shown for mood `m` when the frame counter is `i`. */
  function FrameAt(m: Mood, i: nat): (f: string)
    ensures f in Expressions(m)
  {
    Expressions(m)[i % |Expressions(m)|]
  }

  function Min(a: real, b: real): real { if a <= b then a else b }
  function Max(a: real, b: real): real { if a >= b then a else b }

  datatype PetState = PetState(
    name: string,
    hunger: real,
    happiness: real,
    energy: real,
    mood: Mood,
    smacks: nat,
    goodActions: nat,
    frameIndex: nat)

  predicate InGauge(x: real) { 0.0 <= x <= 100.0 }

  /** What holds of every pet the program can reach: each gauge lies in
      [0, 100] and the stored mood agrees with the counters. */
  predicate Inv(s: PetState)
  {
    InGauge(s.hunger) && InGauge(s.happiness) && InGauge(s.energy) &&
    s.mood == MoodOf(s.goodActions, s.smacks)
  }

  /** A freshly constructed pet. */
  function Initial(name: string): (s: PetState)
    ensures Inv(s)
  {
    PetState(name, 50.0, 50.0, 50.0, Neutral, 0, 0, 0)
  }

  /** Feeding lowers hunger by 10 down to 0 and counts as a good action. */
  function Feed(s: PetState): (r: PetState)
    ensures r.hunger == Max(0.0, s.hunger - 10.0)
    ensures r.goodActions == s.goodActions + 1 && r.smacks == s.smacks
    ensures r.happiness == s.happiness && r.energy == s.energy
    ensures r.frameIndex == s.frameIndex && r.name == s.name
    ensures r.mood == MoodOf(r.goodActions, r.smacks)
    ensures Inv(s) ==> Inv(r)
  {
    var good := s.goodActions + 1;
    s.(hunger := Max(0.0, s.hunger - 10.0), goodActions := good, mood := MoodOf(good, s.smacks))
  }

  /** Playing raises happiness by 10 up to 100, costs 5 energy down to 0,
      and counts as a good action. */
  function Play(s: PetState): (r: PetState)
    ensures r.happiness == Min(100.0, s.happiness + 10.0)
    ensures r.energy == Max(0.0, s.energy - 5.0)
    ensures r.goodActions == s.goodActions + 1 && r.smacks == s.smacks
    ensures r.hunger == s.hunger && r.frameIndex == s.frameIndex && r.name == s.name
    ensures r.mood == MoodOf(r.goodActions, r.smacks)
    ensures Inv(s) ==> Inv(r)
  {
    var good := s.goodActions + 1;
    s.(happiness := Min(100.0, s.happiness + 10.0), energy := Max(0.0, s.energy - 5.0),
       goodActions := good, mood := MoodOf(good, s.smacks))
  }

  /** Smacking lowers happiness by 10 down to 0 and counts as a smack. */
  function Smack(s: PetState): (r: PetState)
    ensures r.happiness == Max(0.0, s.happiness - 10.0)
    ensures r.smacks == s.smacks + 1 && r.goodActions == s.goodActions
    ensures r.hunger == s.hunger && r.energy == s.energy
    ensures r.frameIndex == s.frameIndex && r.name == s.name
    ensures r.mood == MoodOf(r.goodActions, r.smacks)
    ensures Inv(s) ==> Inv(r)
  {
    var smacks := s.smacks + 1;
    s.(happiness := Max(0.0, s.happiness - 10.0), smacks := smacks,
       mood := MoodOf(s.goodActions, smacks))
  }

  /** One step of passive decay: hunger rises by 0.3, happiness falls by 0.1
      and energy by 0.05, each clamped; mood and counters are left alone. */
  function Tick(s: PetState): (r: PetState)
    ensures r.hunger == Min(100.0, s.hunger + 0.3)
    ensures r.happiness == Max(0.0, s.happiness - 0.1)
    ensures r.energy == Max(0.0, s.energy - 0.05)
    ensures r.mood == s.mood && r.goodActions == s.goodActions && r.smacks == s.smacks
    ensures r.frameIndex == s.frameIndex && r.name == s.name
    ensures Inv(s) ==> Inv(r)
  {
    s.(hunger := Min(100.0, s.hunger + 0.3),
       happiness := Max(0.0, s.happiness - 0.1),
       energy := Max(0.0, s.energy - 0.05))
  }

  /** The state after a frame has been taken: only the frame counter moves. */
  function AdvanceFrame(s: PetState): (r: PetState)
    ensures r.frameIndex == s.frameIndex + 1
    ensures r.hunger == s.hunger && r.happiness == s.happiness && r.energy == s.energy
    ensures r.mood == s.mood && r.goodActions == s.goodActions && r.smacks == s.smacks
    ensures r.name == s.name
    ensures Inv(s) ==> Inv(r)
  {
    s.(frameIndex := s.frameIndex + 1)
  }

  /** The message each action hands back to the loop for printing. */
  datatype Reply =
    | Fed(name: string, hunger: real)
    | Played(name: string, happiness: real)
    | Smacked(name: string, happiness: real)
    | Goodbye
    | InvalidChoice

  // ---------------------------------------------------------------------
  // Properties of single operations

  /** A good action never makes the mood worse and a smack never makes it better. */
  lemma ActionsMoveMoodOneWay(goodActions: nat, smacks: nat)
    ensures Rank(MoodOf(goodActions + 1, smacks)) >= Rank(MoodOf(goodActions, smacks))
    ensures Rank(MoodOf(goodActions, smacks + 1)) <= Rank(MoodOf(goodActions, smacks))
  {
  }

  /** Every mood has its own colour. */
  lemma MoodColorInjective(a: Mood, b: Mood)
    ensures MoodColor(a) == MoodColor(b) ==> a == b
  {
  }

  /** Taking frames cycles through a mood's list: after as many frames as the
      list is long, the same frame comes again. */
  lemma FrameAtCycles(m: Mood, i: nat)
    ensures FrameAt(m, i + |Expressions(m)|) == FrameAt(m, i)
  {
  }

  /** One tick moves each gauge toward its bound and never past it. */
  lemma TickDrifts(s: PetState)
    requires Inv(s)
    ensures s.hunger <= Tick(s).hunger <= 100.0
    ensures 0.0 <= Tick(s).happiness <= s.happiness
    ensures 0.0 <= Tick(s).energy <= s.energy
    ensures Tick(s).hunger == 100.0 <==> s.hunger >= 99.7
    ensures Tick(s).happiness == 0.0 <==> s.happiness <= 0.1
    ensures Tick(s).energy == 0.0 <==> s.energy <= 0.05
  {
  }

  /** The pet after `n` ticks and nothing else. */
  function Ticks(s: PetState, n: nat): PetState
    decreases n
  {
    if n == 0 then s else Ticks(Tick(s), n - 1)
  }

  /** Repeated ticks add up without overshooting: `n` ticks act like one step
      of `n` times the size, clamped once. */
  lemma {:induction false} TicksClosedForm(s: PetState, n: nat)
    requires Inv(s)
    ensures Ticks(s, n).hunger == Min(100.0, s.hunger + 0.3 * (n as real))
    ensures Ticks(s, n).happiness == Max(0.0, s.happiness - 0.1 * (n as real))
    ensures Ticks(s, n).energy == Max(0.0, s.energy - 0.05 * (n as real))
    ensures Ticks(s, n).mood == s.mood && Ticks(s, n).frameIndex == s.frameIndex
    ensures Ticks(s, n).goodActions == s.goodActions && Ticks(s, n).smacks == s.smacks
    decreases n
  {
    if n > 0 {
      TicksClosedForm(Tick(s), n - 1);
      assert ((n - 1) as real) == (n as real) - 1.0;
    }
  }

  /** Left alone, any pet is starving (hunger 100) after 334 ticks. */
  lemma StarvesWhenLeftAlone(s: PetState)
    requires Inv(s)
    ensures Ticks(s, 334).hunger == 100.0
  {
    TicksClosedForm(s, 334);
  }

  // ---------------------------------------------------------------------
  // Sequences of actions

  datatype Action = FeedAction | PlayAction | SmackAction | TickAction

  function Apply(s: PetState, a: Action): PetState
  {
    match a
    case FeedAction => Feed(s)
    case PlayAction => Play(s)
    case SmackAction => Smack(s)
    case TickAction => Tick(s)
  }

  /** The pet after the actions `acts`, first to last. */
  function ApplyAll(s: PetState, acts: seq<Action>): PetState
    decreases |acts|
  {
    if acts == [] then s else ApplyAll(Apply(s, acts[0]), acts[1..])
  }

  /** How many of `acts` are good actions (feeding or playing). */
  function GoodCount(acts: seq<Action>): nat
  {
    if acts == [] then 0
    else (if acts[0] == FeedAction || acts[0] == PlayAction then 1 else 0) + GoodCount(acts[1..])
  }

  /** How many of `acts` are smacks. */
  function SmackCount(acts: seq<Action>): nat
  {
    if acts == [] then 0
    else (if acts[0] == SmackAction then 1 else 0) + SmackCount(acts[1..])
  }

  /** From any reachable pet, every sequence of feed, play, smack and tick
      keeps the gauges in [0, 100] and the mood in step with the counters;
      the counters only grow, each by exactly the number of actions of its kind. */
  lemma {:induction false} ApplyAllKeepsInvariant(s: PetState, acts: seq<Action>)
    requires Inv(s)
    ensures Inv(ApplyAll(s, acts))
    ensures ApplyAll(s, acts).goodActions == s.goodActions + GoodCount(acts)
    ensures ApplyAll(s, acts).smacks == s.smacks + SmackCount(acts)
    ensures ApplyAll(s, acts).frameIndex == s.frameIndex
    ensures ApplyAll(s, acts).name == s.name
    decreases |acts|
  {
    if acts != [] {
      ApplyAllKeepsInvariant(Apply(s, acts[0]), acts[1..]);
    }
  }

  /** Corollary: a fresh pet stays in range whatever is done to it. */
  lemma FreshPetStaysInRange(name: string, acts: seq<Action>)
    ensures InGauge(ApplyAll(Initial(name), acts).hunger)
    ensures InGauge(ApplyAll(Initial(name), acts).happiness)
    ensures InGauge(ApplyAll(Initial(name), acts).energy)
    ensures ApplyAll(Initial(name), acts).mood == MoodOf(GoodCount(acts), SmackCount(acts))
  {
    ApplyAllKeepsInvariant(Initial(name), acts);
  }

  // ---------------------------------------------------------------------
  // Worked scenarios

  /** Feeding and then smacking a fresh pet. */
  lemma FeedThenSmackScenario()
    ensures Feed(Initial("Turtly")).hunger == 40.0
    ensures Feed(Initial("Turtly")).goodActions == 1
    ensures Feed(Initial("Turtly")).mood == Happy
    ensures Smack(Feed(Initial("Turtly"))).happiness == 40.0
    ensures Smack(Feed(Initial("Turtly"))).smacks == 1
    ensures Smack(Feed(Initial("Turtly"))).mood == Neutral
  {
  }

  /** Playing with a fresh pet. */
  lemma PlayScenario()
    ensures Play(Initial("Turtly")) == Initial("Turtly").(happiness := 60.0, energy := 45.0, goodActions := 1, mood := Happy)
  {
  }
}
