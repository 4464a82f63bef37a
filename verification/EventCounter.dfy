/** The event counter that the consumer threads raise and the main thread displays and resets, one memory access
    at a time. */
module EventCounter {
  import opened Wrappers

  datatype Thread = Consumer(id: nat) | Display

  /** Where a thread stands in its locked section. */
  datatype Point =
    | Outside
    | Entered
    | Loaded(value: nat)    // a consumer before its store; the display thread after computing the rate
    | Shown                 // the display thread before its reset
    | Finished              // before the unlock

  /** `shown` holds what was displayed: the number of events, and the number that the rate was computed from. */
  datatype State = State(holder: Option<Thread>, counter: nat, shown: seq<(nat, nat)>, points: map<Thread, Point>)

  datatype Action = Lock(who: Thread) | Advance(who: Thread) | Unlock(who: Thread)

  function Initial(consumers: nat): State {
    State(None, 0, [], (map i | 0 <= i < consumers :: Consumer(i) := Outside) + map[Display := Outside])
  }

  function MoveTo(s: State, who: Thread, point: Point): State {
    s.(points := s.points[who := point])
  }

  /** The next access of a thread inside its section. */
  function Access(s: State, who: Thread): Option<State>
    requires who in s.points
  {
    match (who, s.points[who])
    case (_, Entered) => Some(MoveTo(s, who, Loaded(s.counter)))
    case (Consumer(_), Loaded(value)) => Some(MoveTo(s.(counter := value + 1), who, Finished))
    case (Display, Loaded(value)) => Some(MoveTo(s.(shown := s.shown + [(s.counter, value)]), who, Shown))
    case (Display, Shown) => Some(MoveTo(s.(counter := 0), who, Finished))
    case _ => None
  }

  /** One step; None if it is not possible. */
  function Step(s: State, action: Action): Option<State> {
    if action.who !in s.points then None
    else
      var point := s.points[action.who];
      match action
      case Lock(who) => if point == Outside && s.holder.None? then Some(MoveTo(s.(holder := Some(who)), who, Entered)) else None
      case Advance(who) => Access(s, who)
      case Unlock(who) => if point == Finished then Some(MoveTo(s.(holder := None), who, Outside)) else None
  }

  function Play(s: State, actions: seq<Action>): Option<State> {
    if actions == [] then Some(s)
    else
      var before := Play(s, actions[..|actions| - 1]);
      if before.None? then None else Step(before.value, actions[|actions| - 1])
  }

  /** How many increments the actions complete. */
  function Completed(actions: seq<Action>): nat {
    if actions == [] then 0
    else
      var last := actions[|actions| - 1];
      Completed(actions[..|actions| - 1]) + if last.Unlock? && last.who.Consumer? then 1 else 0
  }

  function Displayed(shown: seq<(nat, nat)>): nat {
    if shown == [] then 0 else Displayed(shown[..|shown| - 1]) + shown[|shown| - 1].0
  }

  predicate Steady(shown: seq<(nat, nat)>) {
    forall i | 0 <= i < |shown| :: shown[i].0 == shown[i].1
  }

  /** Only the holder of the lock is inside its section, and the books balance up to the access it is at. */
  predicate Balanced(s: State, completed: nat) {
    && (forall t | t in s.points && s.points[t] != Outside :: s.holder == Some(t))
    && Steady(s.shown)
    && match s.holder
       case None => Displayed(s.shown) + s.counter == completed
       case Some(t) =>
         && t in s.points
         && match s.points[t]
            case Outside => false
            case Entered => Displayed(s.shown) + s.counter == completed
            case Loaded(value) => value == s.counter && Displayed(s.shown) + s.counter == completed
            case Shown => t.Display? && Displayed(s.shown) == completed
            case Finished => Displayed(s.shown) + s.counter == completed + if t.Consumer? then 1 else 0
  }

  lemma DisplayedSnoc(shown: seq<(nat, nat)>, n: nat, rate: nat)
    ensures Displayed(shown + [(n, rate)]) == Displayed(shown) + n
    ensures Steady(shown) && n == rate ==> Steady(shown + [(n, rate)])
  {
    assert (shown + [(n, rate)])[..|shown|] == shown;
  }

  lemma AccessBalances(s: State, who: Thread, completed: nat)
    requires Balanced(s, completed) && who in s.points && Access(s, who).Some?
    ensures Balanced(Access(s, who).value, completed)
  {
    DisplayedSnoc(s.shown, s.counter, s.counter);
    hide Displayed;
    hide Steady;
  }

  lemma StepBalances(s: State, action: Action, completed: nat)
    requires Balanced(s, completed) && Step(s, action).Some?
    ensures Balanced(Step(s, action).value, completed + if action.Unlock? && action.who.Consumer? then 1 else 0)
  {
    hide Displayed;
    hide Steady;
    if action.Advance? {
      hide Access;
      AccessBalances(s, action.who, completed);
    }
  }

  lemma {:induction false} PlayBalances(consumers: nat, actions: seq<Action>)
    requires Play(Initial(consumers), actions).Some?
    ensures Balanced(Play(Initial(consumers), actions).value, Completed(actions))
  {
    if actions != [] {
      var before := actions[..|actions| - 1];
      PlayBalances(consumers, before);
      StepBalances(Play(Initial(consumers), before).value, actions[|actions| - 1], Completed(before));
    }
  }

  /** Whatever the interleaving: while nobody holds the lock, the displayed numbers and the counter add up to the
      increments completed, and every rate was computed from the number displayed with it. */
  lemma CountsConserved(consumers: nat, actions: seq<Action>)
    requires Play(Initial(consumers), actions).Some?
    ensures var s := Play(Initial(consumers), actions).value;
            && (s.holder.None? ==> Displayed(s.shown) + s.counter == Completed(actions))
            && Steady(s.shown)
  {
    PlayBalances(consumers, actions);
  }

  /** At no point are two threads inside their sections. */
  lemma OneThreadInside(consumers: nat, actions: seq<Action>, a: Thread, b: Thread)
    requires Play(Initial(consumers), actions).Some?
    requires var s := Play(Initial(consumers), actions).value;
             a in s.points && b in s.points && s.points[a] != Outside && s.points[b] != Outside
    ensures a == b
  {
    PlayBalances(consumers, actions);
  }

  // ---------------------------------------------------------------- what the sections do

  lemma PlayLast(s: State, actions: seq<Action>, last: Action)
    ensures Play(s, actions + [last]) == var before := Play(s, actions);
                                         if before.None? then None else Step(before.value, last)
  {
    assert (actions + [last])[..|actions|] == actions;
  }

  /** A consumer that finds the lock free raises the counter by one. */
  lemma Increments(s: State, id: nat)
    requires s.holder == None && Consumer(id) in s.points && s.points[Consumer(id)] == Outside
    ensures var t := Consumer(id);
            Play(s, [] + [Lock(t)] + [Advance(t)] + [Advance(t)] + [Unlock(t)]) == Some(s.(counter := s.counter + 1))
  {
    hide Play;
    var t := Consumer(id);
    assert Play(s, []) == Some(s) by {
      PlayNothing(s);
    }
    PlayLast(s, [], Lock(t));
    PlayLast(s, [] + [Lock(t)], Advance(t));
    PlayLast(s, [] + [Lock(t)] + [Advance(t)], Advance(t));
    PlayLast(s, [] + [Lock(t)] + [Advance(t)] + [Advance(t)], Unlock(t));
    assert s.points[t := Entered][t := Loaded(s.counter)][t := Finished][t := Outside] == s.points;
  }

  /** The display thread, if it finds the lock free, displays the counter with its rate and resets it. */
  lemma Displays(s: State)
    requires s.holder == None && Display in s.points && s.points[Display] == Outside
    ensures Play(s, [] + [Lock(Display)] + [Advance(Display)] + [Advance(Display)] + [Advance(Display)] + [Unlock(Display)])
         == Some(s.(counter := 0, shown := s.shown + [(s.counter, s.counter)]))
  {
    hide Play;
    assert Play(s, []) == Some(s) by {
      PlayNothing(s);
    }
    PlayLast(s, [], Lock(Display));
    PlayLast(s, [] + [Lock(Display)], Advance(Display));
    PlayLast(s, [] + [Lock(Display)] + [Advance(Display)], Advance(Display));
    PlayLast(s, [] + [Lock(Display)] + [Advance(Display)] + [Advance(Display)], Advance(Display));
    PlayLast(s, [] + [Lock(Display)] + [Advance(Display)] + [Advance(Display)] + [Advance(Display)], Unlock(Display));
    assert s.points[Display := Entered][Display := Loaded(s.counter)][Display := Shown][Display := Finished][Display := Outside]
        == s.points;
  }

  lemma PlayNothing(s: State)
    ensures Play(s, []) == Some(s)
  {
  }
}
