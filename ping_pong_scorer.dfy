/** The scorer's component state and its event handlers.

    `State` and `Step` are the specification: one value per piece of
    component state and the effect of one user or timer event on it. The
    `Scoreboard` class holds the same state in mutable fields, one method per
    handler, each proved to move the state exactly as `Step` says. */
module PingPongScorer {
  import opened Wrappers
  import opened Scoring

  /** Everything the component keeps between renders. */
  datatype State = State(
    score1: int,
    score2: int,
    name1: string,
    name2: string,
    time: nat,       // elapsed whole seconds on the match clock
    running: bool,   // whether the one-second timer is installed
    editing: bool)   // the single edit-mode flag shared by both name fields
  {
    /** Scores are never negative. */
    predicate Valid() {
      score1 >= 0 && score2 >= 0
    }

    function Score(p: Player): int {
      match p
      case One => score1
      case Two => score2
    }

    function Name(p: Player): string {
      match p
      case One => name1
      case Two => name2
    }
  }

  /** One thing that can happen to the scorer: a click, a keystroke in a name
      field, or one second of wall-clock time passing. */
  datatype Event =
    | Increment(player: Player)
    | Decrement(player: Player)
    | ToggleClock
    | ResetTime
    | ResetGame
    | Tick
    | SetName(player: Player, text: string)
    | StartEditing
    | StopEditing

  /** The state when the view mounts: a demonstration score of 9 to 11. */
  function Initial(): State {
    State(9, 11, "Player 1", "Player 2", 0, false, false)
  }

  /** One point less, but never below zero. */
  function Decremented(score: int): (r: int)
    ensures r >= 0
    ensures score >= 1 ==> r == score - 1
    ensures score <= 0 ==> r == 0
  {
    if 0 > score - 1 then 0 else score - 1
  }

  function WithScore(s: State, p: Player, score: int): State {
    match p
    case One => s.(score1 := score)
    case Two => s.(score2 := score)
  }

  function WithName(s: State, p: Player, name: string): State {
    match p
    case One => s.(name1 := name)
    case Two => s.(name2 := name)
  }

  /** The effect of event `e` on state `s`. A tick is one second passing: it
      advances the clock only while the timer is installed. */
  function Step(s: State, e: Event): (r: State)
    ensures s.Valid() ==> r.Valid()
  {
    match e
    case Increment(p) => WithScore(s, p, s.Score(p) + 1)
    case Decrement(p) => WithScore(s, p, Decremented(s.Score(p)))
    case ToggleClock => s.(running := !s.running)
    case ResetTime => s.(time := 0)
    case ResetGame => s.(score1 := 0, score2 := 0, time := 0, running := false)
    case Tick => if s.running then s.(time := s.time + 1) else s
    case SetName(p, text) => WithName(s, p, text)
    case StartEditing => s.(editing := true)
    case StopEditing => s.(editing := false)
  }

  /** The state after the events `es`, in order. */
  function Run(s: State, es: seq<Event>): State
    decreases |es|
  {
    if es == [] then s else Run(Step(s, es[0]), es[1..])
  }

  /** `n` seconds of wall-clock time. */
  function Ticks(n: nat): (es: seq<Event>)
    ensures |es| == n && forall i :: 0 <= i < n ==> es[i] == Tick
  {
    seq(n, _ => Tick)
  }

  /** The winner shown for a state. */
  function StateWinner(s: State): Option<Player> {
    Winner(s.score1, s.score2)
  }

  // ---------------------------------------------------------------------
  // Properties of single events

  /** Decrementing gives max(0, score - 1) for that player and changes
      nothing else; at zero the score stays zero. */
  lemma DecrementClamps(s: State, p: Player)
    ensures Step(s, Decrement(p)).Score(p) == (if s.Score(p) > 0 then s.Score(p) - 1 else 0)
    ensures Step(s, Decrement(p)).Score(Other(p)) == s.Score(Other(p))
    ensures s.Score(p) == 0 ==> Step(s, Decrement(p)) == s
    ensures Step(s, Decrement(p)).(score1 := s.score1, score2 := s.score2) == s
  {
  }

  /** Incrementing adds exactly one to that player's score, with no cap, and
      changes nothing else. */
  lemma IncrementAddsOne(s: State, p: Player)
    ensures Step(s, Increment(p)).Score(p) == s.Score(p) + 1
    ensures Step(s, Increment(p)).Score(Other(p)) == s.Score(Other(p))
    ensures Step(s, Increment(p)).(score1 := s.score1, score2 := s.score2) == s
  {
  }

  /** A decrement undoes an increment; an increment undoes a decrement from a
      positive score. */
  lemma IncrementDecrementInverse(s: State, p: Player)
    requires s.Valid()
    ensures Step(Step(s, Increment(p)), Decrement(p)) == s
    ensures s.Score(p) > 0 ==> Step(Step(s, Decrement(p)), Increment(p)) == s
  {
  }

  /** Reset zeroes both scores and the clock and stops it, keeping the names
      and the edit flag; afterwards there is no winner, and resetting again
      changes nothing. */
  lemma ResetGameKeepsNames(s: State)
    ensures var r := Step(s, ResetGame);
      r.score1 == 0 && r.score2 == 0 && r.time == 0 && !r.running &&
      r.name1 == s.name1 && r.name2 == s.name2 && r.editing == s.editing
    ensures StateWinner(Step(s, ResetGame)) == None
    ensures Step(Step(s, ResetGame), ResetGame) == Step(s, ResetGame)
  {
  }

  /** Toggling flips the running flag only, and two toggles cancel out. */
  lemma ToggleClockFlips(s: State)
    ensures Step(s, ToggleClock).running == !s.running
    ensures Step(s, ToggleClock).(running := s.running) == s
    ensures Step(Step(s, ToggleClock), ToggleClock) == s
  {
  }

  /** Resetting the clock display zeroes the time and leaves the running flag
      and everything else alone. */
  lemma ResetTimeKeepsRunning(s: State)
    ensures Step(s, ResetTime).time == 0
    ensures Step(s, ResetTime).(time := s.time) == s
  {
  }

  /** The clock only ever moves forward through a tick while running; every
      other event either keeps the time or sets it to zero. */
  lemma TimeAdvancesOnlyWhileRunning(s: State, e: Event)
    ensures Step(s, e).time > s.time ==> s.running && e == Tick && Step(s, e).time == s.time + 1
    ensures Step(s, e).time < s.time ==> Step(s, e).time == 0 && (e == ResetTime || e == ResetGame)
  {
  }

  /** Only a name edit changes a name, and it changes only its own player's
      name and nothing else. */
  lemma NamesChangeOnlyBySetName(s: State, e: Event)
    ensures !e.SetName? ==> Step(s, e).name1 == s.name1 && Step(s, e).name2 == s.name2
    ensures e.SetName? ==> Step(s, e).Name(e.player) == e.text &&
                            Step(s, e).Name(Other(e.player)) == s.Name(Other(e.player))
    ensures e.SetName? ==> Step(s, e).(name1 := s.name1, name2 := s.name2) == s
  {
  }

  /** Entering edit mode sets the shared flag and leaving it clears the flag;
      neither changes anything else, and repeating either changes nothing. */
  lemma EditingSetsFlagOnly(s: State)
    ensures Step(s, StartEditing).editing && Step(s, StartEditing).(editing := s.editing) == s
    ensures !Step(s, StopEditing).editing && Step(s, StopEditing).(editing := s.editing) == s
    ensures Step(Step(s, StartEditing), StartEditing) == Step(s, StartEditing)
    ensures Step(Step(s, StopEditing), StopEditing) == Step(s, StopEditing)
  {
  }

  /** At mount the demonstration score already has player 2 as the winner. */
  lemma InitialState()
    ensures Initial().Valid() && !Initial().running && !Initial().editing
    ensures StateWinner(Initial()) == Some(Two)
  {
  }

  // ---------------------------------------------------------------------
  // Properties of event sequences

  /** Running `a` then `b` is running `a + b`. */
  lemma {:induction false} RunAppend(s: State, a: seq<Event>, b: seq<Event>)
    ensures Run(s, a + b) == Run(Run(s, a), b)
    decreases |a|
  {
    if a == [] {
      assert a + b == b;
    } else {
      assert (a + b)[0] == a[0] && (a + b)[1..] == a[1..] + b;
      RunAppend(Step(s, a[0]), a[1..], b);
    }
  }

  /** No sequence of events makes a score negative. */
  lemma {:induction false} RunKeepsScoresNonNegative(s: State, es: seq<Event>)
    requires s.Valid()
    ensures Run(s, es).Valid()
    decreases |es|
  {
    if es != [] {
      RunKeepsScoresNonNegative(Step(s, es[0]), es[1..]);
    }
  }

  /** With no name edits among the events, both names survive them. */
  lemma {:induction false} RunKeepsNames(s: State, es: seq<Event>)
    requires forall i :: 0 <= i < |es| ==> !es[i].SetName?
    ensures Run(s, es).name1 == s.name1 && Run(s, es).name2 == s.name2
    decreases |es|
  {
    if es != [] {
      NamesChangeOnlyBySetName(s, es[0]);
      RunKeepsNames(Step(s, es[0]), es[1..]);
    }
  }

  /** `n` seconds on a running clock add exactly `n` to the time and change
      nothing else. */
  lemma {:induction false} TicksWhileRunning(s: State, n: nat)
    requires s.running
    ensures Run(s, Ticks(n)) == s.(time := s.time + n)
    decreases n
  {
    if n > 0 {
      assert Ticks(n)[1..] == Ticks(n - 1);
      TicksWhileRunning(s.(time := s.time + 1), n - 1);
    }
  }

  /** On a stopped clock, time passing changes nothing at all. */
  lemma {:induction false} TicksWhileStopped(s: State, n: nat)
    requires !s.running
    ensures Run(s, Ticks(n)) == s
    decreases n
  {
    if n > 0 {
      assert Ticks(n)[1..] == Ticks(n - 1);
      TicksWhileStopped(s, n - 1);
    }
  }

  /** Start the clock from zero, let three seconds pass, stop it, and let
      more time pass: the clock reads three. */
  lemma ClockScenario(s: State, later: nat)
    requires s.time == 0 && !s.running
    ensures Run(s, [ToggleClock] + Ticks(3) + [ToggleClock] + Ticks(later)).time == 3
  {
    var started := Step(s, ToggleClock);
    assert Run(s, [ToggleClock]) == started;
    TicksWhileRunning(started, 3);
    var stopped := Step(Run(started, Ticks(3)), ToggleClock);
    assert Run(Run(started, Ticks(3)), [ToggleClock]) == stopped;
    TicksWhileStopped(stopped, later);
    RunAppend(s, [ToggleClock], Ticks(3));
    RunAppend(s, [ToggleClock] + Ticks(3), [ToggleClock]);
    RunAppend(s, [ToggleClock] + Ticks(3) + [ToggleClock], Ticks(later));
  }

  // ---------------------------------------------------------------------
  // The component

  /** The mounted scorer, its state held in fields that the handlers update. */
  class Scoreboard {
    var score1: int
    var score2: int
    var name1: string
    var name2: string
    var time: nat
    var running: bool
    var editing: bool

    /** The fields as one specification value. */
    function Snapshot(): State
      reads this
    {
      State(score1, score2, name1, name2, time, running, editing)
    }

    predicate Valid()
      reads this
    {
      Snapshot().Valid()
    }

    /** The winner derived from the current scores on every read. */
    function CurrentWinner(): Option<Player>
      reads this
    {
      StateWinner(Snapshot())
    }

    /** Mounting the view. */
    constructor ()
      ensures Valid() && Snapshot() == Initial()
      ensures CurrentWinner() == Some(Two)
    {
      score1, score2 := 9, 11;
      name1, name2 := "Player 1", "Player 2";
      time := 0;
      running, editing := false, false;
    }

    /** The plus button under player `p`. */
    method IncrementScore(p: Player)
      requires Valid()
      modifies this
      ensures Valid() && Snapshot() == Step(old(Snapshot()), Increment(p))
    {
      match p
      case One => score1 := score1 + 1;
      case Two => score2 := score2 + 1;
    }

    /** The minus button under player `p`. */
    method DecrementScore(p: Player)
      requires Valid()
      modifies this
      ensures Valid() && Snapshot() == Step(old(Snapshot()), Decrement(p))
    {
      match p
      case One => score1 := if 0 > score1 - 1 then 0 else score1 - 1;
      case Two => score2 := if 0 > score2 - 1 then 0 else score2 - 1;
    }

    /** The play/pause button. */
    method ToggleClock()
      requires Valid()
      modifies this
      ensures Valid() && Snapshot() == Step(old(Snapshot()), Event.ToggleClock)
    {
      running := !running;
    }

    /** The reset-time button next to the clock. */
    method ResetTime()
      requires Valid()
      modifies this
      ensures Valid() && Snapshot() == Step(old(Snapshot()), Event.ResetTime)
    {
      time := 0;
    }

    /** The new-game buttons, in the control bar and in the winner overlay. */
    method ResetGame()
      requires Valid()
      modifies this
      ensures Valid() && Snapshot() == Step(old(Snapshot()), Event.ResetGame)
    {
      score1 := 0;
      score2 := 0;
      time := 0;
      running := false;
    }

    /** The interval callback, which fires once a second while the clock runs. */
    method Tick()
      requires Valid() && running
      modifies this
      ensures Valid() && Snapshot() == Step(old(Snapshot()), Event.Tick)
      ensures time == old(time) + 1
    {
      time := time + 1;
    }

    /** A change in player `p`'s name field. */
    method SetName(p: Player, text: string)
      requires Valid()
      modifies this
      ensures Valid() && Snapshot() == Step(old(Snapshot()), Event.SetName(p, text))
    {
      match p
      case One => name1 := text;
      case Two => name2 := text;
    }

    /** A click on either player's name. */
    method StartEditing()
      requires Valid()
      modifies this
      ensures Valid() && Snapshot() == Step(old(Snapshot()), Event.StartEditing)
    {
      editing := true;
    }

    /** A name field losing focus, or Enter pressed in it. */
    method StopEditing()
      requires Valid()
      modifies this
      ensures Valid() && Snapshot() == Step(old(Snapshot()), Event.StopEditing)
    {
      editing := false;
    }
  }
}
