/**
 * The Simon-style memory game of app.js, as values.
 *
 * A `State` holds the game's module-level variables; one function per
 * handler gives the state that handler leaves behind. A run of the game is a
 * sequence of `Event`s (button clicks, pad clicks, key presses, and the two
 * things the event loop delivers later: the end of a playback and a delayed
 * level advance). The lemmas state what the game promises about one handler
 * and about every run. The class `SimonGame.Game` is proved against these
 * functions.
 */
module Simon {

  /** The four pads, in the order of the `colors` array. */
  datatype Color = Red | Blue | Green | Orange

  datatype Option<T> = None | Some(value: T)

  /** The key-to-pad table of handleKey. */
  const KeyMap: map<string, Color> := map["q" := Red, "w" := Blue, "a" := Green, "s" := Orange]

  /** The pad a (lower-cased) key selects, if any. */
  function KeyColor(key: string): Option<Color>
  {
    if key in KeyMap then Some(KeyMap[key]) else None
  }

  /** The key that selects a pad: an independent statement of the table's inverse. */
  function PadKey(c: Color): string
  {
    match c
    case Red => "q"
    case Blue => "w"
    case Green => "a"
    case Orange => "s"
  }

  /** Exactly the four keys select a pad, each its own one, and no two keys share a pad. */
  lemma KeyColorInverse(key: string, c: Color)
    ensures KeyColor(key) == Some(c) <==> key == PadKey(c)
    ensures KeyColor(key).None? <==> key !in {"q", "w", "a", "s"}
  {
  }

  /** The game's module-level variables. */
  datatype State = State(
    gameSeq: seq<Color>,
    userSeq: seq<Color>,
    level: nat,
    started: bool,
    playing: bool,
    muted: bool,
    best: nat)

  /** The state at page load; `best` is the stored high score. */
  function Initial(storedBest: nat): State
  {
    State([], [], 0, false, false, false, storedBest)
  }

  function Max(a: nat, b: nat): nat
  {
    if a < b then b else a
  }

  // ---------------------------------------------------------------------
  // One function per handler
  // ---------------------------------------------------------------------

  /** The synchronous first part of playSequence. */
  function BeginPlayback(s: State): State
  {
    s.(playing := true)
  }

  /** The continuation of playSequence once every pad has flashed. */
  function EndPlayback(s: State): State
  {
    s.(playing := false)
  }

  /** nextLevel with `c` as the colour drawn at random; it starts a playback. */
  function NextLevel(s: State, c: Color): State
  {
    BeginPlayback(s.(level := s.level + 1, userSeq := [], gameSeq := s.gameSeq + [c]))
  }

  /** startGame: ignored while a game is on, otherwise a fresh game at level one. */
  function Start(s: State, c: Color): State
  {
    if s.started then s
    else NextLevel(s.(started := true, level := 0, gameSeq := []), c)
  }

  /** resetGame. */
  function Reset(s: State): State
  {
    s.(started := false, gameSeq := [], userSeq := [], level := 0)
  }

  /** toggleMute. */
  function ToggleMute(s: State): State
  {
    s.(muted := !s.muted)
  }

  /** gameOver: records a new high score and ends the round. */
  function GameOver(s: State): State
  {
    s.(best := if s.level > s.best then s.level else s.best, started := false, playing := false)
  }

  /** How userInput classifies a pad press. */
  datatype Verdict =
    | Ignored    // not the player's turn: no game, or a playback running
    | Correct    // matches, the sequence is not yet complete
    | Complete   // matches and completes the sequence: an advance is scheduled
    | Wrong      // does not match, or lies beyond the sequence: game over

  function Judge(s: State, c: Color): Verdict
  {
    if !s.started || s.playing then Ignored
    else
      var idx := |s.userSeq|;
      if idx >= |s.gameSeq| || s.gameSeq[idx] != c then Wrong
      else if idx + 1 == |s.gameSeq| then Complete
      else Correct
  }

  /** userInput: the state after pressing pad `c`. */
  function UserInput(s: State, c: Color): State
  {
    match Judge(s, c)
    case Ignored => s
    case Wrong => GameOver(s.(userSeq := s.userSeq + [c]))
    case _ => s.(userSeq := s.userSeq + [c])
  }

  /** handleKey: a mapped key presses its pad, any other key does nothing. */
  function HandleKey(s: State, key: string): State
  {
    match KeyColor(key)
    case None => s
    case Some(c) => UserInput(s, c)
  }

  // ---------------------------------------------------------------------
  // Properties of single handlers
  // ---------------------------------------------------------------------

  /** startGame while a game is on changes nothing, so starting twice is starting once. */
  lemma StartIdempotent(s: State, c: Color, c': Color)
    ensures s.started ==> Start(s, c) == s
    ensures Start(Start(s, c), c') == Start(s, c)
  {
  }

  /** startGame from idle yields level one, a one-colour sequence and a running playback. */
  lemma StartFromIdle(s: State, c: Color)
    requires !s.started
    ensures var r := Start(s, c);
      && r.started && r.playing
      && r.level == 1 && r.gameSeq == [c] && |r.gameSeq| == 1
      && r.userSeq == []
      && r.muted == s.muted && r.best == s.best
  {
  }

  /** nextLevel adds one level and exactly one colour, keeping the old sequence as a prefix. */
  lemma NextLevelGrows(s: State, c: Color)
    ensures var r := NextLevel(s, c);
      && r.level == s.level + 1
      && r.userSeq == []
      && |r.gameSeq| == |s.gameSeq| + 1
      && s.gameSeq < r.gameSeq && r.gameSeq[|s.gameSeq|] == c
      && r.playing
      && r.started == s.started && r.muted == s.muted && r.best == s.best
  {
  }

  /** resetGame empties the game from any state and leaves playing, muted and best alone. */
  lemma ResetClears(s: State)
    ensures var r := Reset(s);
      && !r.started && r.gameSeq == [] && r.userSeq == [] && r.level == 0
      && r.playing == s.playing && r.muted == s.muted && r.best == s.best
  {
  }

  /** toggleMute flips muted and nothing else. */
  lemma ToggleMuteOnlyMute(s: State)
    ensures ToggleMute(s).muted == !s.muted
    ensures ToggleMute(s).(muted := s.muted) == s
    ensures ToggleMute(ToggleMute(s)) == s
  {
  }

  /** gameOver keeps the larger of the best score and the level, and ends the round. */
  lemma GameOverRecordsBest(s: State)
    ensures var r := GameOver(s);
      && r.best == Max(s.best, s.level)
      && r.best >= s.best && r.best >= s.level
      && (r.best == s.best || r.best == s.level)
      && !r.started && !r.playing
      && r.gameSeq == s.gameSeq && r.userSeq == s.userSeq && r.level == s.level
      && r.muted == s.muted
  {
  }

  /** userInput outside the player's turn changes nothing. */
  lemma InputIgnoredOutOfTurn(s: State, c: Color)
    requires !s.started || s.playing
    ensures UserInput(s, c) == s && Judge(s, c) == Ignored
  {
  }

  /** userInput in the player's turn records the press, and ends the round only on a mismatch. */
  lemma InputRecordsPress(s: State, c: Color)
    requires s.started && !s.playing
    ensures var r := UserInput(s, c);
      && r.userSeq == s.userSeq + [c]
      && r.gameSeq == s.gameSeq && r.level == s.level && r.muted == s.muted
      && (Judge(s, c) == Wrong ==> !r.started && !r.playing && r.best == Max(s.best, s.level))
      && (Judge(s, c) != Wrong ==> r == s.(userSeq := s.userSeq + [c]))
  {
  }

  /** A press beyond the end of the sequence counts as a mismatch. */
  lemma ExtraPressIsWrong(s: State, c: Color)
    requires s.started && !s.playing && |s.userSeq| >= |s.gameSeq|
    ensures Judge(s, c) == Wrong && !UserInput(s, c).started
  {
  }

  // ---------------------------------------------------------------------
  // The invariant
  // ---------------------------------------------------------------------

  /**
   * The level is the length of the sequence; during a game a level has begun
   * and the player's presses so far are a prefix of the sequence.
   */
  ghost predicate Inv(s: State)
  {
    && s.level == |s.gameSeq|
    && (s.started ==> s.level >= 1 && s.userSeq <= s.gameSeq)
  }

  lemma InitialInv(storedBest: nat)
    ensures Inv(Initial(storedBest))
  {
  }

  /**
   * Under the invariant, the verdict on a press in the player's turn says
   * whether the presses so far, with this one, are a proper prefix of the
   * sequence, the whole sequence, or not a prefix at all.
   */
  lemma JudgeMeaning(s: State, c: Color)
    requires Inv(s) && s.started && !s.playing
    ensures Judge(s, c) == Complete <==> s.userSeq + [c] == s.gameSeq
    ensures Judge(s, c) == Correct <==> s.userSeq + [c] < s.gameSeq
    ensures Judge(s, c) == Wrong <==> !(s.userSeq + [c] <= s.gameSeq)
    ensures Judge(s, c) != Ignored
  {
  }

  lemma UserInputPreservesInv(s: State, c: Color)
    requires Inv(s)
    ensures Inv(UserInput(s, c))
  {
  }

  // ---------------------------------------------------------------------
  // Runs
  // ---------------------------------------------------------------------

  /**
   * What can happen to the game. `Advance` is the timer of the delayed
   * nextLevel and `PlaybackEnd` the end of playSequence; a run may deliver
   * them at any point, stale ones included, since the code never cancels them.
   */
  datatype Event =
    | StartClick(c: Color)    // c: the colour the random draw of nextLevel yields
    | ResetClick
    | MuteClick
    | Advance(c: Color)
    | PlaybackEnd
    | Pad(c: Color)
    | Key(key: string)

  function Step(s: State, e: Event): State
  {
    match e
    case StartClick(c) => Start(s, c)
    case ResetClick => Reset(s)
    case MuteClick => ToggleMute(s)
    case Advance(c) => NextLevel(s, c)
    case PlaybackEnd => EndPlayback(s)
    case Pad(c) => UserInput(s, c)
    case Key(k) => HandleKey(s, k)
  }

  function Run(s: State, es: seq<Event>): State
    decreases |es|
  {
    if es == [] then s else Run(Step(s, es[0]), es[1..])
  }

  /** Whether the event is a press that ends the round (gameOver runs). */
  function EndsRound(s: State, e: Event): bool
  {
    match e
    case Pad(c) => Judge(s, c) == Wrong
    case Key(k) => KeyColor(k).Some? && Judge(s, KeyColor(k).value) == Wrong
    case _ => false
  }

  /** The score (the level) of every round that ends during the run, in order. */
  function RoundScores(s: State, es: seq<Event>): seq<nat>
    decreases |es|
  {
    if es == [] then []
    else (if EndsRound(s, es[0]) then [s.level] else []) + RoundScores(Step(s, es[0]), es[1..])
  }

  /** The largest of `b` and the elements of `xs`. */
  function MaxFrom(b: nat, xs: seq<nat>): nat
    decreases |xs|
  {
    if xs == [] then b else MaxFrom(Max(b, xs[0]), xs[1..])
  }

  lemma {:induction false} MaxFromIsMax(b: nat, xs: seq<nat>)
    ensures MaxFrom(b, xs) >= b
    ensures forall i :: 0 <= i < |xs| ==> MaxFrom(b, xs) >= xs[i]
    ensures MaxFrom(b, xs) == b || MaxFrom(b, xs) in xs
    decreases |xs|
  {
    if xs != [] {
      MaxFromIsMax(Max(b, xs[0]), xs[1..]);
      assert forall i :: 1 <= i < |xs| ==> xs[i] == xs[1..][i - 1];
    }
  }

  /** Every handler keeps the invariant, nextLevel even when it fires stale. */
  lemma StepPreservesInv(s: State, e: Event)
    requires Inv(s)
    ensures Inv(Step(s, e))
  {
  }

  lemma {:induction false} RunPreservesInv(s: State, es: seq<Event>)
    requires Inv(s)
    ensures Inv(Run(s, es))
    decreases |es|
  {
    if es != [] {
      StepPreservesInv(s, es[0]);
      RunPreservesInv(Step(s, es[0]), es[1..]);
    }
  }

  /** From page load, every reachable state keeps the invariant. */
  lemma ReachableInv(storedBest: nat, es: seq<Event>)
    ensures var r := Run(Initial(storedBest), es);
      && r.level == |r.gameSeq|
      && (r.started ==> |r.userSeq| <= |r.gameSeq| && r.userSeq <= r.gameSeq)
  {
    InitialInv(storedBest);
    RunPreservesInv(Initial(storedBest), es);
  }

  lemma StepBest(s: State, e: Event)
    ensures Step(s, e).best == if EndsRound(s, e) then Max(s.best, s.level) else s.best
  {
  }

  /**
   * The best score after a run is the largest of the stored score and the
   * scores of the rounds that ended; in particular it never decreases.
   */
  lemma {:induction false} RunBest(s: State, es: seq<Event>)
    ensures Run(s, es).best == MaxFrom(s.best, RoundScores(s, es))
    ensures Run(s, es).best >= s.best
    ensures forall i :: 0 <= i < |RoundScores(s, es)| ==> Run(s, es).best >= RoundScores(s, es)[i]
    decreases |es|
  {
    if es != [] {
      var t := Step(s, es[0]);
      StepBest(s, es[0]);
      RunBest(t, es[1..]);
      var rest := RoundScores(t, es[1..]);
      if EndsRound(s, es[0]) {
        assert RoundScores(s, es) == [s.level] + rest;
        assert ([s.level] + rest)[1..] == rest;
      } else {
        assert RoundScores(s, es) == rest;
      }
    }
    MaxFromIsMax(s.best, RoundScores(s, es));
  }

  ghost predicate NoStart(es: seq<Event>)
  {
    forall i :: 0 <= i < |es| ==> !es[i].StartClick?
  }

  /**
   * Once a round has ended, no press is accepted until startGame: the game
   * stays stopped, no round ends, and the best score stays put.
   */
  lemma {:induction false} IdleUntilStart(s: State, es: seq<Event>)
    requires !s.started && NoStart(es)
    ensures !Run(s, es).started
    ensures RoundScores(s, es) == []
    ensures Run(s, es).best == s.best
    decreases |es|
  {
    if es != [] {
      assert !es[0].StartClick?;
      assert NoStart(es[1..]) by {
        forall i | 0 <= i < |es[1..]| ensures !es[1..][i].StartClick? {
          assert es[1..][i] == es[i + 1];
        }
      }
      IdleUntilStart(Step(s, es[0]), es[1..]);
    }
  }

  /** Running `[e] + rest` is running `rest` after `e`. */
  lemma RunCons(s: State, e: Event, rest: seq<Event>)
    ensures Run(s, [e] + rest) == Run(Step(s, e), rest)
  {
  }

  /** The events of level advances drawing the colours `cs`, in order. */
  function Advances(cs: seq<Color>): seq<Event>
    decreases |cs|
  {
    if cs == [] then [] else [Advance(cs[0])] + Advances(cs[1..])
  }

  /** Each advance appends its colour and adds one level. */
  lemma {:induction false} AdvancesGrowSequence(s: State, cs: seq<Color>)
    ensures Run(s, Advances(cs)).gameSeq == s.gameSeq + cs
    ensures Run(s, Advances(cs)).level == s.level + |cs|
    ensures cs != [] ==> Run(s, Advances(cs)).userSeq == []
    decreases |cs|
  {
    if cs != [] {
      var t := NextLevel(s, cs[0]);
      RunCons(s, Advance(cs[0]), Advances(cs[1..]));
      AdvancesGrowSequence(t, cs[1..]);
      assert t.gameSeq + cs[1..] == s.gameSeq + cs;
    }
  }

  /** The colours drawn by the `Advance` events of a run, in order. */
  function AdvanceColors(es: seq<Event>): seq<Color>
    decreases |es|
  {
    if es == [] then []
    else (if es[0].Advance? then [es[0].c] else []) + AdvanceColors(es[1..])
  }

  /** A run with no startGame and no resetGame. */
  ghost predicate WithinOneGame(es: seq<Event>)
  {
    forall i :: 0 <= i < |es| ==> !es[i].StartClick? && !es[i].ResetClick?
  }

  /**
   * Within one game, whatever presses, playback ends and mute clicks come
   * between the advances, the sequence grows by exactly the colours the
   * advances draw, in order, and the level by their number.
   */
  lemma {:induction false} GrowthInGame(s: State, es: seq<Event>)
    requires WithinOneGame(es)
    ensures Run(s, es).gameSeq == s.gameSeq + AdvanceColors(es)
    ensures Run(s, es).level == s.level + |AdvanceColors(es)|
    decreases |es|
  {
    if es != [] {
      assert WithinOneGame(es[1..]) by {
        forall i | 0 <= i < |es[1..]| ensures !es[1..][i].StartClick? && !es[1..][i].ResetClick? {
          assert es[1..][i] == es[i + 1];
        }
      }
      assert !es[0].StartClick? && !es[0].ResetClick?;
      var t := Step(s, es[0]);
      GrowthInGame(t, es[1..]);
      if es[0].Advance? {
        assert t.gameSeq == s.gameSeq + [es[0].c] && t.level == s.level + 1;
        assert AdvanceColors(es) == [es[0].c] + AdvanceColors(es[1..]);
        assert t.gameSeq + AdvanceColors(es[1..]) == s.gameSeq + AdvanceColors(es);
      } else {
        assert t.gameSeq == s.gameSeq && t.level == s.level;
        assert AdvanceColors(es) == AdvanceColors(es[1..]);
      }
    }
  }

  /**
   * In a game started from idle, the sequence is always the colour of the
   * start followed by the colours of the advances so far, and the level is
   * its length.
   */
  lemma SequenceGrowth(s: State, c: Color, es: seq<Event>)
    requires !s.started && WithinOneGame(es)
    ensures var r := Run(s, [StartClick(c)] + es);
      r.gameSeq == [c] + AdvanceColors(es) && r.level == |r.gameSeq| == 1 + |AdvanceColors(es)|
  {
    RunCons(s, StartClick(c), es);
    StartFromIdle(s, c);
    GrowthInGame(Start(s, c), es);
  }

  // ---------------------------------------------------------------------
  // Mute independence
  // ---------------------------------------------------------------------

  /** The state with the mute flag cleared: everything the game logic depends on. */
  function Unmuted(s: State): State
  {
    s.(muted := false)
  }

  function DropMutes(es: seq<Event>): seq<Event>
    decreases |es|
  {
    if es == [] then [] else (if es[0] == MuteClick then [] else [es[0]]) + DropMutes(es[1..])
  }

  lemma StepIgnoresMuted(s: State, t: State, e: Event)
    requires Unmuted(s) == Unmuted(t)
    ensures Unmuted(Step(s, e)) == Unmuted(Step(t, e))
    ensures EndsRound(s, e) == EndsRound(t, e)
  {
  }

  lemma {:induction false} RunIgnoresMuted(s: State, t: State, es: seq<Event>)
    requires Unmuted(s) == Unmuted(t)
    ensures Unmuted(Run(s, es)) == Unmuted(Run(t, es))
    ensures RoundScores(s, es) == RoundScores(t, es)
    decreases |es|
  {
    if es != [] {
      StepIgnoresMuted(s, t, es[0]);
      RunIgnoresMuted(Step(s, es[0]), Step(t, es[0]), es[1..]);
    }
  }

  /**
   * Mute clicks anywhere in a run change nothing but the mute flag: the
   * sequence, the level, the round outcomes and the best score are those of
   * the run without them.
   */
  lemma {:induction false} MuteIndependence(s: State, es: seq<Event>)
    ensures Unmuted(Run(s, es)) == Unmuted(Run(s, DropMutes(es)))
    ensures RoundScores(s, es) == RoundScores(s, DropMutes(es))
    decreases |es|
  {
    if es != [] {
      var e, rest := es[0], es[1..];
      MuteIndependence(Step(s, e), rest);
      if e == MuteClick {
        assert DropMutes(es) == DropMutes(rest);
        RunIgnoresMuted(Step(s, e), s, DropMutes(rest));
      } else {
        assert DropMutes(es) == [e] + DropMutes(rest);
        assert DropMutes(es)[0] == e && DropMutes(es)[1..] == DropMutes(rest);
      }
    }
  }

  // ---------------------------------------------------------------------
  // Scenarios
  // ---------------------------------------------------------------------

  /**
   * Level one is [Red]: pressing Red completes it and the advance makes the
   * sequence [Red, Blue] at level two; pressing Red then a wrong pad ends the
   * game with score two and records it as the new best over a stored zero.
   */
  lemma EndToEnd()
    ensures var afterAdvance := Run(Initial(0), [StartClick(Red), PlaybackEnd, Pad(Red), Advance(Blue)]);
      afterAdvance.gameSeq == [Red, Blue] && afterAdvance.level == 2 && afterAdvance.userSeq == []
    ensures var es := [StartClick(Red), PlaybackEnd, Pad(Red), Advance(Blue), PlaybackEnd, Pad(Red), Pad(Green)];
      && RoundScores(Initial(0), es) == [2]
      && !Run(Initial(0), es).started
      && Run(Initial(0), es).best == 2
  {
  }

  /**
   * nextLevel is never cancelled: an advance scheduled by a completed level
   * that fires after resetGame and a new startGame pushes the new game to
   * level two at once.
   */
  lemma StaleAdvanceAfterRestart()
    ensures var r := Run(Initial(0), [StartClick(Red), PlaybackEnd, Pad(Red), ResetClick, StartClick(Blue), Advance(Green)]);
      r.started && r.level == 2 && r.gameSeq == [Blue, Green]
  {
  }
}
