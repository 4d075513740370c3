/**
 * The game of app.js as the object it is: its module-level variables are the
 * fields of `Game`, and each handler is a method that updates them in place.
 * Every method states its new state field by field and ties it to the
 * matching transition of module `Simon`, where the properties of whole runs
 * are proved.
 */
module SimonGame {
  import Simon

  class Game {
    var gameSeq: seq<Simon.Color>
    var userSeq: seq<Simon.Color>
    var level: nat
    var started: bool
    var playing: bool
    var muted: bool
    var best: nat

    /** The fields as a value. */
    ghost function Snapshot(): Simon.State
      reads this
    {
      Simon.State(gameSeq, userSeq, level, started, playing, muted, best)
    }

    /** The level is the length of the sequence; a game in progress has a prefix of it as input. */
    ghost predicate Valid()
      reads this
    {
      Simon.Inv(Snapshot())
    }

    /** Page load, with `storedBest` the high score read from storage. */
    constructor (storedBest: nat)
      ensures Valid() && Snapshot() == Simon.Initial(storedBest)
      ensures gameSeq == [] && userSeq == [] && level == 0
      ensures !started && !playing && !muted && best == storedBest
    {
      gameSeq, userSeq, level := [], [], 0;
      started, playing, muted := false, false, false;
      best := storedBest;
    }

    /** startGame; `c` is the colour nextLevel draws, `flashes` the playback it begins. */
    method StartGame(c: Simon.Color) returns (flashes: seq<Simon.Color>)
      requires Valid()
      modifies this
      ensures Valid() && Snapshot() == Simon.Start(old(Snapshot()), c)
      ensures old(started) ==> unchanged(this) && flashes == []
      ensures !old(started) ==>
        && started && playing && level == 1 && gameSeq == [c] && userSeq == []
        && muted == old(muted) && best == old(best)
        && flashes == [c]
    {
      if started {
        flashes := [];
        return;
      }
      started := true;
      level := 0;
      gameSeq := [];
      flashes := NextLevel(c);
    }

    /** resetGame: works from any state and leaves playing, muted and best alone. */
    method ResetGame()
      requires Valid()
      modifies this`started, this`gameSeq, this`userSeq, this`level
      ensures Valid() && Snapshot() == Simon.Reset(old(Snapshot()))
      ensures !started && gameSeq == [] && userSeq == [] && level == 0
    {
      started := false;
      gameSeq := [];
      userSeq := [];
      level := 0;
    }

    /** toggleMute: flips muted, nothing else. */
    method ToggleMute()
      requires Valid()
      modifies this`muted
      ensures Valid() && Snapshot() == Simon.ToggleMute(old(Snapshot()))
      ensures muted == !old(muted)
    {
      muted := !muted;
    }

    /**
     * nextLevel; `c` is the colour of the random draw. It has no guard, so a
     * delayed call may come after gameOver or resetGame; it needs only that
     * the level is the length of the sequence, which every state keeps.
     */
    method NextLevel(c: Simon.Color) returns (flashes: seq<Simon.Color>)
      requires level == |gameSeq|
      modifies this`level, this`userSeq, this`gameSeq, this`playing
      ensures Valid() && Snapshot() == Simon.NextLevel(old(Snapshot()), c)
      ensures level == old(level) + 1 && userSeq == []
      ensures gameSeq == old(gameSeq) + [c] && old(gameSeq) < gameSeq
      ensures playing && flashes == gameSeq
    {
      level := level + 1;
      userSeq := [];
      gameSeq := gameSeq + [c];
      flashes := BeginPlayback();
    }

    /** The synchronous part of playSequence: blocks input and flashes the pads in sequence order. */
    method BeginPlayback() returns (flashes: seq<Simon.Color>)
      requires Valid()
      modifies this`playing
      ensures Valid() && Snapshot() == Simon.BeginPlayback(old(Snapshot()))
      ensures playing && flashes == gameSeq
    {
      playing := true;
      flashes := [];
      for i := 0 to |gameSeq|
        invariant flashes == gameSeq[..i]
      {
        flashes := flashes + [gameSeq[i]];
      }
      assert gameSeq[..|gameSeq|] == gameSeq;
    }

    /** The end of playSequence, once every pad has flashed: input is accepted again. */
    method EndPlayback()
      requires Valid()
      modifies this`playing
      ensures Valid() && Snapshot() == Simon.EndPlayback(old(Snapshot()))
      ensures !playing
    {
      playing := false;
    }

    /** userInput; `advanceScheduled` says whether the delayed nextLevel is set up. */
    method UserInput(c: Simon.Color) returns (advanceScheduled: bool)
      requires Valid()
      modifies this`userSeq, this`started, this`playing, this`best
      ensures Valid() && Snapshot() == Simon.UserInput(old(Snapshot()), c)
      ensures advanceScheduled == (Simon.Judge(old(Snapshot()), c) == Simon.Complete)
      ensures advanceScheduled <==> old(started) && !old(playing) && old(userSeq) + [c] == gameSeq
      ensures !old(started) || old(playing) ==> unchanged(this) && !advanceScheduled
      ensures old(started) && !old(playing) ==> userSeq == old(userSeq) + [c]
      ensures old(started) && !old(playing) && !(userSeq <= gameSeq) ==>
        !started && !playing && best == Simon.Max(old(best), level)
      ensures old(started) && !old(playing) && userSeq <= gameSeq ==>
        started == old(started) && playing == old(playing) && best == old(best)
    {
      advanceScheduled := false;
      if !started || playing {
        return;
      }
      ghost var before := Snapshot();
      Simon.JudgeMeaning(before, c);
      userSeq := userSeq + [c];
      var idx := |userSeq| - 1;
      if idx >= |gameSeq| || userSeq[idx] != gameSeq[idx] {
        GameOver();
        return;
      }
      if |userSeq| == |gameSeq| {
        advanceScheduled := true;
      }
    }

    /** gameOver: the level becomes the best score if it beats it; the round ends. */
    method GameOver()
      requires level == |gameSeq|
      modifies this`best, this`started, this`playing
      ensures Valid() && Snapshot() == Simon.GameOver(old(Snapshot()))
      ensures best == Simon.Max(old(best), level) && best >= old(best)
      ensures !started && !playing
    {
      if level > best {
        best := level;
      }
      started := false;
      playing := false;
    }

    /** handleKey: q, w, a and s press red, blue, green and orange; other keys do nothing. */
    method HandleKey(key: string) returns (advanceScheduled: bool)
      requires Valid()
      modifies this`userSeq, this`started, this`playing, this`best
      ensures Valid() && Snapshot() == Simon.HandleKey(old(Snapshot()), key)
      ensures Simon.KeyColor(key).None? ==> unchanged(this) && !advanceScheduled
      ensures Simon.KeyColor(key).Some? ==>
        advanceScheduled == (Simon.Judge(old(Snapshot()), Simon.KeyColor(key).value) == Simon.Complete)
    {
      advanceScheduled := false;
      var pad := Simon.KeyColor(key);
      if pad.Some? {
        advanceScheduled := UserInput(pad.value);
      }
    }
  }

  /** A client: level one is completed by key, after presses out of turn are ignored. */
  method PlayLevelOne()
  {
    var g := new Game(3);
    var flashes := g.StartGame(Simon.Red);
    assert flashes == [Simon.Red];
    var again := g.StartGame(Simon.Green);
    assert again == [] && g.gameSeq == [Simon.Red];
    var advance := g.UserInput(Simon.Red);
    assert !advance && g.userSeq == [];
    g.EndPlayback();
    Simon.KeyColorInverse("q", Simon.Red);
    advance := g.HandleKey("q");
    assert advance && g.userSeq == [Simon.Red];
  }

  /** A client: a stale advance after a restart, then a lost round that does not beat the best. */
  method PlayStaleAdvance(g: Game)
    requires g.Valid() && g.best == 3
    modifies g
  {
    g.ResetGame();
    var flashes := g.StartGame(Simon.Blue);
    flashes := g.NextLevel(Simon.Orange);
    assert g.started && g.level == 2 && flashes == [Simon.Blue, Simon.Orange];
    g.EndPlayback();
    Simon.KeyColorInverse("w", Simon.Blue);
    var advance := g.HandleKey("w");
    assert g.started && g.userSeq == [Simon.Blue];
    Simon.KeyColorInverse("a", Simon.Green);
    advance := g.HandleKey("a");
    assert !g.started && g.best == 3;
  }
}
