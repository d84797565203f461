/**
 * The application shell: which screen is showing, the level to play, the
 * score shown on the end screens, and the background music that follows
 * the screen. The engine reports a finished level or a lost game through
 * `HandleGameEnd`; the menu and end-screen buttons and the in-game exit
 * move between screens.
 */
module Shell {
  import opened Optional
  import opened Config
  import Entities
  import opened Audio

  datatype Screen = Menu | Playing | GameOver | LevelComplete | Victory

  /** JavaScript truthiness of an optional level number: absent and 0 are
      both false. */
  predicate Truthy(next: Option<int>) {
    next.Some? && next.value != 0
  }

  class App {
    var screen: Screen
    var finalScore: int
    var level: int
    /** The screen the music was last set for. */
    var musicScreen: Screen
    const music: Sequencer

    /** Music plays exactly while the screen it was last set for is the
        game screen. */
    ghost predicate Valid()
      reads this, music
    {
      music.Valid() && (music.isPlayingMusic <==> musicScreen == Playing)
    }

    /** First render: the menu, level 1, score 0, music stopped. */
    constructor (music: Sequencer)
      requires music.Valid()
      modifies music
      ensures screen == Menu && finalScore == 0 && level == 1 && this.music == music
      ensures musicScreen == Menu
      ensures Valid()
    {
      screen := Menu;
      finalScore := 0;
      level := 1;
      musicScreen := Menu;
      this.music := music;
      new;
      music.StopMusic();
    }

    /** The music effect, run after a render in which the screen changed:
        start the music on the game screen, stop it anywhere else. */
    method SyncMusic(now: real, handle: nat)
      requires Valid() && handle > 0
      modifies this`musicScreen, music
      ensures Valid()
      ensures musicScreen == screen
      ensures music.isPlayingMusic <==> screen == Playing
    {
      if screen != musicScreen {
        if screen == Playing {
          var _ := music.StartMusic(now, handle);
        } else {
          music.StopMusic();
        }
        musicScreen := screen;
      }
    }

    /** The engine's end-of-level report. */
    method HandleGameEnd(score: int, won: bool, nextLevel: Option<int>)
      modifies this`finalScore, this`level, this`screen
      ensures finalScore == score
      ensures won && Truthy(nextLevel) ==> level == nextLevel.value && screen == LevelComplete
      ensures won && !Truthy(nextLevel) ==> level == old(level) && screen == Victory
      ensures !won ==> level == old(level) && screen == GameOver
    {
      finalScore := score;
      if won && Truthy(nextLevel) {
        level := nextLevel.value;
        screen := LevelComplete;
      } else if won && !Truthy(nextLevel) {
        screen := Victory;
      } else {
        screen := GameOver;
      }
    }

    /** Start on the menu: always level 1. */
    method StartGame()
      modifies this`level, this`screen
      ensures level == 1 && screen == Playing
    {
      level := 1;
      screen := Playing;
    }

    /** Main Menu on an end screen, and Exit in the game. */
    method ToMenu()
      modifies this`screen
      ensures screen == Menu
    {
      screen := Menu;
    }

    /** Retry / Next Sector: play again; only after the last level does the
        campaign restart from level 1. */
    method RetryOrNext()
      modifies this`level, this`screen
      ensures screen == Playing
      ensures level == if old(screen) == Victory then 1 else old(level)
    {
      if screen == Victory {
        level := 1;
      }
      screen := Playing;
    }
  }

  /**
   * The campaign: started from the menu and won level after level, with the
   * engine's next-level rule supplying the next level, the game visits
   * levels 1, 2 and 3 and then shows the victory screen.
   */
  method Campaign(music: Sequencer) returns (levels: seq<int>, last: Screen)
    requires music.Valid()
    modifies music
    ensures levels == [1, 2, 3] && last == Victory
  {
    var app := new App(music);
    app.StartGame();
    levels := [app.level];
    while app.level < LAST_LEVEL
      invariant app.screen == Playing && 1 <= app.level <= LAST_LEVEL
      invariant levels == seq(app.level, i => i + 1)
      decreases LAST_LEVEL - app.level
    {
      app.HandleGameEnd(0, true, Entities.NextLevel(app.level));
      app.RetryOrNext();
      levels := levels + [app.level];
    }
    app.HandleGameEnd(0, true, Entities.NextLevel(app.level));
    last := app.screen;
  }

  /**
   * Reaching the exit and dying in the same step: the level-complete report
   * comes first and advances the level, the game-over report then shows
   * the loss; Retry then plays the next level.
   */
  method ExitAndDeathTogether(music: Sequencer, score: int) returns (shown: Screen, retried: int)
    requires music.Valid()
    modifies music
    ensures shown == GameOver && retried == 2
  {
    var app := new App(music);
    app.StartGame();
    app.HandleGameEnd(score, true, Entities.NextLevel(app.level));
    app.HandleGameEnd(score, false, None);
    shown := app.screen;
    app.RetryOrNext();
    retried := app.level;
  }
}
