/**
 * The single-player survival game of ProjectASL/src/SingleplayerGame/singleplayer.js as a
 * state machine. The globals the script reassigns (and the fields of its `player` record) are
 * the fields of `SurvivalGame`; `millis()` and the random next word are parameters. A word is
 * signed letter by letter; every finished word scores one and pays one or two coins; every minute
 * of unpaused play reaches a checkpoint that must be paid in coins, and what is left unpaid when
 * the coins run out is taken from health.
 */
module Survival {
  import opened Wrappers
  import opened JsText
  import opened Signing
  import opened SerialFraming
  import Countdown

  /** `player.maxHealth`, which nothing changes. */
  const MaxHealth := 50
  /** `checkpointInterval`: a checkpoint every minute of unpaused play. */
  const CheckpointInterval := 60000
  /** The longest name Save Username accepts. */
  const MaxNameLength := 10
  /** What the Arduino sends when its button is pressed. */
  const ButtonPressed := "BUTTON PRESSED!"
  const NameTooLong := "Username too long! Max 10 characters."
  const NameSaved := "Username saved!"

  /** `currentState`. */
  datatype Page = MenuPage | ArduinoPage | CountdownPage | GamePage | CheckpointPage | GameOverPage

  /** `isOnline`: the test override, when set, decides; otherwise the browser's `navigator.onLine`. */
  function IsOnline(override: Option<bool>, navigatorOnLine: bool): bool
  {
    if override.None? then navigatorOnLine else override.value
  }

  /** With the override set the browser's view is ignored; without it the browser's view is the answer. */
  lemma OverrideDecides(override: Option<bool>, navigatorOnLine: bool)
    ensures override.Some? ==> IsOnline(override, navigatorOnLine) == IsOnline(override, !navigatorOnLine) == override.value
    ensures override.None? ==> (IsOnline(override, navigatorOnLine) <==> navigatorOnLine)
  {
  }

  /** The coins checkpoint `reached` asks for: five at the first, two more at each further one. */
  function RequiredCoins(reached: int): int
  {
    5 + (reached - 1) * 2
  }

  /** Coins needed to pass checkpoints 1 to `n` without a penalty. */
  function CoinsToPass(n: nat): nat
  {
    if n == 0 then 0 else CoinsToPass(n - 1) + RequiredCoins(n)
  }

  /** Passing the first `n` checkpoints outright costs `n² + 4n` coins: 5, 12, 21, 32, ... */
  lemma {:induction false} CoinsToPassClosedForm(n: nat)
    ensures CoinsToPass(n) == n * n + 4 * n
  {
    if n > 0 {
      CoinsToPassClosedForm(n - 1);
    }
  }

  /** The health `applyPenalty` takes: the checkpoint number times the unpaid coins. */
  function Damage(reached: int, debt: int): int
  {
    reached * debt
  }

  /** Within one game the debt is positive, so a penalty always costs at least one point per checkpoint reached. */
  lemma PenaltyHurts(reached: int, coinsPaid: int)
    requires reached >= 1 && 0 <= coinsPaid < RequiredCoins(reached)
    ensures Damage(reached, RequiredCoins(reached) - coinsPaid) >= reached
  {
    var debt := RequiredCoins(reached) - coinsPaid;
    assert reached * debt == reached * (debt - 1) + reached;
    assert reached * (debt - 1) >= 0;
  }

  /**
   * A partial payment carried into a later game can exceed the new checkpoint's price (one left
   * short at any checkpoint after the first exceeds the first one's), and a penalty taken with
   * such a payment adds at least one health point per checkpoint reached instead of taking any:
   * `coinsPaid` survives both the penalty and `startCountdown`.
   */
  lemma CarriedPaymentHeals(reached: int, coinsPaid: int, earlier: int)
    requires reached >= 1 && coinsPaid > RequiredCoins(reached)
    ensures Damage(reached, RequiredCoins(reached) - coinsPaid) <= -reached
    ensures earlier >= 2 ==> RequiredCoins(earlier) - 1 > RequiredCoins(1)
  {
    var surplus := coinsPaid - RequiredCoins(reached);
    assert reached * (RequiredCoins(reached) - coinsPaid) == -(reached * (surplus - 1)) - reached;
    assert reached * (surplus - 1) >= 0;
  }

  /** One turn of the framing loop, seen from the lines handed on so far: cutting the first line keeps the loop's account of the whole text. */
  lemma CutLine(s: string, k: int, done: seq<string>, line: string)
    requires k == IndexOf(s, '\n') && k != -1 && line == Trim(s[..k])
    ensures done + FramedLines(s) == (if line == "" then done else done + [line]) + FramedLines(s[k + 1..])
    ensures Tail(s) == Tail(s[k + 1..])
  {
    LoopStep(s);
    if line != "" {
      assert FrameLine(s[..k]) == [line];
      assert done + ([line] + FramedLines(s[k + 1..])) == (done + [line]) + FramedLines(s[k + 1..]);
    } else {
      assert FrameLine(s[..k]) == [];
      assert [] + FramedLines(s[k + 1..]) == FramedLines(s[k + 1..]);
    }
  }

  class SurvivalGame {
    /** `player.name`. */
    var name: string
    /** `player.health`. */
    var health: int
    /** `player.coins`. */
    var coins: int
    var screen: Page
    var countdownStartTime: int
    var startTime: int
    var playerScore: int
    var coinsPaid: int
    /** Total time spent on checkpoint screens, left out of the game clock. */
    var pausedTime: int
    var checkpointStartTime: int
    var checkpointsReached: int
    /** `nextCheckpointElapsed`; 0 stands for `null`, which the script tests the same way. */
    var nextCheckpointElapsed: int
    var currentWord: string
    var currentIndex: int
    /** Time taken per accepted letter of the current word. */
    var letterSpeeds: seq<int>
    var letterStartTime: int
    var lastMatchTime: int
    /** The re-entry guard of `finalizeWord`. */
    var finalizing: bool
    /** The undecoded tail of the Arduino's serial text. */
    var serialBuffer: string
    var arduinoMessage: string
    var arduinoMessageTime: int

    /**
     * The letter cursor stays inside the word, coin counts are never negative, and the
     * checkpoint schedule is either unset before the first checkpoint or one minute past the
     * last checkpoint reached.
     */
    ghost predicate Valid()
      reads this
    {
      && 0 <= currentIndex <= |currentWord|
      && coins >= 0 && coinsPaid >= 0 && checkpointsReached >= 0
      && ((nextCheckpointElapsed == 0 && checkpointsReached == 0)
          || nextCheckpointElapsed == CheckpointInterval * (checkpointsReached + 1))
    }

    /** `setup()`: full health, no coins, the name "Player" and a draw of `floor(random(1000, 9999))`, and the first word. */
    constructor(nameDraw: nat, word: string, millis: int)
      requires 1000 <= nameDraw < 9999
      ensures Valid()
      ensures name == "Player" + NatToString(nameDraw) && health == MaxHealth && coins == 0
      ensures screen == MenuPage && playerScore == 0 && coinsPaid == 0 && pausedTime == 0
      ensures countdownStartTime == 0 && startTime == 0 && checkpointStartTime == 0
      ensures checkpointsReached == 0 && nextCheckpointElapsed == 0
      ensures currentWord == word && currentIndex == 0 && letterSpeeds == [] && letterStartTime == millis
      ensures lastMatchTime == 0 && !finalizing && serialBuffer == "" && arduinoMessage == "" && arduinoMessageTime == 0
    {
      name := "Player" + NatToString(nameDraw);
      health := MaxHealth;
      coins := 0;
      screen := MenuPage;
      countdownStartTime := 0;
      startTime := 0;
      playerScore := 0;
      coinsPaid := 0;
      pausedTime := 0;
      checkpointStartTime := 0;
      checkpointsReached := 0;
      nextCheckpointElapsed := 0;
      currentWord := word;
      currentIndex := 0;
      letterSpeeds := [];
      letterStartTime := millis;
      lastMatchTime := 0;
      finalizing := false;
      serialBuffer := "";
      arduinoMessage := "";
      arduinoMessageTime := 0;
    }

    // -------------------------------------------------------------------------
    // Words
    // -------------------------------------------------------------------------

    /** `resetWord`: a fresh word, from its first letter, timed from now. */
    method ResetWord(millis: int, nextWord: string)
      modifies this`currentWord, this`currentIndex, this`letterStartTime
      ensures currentWord == nextWord && currentIndex == 0 && letterStartTime == millis
    {
      currentWord := nextWord;
      currentIndex := 0;
      letterStartTime := millis;
    }

    /**
     * `finalizeWord`: unless a finalisation is already under way, the word scores one, pays its
     * reward in coins, forgets its letter times and is replaced by the next word.
     */
    method FinalizeWord(millis: int, nextWord: string)
      requires Valid()
      modifies this`letterSpeeds, this`playerScore, this`coins, this`currentWord, this`currentIndex, this`letterStartTime
      ensures Valid()
      ensures old(finalizing) ==>
                && letterSpeeds == old(letterSpeeds) && playerScore == old(playerScore) && coins == old(coins)
                && currentWord == old(currentWord) && currentIndex == old(currentIndex) && letterStartTime == old(letterStartTime)
      ensures !old(finalizing) ==>
                && letterSpeeds == [] && playerScore == old(playerScore) + 1
                && coins == old(coins) + (if |old(currentWord)| <= 4 then 1 else 2)
                && currentWord == nextWord && currentIndex == 0 && letterStartTime == millis
    {
      if finalizing {
        return;
      }
      letterSpeeds := [];
      playerScore := playerScore + 1;
      coins := coins + if |currentWord| <= 4 then 1 else 2;
      ResetWord(millis, nextWord);
    }

    /**
     * `gotClassification`: a confident verdict on a finished word finalises it; an accepted
     * letter advances the cursor by one, records how long it took and restarts the letter
     * clock, and finalises the word when it was the last letter. Anything else changes nothing.
     */
    method GotClassification(sign: string, confident: bool, millis: int, nextWord: string)
      requires Valid()
      modifies this`currentIndex, this`letterSpeeds, this`letterStartTime, this`lastMatchTime,
               this`playerScore, this`coins, this`currentWord
      ensures Valid()
      ensures var accepted := Accepts(old(currentWord), old(currentIndex), old(lastMatchTime), sign, confident, millis);
              var finished := confident && old(currentIndex) == |old(currentWord)|;
              && (!accepted && !finished ==>
                    && currentIndex == old(currentIndex) && letterSpeeds == old(letterSpeeds)
                    && letterStartTime == old(letterStartTime) && lastMatchTime == old(lastMatchTime)
                    && playerScore == old(playerScore) && coins == old(coins) && currentWord == old(currentWord))
              && (finished ==> lastMatchTime == old(lastMatchTime))
              && (accepted ==> lastMatchTime == millis)
              && (accepted && old(currentIndex) + 1 < |old(currentWord)| ==>
                    && currentIndex == old(currentIndex) + 1
                    && letterSpeeds == old(letterSpeeds) + [millis - old(letterStartTime)]
                    && letterStartTime == millis
                    && playerScore == old(playerScore) && coins == old(coins) && currentWord == old(currentWord))
              && ((finished || (accepted && old(currentIndex) + 1 == |old(currentWord)|)) && !finalizing ==>
                    && letterSpeeds == [] && playerScore == old(playerScore) + 1
                    && coins == old(coins) + (if |old(currentWord)| <= 4 then 1 else 2)
                    && currentWord == nextWord && currentIndex == 0 && letterStartTime == millis)
    {
      if !confident {
        return;
      }
      if currentIndex >= |currentWord| {
        FinalizeWord(millis, nextWord);
        return;
      }
      if sign == [currentWord[currentIndex]] && millis - lastMatchTime > MatchGapMs {
        currentIndex := currentIndex + 1;
        letterSpeeds := letterSpeeds + [millis - letterStartTime];
        letterStartTime := millis;
        lastMatchTime := millis;
        if currentIndex >= |currentWord| {
          FinalizeWord(millis, nextWord);
        }
      }
    }

    // -------------------------------------------------------------------------
    // Rounds and checkpoints
    // -------------------------------------------------------------------------

    /** `startCountdown`: the checkpoint schedule starts over; the paused time and a partial payment are kept. */
    method StartCountdown(millis: int)
      requires Valid()
      modifies this`screen, this`countdownStartTime, this`checkpointsReached, this`nextCheckpointElapsed
      ensures Valid()
      ensures screen == CountdownPage && countdownStartTime == millis
      ensures checkpointsReached == 0 && nextCheckpointElapsed == 0
    {
      screen := CountdownPage;
      countdownStartTime := millis;
      checkpointsReached := 0;
      nextCheckpointElapsed := 0;
    }

    /** The countdown screen's frame: once the number shown would drop below zero the game starts. */
    method CountdownTick(millis: int)
      requires screen == CountdownPage
      modifies this`screen, this`startTime
      ensures Countdown.Remaining(millis - countdownStartTime) >= 0 ==> screen == old(screen) && startTime == old(startTime)
      ensures Countdown.Remaining(millis - countdownStartTime) < 0 ==> screen == GamePage && startTime == millis
    {
      var remaining := Countdown.Remaining(millis - countdownStartTime);
      if remaining < 0 {
        screen := GamePage;
        startTime := millis;
      }
    }

    /**
     * The game screen's frame: a word whose last letter is in but was not finalised is finalised;
     * the first checkpoint is scheduled a minute into unpaused play; and once unpaused play
     * reaches the scheduled time the checkpoint screen opens and the next one is scheduled a
     * minute later.
     */
    method GameTick(millis: int, nextWord: string)
      requires Valid() && screen == GamePage
      modifies this`letterSpeeds, this`playerScore, this`coins, this`currentWord, this`currentIndex, this`letterStartTime,
               this`nextCheckpointElapsed, this`screen, this`checkpointsReached, this`checkpointStartTime
      ensures Valid()
      ensures var due := if old(nextCheckpointElapsed) == 0 then CheckpointInterval else old(nextCheckpointElapsed);
              var elapsed := millis - startTime - pausedTime;
              && (elapsed < due ==>
                    && screen == GamePage && checkpointsReached == old(checkpointsReached)
                    && nextCheckpointElapsed == due && checkpointStartTime == old(checkpointStartTime))
              && (elapsed >= due ==>
                    && screen == CheckpointPage && checkpointsReached == old(checkpointsReached) + 1
                    && nextCheckpointElapsed == due + CheckpointInterval && checkpointStartTime == millis)
      ensures old(currentIndex) < |old(currentWord)| ==>
                && letterSpeeds == old(letterSpeeds) && playerScore == old(playerScore) && coins == old(coins)
                && currentWord == old(currentWord) && currentIndex == old(currentIndex) && letterStartTime == old(letterStartTime)
      ensures old(currentIndex) == |old(currentWord)| && !finalizing ==>
                && letterSpeeds == [] && playerScore == old(playerScore) + 1
                && coins == old(coins) + (if |old(currentWord)| <= 4 then 1 else 2)
                && currentWord == nextWord && currentIndex == 0 && letterStartTime == millis
    {
      if currentIndex >= |currentWord| {
        FinalizeWord(millis, nextWord);
      }
      var elapsed := millis - startTime - pausedTime;
      if nextCheckpointElapsed == 0 {
        nextCheckpointElapsed := CheckpointInterval;
      }
      if elapsed >= nextCheckpointElapsed {
        screen := CheckpointPage;
        checkpointsReached := checkpointsReached + 1;
        checkpointStartTime := millis;
        nextCheckpointElapsed := nextCheckpointElapsed + CheckpointInterval;
      }
    }

    /** `endGame`: the game-over screen (the score upload is not part of this model). */
    method EndGame()
      modifies this`screen
      ensures screen == GameOverPage
    {
      screen := GameOverPage;
    }

    /**
     * `applyPenalty`: the unpaid coins cost `checkpointsReached` health each; the game ends
     * when health is gone, and otherwise play resumes on a fresh word. The partial payment is
     * left as it was.
     */
    method ApplyPenalty(debt: int, millis: int, nextWord: string)
      requires Valid()
      modifies this`health, this`screen, this`currentWord, this`currentIndex, this`letterStartTime
      ensures Valid()
      ensures health == old(health) - Damage(checkpointsReached, debt)
      ensures health <= 0 ==>
                && screen == GameOverPage && currentWord == old(currentWord) && currentIndex == old(currentIndex)
                && letterStartTime == old(letterStartTime)
      ensures health > 0 ==> screen == GamePage && currentWord == nextWord && currentIndex == 0 && letterStartTime == millis
    {
      health := health - Damage(checkpointsReached, debt);
      if health <= 0 {
        EndGame();
      } else {
        ResetWord(millis, nextWord);
        screen := GamePage;
      }
    }

    /**
     * `payCoinLogic`: with a coin in hand one coin moves from the purse to the checkpoint, and
     * once the checkpoint's price is met the payment starts over, the pause is booked and play
     * resumes on a fresh word. With an empty purse the pause is booked and the unpaid rest is
     * taken as a penalty.
     */
    method PayCoin(millis: int, nextWord: string)
      requires Valid()
      modifies this`coins, this`coinsPaid, this`pausedTime, this`health, this`screen,
               this`currentWord, this`currentIndex, this`letterStartTime
      ensures Valid()
      ensures var required := RequiredCoins(checkpointsReached);
              && (old(coins) > 0 ==>
                    && coins == old(coins) - 1 && health == old(health)
                    && (old(coinsPaid) + 1 < required ==>
                          && coinsPaid == old(coinsPaid) + 1 && pausedTime == old(pausedTime) && screen == old(screen)
                          && currentWord == old(currentWord) && currentIndex == old(currentIndex)
                          && letterStartTime == old(letterStartTime))
                    && (old(coinsPaid) + 1 >= required ==>
                          && coinsPaid == 0 && pausedTime == old(pausedTime) + (millis - checkpointStartTime)
                          && screen == GamePage && currentWord == nextWord && currentIndex == 0 && letterStartTime == millis))
              && (old(coins) == 0 ==>
                    && coins == 0 && coinsPaid == old(coinsPaid)
                    && pausedTime == old(pausedTime) + (millis - checkpointStartTime)
                    && health == old(health) - Damage(checkpointsReached, required - old(coinsPaid))
                    && (health <= 0 <==> screen == GameOverPage)
                    && (health > 0 <==> screen == GamePage)
                    && (health > 0 ==> currentWord == nextWord && currentIndex == 0 && letterStartTime == millis))
    {
      var required := RequiredCoins(checkpointsReached);
      if coins > 0 {
        coins := coins - 1;
        coinsPaid := coinsPaid + 1;
        if coinsPaid >= required {
          coinsPaid := 0;
          pausedTime := pausedTime + (millis - checkpointStartTime);
          ResetWord(millis, nextWord);
          screen := GamePage;
        }
      } else {
        pausedTime := pausedTime + (millis - checkpointStartTime);
        ApplyPenalty(required - coinsPaid, millis, nextWord);
      }
    }

    /** `restartGame`: full health, no coins, no score, a fresh word, and the countdown. */
    method RestartGame(millis: int, nextWord: string)
      requires Valid()
      modifies this`playerScore, this`health, this`coins, this`currentWord, this`currentIndex,
               this`screen, this`countdownStartTime, this`checkpointsReached, this`nextCheckpointElapsed
      ensures Valid()
      ensures playerScore == 0 && health == MaxHealth && coins == 0 && currentWord == nextWord && currentIndex == 0
      ensures screen == CountdownPage && countdownStartTime == millis && checkpointsReached == 0 && nextCheckpointElapsed == 0
    {
      playerScore := 0;
      health := MaxHealth;
      coins := 0;
      currentWord := nextWord;
      currentIndex := 0;
      StartCountdown(millis);
    }

    /** The Main Menu button: the same resets as a restart, back on the menu, with the checkpoint schedule untouched. */
    method MainMenu(nextWord: string)
      requires Valid()
      modifies this`screen, this`playerScore, this`health, this`coins, this`currentWord, this`currentIndex
      ensures Valid()
      ensures screen == MenuPage && playerScore == 0 && health == MaxHealth && coins == 0
      ensures currentWord == nextWord && currentIndex == 0
    {
      screen := MenuPage;
      playerScore := 0;
      health := MaxHealth;
      coins := 0;
      currentWord := nextWord;
      currentIndex := 0;
    }

    /** The Save Username button: a trimmed name of more than ten characters is refused and the name kept; any other is saved. */
    method SaveUsername(raw: string, millis: int)
      modifies this`name, this`arduinoMessage, this`arduinoMessageTime
      ensures arduinoMessageTime == millis
      ensures |Trim(raw)| > MaxNameLength ==> name == old(name) && arduinoMessage == NameTooLong
      ensures |Trim(raw)| <= MaxNameLength ==> name == Trim(raw) && arduinoMessage == NameSaved
    {
      var newName := Trim(raw);
      if |newName| > MaxNameLength {
        arduinoMessage := NameTooLong;
        arduinoMessageTime := millis;
        return;
      }
      name := newName;
      arduinoMessage := NameSaved;
      arduinoMessageTime := millis;
    }

    // -------------------------------------------------------------------------
    // The Arduino's serial line
    // -------------------------------------------------------------------------

    /**
     * The framing half of the read loop in `listenToArduino`: the chunk is appended to the
     * buffer, and while the buffer holds a newline the text before it is cut off, trimmed and,
     * when not blank, handed on. What is handed on and what stays are those of the whole text.
     */
    method FrameSerial(chunk: string) returns (lines: seq<string>)
      modifies this`serialBuffer
      ensures lines == FramedLines(old(serialBuffer) + chunk)
      ensures serialBuffer == Tail(old(serialBuffer) + chunk)
    {
      ghost var text := serialBuffer + chunk;
      serialBuffer := serialBuffer + chunk;
      lines := [];
      var nl := IndexOf(serialBuffer, '\n');
      while nl != -1
        invariant nl == IndexOf(serialBuffer, '\n')
        invariant FramedLines(text) == lines + FramedLines(serialBuffer)
        invariant Tail(text) == Tail(serialBuffer)
        decreases |serialBuffer|
      {
        ghost var before := serialBuffer;
        var line := Trim(serialBuffer[..nl]);
        serialBuffer := serialBuffer[nl + 1..];
        CutLine(before, nl, lines, line);
        nl := IndexOf(serialBuffer, '\n');
        if line != "" {
          lines := lines + [line];
        }
      }
      LoopExit(serialBuffer);
      assert lines + [] == lines;
    }

    /** One framed line: a button press pays a coin, and only on the checkpoint screen. */
    method OnSerialLine(line: string, millis: int, nextWord: string)
      requires Valid()
      modifies this`coins, this`coinsPaid, this`pausedTime, this`health, this`screen,
               this`currentWord, this`currentIndex, this`letterStartTime
      ensures Valid()
      ensures !(old(screen) == CheckpointPage && Contains(line, ButtonPressed)) ==>
                && coins == old(coins) && coinsPaid == old(coinsPaid) && pausedTime == old(pausedTime)
                && health == old(health) && screen == old(screen) && currentWord == old(currentWord)
                && currentIndex == old(currentIndex) && letterStartTime == old(letterStartTime)
      ensures old(screen) == CheckpointPage && Contains(line, ButtonPressed) && old(coins) > 0 ==>
                coins == old(coins) - 1 && health == old(health)
      ensures old(screen) == CheckpointPage && Contains(line, ButtonPressed) && old(coins) == 0 ==>
                && coinsPaid == old(coinsPaid) && pausedTime == old(pausedTime) + (millis - checkpointStartTime)
                && health == old(health) - Damage(checkpointsReached, RequiredCoins(checkpointsReached) - old(coinsPaid))
    {
      if screen == CheckpointPage && Contains(line, ButtonPressed) {
        PayCoin(millis, nextWord);
      }
    }

    /**
     * One chunk from the serial port: it is framed, and each line is handled in order, each
     * payment drawing its word from `nextWords`. The buffer ends as the framing of the whole text says.
     */
    method ReceiveSerial(chunk: string, millis: int, nextWords: seq<string>)
      requires Valid()
      requires |nextWords| >= |FramedLines(serialBuffer + chunk)|
      modifies this`serialBuffer, this`coins, this`coinsPaid, this`pausedTime, this`health, this`screen,
               this`currentWord, this`currentIndex, this`letterStartTime
      ensures Valid()
      ensures serialBuffer == Tail(old(serialBuffer) + chunk)
    {
      var lines := FrameSerial(chunk);
      for i := 0 to |lines|
        invariant Valid()
        invariant serialBuffer == Tail(old(serialBuffer) + chunk)
      {
        OnSerialLine(lines[i], millis, nextWords[i]);
      }
    }
  }
}
