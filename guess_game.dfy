/**
 * The attempt state machine of the guess game: `startGame`, `handleGuess`
 * and `handleWordLengthChange` over the module variables `wordLength`,
 * `secretWord`, `currentAttempt` and `gameOver`. Inputs arrive already
 * trimmed and upper-cased, and the selected length already parsed.
 */
module GuessGame {
  import opened WordScore

  const MaxAttempts := 6
  const InitialWordLength := 5

  /** `/^[A-Z]+$/`: at least one character, every one of them a letter A to Z. */
  predicate IsWord(s: string)
  {
    |s| > 0 && forall i :: 0 <= i < |s| ==> 'A' <= s[i] <= 'Z'
  }

  datatype StartOutcome = MissingSecret | NotAWord | WrongSecretLength | Started

  datatype GuessOutcome = Finished | WrongGuessLength | NotLetters | Scored(marks: seq<Mark>)

  /** The three checks `startGame` runs on the secret, in order. */
  function CheckSecret(rawSecret: string, selectedLength: int): (o: StartOutcome)
    ensures o == Started <==> IsWord(rawSecret) && |rawSecret| == selectedLength
    ensures o == MissingSecret <==> rawSecret == ""
    ensures o == NotAWord <==> rawSecret != "" && !IsWord(rawSecret)
  {
    if rawSecret == "" then MissingSecret
    else if !IsWord(rawSecret) then NotAWord
    else if |rawSecret| != selectedLength then WrongSecretLength
    else Started
  }

  class Game {
    var wordLength: int
    var secretWord: string
    var currentAttempt: int
    var gameOver: bool

    /**
     * What every handler keeps: the counter stays within the cap, a game
     * still running has an attempt left, and a secret that is set has the
     * board's length. The secret may be empty while the game is not over:
     * that is the state the page starts in.
     */
    predicate Valid()
      reads this
    {
      && 0 <= currentAttempt <= MaxAttempts
      && (!gameOver ==> currentAttempt < MaxAttempts)
      && (secretWord == "" || |secretWord| == wordLength)
    }

    /** The module's initial values. */
    constructor ()
      ensures Valid()
      ensures wordLength == InitialWordLength && secretWord == "" && currentAttempt == 0 && !gameOver
    {
      wordLength := InitialWordLength;
      secretWord := "";
      currentAttempt := 0;
      gameOver := false;
    }

    /** `startGame`: a rejected secret changes nothing; an accepted one starts a fresh game. */
    method StartGame(selectedLength: int, rawSecret: string) returns (outcome: StartOutcome)
      requires Valid()
      modifies this
      ensures Valid()
      ensures outcome == CheckSecret(rawSecret, selectedLength)
      ensures outcome != Started ==>
        && wordLength == old(wordLength) && secretWord == old(secretWord)
        && currentAttempt == old(currentAttempt) && gameOver == old(gameOver)
      ensures outcome == Started ==>
        && secretWord == rawSecret && wordLength == selectedLength
        && currentAttempt == 0 && !gameOver
    {
      if rawSecret == "" {
        return MissingSecret;
      }
      if !IsWord(rawSecret) {
        return NotAWord;
      }
      if |rawSecret| != selectedLength {
        return WrongSecretLength;
      }
      secretWord := rawSecret;
      currentAttempt := 0;
      gameOver := false;
      wordLength := selectedLength;
      outcome := Started;
    }

    /**
     * `handleGuess`: nothing happens once the game is over, and a guess of
     * the wrong length or with other characters than A to Z uses no
     * attempt. A valid guess is scored; guessing the secret ends the game
     * without counting the attempt, any other guess counts it, and the
     * sixth one ends the game.
     */
    method HandleGuess(rawGuess: string) returns (outcome: GuessOutcome)
      requires Valid()
      modifies this
      ensures Valid()
      ensures wordLength == old(wordLength) && secretWord == old(secretWord)
      ensures outcome == Finished <==> old(gameOver)
      ensures !old(gameOver) ==>
        (outcome.Scored? <==> |rawGuess| == wordLength && IsWord(rawGuess))
      ensures !old(gameOver) && |rawGuess| != wordLength ==> outcome == WrongGuessLength
      ensures !outcome.Scored? ==> currentAttempt == old(currentAttempt) && gameOver == old(gameOver)
      ensures outcome.Scored? ==>
        && |rawGuess| == wordLength && |secretWord| <= |rawGuess|
        && outcome.marks == Evaluation(rawGuess, secretWord)
        && (rawGuess == secretWord ==> gameOver && currentAttempt == old(currentAttempt))
        && (rawGuess != secretWord ==>
              currentAttempt == old(currentAttempt) + 1 && (gameOver <==> currentAttempt == MaxAttempts))
    {
      if gameOver {
        return Finished;
      }
      if |rawGuess| != wordLength {
        return WrongGuessLength;
      }
      if !IsWord(rawGuess) {
        return NotLetters;
      }
      var marks := EvaluateGuess(rawGuess, secretWord);
      outcome := Scored(marks);
      if rawGuess == secretWord {
        gameOver := true;
        return;
      }
      currentAttempt := currentAttempt + 1;
      if currentAttempt >= MaxAttempts {
        gameOver := true;
      }
    }

    /**
     * `handleWordLengthChange`: resize the board, drop the secret and end
     * the game; report whether a game was running (a secret set and not over).
     */
    method HandleWordLengthChange(newLength: int) returns (hadActiveGame: bool)
      requires Valid()
      modifies this
      ensures Valid()
      ensures hadActiveGame <==> old(secretWord) != "" && !old(gameOver)
      ensures wordLength == newLength && secretWord == "" && currentAttempt == 0 && gameOver
    {
      hadActiveGame := secretWord != "" && !gameOver;
      wordLength := newLength;
      secretWord := "";
      currentAttempt := 0;
      gameOver := true;
    }
  }

  /** Before any secret is set, a guess is scored against the empty secret: no marks, and it never wins. */
  lemma UnsetSecretScoresNothing(rawGuess: string)
    requires IsWord(rawGuess)
    ensures Evaluation(rawGuess, "") == [] && rawGuess != ""
  {
  }
}
