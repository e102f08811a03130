/**
 * The duplicate-safe scorer of the guess game (`evaluateGuess`): exact
 * matches are marked first and consume their own secret position; then,
 * left to right, every other guess letter consumes the leftmost secret
 * position that still holds it and is not consumed yet.
 */
module WordScore {
  import opened Common

  datatype Mark = Miss | Present | Correct

  /** The marks and the consumed secret positions while `evaluateGuess` runs. */
  datatype Scan = Scan(marks: seq<Mark>, used: seq<bool>)

  /** After the first loop: exact matches are Correct and consume their own position. */
  function ExactPass(guess: string, secret: string): (s: Scan)
    requires |secret| <= |guess|
    ensures |s.marks| == |s.used| == |secret|
  {
    Scan(seq(|secret|, i requires 0 <= i < |secret| => if guess[i] == secret[i] then Correct else Miss),
         seq(|secret|, j requires 0 <= j < |secret| => guess[j] == secret[j]))
  }

  /** The leftmost secret position at or after `j` that is free and holds `ch`. */
  function FirstFree(used: seq<bool>, secret: string, ch: char, j: nat): (r: Option<nat>)
    requires |used| == |secret| && j <= |secret|
    ensures r.Some? ==> j <= r.value < |secret| && !used[r.value] && secret[r.value] == ch
    ensures r.Some? ==> forall k :: j <= k < r.value ==> used[k] || secret[k] != ch
    ensures r.None? ==> forall k :: j <= k < |secret| ==> used[k] || secret[k] != ch
    decreases |secret| - j
  {
    if j == |secret| then None
    else if !used[j] && secret[j] == ch then Some(j)
    else FirstFree(used, secret, ch, j + 1)
  }

  /** One round of the second loop, at guess position `i`. */
  function Step(guess: string, secret: string, s: Scan, i: nat): (t: Scan)
    requires |secret| <= |guess| && |s.marks| == |s.used| == |secret| && i < |secret|
    ensures |t.marks| == |t.used| == |secret|
  {
    if s.marks[i] == Correct then s
    else match FirstFree(s.used, secret, guess[i], 0)
      case None => s
      case Some(j) => Scan(s.marks[i := Present], s.used[j := true])
  }

  /** The state after the first `k` rounds of the second loop. */
  function Scanned(guess: string, secret: string, k: nat): (s: Scan)
    requires |secret| <= |guess| && k <= |secret|
    ensures |s.marks| == |s.used| == |secret|
  {
    if k == 0 then ExactPass(guess, secret)
    else Step(guess, secret, Scanned(guess, secret, k - 1), k - 1)
  }

  /** What `evaluateGuess(guess, secret)` returns: one mark per secret position. */
  function Evaluation(guess: string, secret: string): (marks: seq<Mark>)
    requires |secret| <= |guess|
  {
    Scanned(guess, secret, |secret|).marks
  }

  // ---------------------------------------------------------------------
  // The two-pass scorer over arrays, as written.

  method EvaluateGuess(guess: string, secret: string) returns (marks: seq<Mark>)
    requires |secret| <= |guess|
    ensures marks == Evaluation(guess, secret)
  {
    var len := |secret|;
    var result := new Mark[len](_ => Miss);
    var used := new bool[len](_ => false);
    MarkExact(guess, secret, result, used);
    for i := 0 to len
      modifies result, used
      invariant Scan(result[..], used[..]) == Scanned(guess, secret, i)
    {
      ScorePosition(guess, secret, result, used, i);
    }
    marks := result[..];
  }

  /** The first loop: mark the exact matches and consume their positions. */
  method MarkExact(guess: string, secret: string, result: array<Mark>, used: array<bool>)
    requires |secret| <= |guess| && result.Length == used.Length == |secret|
    requires forall k :: 0 <= k < |secret| ==> result[k] == Miss && !used[k]
    modifies result, used
    ensures Scan(result[..], used[..]) == ExactPass(guess, secret)
  {
    for i := 0 to |secret|
      invariant forall k :: 0 <= k < i ==>
        result[k] == (if guess[k] == secret[k] then Correct else Miss) && used[k] == (guess[k] == secret[k])
      invariant forall k :: i <= k < |secret| ==> result[k] == Miss && !used[k]
    {
      if guess[i] == secret[i] {
        result[i] := Correct;
        used[i] := true;
      }
    }
    assert result[..] == ExactPass(guess, secret).marks;
    assert used[..] == ExactPass(guess, secret).used;
  }

  /** The body of the second loop for position `i`, with its inner search and `break`. */
  method ScorePosition(guess: string, secret: string, result: array<Mark>, used: array<bool>, i: nat)
    requires |secret| <= |guess| && i < |secret|
    requires Scan(result[..], used[..]) == Scanned(guess, secret, i)
    modifies result, used
    ensures Scan(result[..], used[..]) == Scanned(guess, secret, i + 1)
  {
    if result[i] == Correct {
      return;
    }
    var ch := guess[i];
    ghost var before := Scan(result[..], used[..]);
    for j := 0 to used.Length
      invariant result[..] == before.marks && used[..] == before.used
      invariant FirstFree(before.used, secret, ch, 0) == FirstFree(before.used, secret, ch, j)
    {
      if !used[j] && secret[j] == ch {
        result[i] := Present;
        used[j] := true;
        break;
      }
    }
  }

  // ---------------------------------------------------------------------
  // Counting letters, consumed positions and marks.

  /** How many of the first `k` secret positions hold `ch`. */
  function LetterCount(secret: string, ch: char, k: nat): nat
    requires k <= |secret|
  {
    if k == 0 then 0 else LetterCount(secret, ch, k - 1) + (if secret[k - 1] == ch then 1 else 0)
  }

  /** How many of the first `k` secret positions hold `ch` and are consumed. */
  function UsedCount(secret: string, used: seq<bool>, ch: char, k: nat): nat
    requires k <= |secret| == |used|
  {
    if k == 0 then 0
    else UsedCount(secret, used, ch, k - 1) + (if used[k - 1] && secret[k - 1] == ch then 1 else 0)
  }

  /** How many of the first `k` guess positions hold `ch` and are marked Correct or Present. */
  function MarkedCount(guess: string, marks: seq<Mark>, ch: char, k: nat): nat
    requires k <= |marks| <= |guess|
  {
    if k == 0 then 0
    else MarkedCount(guess, marks, ch, k - 1) + (if marks[k - 1] != Miss && guess[k - 1] == ch then 1 else 0)
  }

  lemma {:induction false} UsedAtMostLetters(secret: string, used: seq<bool>, ch: char, k: nat)
    requires k <= |secret| == |used|
    ensures UsedCount(secret, used, ch, k) <= LetterCount(secret, ch, k)
  {
    if k > 0 {
      UsedAtMostLetters(secret, used, ch, k - 1);
    }
  }

  lemma {:induction false} AllUsedCount(secret: string, used: seq<bool>, ch: char, k: nat)
    requires k <= |secret| == |used|
    requires forall j :: 0 <= j < k && secret[j] == ch ==> used[j]
    ensures UsedCount(secret, used, ch, k) == LetterCount(secret, ch, k)
  {
    if k > 0 {
      AllUsedCount(secret, used, ch, k - 1);
    }
  }

  lemma {:induction false} UsedCountUpdate(secret: string, used: seq<bool>, ch: char, k: nat, j: nat)
    requires k <= |secret| == |used| && j < |used| && !used[j]
    ensures UsedCount(secret, used[j := true], ch, k)
         == UsedCount(secret, used, ch, k) + (if j < k && secret[j] == ch then 1 else 0)
  {
    if k > 0 {
      UsedCountUpdate(secret, used, ch, k - 1, j);
    }
  }

  lemma {:induction false} MarkedCountUpdate(guess: string, marks: seq<Mark>, ch: char, k: nat, i: nat)
    requires k <= |marks| <= |guess| && i < |marks| && marks[i] == Miss
    ensures MarkedCount(guess, marks[i := Present], ch, k)
         == MarkedCount(guess, marks, ch, k) + (if i < k && guess[i] == ch then 1 else 0)
  {
    if k > 0 {
      MarkedCountUpdate(guess, marks, ch, k - 1, i);
    }
  }

  lemma {:induction false} ExactCounts(guess: string, secret: string, ch: char, k: nat)
    requires |secret| <= |guess| && k <= |secret|
    ensures UsedCount(secret, ExactPass(guess, secret).used, ch, k)
         == MarkedCount(guess, ExactPass(guess, secret).marks, ch, k)
  {
    if k > 0 {
      ExactCounts(guess, secret, ch, k - 1);
    }
  }

  // ---------------------------------------------------------------------
  // What holds after every round of the second loop.

  /** Correct marks are exactly the exact matches, and exact matches are consumed. */
  predicate ExactKept(guess: string, secret: string, s: Scan)
    requires |secret| <= |guess| && |s.marks| == |s.used| == |secret|
  {
    forall i :: 0 <= i < |secret| ==>
      (s.marks[i] == Correct <==> guess[i] == secret[i]) && (guess[i] == secret[i] ==> s.used[i])
  }

  /** Positions from `k` on have not been visited by the second loop. */
  predicate PresentBefore(s: Scan, k: nat)
  {
    forall i :: k <= i < |s.marks| ==> s.marks[i] != Present
  }

  /** Every letter is consumed in the secret as often as it is marked in the guess. */
  predicate Balanced(guess: string, secret: string, s: Scan)
    requires |secret| <= |guess| && |s.marks| == |s.used| == |secret|
  {
    forall ch :: UsedCount(secret, s.used, ch, |secret|) == MarkedCount(guess, s.marks, ch, |secret|)
  }

  /** A visited position left Miss found no free copy of its letter. */
  predicate MissesExhausted(guess: string, secret: string, s: Scan, k: nat)
    requires |secret| <= |guess| && |s.marks| == |s.used| == |secret| && k <= |secret|
  {
    forall i, j :: 0 <= i < k && 0 <= j < |secret| && s.marks[i] == Miss && secret[j] == guess[i] ==> s.used[j]
  }

  /** A Present mark has a copy of its letter at a secret position that is not an exact match. */
  predicate PresentJustified(guess: string, secret: string, s: Scan)
    requires |secret| <= |guess| && |s.marks| == |secret|
  {
    forall i :: 0 <= i < |secret| && s.marks[i] == Present ==>
      exists j :: 0 <= j < |secret| && secret[j] == guess[i] && guess[j] != secret[j]
  }

  lemma ExactPassKept(guess: string, secret: string)
    requires |secret| <= |guess|
    ensures ExactKept(guess, secret, Scanned(guess, secret, 0)) && PresentBefore(Scanned(guess, secret, 0), 0)
  {
  }

  lemma ExactPassBalanced(guess: string, secret: string)
    requires |secret| <= |guess|
    ensures Balanced(guess, secret, Scanned(guess, secret, 0))
  {
    forall ch {
      ExactCounts(guess, secret, ch, |secret|);
    }
  }

  lemma ExactPassJustified(guess: string, secret: string)
    requires |secret| <= |guess|
    ensures MissesExhausted(guess, secret, Scanned(guess, secret, 0), 0)
    ensures PresentJustified(guess, secret, Scanned(guess, secret, 0))
  {
  }

  lemma StepKeepsExact(guess: string, secret: string, k: nat)
    requires |secret| <= |guess| && 0 < k <= |secret|
    requires ExactKept(guess, secret, Scanned(guess, secret, k - 1))
    requires PresentBefore(Scanned(guess, secret, k - 1), k - 1)
    ensures ExactKept(guess, secret, Scanned(guess, secret, k)) && PresentBefore(Scanned(guess, secret, k), k)
  {
  }

  lemma StepKeepsBalance(guess: string, secret: string, k: nat)
    requires |secret| <= |guess| && 0 < k <= |secret|
    requires ExactKept(guess, secret, Scanned(guess, secret, k - 1))
    requires PresentBefore(Scanned(guess, secret, k - 1), k - 1)
    requires Balanced(guess, secret, Scanned(guess, secret, k - 1))
    ensures Balanced(guess, secret, Scanned(guess, secret, k))
  {
    var s, i := Scanned(guess, secret, k - 1), k - 1;
    if s.marks[i] != Correct && FirstFree(s.used, secret, guess[i], 0).Some? {
      var j := FirstFree(s.used, secret, guess[i], 0).value;
      var t := Scanned(guess, secret, k);
      assert t == Scan(s.marks[i := Present], s.used[j := true]);
      assert s.marks[i] == Miss && secret[j] == guess[i];
      forall ch
        ensures UsedCount(secret, t.used, ch, |secret|) == MarkedCount(guess, t.marks, ch, |secret|)
      {
        UsedCountUpdate(secret, s.used, ch, |secret|, j);
        MarkedCountUpdate(guess, s.marks, ch, |secret|, i);
      }
    }
  }

  lemma StepKeepsMisses(guess: string, secret: string, k: nat)
    requires |secret| <= |guess| && 0 < k <= |secret|
    requires MissesExhausted(guess, secret, Scanned(guess, secret, k - 1), k - 1)
    ensures MissesExhausted(guess, secret, Scanned(guess, secret, k), k)
  {
  }

  lemma StepKeepsJustified(guess: string, secret: string, k: nat)
    requires |secret| <= |guess| && 0 < k <= |secret|
    requires ExactKept(guess, secret, Scanned(guess, secret, k - 1))
    requires PresentJustified(guess, secret, Scanned(guess, secret, k - 1))
    ensures PresentJustified(guess, secret, Scanned(guess, secret, k))
  {
    var s, i := Scanned(guess, secret, k - 1), k - 1;
    if s.marks[i] != Correct && FirstFree(s.used, secret, guess[i], 0).Some? {
      var j := FirstFree(s.used, secret, guess[i], 0).value;
      assert secret[j] == guess[i] && guess[j] != secret[j];
    }
  }

  lemma {:induction false} ScannedExact(guess: string, secret: string, k: nat)
    requires |secret| <= |guess| && k <= |secret|
    ensures ExactKept(guess, secret, Scanned(guess, secret, k)) && PresentBefore(Scanned(guess, secret, k), k)
  {
    if k == 0 {
      ExactPassKept(guess, secret);
    } else {
      ScannedExact(guess, secret, k - 1);
      StepKeepsExact(guess, secret, k);
    }
  }

  lemma {:induction false} ScannedBalanced(guess: string, secret: string, k: nat)
    requires |secret| <= |guess| && k <= |secret|
    ensures Balanced(guess, secret, Scanned(guess, secret, k))
  {
    if k == 0 {
      ExactPassBalanced(guess, secret);
    } else {
      ScannedBalanced(guess, secret, k - 1);
      ScannedExact(guess, secret, k - 1);
      StepKeepsBalance(guess, secret, k);
    }
  }

  lemma {:induction false} ScannedMisses(guess: string, secret: string, k: nat)
    requires |secret| <= |guess| && k <= |secret|
    ensures MissesExhausted(guess, secret, Scanned(guess, secret, k), k)
  {
    if k == 0 {
      ExactPassJustified(guess, secret);
    } else {
      ScannedMisses(guess, secret, k - 1);
      StepKeepsMisses(guess, secret, k);
    }
  }

  lemma {:induction false} ScannedJustified(guess: string, secret: string, k: nat)
    requires |secret| <= |guess| && k <= |secret|
    ensures PresentJustified(guess, secret, Scanned(guess, secret, k))
  {
    if k == 0 {
      ExactPassJustified(guess, secret);
    } else {
      ScannedJustified(guess, secret, k - 1);
      ScannedExact(guess, secret, k - 1);
      StepKeepsJustified(guess, secret, k);
    }
  }

  // ---------------------------------------------------------------------
  // What the scorer promises.

  /** One mark per secret position, and Correct exactly where the letters agree. */
  lemma CorrectIffExact(guess: string, secret: string, i: nat)
    requires |secret| <= |guess| && i < |secret|
    ensures |Evaluation(guess, secret)| == |secret|
    ensures Evaluation(guess, secret)[i] == Correct <==> guess[i] == secret[i]
  {
    ScannedExact(guess, secret, |secret|);
  }

  /** Guessing the secret itself marks every position Correct. */
  lemma SecretScoresAllCorrect(secret: string)
    ensures Evaluation(secret, secret) == seq(|secret|, _ => Correct)
  {
    ScannedExact(secret, secret, |secret|);
  }

  /** A Present mark points at a copy of the letter elsewhere that was not matched exactly. */
  lemma PresentHasSource(guess: string, secret: string, i: nat)
    requires |secret| <= |guess| && i < |secret|
    requires Evaluation(guess, secret)[i] == Present
    ensures exists j :: 0 <= j < |secret| && j != i && secret[j] == guess[i] && guess[j] != secret[j]
  {
    ScannedJustified(guess, secret, |secret|);
  }

  /** No secret letter is counted twice: marks on a letter never outnumber its copies in the secret. */
  lemma MarksWithinLetters(guess: string, secret: string, ch: char)
    requires |secret| <= |guess|
    ensures MarkedCount(guess, Evaluation(guess, secret), ch, |secret|) <= LetterCount(secret, ch, |secret|)
  {
    var s := Scanned(guess, secret, |secret|);
    ScannedBalanced(guess, secret, |secret|);
    UsedAtMostLetters(secret, s.used, ch, |secret|);
  }

  /** A position stays Miss only when every copy of its letter in the secret is already accounted for. */
  lemma MissMeansExhausted(guess: string, secret: string, i: nat)
    requires |secret| <= |guess| && i < |secret|
    requires Evaluation(guess, secret)[i] == Miss
    ensures MarkedCount(guess, Evaluation(guess, secret), guess[i], |secret|)
         == LetterCount(secret, guess[i], |secret|)
  {
    var s := Scanned(guess, secret, |secret|);
    ScannedBalanced(guess, secret, |secret|);
    ScannedMisses(guess, secret, |secret|);
    AllUsedCount(secret, s.used, guess[i], |secret|);
  }

  /**
   * Exact matches are served first: the secret's only L goes to the second
   * guessed L, so the first stays Miss; its only A goes to the first guessed A.
   */
  lemma DuplicateLetterExample()
    ensures Evaluation("LLAMA", "ALOFT") == [Miss, Correct, Present, Miss, Miss]
  {
    var g, s := "LLAMA", "ALOFT";
    assert ExactPass(g, s) == Scan([Miss, Correct, Miss, Miss, Miss], [false, true, false, false, false]);
    assert Scanned(g, s, 1) == Scan([Miss, Correct, Miss, Miss, Miss], [false, true, false, false, false]);
    assert Scanned(g, s, 2) == Scanned(g, s, 1);
    assert Scanned(g, s, 3) == Scan([Miss, Correct, Present, Miss, Miss], [true, true, false, false, false]);
    assert Scanned(g, s, 4) == Scanned(g, s, 3);
  }

  /** Both guessed E's find an E of their own in the secret, and the P and D find nothing. */
  lemma SpeedEraseExample()
    ensures Evaluation("SPEED", "ERASE") == [Present, Miss, Present, Present, Miss]
  {
    var g, s := "SPEED", "ERASE";
    assert ExactPass(g, s) == Scan([Miss, Miss, Miss, Miss, Miss], [false, false, false, false, false]);
    assert Scanned(g, s, 1) == Scan([Present, Miss, Miss, Miss, Miss], [false, false, false, true, false]);
    assert Scanned(g, s, 2) == Scanned(g, s, 1);
    assert Scanned(g, s, 3) == Scan([Present, Miss, Present, Miss, Miss], [true, false, false, true, false]);
    assert Scanned(g, s, 4) == Scan([Present, Miss, Present, Present, Miss], [true, false, false, true, true]);
  }
}
