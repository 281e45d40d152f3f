/** Turn order and the progress bar of the playing screen. A turn is one
    (question, player) pair; every player answers a question before the
    next question is shown. */
module Progress {
  import opened Options

  /** The progress bar's numerator: the 1-based number of the current turn
      among all turns of the session. */
  function TurnNumber(questionIndex: nat, playerIndex: nat, players: nat): nat {
    questionIndex * players + playerIndex + 1
  }

  /** The progress bar's denominator: one turn per question per player. */
  function TotalTurns(questions: nat, players: nat): nat {
    questions * players
  }

  /** The turn `nextQuestion` moves to from (`questionIndex`, `playerIndex`):
      the next player on the same question, else the first player on the
      next question, else none (the game is over). */
  function NextTurn(questionIndex: nat, playerIndex: nat, players: nat, questions: nat)
    : Option<(nat, nat)>
  {
    if playerIndex < players - 1 then Some((questionIndex, playerIndex + 1))
    else if questionIndex < questions - 1 then Some((questionIndex + 1, 0))
    else None
  }

  /** Index `q` of a turn row lies before the last row. */
  lemma RowsBeforeEnd(q: nat, questions: nat, players: nat)
    requires q < questions
    ensures q * players + players <= questions * players
  {
    calc {
      q * players + players;
      (q + 1) * players;
    <= { assert q + 1 <= questions; }
      questions * players;
    }
  }

  /** While the game is on, the progress bar shows a turn between the first
      and the last: the numerator is in [1, denominator]. */
  lemma TurnNumberInRange(questionIndex: nat, playerIndex: nat, players: nat, questions: nat)
    requires questionIndex < questions && playerIndex < players
    ensures 1 <= TurnNumber(questionIndex, playerIndex, players) <= TotalTurns(questions, players)
  {
    RowsBeforeEnd(questionIndex, questions, players);
  }

  /** `nextQuestion` moves to a turn that is again in range and whose number
      is exactly one more, so the progress bar only ever grows; it ends the
      game exactly on the last turn, where the bar is full. */
  lemma NextTurnAdvancesByOne(questionIndex: nat, playerIndex: nat, players: nat, questions: nat)
    requires questionIndex < questions && playerIndex < players
    ensures NextTurn(questionIndex, playerIndex, players, questions).None? <==>
      TurnNumber(questionIndex, playerIndex, players) == TotalTurns(questions, players)
    ensures match NextTurn(questionIndex, playerIndex, players, questions)
      case Some((q, p)) =>
        q < questions && p < players &&
        TurnNumber(q, p, players) == TurnNumber(questionIndex, playerIndex, players) + 1
      case None => true
  {
    RowsBeforeEnd(questionIndex, questions, players);
    if playerIndex == players - 1 && questionIndex < questions - 1 {
      RowsBeforeEnd(questionIndex + 1, questions, players);
    }
  }
}
