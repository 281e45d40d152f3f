/** The `QuizGame` component's state and its event handlers. Each state slot
    of the component is a field; each handler is a method that updates the
    slots in place. */
module Session {
  import opened Options
  import opened Catalog
  import opened Roster
  import opened Progress

  datatype Phase = Setup | Playing | Results

  /** Seconds on the clock at the start of every turn. */
  const TurnSeconds: int := 15

  /** The comparison `answerIndex === question.correct`: a chosen option scores
      when it is the correct one; no choice (a timeout) never scores. */
  predicate IsCorrect(answer: Option<int>, q: Question) {
    answer == Some(q.correct)
  }

  class QuizGame {
    var gameState: Phase
    var players: seq<Player>
    var currentPlayerIndex: nat
    var currentQuestionIndex: nat
    var gameQuestions: seq<Question>
    var showAnswer: bool
    var selectedAnswer: Option<int>
    var timeLeft: int

    /** How many of seat `j`'s turns have been revealed so far: none during
        setup, every question once the results are in, and while playing one
        per finished question plus the current question if seat `j` has
        already had its turn at it. */
    ghost function TurnsTaken(j: nat): nat
      reads this
    {
      match gameState
      case Setup => 0
      case Playing =>
        currentQuestionIndex +
          (if j < currentPlayerIndex || (j == currentPlayerIndex && showAnswer) then 1 else 0)
      case Results => |gameQuestions|
    }

    /** The invariant of the component. The roster never exceeds the
        palette; the clock stays in [0, 15] and only runs during play; while
        playing the turn indices are in range; and no seat has more points
        than turns revealed, that is, at most one point per turn. */
    ghost predicate Valid()
      reads this
    {
      |players| <= MaxPlayers &&
      0 <= timeLeft <= TurnSeconds &&
      (forall j :: 0 <= j < |players| ==> players[j].score <= TurnsTaken(j)) &&
      (gameState == Setup ==> timeLeft == TurnSeconds && !showAnswer) &&
      (gameState == Playing ==>
        2 <= |players| && currentPlayerIndex < |players| &&
        currentQuestionIndex < |gameQuestions|) &&
      (gameState == Results ==> showAnswer)
    }

    /** The state the component mounts with and `resetGame` returns to. */
    ghost predicate Initial()
      reads this
    {
      gameState == Setup && players == [] &&
      currentPlayerIndex == 0 && currentQuestionIndex == 0 &&
      gameQuestions == [] && !showAnswer && selectedAnswer == None &&
      timeLeft == TurnSeconds
    }

    constructor ()
      ensures Initial() && Valid()
    {
      gameState := Setup;
      players := [];
      currentPlayerIndex := 0;
      currentQuestionIndex := 0;
      gameQuestions := [];
      showAnswer := false;
      selectedAnswer := None;
      timeLeft := TurnSeconds;
    }

    /** The progress bar as a fraction: the current turn's number over the
        number of turns in the session. */
    function ProgressFraction(): (r: (nat, nat))
      reads this
      requires Valid() && gameState == Playing
      ensures 1 <= r.0 <= r.1
      ensures r.1 == |gameQuestions| * |players|
    {
      TurnNumberInRange(currentQuestionIndex, currentPlayerIndex, |players|, |gameQuestions|);
      (TurnNumber(currentQuestionIndex, currentPlayerIndex, |players|),
       TotalTurns(|gameQuestions|, |players|))
    }

    /** `addPlayer`, with the contents of the name field passed in. A
        non-blank name joins at the end of a roster of fewer than eight, with
        no points and the palette colour of its seat number; otherwise
        nothing changes. */
    method AddPlayer(name: string)
      requires Valid()
      modifies this
      ensures Valid()
      ensures var n := Trim(name);
        players ==
          if n != [] && |old(players)| < MaxPlayers
          then old(players) + [Player(n, 0, Palette[|old(players)|])]
          else old(players)
      ensures gameState == old(gameState) && gameQuestions == old(gameQuestions)
      ensures currentPlayerIndex == old(currentPlayerIndex)
      ensures currentQuestionIndex == old(currentQuestionIndex)
      ensures showAnswer == old(showAnswer) && selectedAnswer == old(selectedAnswer)
      ensures timeLeft == old(timeLeft)
    {
      var n := Trim(name);
      if n != [] && |players| < MaxPlayers {
        players := players + [Player(n, 0, Palette[|players|])];
      }
    }

    /** `removePlayer`: the roster keeps every seat but `index`, in order.
        Its only caller is the setup screen. */
    method RemovePlayer(index: int)
      requires Valid() && gameState == Setup
      modifies this
      ensures Valid()
      ensures players ==
        if 0 <= index < |old(players)|
        then old(players)[..index] + old(players)[index + 1..]
        else old(players)
      ensures gameState == old(gameState) && gameQuestions == old(gameQuestions)
      ensures currentPlayerIndex == old(currentPlayerIndex)
      ensures currentQuestionIndex == old(currentQuestionIndex)
      ensures showAnswer == old(showAnswer) && selectedAnswer == old(selectedAnswer)
      ensures timeLeft == old(timeLeft)
    {
      WithoutRemovesOne(players, index);
      players := Without(players, index);
    }

    /** `startGame`, with the outcome of the shuffle passed in as `order`.
        With at least two players the session starts on the first player's
        turn at the first of eight distinct bank questions, with a full clock;
        with fewer, nothing changes. Its only caller is the setup screen. */
    method StartGame(order: seq<nat>)
      requires Valid() && gameState == Setup
      requires IsPermutation(order, |Bank|)
      modifies this
      ensures Valid()
      ensures |old(players)| < 2 ==> unchanged(this)
      ensures |old(players)| >= 2 ==>
        gameState == Playing && gameQuestions == Deal(order) &&
        currentPlayerIndex == 0 && currentQuestionIndex == 0 &&
        timeLeft == TurnSeconds && !showAnswer && selectedAnswer == None
      ensures |old(players)| >= 2 ==>
        |gameQuestions| == QuestionsPerGame &&
        (forall i, j :: 0 <= i < j < |gameQuestions| ==> gameQuestions[i] != gameQuestions[j]) &&
        (forall i :: 0 <= i < |gameQuestions| ==> gameQuestions[i] == Bank[order[i]])
      ensures players == old(players)
    {
      if |players| >= 2 {
        gameQuestions := Deal(order);
        gameState := Playing;
        currentPlayerIndex := 0;
        currentQuestionIndex := 0;
        timeLeft := TurnSeconds;
        showAnswer := false;
        selectedAnswer := None;
      }
    }

    /** `handleAnswer`: reveals the answer, records the choice and gives the
        current player one point when the choice is correct. Both callers
        (the option buttons and the timeout) call it only while the answer is
        hidden. */
    method HandleAnswer(answer: Option<int>)
      requires Valid() && gameState == Playing && !showAnswer
      modifies this
      ensures Valid()
      ensures showAnswer && selectedAnswer == answer
      ensures players ==
        if IsCorrect(answer, old(gameQuestions[currentQuestionIndex]))
        then Credit(old(players), old(currentPlayerIndex))
        else old(players)
      ensures answer.None? ==> players == old(players)
      ensures gameState == old(gameState) && gameQuestions == old(gameQuestions)
      ensures currentPlayerIndex == old(currentPlayerIndex)
      ensures currentQuestionIndex == old(currentQuestionIndex)
      ensures timeLeft == old(timeLeft)
    {
      selectedAnswer := answer;
      showAnswer := true;
      if IsCorrect(answer, gameQuestions[currentQuestionIndex]) {
        players := Credit(players, currentPlayerIndex);
      }
    }

    /** A click on option `index`: `!showAnswer && handleAnswer(index)`. Once
        the answer is revealed further clicks change nothing, so each turn
        is answered, and scored, at most once. */
    method SubmitAnswer(index: int)
      requires Valid() && gameState == Playing
      modifies this
      ensures Valid()
      ensures old(showAnswer) ==> unchanged(this)
      ensures !old(showAnswer) ==>
        showAnswer && selectedAnswer == Some(index) &&
        players ==
          (if IsCorrect(Some(index), old(gameQuestions[currentQuestionIndex]))
           then Credit(old(players), old(currentPlayerIndex))
           else old(players)) &&
        gameState == old(gameState) && gameQuestions == old(gameQuestions) &&
        currentPlayerIndex == old(currentPlayerIndex) &&
        currentQuestionIndex == old(currentQuestionIndex) &&
        timeLeft == old(timeLeft)
    {
      if !showAnswer {
        HandleAnswer(Some(index));
      }
    }

    /** One second of the clock. While a turn is open the clock drops by one;
        when it has reached zero with the answer still hidden, the turn is
        answered with no choice, which reveals the answer and scores nobody.
        Otherwise nothing happens. */
    method Tick()
      requires Valid()
      modifies this
      ensures Valid()
      ensures old(gameState == Playing && !showAnswer && timeLeft > 0) ==>
        timeLeft == old(timeLeft) - 1 &&
        gameState == old(gameState) && players == old(players) &&
        gameQuestions == old(gameQuestions) &&
        currentPlayerIndex == old(currentPlayerIndex) &&
        currentQuestionIndex == old(currentQuestionIndex) &&
        showAnswer == old(showAnswer) && selectedAnswer == old(selectedAnswer)
      ensures old(timeLeft == 0 && !showAnswer) ==>
        old(gameState) == Playing &&
        showAnswer && selectedAnswer == None && timeLeft == 0 &&
        gameState == old(gameState) && players == old(players) &&
        gameQuestions == old(gameQuestions) &&
        currentPlayerIndex == old(currentPlayerIndex) &&
        currentQuestionIndex == old(currentQuestionIndex)
      ensures old(showAnswer || (gameState != Playing && timeLeft != 0)) ==> unchanged(this)
    {
      if gameState == Playing && !showAnswer && timeLeft > 0 {
        timeLeft := timeLeft - 1;
      } else if timeLeft == 0 && !showAnswer {
        HandleAnswer(None);
      }
    }

    /** `nextQuestion`: moves to the turn `NextTurn` names, with the answer
        hidden, no choice and a full clock, or, after the last player's turn
        at the last question, to the results. The progress bar advances by
        exactly one turn, and the game ends exactly when it is full. Its
        only caller is the button shown once the answer is revealed. */
    method NextQuestion()
      requires Valid() && gameState == Playing && showAnswer
      modifies this
      ensures Valid()
      ensures match NextTurn(old(currentQuestionIndex), old(currentPlayerIndex), |players|, |gameQuestions|)
        case Some((q, p)) =>
          gameState == Playing &&
          currentQuestionIndex == q && currentPlayerIndex == p &&
          !showAnswer && selectedAnswer == None && timeLeft == TurnSeconds
        case None =>
          gameState == Results &&
          currentQuestionIndex == old(currentQuestionIndex) &&
          currentPlayerIndex == old(currentPlayerIndex) &&
          showAnswer == old(showAnswer) && selectedAnswer == old(selectedAnswer) &&
          timeLeft == old(timeLeft)
      ensures players == old(players) && gameQuestions == old(gameQuestions)
      ensures gameState == Playing ==> ProgressFraction().0 == old(ProgressFraction().0) + 1
      ensures gameState == Results ==> old(ProgressFraction().0 == ProgressFraction().1)
    {
      NextTurnAdvancesByOne(currentQuestionIndex, currentPlayerIndex, |players|, |gameQuestions|);
      if currentPlayerIndex < |players| - 1 {
        currentPlayerIndex := currentPlayerIndex + 1;
      } else if currentQuestionIndex < |gameQuestions| - 1 {
        currentQuestionIndex := currentQuestionIndex + 1;
        currentPlayerIndex := 0;
      } else {
        gameState := Results;
        return;
      }
      showAnswer := false;
      selectedAnswer := None;
      timeLeft := TurnSeconds;
    }

    /** `resetGame`: back to the initial state, whatever the phase, with an
        empty roster. */
    method ResetGame()
      modifies this
      ensures Initial() && Valid()
    {
      gameState := Setup;
      players := [];
      currentPlayerIndex := 0;
      currentQuestionIndex := 0;
      gameQuestions := [];
      timeLeft := TurnSeconds;
      showAnswer := false;
      selectedAnswer := None;
    }
  }
}
