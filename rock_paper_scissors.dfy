/** The rock-paper-scissors game window: the win rule over two choices, the score it
    keeps across rounds, and the three screens a round goes through (choosing,
    the computer thinking, the result). The computer's pick and the delay before it
    come from outside: the pick is a parameter, the delay a queue of pending rounds. */
module RockPaperScissors {

  import opened Types

  datatype Choice = Rock | Paper | Scissor

  datatype GameState = Selecting | Playing | ResultShown

  datatype Outcome = Draw | PlayerWins | ComputerWins

  datatype Score = Score(player: nat, computer: nat)

  /** The three winning pairs: rock blunts scissors, paper wraps rock, scissors cut paper. */
  predicate Beats(a: Choice, b: Choice) {
    (a == Rock && b == Scissor) || (a == Paper && b == Rock) || (a == Scissor && b == Paper)
  }

  /** `determineWinner`'s decision: a draw on equal choices, the player's win on the
      three winning pairs, the computer's win on every other pair. */
  function Decide(player: Choice, computer: Choice): (o: Outcome)
    ensures o == Draw <==> player == computer
    ensures o == PlayerWins <==> Beats(player, computer)
    ensures o == ComputerWins <==> Beats(computer, player)
  {
    if player == computer then Draw
    else if Beats(player, computer) then PlayerWins
    else ComputerWins
  }

  /** The outcome seen from the other side. */
  function Swap(o: Outcome): Outcome {
    match o
    case Draw => Draw
    case PlayerWins => ComputerWins
    case ComputerWins => PlayerWins
  }

  /** Exchanging the two choices exchanges win and loss. */
  lemma DecideSwaps(player: Choice, computer: Choice)
    ensures Decide(computer, player) == Swap(Decide(player, computer))
  {
  }

  /** The position of a choice on the cycle rock, paper, scissors. */
  function Index(c: Choice): int {
    match c
    case Rock => 0
    case Paper => 1
    case Scissor => 2
  }

  /** An independent statement of the rule: each choice beats the one just before it
      on the cycle. */
  lemma DecideByCycle(player: Choice, computer: Choice)
    ensures Decide(player, computer) ==
            (if Index(player) == Index(computer) then Draw
             else if (Index(player) - Index(computer)) % 3 == 1 then PlayerWins
             else ComputerWins)
  {
  }

  /** The banner shown with each outcome. */
  function Message(o: Outcome): string {
    match o
    case Draw => "It's a Draw!"
    case PlayerWins => "You Win!"
    case ComputerWins => "Computer Wins!"
  }

  /** The score after a round: the winner's count goes up by one and the loser's
      stays; a draw leaves both. */
  function Tally(s: Score, o: Outcome): (r: Score)
    ensures r.player >= s.player && r.computer >= s.computer
    ensures r.player + r.computer == s.player + s.computer + (if o == Draw then 0 else 1)
    ensures o != PlayerWins ==> r.player == s.player
    ensures o != ComputerWins ==> r.computer == s.computer
  {
    match o
    case Draw => s
    case PlayerWins => s.(player := s.player + 1)
    case ComputerWins => s.(computer := s.computer + 1)
  }

  /** The score after a series of rounds, each a pair (player's choice, computer's choice). */
  function TallyAll(s: Score, rounds: seq<(Choice, Choice)>): Score
    decreases |rounds|
  {
    if |rounds| == 0 then s
    else TallyAll(Tally(s, Decide(rounds[0].0, rounds[0].1)), rounds[1..])
  }

  /** The rounds of a series that someone won. */
  function Decisive(rounds: seq<(Choice, Choice)>): (n: nat)
    ensures n <= |rounds|
  {
    if |rounds| == 0 then 0
    else (if rounds[0].0 != rounds[0].1 then 1 else 0) + Decisive(rounds[1..])
  }

  /** Over any series of rounds neither count goes down, and together they grow by
      exactly the number of rounds that were not draws. */
  lemma {:induction false} TallyAllCounts(s: Score, rounds: seq<(Choice, Choice)>)
    ensures TallyAll(s, rounds).player >= s.player
    ensures TallyAll(s, rounds).computer >= s.computer
    ensures TallyAll(s, rounds).player + TallyAll(s, rounds).computer ==
            s.player + s.computer + Decisive(rounds)
    decreases |rounds|
  {
    if |rounds| > 0 {
      TallyAllCounts(Tally(s, Decide(rounds[0].0, rounds[0].1)), rounds[1..]);
    }
  }

  /** The game window's state. `pending` holds the player's choice captured by each
      timeout that is scheduled and has not fired yet. The buttons are shown only on
      the selection screen, so at most one timeout is pending: `Valid` keeps the list
      empty, or holding the one choice being played. */
  class Game {
    var gameState: GameState
    var playerChoice: Option<Choice>
    var computerChoice: Option<Choice>
    var score: Score
    var result: string
    var pending: seq<Choice>

    /** What each screen shows: nothing chosen while choosing; the player's choice,
        waiting for the computer, while playing; both choices and the banner of their
        outcome on the result screen. */
    ghost predicate Valid()
      reads this
    {
      (gameState == Selecting ==>
         pending == [] && playerChoice == None && computerChoice == None && result == "") &&
      (gameState == Playing ==>
         playerChoice.Some? && pending == [playerChoice.value] && computerChoice == None && result == "") &&
      (gameState == ResultShown ==>
         pending == [] && playerChoice.Some? && computerChoice.Some? &&
         result == Message(Decide(playerChoice.value, computerChoice.value)))
    }

    constructor ()
      ensures Valid()
      ensures gameState == Selecting && score == Score(0, 0)
    {
      gameState := Selecting;
      playerChoice := None;
      computerChoice := None;
      score := Score(0, 0);
      result := "";
      pending := [];
    }

    /** `handleChoice`, from a choice button (shown only while choosing): records the
        player's choice, moves to the playing screen and schedules the computer's turn. */
    method HandleChoice(choice: Choice)
      requires Valid() && gameState == Selecting
      modifies this
      ensures Valid()
      ensures gameState == Playing && playerChoice == Some(choice) && pending == [choice]
      ensures score == old(score)
    {
      playerChoice := Some(choice);
      gameState := Playing;
      pending := pending + [choice];
    }

    /** The scheduled timeout fires with the computer's random pick: it records the
        pick and decides the round against the choice the timeout captured. */
    method TimerFires(random: Choice)
      requires Valid() && gameState == Playing
      modifies this
      ensures Valid()
      ensures gameState == ResultShown && computerChoice == Some(random)
      ensures playerChoice == old(playerChoice)
      ensures result == Message(Decide(old(pending)[0], random))
      ensures score == Tally(old(score), Decide(old(pending)[0], random))
    {
      var choice := pending[0];
      pending := pending[1..];
      computerChoice := Some(random);
      DetermineWinner(choice, random);
    }

    /** `determineWinner`: sets the banner, adds the round to the score and shows the
        result screen. */
    method DetermineWinner(player: Choice, computer: Choice)
      modifies this
      ensures result == Message(Decide(player, computer))
      ensures score == Tally(old(score), Decide(player, computer))
      ensures gameState == ResultShown
      ensures playerChoice == old(playerChoice) && computerChoice == old(computerChoice)
      ensures pending == old(pending)
    {
      var outcome := Decide(player, computer);
      result := Message(outcome);
      score := Tally(score, outcome);
      gameState := ResultShown;
    }

    /** `resetGame`, from the play-again button (shown only with a result): back to
        choosing, with both choices and the banner cleared and the score kept. */
    method ResetGame()
      requires Valid() && gameState == ResultShown
      modifies this
      ensures Valid()
      ensures gameState == Selecting && playerChoice == None && computerChoice == None
      ensures result == "" && score == old(score)
    {
      gameState := Selecting;
      playerChoice := None;
      computerChoice := None;
      result := "";
    }
  }

  /** One full round on the screen: choose, let the computer pick, play again. The
      score moves as the win rule says and the game is back to choosing. */
  method PlayRound(g: Game, choice: Choice, random: Choice)
    requires g.Valid() && g.gameState == Selecting
    modifies g
    ensures g.Valid() && g.gameState == Selecting
    ensures g.score == Tally(old(g.score), Decide(choice, random))
  {
    g.HandleChoice(choice);
    g.TimerFires(random);
    g.ResetGame();
  }
}
