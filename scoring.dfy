/** The winner rule of the scorer: a game is decided once either player has
    reached eleven points, in favour of the strictly higher score. */
module Scoring {
  import opened Wrappers

  datatype Player = One | Two

  /** The score at which the scorer starts looking for a winner. */
  const WinningScore: int := 11

  function Other(p: Player): Player {
    match p
    case One => Two
    case Two => One
  }

  /** The derived winner of the scores `score1` / `score2`. There is no margin
      rule: any lead counts once a player has eleven, and a tie is undecided. */
  function Winner(score1: int, score2: int): (w: Option<Player>)
    ensures w == Some(One) <==> score1 >= WinningScore && score1 > score2
    ensures w == Some(Two) <==> score2 >= WinningScore && score2 > score1
    ensures w == None <==> (score1 < WinningScore && score2 < WinningScore) || score1 == score2
  {
    if score1 >= WinningScore || score2 >= WinningScore then
      if score1 > score2 then Some(One)
      else if score2 > score1 then Some(Two)
      else None
    else None
  }

  /** Below eleven points on both sides nobody has won. */
  lemma NoWinnerBelowThreshold(score1: int, score2: int)
    requires score1 < WinningScore && score2 < WinningScore
    ensures Winner(score1, score2) == None
  {
  }

  /** A declared winner holds at least eleven points and leads. */
  lemma WinnerHasReachedThreshold(score1: int, score2: int, p: Player)
    requires Winner(score1, score2) == Some(p)
    ensures (if p == One then score1 else score2) >= WinningScore
    ensures (if p == One then score1 > score2 else score2 > score1)
  {
  }

  /** Swapping the two scores swaps the winner: the rule favours no side. */
  lemma WinnerSymmetric(score1: int, score2: int)
    ensures Winner(score2, score1) ==
      (match Winner(score1, score2)
       case None => None
       case Some(p) => Some(Other(p)))
  {
  }

  /** The concrete outcomes the rule gives at and around the threshold. */
  lemma WinnerExamples()
    ensures Winner(11, 9) == Some(One)
    ensures Winner(9, 11) == Some(Two)
    ensures Winner(11, 11) == None
    ensures Winner(10, 10) == None
    ensures Winner(12, 11) == Some(One)
  {
  }
}
