/**
 * The inning caption and the "in play" test shared by the control panel
 * (`inningMsg`, `isPlaying` of both control-panel scripts) and the board
 * component (`inningMsg`, `isPlaying` computed from `boardData`).
 */
module InningDisplay {
  import opened Wrappers
  import opened JsStrings

  const PreGame: string := "試合前"
  const GameOver: string := "試合終了"
  const Top: string := "オモテ"
  const Bottom: string := "ウラ"

  /**
   * The caption for inning `inning` of a game of `lastInning` innings, in its
   * top or bottom half. It is never empty, and the game is under way exactly
   * when it is neither the pre-game nor the game-over text.
   */
  function InningMsg(inning: int, lastInning: int, top: bool): (r: string)
    ensures r != ""
    ensures IsPlaying(inning, lastInning) <==> r != PreGame && r != GameOver
  {
    if inning < 1 then PreGame
    else if inning > lastInning then GameOver
    else
      var d := IntToDecimal(inning);
      var m := d + "回" + (if top then Top else Bottom);
      assert m[0] == d[0] && IsDigit(d[0]);
      assert PreGame[0] == '試' && GameOver[0] == '試';
      m
  }

  /** The game is under way: the inning is one of the game's innings. */
  predicate IsPlaying(inning: int, lastInning: int)
  {
    inning >= 1 && inning <= lastInning
  }

  /**
   * During play the caption starts with the inning in decimal, which reads
   * back as the inning, followed by `回` and the half.
   */
  lemma CaptionNamesInning(inning: int, lastInning: int, top: bool)
    requires IsPlaying(inning, lastInning)
    ensures var m, d := InningMsg(inning, lastInning, top), NatToDecimal(inning);
      |d| < |m| && m[..|d|] == d && DigitsValue(d) == inning && m[|d|] == '回'
      && m[|d| + 1..] == (if top then Top else Bottom)
  {
    var d := NatToDecimal(inning);
    var m := InningMsg(inning, lastInning, top);
    assert m == d + "回" + (if top then Top else Bottom);
    DigitsOfDecimal(inning);
  }

  /** What the board component receives: the whole record may be missing, and so may its inning. */
  datatype BoardData = BoardData(gameInning: Option<int>, lastInning: int, top: bool)

  /** The board component's `inningMsg`: empty while there is no data or no inning. */
  function BoardInningMsg(boardData: Option<BoardData>): (r: string)
    ensures r == "" <==> boardData.None? || boardData.value.gameInning.None?
  {
    match boardData
    case None => ""
    case Some(b) =>
      match b.gameInning
      case None => ""
      case Some(inning) => InningMsg(inning, b.lastInning, b.top)
  }

  /**
   * The board component's `isPlaying`: false while there is no data or no
   * inning. The game is under way exactly when the caption is none of the
   * empty text, the pre-game text and the game-over text.
   */
  predicate BoardIsPlaying(boardData: Option<BoardData>)
    ensures BoardIsPlaying(boardData) <==>
      var m := BoardInningMsg(boardData); m != "" && m != PreGame && m != GameOver
  {
    match boardData
    case None => false
    case Some(b) =>
      match b.gameInning
      case None => false
      case Some(inning) => IsPlaying(inning, b.lastInning)
  }
}
