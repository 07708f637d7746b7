/**
 * The operator's control panel: the ball, strike and out counters, the
 * bases, the inning and its half, and the two scores, with the buttons that
 * change them. `Board` is the panel's state as a value and the functions
 * below say what each button does to it; the class `Panel` holds the state in
 * fields and its methods are the buttons. The legacy panel script has the
 * same buttons except "reset balls and strikes".
 */
module ControlPanel {
  import InningDisplay

  datatype Board = Board(
    inning: int, lastInning: int, top: bool,
    first: bool, second: bool, third: bool,
    balls: int, strikes: int, outs: int,
    scoreTop: int, scoreBottom: int)

  datatype Counter = Balls | Strikes | Outs
  datatype Side = TopSide | BottomSide

  /** The largest value a counter shows: three balls, two strikes, two outs. */
  function Cap(c: Counter): int
  {
    match c
    case Balls => 3
    case Strikes => 2
    case Outs => 2
  }

  function Count(b: Board, c: Counter): int
  {
    match c
    case Balls => b.balls
    case Strikes => b.strikes
    case Outs => b.outs
  }

  function WithCount(b: Board, c: Counter, n: int): Board
  {
    match c
    case Balls => b.(balls := n)
    case Strikes => b.(strikes := n)
    case Outs => b.(outs := n)
  }

  function Score(b: Board, s: Side): int
  {
    match s
    case TopSide => b.scoreTop
    case BottomSide => b.scoreBottom
  }

  function WithScore(b: Board, s: Side, n: int): Board
  {
    match s
    case TopSide => b.(scoreTop := n)
    case BottomSide => b.(scoreBottom := n)
  }

  /** The ranges the panel keeps: counters within their caps, scores not negative, the inning from 0 to one past the last. */
  predicate InRange(b: Board)
  {
    0 <= b.balls <= 3 && 0 <= b.strikes <= 2 && 0 <= b.outs <= 2
    && b.scoreTop >= 0 && b.scoreBottom >= 0
    && 0 <= b.inning <= b.lastInning + 1
  }

  /** `initParams`: bases empty, no balls, strikes or outs. */
  function Cleared(b: Board): Board
  {
    b.(first := false, second := false, third := false, balls := 0, strikes := 0, outs := 0)
  }

  /** `resetBSO` */
  function ClearedBso(b: Board): Board
  {
    b.(balls := 0, strikes := 0, outs := 0)
  }

  /** `resetBS` */
  function ClearedBs(b: Board): Board
  {
    b.(balls := 0, strikes := 0)
  }

  /** `changeOffense`: the other side bats, on a cleared field. */
  function OffenseChanged(b: Board): Board
  {
    Cleared(b.(top := !b.top))
  }

  /** A counter's "+" button: one more, unless at its cap. */
  function CountUp(b: Board, c: Counter): Board
  {
    if Count(b, c) < Cap(c) then WithCount(b, c, Count(b, c) + 1) else b
  }

  /** A counter's "-" button: one less, unless at zero. */
  function CountDown(b: Board, c: Counter): Board
  {
    if Count(b, c) >= 1 then WithCount(b, c, Count(b, c) - 1) else b
  }

  /** `gameStatusUp`: the next inning, up to one past the last (the game is over). */
  function StatusUp(b: Board): Board
  {
    if b.inning < b.lastInning + 1 then Cleared(b.(inning := b.inning + 1)) else b
  }

  /** `gameStatusDown`: the previous inning, down to 0 (before the game). */
  function StatusDown(b: Board): Board
  {
    if b.inning > 0 then Cleared(b.(inning := b.inning - 1)) else b
  }

  /** `gameForward`: top to bottom of the same inning, bottom to top of the next, while the game is not over. */
  function Forward(b: Board): Board
  {
    if b.inning <= b.lastInning then
      Cleared(if b.top then b.(top := false) else b.(inning := b.inning + 1, top := true))
    else b
  }

  /** `gameBackward`: top to bottom of the previous inning, bottom to top of the same; back at inning 0 the scores are zeroed. */
  function Backward(b: Board): Board
  {
    if b.inning >= 1 then
      var moved := Cleared(if b.top then b.(inning := b.inning - 1, top := false) else b.(top := true));
      if moved.inning == 0 then moved.(scoreTop := 0, scoreBottom := 0) else moved
    else b
  }

  /** A score's "+" button; there is no upper limit. */
  function ScoreUp(b: Board, s: Side): Board
  {
    WithScore(b, s, Score(b, s) + 1)
  }

  /** A score's "-" button: one less, unless at zero. */
  function ScoreDown(b: Board, s: Side): Board
  {
    if Score(b, s) > 0 then WithScore(b, s, Score(b, s) - 1) else b
  }

  /** The reset buttons keep the panel's ranges. */
  lemma ResetsKeepRanges(b: Board)
    requires InRange(b)
    ensures InRange(Cleared(b)) && InRange(ClearedBso(b)) && InRange(ClearedBs(b)) && InRange(OffenseChanged(b))
  {
  }

  /** The counter buttons keep the panel's ranges. */
  lemma CountersKeepRanges(b: Board, c: Counter)
    requires InRange(b)
    ensures InRange(CountUp(b, c)) && InRange(CountDown(b, c))
  {
  }

  /** The score buttons keep the panel's ranges. */
  lemma ScoresKeepRanges(b: Board, s: Side)
    requires InRange(b)
    ensures InRange(ScoreUp(b, s)) && InRange(ScoreDown(b, s))
  {
  }

  /** The inning "+" and "-" buttons keep the inning between 0 and one past the last. */
  lemma StatusButtonsKeepRanges(b: Board)
    requires InRange(b)
    ensures InRange(StatusUp(b)) && InRange(StatusDown(b))
  {
  }

  /** The half-inning buttons keep the inning between 0 and one past the last. */
  lemma HalfInningButtonsKeepRanges(b: Board)
    requires InRange(b)
    ensures InRange(Forward(b)) && InRange(Backward(b))
  {
  }

  /**
   * A counter moves by one within 0 and its cap: "+" at the cap and "-" at
   * zero change nothing, and no other part of the board moves.
   */
  lemma CounterSteps(b: Board, c: Counter)
    requires 0 <= Count(b, c) <= Cap(c)
    ensures Count(CountUp(b, c), c) == if Count(b, c) == Cap(c) then Count(b, c) else Count(b, c) + 1
    ensures Count(CountDown(b, c), c) == if Count(b, c) == 0 then 0 else Count(b, c) - 1
    ensures forall d :: d != c ==> Count(CountUp(b, c), d) == Count(b, d) && Count(CountDown(b, c), d) == Count(b, d)
    ensures CountUp(b, c).(balls := b.balls, strikes := b.strikes, outs := b.outs) == b
    ensures CountDown(b, c).(balls := b.balls, strikes := b.strikes, outs := b.outs) == b
  {
  }

  /** A score never goes below zero; "+" always adds one. */
  lemma ScoreSteps(b: Board, s: Side)
    requires Score(b, s) >= 0
    ensures Score(ScoreUp(b, s), s) == Score(b, s) + 1
    ensures Score(ScoreDown(b, s), s) == if Score(b, s) == 0 then 0 else Score(b, s) - 1
  {
  }

  /**
   * The position of a half inning in the game: the top of inning `i` is
   * `2i - 1`, its bottom `2i`.
   */
  function HalfIndex(b: Board): int
  {
    2 * b.inning - (if b.top then 1 else 0)
  }

  /**
   * Forward moves one half inning on while the game is not over, and clears
   * bases and counters but keeps the scores; Backward moves one half inning
   * back from inning 1 on.
   */
  lemma HalfInningSteps(b: Board)
    ensures b.inning <= b.lastInning ==>
      HalfIndex(Forward(b)) == HalfIndex(b) + 1 && Forward(b) == Cleared(Forward(b))
      && Forward(b).scoreTop == b.scoreTop && Forward(b).scoreBottom == b.scoreBottom
    ensures b.inning > b.lastInning ==> Forward(b) == b
    ensures b.inning >= 1 ==> HalfIndex(Backward(b)) == HalfIndex(b) - 1 && Backward(b) == Cleared(Backward(b))
    ensures b.inning < 1 ==> Backward(b) == b
  {
  }

  /** The half index tells the half inning: two boards with the same index have the same inning and half. */
  lemma HalfIndexDetermines(b: Board, b': Board)
    requires HalfIndex(b) == HalfIndex(b')
    ensures b.inning == b'.inning && b.top == b'.top
  {
  }

  /**
   * Backward undoes Forward's change of inning and half everywhere Forward
   * moves, except from the top of inning 0.
   */
  lemma {:induction false} BackwardUndoesForward(b: Board)
    requires 0 <= b.inning <= b.lastInning && !(b.inning == 0 && b.top)
    ensures Backward(Forward(b)).inning == b.inning && Backward(Forward(b)).top == b.top
  {
    HalfInningSteps(b);
    var f := Forward(b);
    assert f.inning >= 1;
    HalfInningSteps(f);
    HalfIndexDetermines(Backward(f), b);
  }

  /**
   * Forward undoes Backward everywhere Backward moves, except from the
   * bottom of the inning after the last, where Forward does not move.
   */
  lemma {:induction false} ForwardUndoesBackward(b: Board)
    requires 1 <= b.inning <= b.lastInning + 1 && !(b.inning == b.lastInning + 1 && !b.top)
    ensures Forward(Backward(b)).inning == b.inning && Forward(Backward(b)).top == b.top
  {
    HalfInningSteps(b);
    var k := Backward(b);
    assert k.inning <= k.lastInning;
    HalfInningSteps(k);
    HalfIndexDetermines(Forward(k), b);
  }

  /** Backing up into inning 0 zeroes both scores; otherwise Backward keeps them. */
  lemma BackwardScores(b: Board)
    requires b.inning >= 1
    ensures Backward(b).inning == 0 ==> Backward(b).scoreTop == 0 && Backward(b).scoreBottom == 0
    ensures Backward(b).inning != 0 ==> Backward(b).scoreTop == b.scoreTop && Backward(b).scoreBottom == b.scoreBottom
  {
  }

  /** The control panel, holding the board in fields. */
  class Panel {
    var inning: int
    var lastInning: int
    var top: bool
    var first: bool
    var second: bool
    var third: bool
    var balls: int
    var strikes: int
    var outs: int
    var scoreTop: int
    var scoreBottom: int

    /** The panel's state as a value. */
    function State(): Board
      reads this
    {
      Board(inning, lastInning, top, first, second, third, balls, strikes, outs, scoreTop, scoreBottom)
    }

    ghost predicate Valid()
      reads this
    {
      InRange(State())
    }

    /** A fresh panel: before the game of `lastInning` innings, everything at zero, the bottom half. */
    constructor(lastInning: int)
      requires lastInning >= 0
      ensures Valid()
      ensures State() == Board(0, lastInning, false, false, false, false, 0, 0, 0, 0, 0)
    {
      this.lastInning := lastInning;
      inning, top := 0, false;
      first, second, third := false, false, false;
      balls, strikes, outs := 0, 0, 0;
      scoreTop, scoreBottom := 0, 0;
    }

    method InitParams()
      requires Valid()
      modifies this
      ensures Valid() && State() == Cleared(old(State()))
    {
      first := false;
      second := false;
      third := false;
      balls := 0;
      strikes := 0;
      outs := 0;
    }

    method ResetBso()
      requires Valid()
      modifies this
      ensures Valid() && State() == ClearedBso(old(State()))
    {
      balls := 0;
      strikes := 0;
      outs := 0;
    }

    method ResetBs()
      requires Valid()
      modifies this
      ensures Valid() && State() == ClearedBs(old(State()))
    {
      balls := 0;
      strikes := 0;
    }

    method ChangeOffense()
      requires Valid()
      modifies this
      ensures Valid() && State() == OffenseChanged(old(State()))
    {
      top := !top;
      InitParams();
    }

    method BallCountUp()
      requires Valid()
      modifies this
      ensures Valid() && State() == CountUp(old(State()), Balls)
    {
      if balls < 3 {
        balls := balls + 1;
      }
    }

    method BallCountDown()
      requires Valid()
      modifies this
      ensures Valid() && State() == CountDown(old(State()), Balls)
    {
      if balls >= 1 {
        balls := balls - 1;
      }
    }

    method StrikeCountUp()
      requires Valid()
      modifies this
      ensures Valid() && State() == CountUp(old(State()), Strikes)
    {
      if strikes < 2 {
        strikes := strikes + 1;
      }
    }

    method StrikeCountDown()
      requires Valid()
      modifies this
      ensures Valid() && State() == CountDown(old(State()), Strikes)
    {
      if strikes >= 1 {
        strikes := strikes - 1;
      }
    }

    method OutCountUp()
      requires Valid()
      modifies this
      ensures Valid() && State() == CountUp(old(State()), Outs)
    {
      if outs < 2 {
        outs := outs + 1;
      }
    }

    method OutCountDown()
      requires Valid()
      modifies this
      ensures Valid() && State() == CountDown(old(State()), Outs)
    {
      if outs >= 1 {
        outs := outs - 1;
      }
    }

    method GameStatusUp()
      requires Valid()
      modifies this
      ensures Valid() && State() == StatusUp(old(State()))
    {
      if inning < lastInning + 1 {
        inning := inning + 1;
        InitParams();
      }
    }

    method GameStatusDown()
      requires Valid()
      modifies this
      ensures Valid() && State() == StatusDown(old(State()))
    {
      if inning > 0 {
        inning := inning - 1;
        InitParams();
      }
    }

    method GameForward()
      requires Valid()
      modifies this
      ensures Valid() && State() == Forward(old(State()))
    {
      if inning <= lastInning {
        if top {
          top := false;
        } else {
          inning := inning + 1;
          top := true;
        }
        InitParams();
      }
    }

    method GameBackward()
      requires Valid()
      modifies this
      ensures Valid() && State() == Backward(old(State()))
    {
      if inning >= 1 {
        if top {
          inning := inning - 1;
          top := false;
        } else {
          top := true;
        }
        InitParams();
        if inning == 0 {
          scoreTop := 0;
          scoreBottom := 0;
        }
      }
    }

    method IncrementScoreTop()
      requires Valid()
      modifies this
      ensures Valid() && State() == ScoreUp(old(State()), TopSide)
    {
      scoreTop := scoreTop + 1;
    }

    method DecrementScoreTop()
      requires Valid()
      modifies this
      ensures Valid() && State() == ScoreDown(old(State()), TopSide)
    {
      if scoreTop > 0 {
        scoreTop := scoreTop - 1;
      }
    }

    method IncrementScoreBottom()
      requires Valid()
      modifies this
      ensures Valid() && State() == ScoreUp(old(State()), BottomSide)
    {
      scoreBottom := scoreBottom + 1;
    }

    method DecrementScoreBottom()
      requires Valid()
      modifies this
      ensures Valid() && State() == ScoreDown(old(State()), BottomSide)
    {
      if scoreBottom > 0 {
        scoreBottom := scoreBottom - 1;
      }
    }

    /** The panel's caption for the current half inning. */
    function InningMsg(): string
      reads this
    {
      InningDisplay.InningMsg(inning, lastInning, top)
    }

    /** The panel's "in play" test. */
    predicate IsPlaying()
      reads this
    {
      InningDisplay.IsPlaying(inning, lastInning)
    }
  }
}
