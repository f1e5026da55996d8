/** The comet cursor: a bounded, most-recent-first history of pointer
    positions, drawn as a main dot at the newest position and a trail
    behind it. */
module CometCursor {

  datatype Position = Position(x: real, y: real)

  /** The history never holds more than this many positions. */
  const HistoryLimit: nat := 10

  /** Where the main dot is drawn before the pointer has moved. */
  const Offscreen: Position := Position(-100.0, -100.0)

  function Min(a: int, b: int): int
  {
    if a <= b then a else b
  }

  /** The history after a move to `p`: `p` first, then at most nine of the
      previous entries. */
  function Pushed(history: seq<Position>, p: Position): (r: seq<Position>)
    ensures |r| == Min(|history| + 1, HistoryLimit)
    ensures r[0] == p
    ensures forall k :: 1 <= k < |r| ==> r[k] == history[k - 1]
  {
    [p] + history[..Min(|history|, HistoryLimit - 1)]
  }

  /** The history after the moves `moves`, in the order they happened,
      starting from an empty history. */
  function Replay(moves: seq<Position>): seq<Position>
  {
    if moves == [] then [] else Pushed(Replay(moves[..|moves| - 1]), moves[|moves| - 1])
  }

  /** The history holds the latest `min(n, 10)` of `n` moves, newest first. */
  lemma {:induction false} ReplayKeepsLatest(moves: seq<Position>)
    ensures |Replay(moves)| == Min(|moves|, HistoryLimit)
    ensures forall k :: 0 <= k < |Replay(moves)| ==> Replay(moves)[k] == moves[|moves| - 1 - k]
  {
    if moves != [] {
      var earlier := moves[..|moves| - 1];
      ReplayKeepsLatest(earlier);
      var r := Replay(moves);
      forall k | 0 <= k < |r| ensures r[k] == moves[|moves| - 1 - k] {
        if k > 0 {
          assert r[k] == Replay(earlier)[k - 1];
          assert earlier[|earlier| - 1 - (k - 1)] == moves[|moves| - 1 - k];
        }
      }
    }
  }

  /** The main dot: the newest position, or off screen when there is none. */
  function MainDot(positions: seq<Position>): (p: Position)
    ensures |positions| > 0 ==> p == positions[0]
    ensures positions == [] ==> p == Offscreen
  {
    if |positions| > 0 then positions[0] else Offscreen
  }

  /** The trail: every position but the newest, in order (`slice(1)`). */
  function Trail(positions: seq<Position>): (t: seq<Position>)
    ensures |t| == if |positions| == 0 then 0 else |positions| - 1
    ensures forall k :: 0 <= k < |t| ==> t[k] == positions[k + 1]
  {
    if |positions| == 0 then [] else positions[1..]
  }

  /** After at least one move the trail is the moves before the newest one,
      newest first, at most nine of them. */
  lemma TrailOfMoves(moves: seq<Position>)
    requires moves != []
    ensures MainDot(Replay(moves)) == moves[|moves| - 1]
    ensures |Trail(Replay(moves))| == Min(|moves| - 1, HistoryLimit - 1)
    ensures forall k :: 0 <= k < |Trail(Replay(moves))| ==> Trail(Replay(moves))[k] == moves[|moves| - 2 - k]
  {
    ReplayKeepsLatest(moves);
  }

  /** The component: the history kept across events and the rendered copy
      of it. */
  class Comet {
    var history: seq<Position>
    var positions: seq<Position>
    /** Every pointer position seen so far, oldest first. */
    ghost var moves: seq<Position>

    ghost predicate Valid()
      reads this
    {
      && history == Replay(moves)
      && positions == history
      && |history| <= HistoryLimit
    }

    constructor ()
      ensures Valid() && moves == [] && history == [] && positions == []
    {
      history := [];
      positions := [];
      moves := [];
    }

    /** `mousemove`: prepend the pointer position, keep ten, render a copy. */
    method MouseMove(clientX: real, clientY: real)
      requires Valid()
      modifies this
      ensures Valid()
      ensures moves == old(moves) + [Position(clientX, clientY)]
      ensures history == Pushed(old(history), Position(clientX, clientY))
      ensures positions == history
    {
      var p := Position(clientX, clientY);
      history := Pushed(history, p);
      positions := history;
      moves := moves + [p];
      assert moves[..|moves| - 1] == old(moves);
    }
  }
}
