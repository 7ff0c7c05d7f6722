/**
 * `NewpageTile`: the layout tile of a page break in a sequence diagram.
 *
 * The tile has no extent: it is a point at the origin taken from its tile
 * arguments, with height 0 and Y point 0. The only state it keeps is the Y
 * coordinate the layout hands back to it through `callbackY`. The origin is
 * a constraint-solver value that this model does not look into, so it is a
 * type parameter, as is the `Newpage` event the tile stands for.
 */
module NewpageTile {

  /** The tile: the event it draws, the origin of its arguments and the Y stored by the last callback. */
  datatype Tile<Page, Position> = Tile(newpage: Page, origin: Position, y: real)

  /** The calls the layout makes on a tile once it exists. */
  datatype Call = CallbackY(value: real) | DrawU | AddConstraints

  // ---------------------------------------------------------------------------
  // Construction and observations
  // ---------------------------------------------------------------------------

  function GetEvent<Page, Position>(t: Tile<Page, Position>): Page {
    t.newpage
  }

  function GetPreferredHeight<Page, Position>(t: Tile<Page, Position>): real {
    0.0
  }

  function GetYPoint<Page, Position>(t: Tile<Page, Position>): real {
    0.0
  }

  function GetMinX<Page, Position>(t: Tile<Page, Position>): Position {
    t.origin
  }

  function GetMaxX<Page, Position>(t: Tile<Page, Position>): Position {
    t.origin
  }

  function GetCallbackY<Page, Position>(t: Tile<Page, Position>): real {
    t.y
  }

  /**
   * The constructor keeps the event and the arguments; the stored Y starts
   * at 0, the default of a `double` field, until the first callback.
   */
  function New<Page, Position>(newpage: Page, origin: Position): (t: Tile<Page, Position>)
    ensures GetEvent(t) == newpage
    ensures GetMinX(t) == origin && GetMaxX(t) == origin
    ensures GetCallbackY(t) == 0.0
  {
    Tile(newpage, origin, 0.0)
  }

  /** The tile is a point at its origin: no height, Y point 0, the same minimum and maximum X. */
  lemma PointGeometry<Page, Position>(t: Tile<Page, Position>)
    ensures GetPreferredHeight(t) == 0.0 && GetYPoint(t) == 0.0
    ensures GetMinX(t) == GetMaxX(t) == t.origin
  {
  }

  // ---------------------------------------------------------------------------
  // Calls
  // ---------------------------------------------------------------------------

  /**
   * One call: `callbackY` stores its argument and nothing else; `drawU` and
   * `addConstraints` have empty bodies.
   */
  function Apply<Page, Position>(t: Tile<Page, Position>, c: Call): (r: Tile<Page, Position>)
    ensures GetEvent(r) == GetEvent(t) && GetMinX(r) == GetMinX(t) && GetMaxX(r) == GetMaxX(t)
    ensures c.CallbackY? ==> GetCallbackY(r) == c.value
    ensures !c.CallbackY? ==> r == t
  {
    match c
    case CallbackY(y) => t.(y := y)
    case DrawU => t
    case AddConstraints => t
  }

  /** A sequence of calls, in order. */
  function Run<Page, Position>(t: Tile<Page, Position>, calls: seq<Call>): (r: Tile<Page, Position>)
    ensures GetEvent(r) == GetEvent(t)
    ensures GetMinX(r) == GetMinX(t) && GetMaxX(r) == GetMaxX(t)
    decreases |calls|
  {
    if |calls| == 0 then t else Run(Apply(t, calls[0]), calls[1..])
  }

  /** The value of the last `callbackY` in `calls`, read from the end; `initial` when there is none. */
  function LastWritten(calls: seq<Call>, initial: real): real
    decreases |calls|
  {
    if |calls| == 0 then initial
    else if calls[|calls| - 1].CallbackY? then calls[|calls| - 1].value
    else LastWritten(calls[..|calls| - 1], initial)
  }

  /** The stored Y after one call. */
  function Written(c: Call, initial: real): real {
    if c.CallbackY? then c.value else initial
  }

  /** Reading from the end agrees with letting the first call write first. */
  lemma {:induction false} LastWrittenAfterFirst(c: Call, calls: seq<Call>, initial: real)
    ensures LastWritten([c] + calls, initial) == LastWritten(calls, Written(c, initial))
    decreases |calls|
  {
    var all := [c] + calls;
    if |calls| == 0 {
      assert all == [c];
      assert all[..0] == [];
    } else {
      var n := |calls|;
      assert all[n] == calls[n - 1];
      if !calls[n - 1].CallbackY? {
        assert all[..n] == [c] + calls[..n - 1];
        LastWrittenAfterFirst(c, calls[..n - 1], initial);
      }
    }
  }

  /** After any sequence of calls the tile reads back the last value written, or what it held before. */
  lemma {:induction false} RunReadsLastWrite<Page, Position>(t: Tile<Page, Position>, calls: seq<Call>)
    ensures GetCallbackY(Run(t, calls)) == LastWritten(calls, GetCallbackY(t))
    decreases |calls|
  {
    if |calls| > 0 {
      var next := Apply(t, calls[0]);
      RunReadsLastWrite(next, calls[1..]);
      assert GetCallbackY(next) == Written(calls[0], GetCallbackY(t));
      assert [calls[0]] + calls[1..] == calls;
      LastWrittenAfterFirst(calls[0], calls[1..], GetCallbackY(t));
    }
  }

  /** The last write wins: whatever came before, a final `callbackY(y)` makes `getCallbackY` return `y`. */
  lemma LastWriteWins<Page, Position>(t: Tile<Page, Position>, calls: seq<Call>, y: real)
    ensures GetCallbackY(Run(t, calls + [CallbackY(y)])) == y
  {
    RunReadsLastWrite(t, calls + [CallbackY(y)]);
  }

  /** Without a `callbackY` the stored Y does not move. */
  lemma NoCallbackKeepsY<Page, Position>(t: Tile<Page, Position>, calls: seq<Call>)
    requires forall i :: 0 <= i < |calls| ==> !calls[i].CallbackY?
    ensures GetCallbackY(Run(t, calls)) == GetCallbackY(t)
  {
    RunReadsLastWrite(t, calls);
    NoWriteReadsInitial(calls, GetCallbackY(t));
  }

  lemma {:induction false} NoWriteReadsInitial(calls: seq<Call>, initial: real)
    requires forall i :: 0 <= i < |calls| ==> !calls[i].CallbackY?
    ensures LastWritten(calls, initial) == initial
    decreases |calls|
  {
    if |calls| > 0 {
      NoWriteReadsInitial(calls[..|calls| - 1], initial);
    }
  }
}
