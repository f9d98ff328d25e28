/**
 The drag behaviour of one box: a meta mouse-down takes the box's current
 offset as the origin and starts listening for moves and the release;
 every move adds its movement to the offset and writes it into the box;
 the release resets the behaviour (`set`: remove, then add) so that only
 the mouse-down handler is left.
 */
module Drag {
  import opened Records
  import opened DocumentSession

  /** The sum of a sequence of integer movements. */
  function Sum(s: seq<int>): int
  {
    if s == [] then 0 else s[0] + Sum(s[1..])
  }

  /** Adding one more movement adds it to the sum. */
  lemma {:induction false} SumAppend(s: seq<int>, m: int)
    ensures Sum(s + [m]) == Sum(s) + m
  {
    if s != [] {
      assert (s + [m])[1..] == s[1..] + [m];
      SumAppend(s[1..], m);
    } else {
      assert [m][1..] == [];
    }
  }

  /** The handlers a drag behaviour may have registered on its element. */
  datatype Handler = MouseDown | MouseMove | MouseUp

  class DragBehaviour {
    const session: Session
    /** The id of the box whose element carries the behaviour (`div.boxid`). */
    const box: int
    /** The offset the behaviour accumulates (`dx`, `dy` of the closure). */
    var dx: int
    var dy: int
    var handlers: set<Handler>
    /** The offset at the last press, and the movements since. */
    ghost var originDx: int
    ghost var originDy: int
    ghost var movesX: seq<int>
    ghost var movesY: seq<int>

    /**
     The move and release handlers are registered together, only next to
     the press handler, and the accumulated offset is the origin plus the
     movements since the press.
     */
    ghost predicate Valid()
      reads this
    {
      (MouseMove in handlers <==> MouseUp in handlers) &&
      (MouseMove in handlers ==> MouseDown in handlers) &&
      dx == originDx + Sum(movesX) && dy == originDy + Sum(movesY)
    }

    /** `DragBehaviour(div)`: offset zero, nothing registered. */
    constructor (session: Session, box: int)
      ensures Valid()
      ensures this.session == session && this.box == box && dx == 0 && dy == 0 && handlers == {}
    {
      this.session := session;
      this.box := box;
      dx, dy := 0, 0;
      handlers := {};
      originDx, originDy := 0, 0;
      movesX, movesY := [], [];
    }

    /** `add`: registers the press handler. */
    method Add()
      requires Valid()
      modifies this
      ensures Valid()
      ensures handlers == old(handlers) + {MouseDown} && dx == old(dx) && dy == old(dy)
    {
      handlers := handlers + {MouseDown};
    }

    /** `remove`: unregisters all three handlers. */
    method Remove()
      requires Valid()
      modifies this
      ensures Valid()
      ensures handlers == {} && dx == old(dx) && dy == old(dy)
    {
      handlers := handlers - {MouseDown, MouseMove, MouseUp};
      forall h: Handler
        ensures h !in handlers
      {
        assert h == MouseDown || h == MouseMove || h == MouseUp;
      }
    }

    /** `set`: remove, then add; only the press handler is left. */
    method Set()
      requires Valid()
      modifies this
      ensures Valid()
      ensures handlers == {MouseDown} && dx == old(dx) && dy == old(dy)
    {
      Remove();
      Add();
    }

    /**
     A mouse-down with the meta key: the origin becomes the box's current
     offset and the move and release handlers are registered. Returns
     whether the event was consumed (its propagation stopped); a press
     without the meta key, or on a box no longer live, changes nothing.
     */
    method Press(meta: bool) returns (consumed: bool)
      requires Valid()
      modifies this
      ensures Valid()
      ensures consumed == (MouseDown in old(handlers) && meta && box in session.boxes)
      ensures consumed ==>
                dx == session.boxes[box].dx && dy == session.boxes[box].dy &&
                movesX == [] && movesY == [] &&
                handlers == old(handlers) + {MouseMove, MouseUp}
      ensures !consumed ==> dx == old(dx) && dy == old(dy) && handlers == old(handlers)
    {
      consumed := false;
      if MouseDown in handlers && meta && box in session.boxes {
        dx := session.boxes[box].dx;
        dy := session.boxes[box].dy;
        handlers := handlers + {MouseMove, MouseUp};
        originDx, originDy := dx, dy;
        movesX, movesY := [], [];
        consumed := true;
      }
    }

    /**
     A mouse move by (mx, my) while dragging: the offset grows by the
     movement and is written into the box, which then sits at the origin
     plus every movement since the press.
     */
    method Move(mx: int, my: int)
      requires Valid()
      modifies this, session`boxes
      ensures Valid()
      ensures handlers == old(handlers)
      ensures MouseMove in handlers ==>
                dx == old(dx) + mx && dy == old(dy) + my &&
                movesX == old(movesX) + [mx] && movesY == old(movesY) + [my] &&
                session.boxes == if box in old(session.boxes)
                                 then old(session.boxes)[box := old(session.boxes)[box].(dx := dx, dy := dy)]
                                 else old(session.boxes)
      ensures MouseMove in handlers && box in session.boxes ==>
                session.boxes[box].dx == originDx + Sum(movesX) && session.boxes[box].dy == originDy + Sum(movesY)
      ensures MouseMove !in handlers ==> dx == old(dx) && dy == old(dy) && session.boxes == old(session.boxes)
      ensures old(session.Valid()) ==> session.Valid()
    {
      if MouseMove in handlers {
        SumAppend(movesX, mx);
        SumAppend(movesY, my);
        dx := dx + mx;
        dy := dy + my;
        movesX, movesY := movesX + [mx], movesY + [my];
        if box in session.boxes {
          var b := session.boxes[box];
          session.boxes := session.boxes[box := b.(dx := dx, dy := dy)];
        }
      }
    }

    /** A mouse-up while dragging: the behaviour is `set`, leaving only the press handler. */
    method Release()
      requires Valid()
      modifies this
      ensures Valid()
      ensures MouseUp in old(handlers) ==> handlers == {MouseDown}
      ensures MouseUp !in old(handlers) ==> handlers == old(handlers)
      ensures dx == old(dx) && dy == old(dy)
    {
      if MouseUp in handlers {
        Set();
      }
    }
  }
}
