/**
 The enlarge behaviour: a click on a box zooms it to 1.5 and resets the
 previously enlarged box to 1.0; a click on the canvas background resets
 the enlarged box. One `lastBigDiv` and one reference count are shared by
 the behaviours of all boxes; each behaviour owns its own background
 handler.
 */
module Focus {
  import opened Records
  import opened History
  import opened Reconcile
  import opened DocumentSession

  /** The shared focus state: the enlarged box (`lastBigDiv`, by box id) and the live boxes. */
  datatype View = View(last: Option<int>, boxes: map<int, Box>)

  function Scale(b: Box, s: real): Box { b.(sx := s, sy := s) }

  predicate Enlarged(b: Box) { b.sx != 1.0 || b.sy != 1.0 }

  /** Every enlarged live box is the one `lastBigDiv` names. */
  ghost predicate Focused(v: View)
  {
    forall k :: k in v.boxes && Enlarged(v.boxes[k]) ==> v.last == Some(k)
  }

  // ---- the click handlers as written ----

  /**
   The box click handler as written. A missing box throws before anything
   changes; a different previously enlarged box that is missing throws
   after the clicked box was zoomed, leaving `lastBigDiv` as it was.
   */
  function Click(v: View, d: int): (r: View)
    ensures r.boxes.Keys == v.boxes.Keys
    ensures d !in v.boxes ==> r == v
    ensures d in v.boxes ==> r.boxes[d] == Scale(v.boxes[d], 1.5)
    ensures d in v.boxes && v.last.Some? && v.last.value != d && v.last.value !in v.boxes ==>
              r.last == v.last && forall k :: k in v.boxes && k != d ==> r.boxes[k] == v.boxes[k]
  {
    if d !in v.boxes then v
    else
      var boxes := v.boxes[d := Scale(v.boxes[d], 1.5)];
      if v.last.Some? && v.last.value != d then
        if v.last.value !in boxes then View(v.last, boxes)
        else View(Some(d), boxes[v.last.value := Scale(boxes[v.last.value], 1.0)])
      else if v.last.None? then View(Some(d), boxes)
      else View(v.last, boxes)
  }

  /** The background click handler as written: a missing enlarged box throws before anything changes. */
  function Background(v: View): (r: View)
    ensures r.boxes.Keys == v.boxes.Keys
    ensures v.last.Some? && v.last.value !in v.boxes ==> r == v
    ensures v.last.None? || v.last.value in v.boxes ==> r == BackgroundGuarded(v)
  {
    if v.last.None? then v
    else if v.last.value !in v.boxes then v
    else View(None, v.boxes[v.last.value := Scale(v.boxes[v.last.value], 1.0)])
  }

  /**
   Deleting the enlarged box and then clicking two other boxes leaves both
   of them enlarged: the stale `lastBigDiv` makes every later click throw
   before the previous box is reset, and a background click throws before
   it resets anything, so it clears neither.
   */
  lemma StaleFocusEnlargesTwo()
    ensures
      var b := NewBox(1, 0, 0);
      var v0 := View(None, map[1 := b, 2 := NewBox(2, 0, 0), 3 := NewBox(3, 0, 0)]);
      var v1 := Click(v0, 1);
      var v2 := View(v1.last, v1.boxes - {1});
      var v4 := Click(Click(v2, 2), 3);
      var v5 := Background(v4);
      Focused(v0) && Focused(v2) && !Focused(v4) &&
      Enlarged(v4.boxes[2]) && Enlarged(v4.boxes[3]) &&
      v5 == v4 && Enlarged(v5.boxes[2]) && Enlarged(v5.boxes[3])
  {
  }

  // ---- the handlers as intended: a stale `lastBigDiv` counts as none ----

  /** A box click: the box is zoomed to 1.5 and becomes the enlarged one; a live previous one is reset. */
  function ClickGuarded(v: View, d: int): (r: View)
    ensures r.boxes.Keys == v.boxes.Keys
    ensures d in v.boxes ==> r.last == Some(d) && r.boxes[d] == Scale(v.boxes[d], 1.5)
    ensures d !in v.boxes ==> r == v
    ensures d in v.boxes ==>
              forall k :: k in v.boxes && k != d ==>
                r.boxes[k] == if v.last == Some(k) then Scale(v.boxes[k], 1.0) else v.boxes[k]
  {
    if d !in v.boxes then v
    else
      var boxes := v.boxes[d := Scale(v.boxes[d], 1.5)];
      if v.last.Some? && v.last.value != d && v.last.value in boxes then
        View(Some(d), boxes[v.last.value := Scale(boxes[v.last.value], 1.0)])
      else View(Some(d), boxes)
  }

  /** A background click: the enlarged box, if still live, is reset, and no box is enlarged any more. */
  function BackgroundGuarded(v: View): (r: View)
    ensures r.last == None && r.boxes.Keys == v.boxes.Keys
    ensures forall k :: k in v.boxes ==>
              r.boxes[k] == if v.last == Some(k) then Scale(v.boxes[k], 1.0) else v.boxes[k]
  {
    if v.last.Some? && v.last.value in v.boxes then
      View(None, v.boxes[v.last.value := Scale(v.boxes[v.last.value], 1.0)])
    else View(None, v.boxes)
  }

  /** A box click keeps the focus invariant, whatever boxes were deleted meanwhile. */
  lemma ClickKeepsFocus(v: View, d: int)
    requires Focused(v)
    ensures Focused(ClickGuarded(v, d))
  {
  }

  /** After a background click no live box is enlarged. */
  lemma BackgroundClears(v: View)
    requires Focused(v)
    ensures Focused(BackgroundGuarded(v))
    ensures forall k :: k in BackgroundGuarded(v).boxes ==> !Enlarged(BackgroundGuarded(v).boxes[k])
  {
  }

  /** Under the focus invariant at most one live box is enlarged. */
  lemma AtMostOneEnlarged(v: View, j: int, k: int)
    requires Focused(v)
    requires j in v.boxes && Enlarged(v.boxes[j])
    requires k in v.boxes && Enlarged(v.boxes[k])
    ensures j == k
  {
  }

  /** Clicking the enlarged box again keeps it enlarged and keeps it the enlarged one. */
  lemma ReclickKeeps(v: View, d: int)
    requires d in v.boxes && v.last == Some(d)
    ensures ClickGuarded(v, d) == View(Some(d), v.boxes[d := Scale(v.boxes[d], 1.5)])
    ensures Click(v, d) == ClickGuarded(v, d)
  {
  }

  /** While the enlarged box is live, the handlers as written behave as intended. */
  lemma AsWrittenWhileLive(v: View, d: int)
    requires v.last.Some? ==> v.last.value in v.boxes
    ensures Click(v, d) == ClickGuarded(v, d)
    ensures Background(v) == BackgroundGuarded(v)
  {
  }

  /** Deleting, creating (at scale 1.0) or saving boxes keeps the focus invariant. */
  lemma FocusSurvivesSession(v: View, d: int, b: Box, history: seq<Block>, views: map<string, Widget>)
    requires Focused(v)
    ensures Focused(View(v.last, v.boxes - {d}))
    ensures !Enlarged(b) ==> Focused(View(v.last, v.boxes[d := b]))
    ensures Focused(View(v.last, Refreshed(v.boxes, history, views)))
  {
  }

  // ---- the background listener's reference count ----

  /** `addedToCanvas` and the boxes whose background handler is registered on the canvas. */
  datatype Listeners = Listeners(added: int, canvas: set<int>)

  /** `add` of box `d`'s behaviour: the first one registers its own background handler. */
  function Attach(l: Listeners, d: int): (r: Listeners)
    ensures r.added == l.added + 1 && l.canvas <= r.canvas
    ensures l.added != 0 ==> r.canvas == l.canvas
    ensures d in r.canvas <==> d in l.canvas || l.added == 0
  {
    Listeners(l.added + 1, if l.added == 0 then l.canvas + {d} else l.canvas)
  }

  /** `remove` of box `d`'s behaviour as written: at zero it unregisters its own handler, which may not be the registered one. */
  function Detach(l: Listeners, d: int): (r: Listeners)
    ensures r.added == l.added - 1 && r.canvas <= l.canvas
    ensures l.added != 1 ==> r.canvas == l.canvas
    ensures forall e :: e in l.canvas && e != d ==> e in r.canvas
  {
    var n := l.added - 1;
    Listeners(n, if n == 0 then l.canvas - {d} else l.canvas)
  }

  /** `remove` as intended: at zero the background handler is unregistered, whoever registered it. */
  function DetachIntended(l: Listeners, d: int): (r: Listeners)
    ensures r.added == l.added - 1 && r.canvas <= l.canvas
    ensures l.added != 1 ==> r.canvas == l.canvas
    ensures r.added == 0 ==> r.canvas == {}
  {
    var n := l.added - 1;
    Listeners(n, if n == 0 then {} else l.canvas)
  }

  /** A background handler is registered exactly while some behaviour is added, and never more than one. */
  ghost predicate Tracked(l: Listeners)
  {
    0 <= l.added && (l.added == 0 <==> l.canvas == {}) &&
    forall a, b :: a in l.canvas && b in l.canvas ==> a == b
  }

  /** Adding and removing behaviours keeps the background handler registered exactly while the count is positive. */
  lemma ListenersTracked(l: Listeners, d: int)
    requires Tracked(l)
    ensures Tracked(Attach(l, d))
    ensures l.added > 0 ==> Tracked(DetachIntended(l, d))
    ensures l.added == 0 ==> Attach(l, d).canvas == {d}
  {
  }

  /**
   Adding the behaviours of boxes 1 and 2 and removing them in the same
   order leaves box 1's background handler registered with the count at 0.
   */
  lemma DetachLeavesHandler()
    ensures var l := Detach(Detach(Attach(Attach(Listeners(0, {}), 1), 2), 1), 2);
      l == Listeners(0, {1}) && !Tracked(l)
    ensures DetachIntended(DetachIntended(Attach(Attach(Listeners(0, {}), 1), 2), 1), 2) == Listeners(0, {})
  {
  }

  /**
   The enlarge behaviours of one canvas, over the session whose boxes they
   scale. The click methods follow the intended handlers (see
   `ClickGuarded`, `BackgroundGuarded`, `DetachIntended`).
   */
  class Enlarger {
    const session: Session
    /** `lastBigDiv`, by box id. */
    var lastBig: Option<int>
    /** `addedToCanvas` and the registered background handlers. */
    var listeners: Listeners
    /** The boxes whose click handler is registered on their element. */
    var clicks: set<int>

    ghost predicate Valid()
      reads this, session
    {
      Focused(View(lastBig, session.boxes)) && Tracked(listeners)
    }

    /** `MkEnlargeBehaviour(canvas)`: nothing enlarged, nothing registered. */
    constructor (session: Session)
      requires forall k :: k in session.boxes ==> !Enlarged(session.boxes[k])
      ensures Valid()
      ensures this.session == session && lastBig == None && listeners == Listeners(0, {}) && clicks == {}
    {
      this.session := session;
      lastBig := None;
      listeners := Listeners(0, {});
      clicks := {};
    }

    /** `add` of box `d`'s behaviour. */
    method Add(d: int)
      requires Valid()
      modifies this
      ensures Valid()
      ensures listeners == Attach(old(listeners), d) && clicks == old(clicks) + {d} && lastBig == old(lastBig)
    {
      ListenersTracked(listeners, d);
      clicks := clicks + {d};
      if listeners.added == 0 {
        listeners := listeners.(canvas := listeners.canvas + {d});
      }
      listeners := listeners.(added := listeners.added + 1);
    }

    /** `remove` of box `d`'s behaviour, after its `add`. */
    method Remove(d: int)
      requires Valid() && listeners.added > 0
      modifies this
      ensures Valid()
      ensures listeners == DetachIntended(old(listeners), d) && clicks == old(clicks) - {d} && lastBig == old(lastBig)
    {
      ListenersTracked(listeners, d);
      clicks := clicks - {d};
      listeners := listeners.(added := listeners.added - 1);
      if listeners.added == 0 {
        listeners := listeners.(canvas := {});
      }
    }

    /** A click on box `d`, handled when its click handler is registered. */
    method ClickBox(d: int)
      requires Valid()
      modifies this, session`boxes
      ensures Valid()
      ensures d in clicks ==> View(lastBig, session.boxes) == ClickGuarded(View(old(lastBig), old(session.boxes)), d)
      ensures d !in clicks ==> lastBig == old(lastBig) && session.boxes == old(session.boxes)
      ensures listeners == old(listeners) && clicks == old(clicks)
      ensures old(session.Valid()) ==> session.Valid()
    {
      ClickKeepsFocus(View(lastBig, session.boxes), d);
      if d in clicks && d in session.boxes {
        var b := session.boxes[d];
        session.boxes := session.boxes[d := b.(sx := 1.5, sy := 1.5)];
        if lastBig.Some? && lastBig.value != d && lastBig.value in session.boxes {
          var p := lastBig.value;
          var b2 := session.boxes[p];
          session.boxes := session.boxes[p := b2.(sx := 1.0, sy := 1.0)];
        }
        lastBig := Some(d);
      }
    }

    /** A click on the canvas background, handled when a background handler is registered. */
    method ClickCanvas()
      requires Valid()
      modifies this, session`boxes
      ensures Valid()
      ensures listeners.canvas != {} ==> View(lastBig, session.boxes) == BackgroundGuarded(View(old(lastBig), old(session.boxes)))
      ensures listeners.canvas == {} ==> lastBig == old(lastBig) && session.boxes == old(session.boxes)
      ensures listeners == old(listeners) && clicks == old(clicks)
      ensures old(session.Valid()) ==> session.Valid()
    {
      BackgroundClears(View(lastBig, session.boxes));
      if listeners.canvas != {} {
        if lastBig.Some? && lastBig.value in session.boxes {
          var p := lastBig.value;
          var b := session.boxes[p];
          session.boxes := session.boxes[p := b.(sx := 1.0, sy := 1.0)];
        }
        lastBig := None;
      }
    }
  }
}
