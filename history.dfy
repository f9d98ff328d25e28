/**
 The history log and the backward lookup `getLatest` performs on it, as
 functions; the session's `GetLatest` method is proved against them.
 */
module History {
  import opened Records

  /** The first item of a block carrying the id (the inner loop of `getLatest`). */
  function Find(items: seq<Box>, id: int): (r: Option<Box>)
    ensures r.Some? ==> r.value in items && r.value.id == id
    ensures r.None? <==> forall p :: 0 <= p < |items| ==> items[p].id != id
  {
    if items == [] then None
    else if items[0].id == id then Some(items[0])
    else Find(items[1..], id)
  }

  /** Find picks the item at the first position that carries the id. */
  lemma {:induction false} FindFirst(items: seq<Box>, id: int, p: int)
    requires 0 <= p < |items| && items[p].id == id
    requires forall q :: 0 <= q < p ==> items[q].id != id
    ensures Find(items, id) == Some(items[p])
  {
    if p > 0 {
      FindFirst(items[1..], id, p - 1);
    }
  }

  predicate Mentions(block: Block, id: int)
  {
    Find(block.items, id).Some?
  }

  /** What the backward scan of `getLatest` finds in the history. */
  datatype Lookup = Record(box: Box) | Tombstone | Unmentioned

  /**
   Scans the blocks from the last to the first: the first block that
   mentions the id decides, a `modified` one with its item, a `deleted`
   one with a tombstone.
   */
  function Scan(h: seq<Block>, id: int): (r: Lookup)
    ensures r.Record? ==> r.box.id == id
  {
    if h == [] then Unmentioned
    else
      var last := h[|h| - 1];
      match Find(last.items, id)
      case Some(b) => if last.Modified? then Record(b) else Tombstone
      case None => Scan(h[..|h| - 1], id)
  }

  /**
   `getLatest(id)`: the record of the scan, no record (`null`) under a
   tombstone, else the live box (or `undefined`, also modelled as None).
   */
  function Latest(h: seq<Block>, boxes: map<int, Box>, id: int): (r: Option<Box>)
    ensures r.None? <==> Scan(h, id).Tombstone? || (Scan(h, id).Unmentioned? && id !in boxes)
    ensures Scan(h, id).Unmentioned? && id in boxes ==> r == Some(boxes[id])
    ensures r.Some? && (id in boxes ==> boxes[id].id == id) ==> r.value.id == id
  {
    match Scan(h, id)
    case Record(b) => Some(b)
    case Tombstone => None
    case Unmentioned => if id in boxes then Some(boxes[id]) else None
  }

  /** Block `i` is the last block of `h` that mentions `id`. */
  ghost predicate MostRecentMention(h: seq<Block>, id: int, i: int)
  {
    0 <= i < |h| && Mentions(h[i], id) &&
    forall j :: i < j < |h| ==> !Mentions(h[j], id)
  }

  /** The scan falls through to the live box exactly when no block mentions the id. */
  lemma {:induction false} ScanUnmentioned(h: seq<Block>, id: int)
    ensures Scan(h, id).Unmentioned? <==> forall i :: 0 <= i < |h| ==> !Mentions(h[i], id)
  {
    if h != [] {
      var front := h[..|h| - 1];
      ScanUnmentioned(front, id);
      assert forall i :: 0 <= i < |front| ==> front[i] == h[i];
    }
  }

  /**
   The scan is decided by the most recent block that mentions the id: its
   item if that block is `modified`, a tombstone if it is `deleted`, so a
   deletion shadows every older record.
   */
  lemma {:induction false} ScanAtMostRecent(h: seq<Block>, id: int, i: int)
    requires MostRecentMention(h, id, i)
    ensures Scan(h, id) == if h[i].Modified? then Record(Find(h[i].items, id).value) else Tombstone
  {
    if i < |h| - 1 {
      var front := h[..|h| - 1];
      assert !Mentions(h[|h| - 1], id);
      assert MostRecentMention(front, id, i) by {
        assert forall j :: 0 <= j < |front| ==> front[j] == h[j];
      }
      ScanAtMostRecent(front, id, i);
    }
  }

  /** When some block mentions the id, there is a most recent such block. */
  lemma {:induction false} MostRecentExists(h: seq<Block>, id: int, i: int)
    requires 0 <= i < |h| && Mentions(h[i], id)
    ensures exists j :: MostRecentMention(h, id, j)
    decreases |h| - i
  {
    if !MostRecentMention(h, id, i) {
      var j :| i < j < |h| && Mentions(h[j], id);
      MostRecentExists(h, id, j);
    }
  }

  /** Blocks that do not mention the id leave its lookup as it was. */
  lemma {:induction false} ScanSkipsUnrelated(h: seq<Block>, tail: seq<Block>, id: int)
    requires forall j :: 0 <= j < |tail| ==> !Mentions(tail[j], id)
    ensures Scan(h + tail, id) == Scan(h, id)
  {
    if tail != [] {
      var front := tail[..|tail| - 1];
      assert (h + tail)[..|h + tail| - 1] == h + front;
      assert (h + tail)[|h + tail| - 1] == tail[|tail| - 1];
      assert !Mentions(tail[|tail| - 1], id);
      assert h + tail != [];
      assert Scan(h + tail, id) == Scan(h + front, id);
      ScanSkipsUnrelated(h, front, id);
    } else {
      assert h + tail == h;
    }
  }

  /** A `deleted` block holding the record makes every later lookup `null`. */
  lemma TombstoneShadows(h: seq<Block>, boxes: map<int, Box>, b: Box)
    ensures Scan(h + [Deleted([b])], b.id) == Tombstone
    ensures Latest(h + [Deleted([b])], boxes, b.id) == None
  {
  }

  /** A tombstone for one record leaves the lookup of every other id as it was. */
  lemma TombstoneSkipsOthers(h: seq<Block>, b: Box, id: int)
    requires id != b.id
    ensures Scan(h + [Deleted([b])], id) == Scan(h, id)
  {
  }

  // ---- ids that occur in the history ----

  /** Every id of an item of a block of `h` is below `n`. */
  ghost predicate HistoryIdsBelow(h: seq<Block>, n: int)
  {
    forall i, p :: 0 <= i < |h| && 0 <= p < |h[i].items| ==> h[i].items[p].id < n
  }

  /** An id at or above the bound is mentioned by no block, so its lookup falls through to the live boxes. */
  lemma FreshIdUnmentioned(h: seq<Block>, n: int, id: int)
    requires HistoryIdsBelow(h, n) && n <= id
    ensures forall i :: 0 <= i < |h| ==> !Mentions(h[i], id)
    ensures Scan(h, id) == Unmentioned
  {
  }

  /** The id counter after the `Math.max` loop of `loadBoxes` over one block's items. */
  function BumpItems(n: int, items: seq<Box>): int
    decreases items
  {
    if items == [] then n else BumpItems(Max(items[0].id + 1, n), items[1..])
  }

  /** The id counter after the `Math.max` loop of `loadBoxes` over the whole history. */
  function Bump(n: int, h: seq<Block>): int
    decreases h
  {
    if h == [] then n else Bump(BumpItems(n, h[0].items), h[1..])
  }

  /**
   Raising past one block's items gives at least the starting value, is
   above every item id, and is either the start or one past an item id.
   */
  lemma {:induction false} BumpItemsBounds(n: int, items: seq<Box>)
    ensures BumpItems(n, items) >= n
    ensures forall p :: 0 <= p < |items| ==> items[p].id < BumpItems(n, items)
    ensures BumpItems(n, items) == n ||
            exists p :: 0 <= p < |items| && BumpItems(n, items) == items[p].id + 1
    decreases items
  {
    if items != [] {
      var n' := Max(items[0].id + 1, n);
      BumpItemsBounds(n', items[1..]);
      assert forall p :: 1 <= p < |items| ==> items[p] == items[1..][p - 1];
      if BumpItems(n', items[1..]) != n' {
        var p :| 0 <= p < |items[1..]| && BumpItems(n', items[1..]) == items[1..][p].id + 1;
        assert BumpItems(n, items) == items[p + 1].id + 1;
      }
    }
  }

  /**
   The id counter after the history loop of `loadBoxes` is above every item
   id in every block, `deleted` ones included, never below where it started,
   and no larger than it must be.
   */
  lemma {:induction false} BumpBounds(n: int, h: seq<Block>)
    ensures Bump(n, h) >= n
    ensures HistoryIdsBelow(h, Bump(n, h))
    ensures Bump(n, h) == n ||
            exists i, p :: 0 <= i < |h| && 0 <= p < |h[i].items| && Bump(n, h) == h[i].items[p].id + 1
    decreases h
  {
    if h != [] {
      var n' := BumpItems(n, h[0].items);
      BumpItemsBounds(n, h[0].items);
      BumpBounds(n', h[1..]);
      assert forall i :: 1 <= i < |h| ==> h[i] == h[1..][i - 1];
      if Bump(n', h[1..]) != n' {
        var i, p :| 0 <= i < |h[1..]| && 0 <= p < |h[1..][i].items| && Bump(n', h[1..]) == h[1..][i].items[p].id + 1;
        assert Bump(n, h) == h[i + 1].items[p].id + 1;
      } else if n' != n {
        var p :| 0 <= p < |h[0].items| && n' == h[0].items[p].id + 1;
        assert Bump(n, h) == h[0].items[p].id + 1;
      }
    }
  }

  // ---- version order ----

  /**
   The history is chronological: no block holds two items of one id, and
   along the `modified` blocks the versions of one id strictly increase.
   */
  ghost predicate Chronological(h: seq<Block>)
  {
    (forall i, p, q :: 0 <= i < |h| && 0 <= p < q < |h[i].items| ==> h[i].items[p].id != h[i].items[q].id) &&
    (forall i, j, p, q ::
       0 <= i < j < |h| && h[i].Modified? && h[j].Modified? &&
       0 <= p < |h[i].items| && 0 <= q < |h[j].items| &&
       h[i].items[p].id == h[j].items[q].id
       ==> h[i].items[p].version < h[j].items[q].version)
  }

  /**
   In a chronological history, the record the scan finds has a version at
   least that of every record of the same id in any `modified` block.
   */
  lemma LatestRecordIsNewest(h: seq<Block>, id: int, r: Box)
    requires Chronological(h)
    requires Scan(h, id) == Record(r)
    ensures forall i, p :: 0 <= i < |h| && h[i].Modified? && 0 <= p < |h[i].items| && h[i].items[p].id == id
              ==> h[i].items[p].version <= r.version
  {
  }
}
