/**
 The document session: the closure state of `init` (the live boxes, the
 history and the next-id counter) together with the key-value store it
 saves to, and the operations that change them.
 */
module DocumentSession {
  import opened Records
  import opened Ordering
  import opened History
  import opened Reconcile
  import opened Store

  /** The record a meta-click on the canvas creates for a fresh id at the click position. */
  function NewBox(id: nat, x: int, y: int): (r: Box)
    ensures r.version == 1 && r.id == id && r.elementId == ElementId(id)
    ensures r.x == x && r.y == y && r.dx == 0 && r.dy == 0
    ensures r.sx == 1.0 && r.sy == 1.0 && r.content == ""
  {
    Box(1, id, ElementId(id), x, y, 0, 0, 1.0, 1.0, "25em", "10em", "")
  }

  /** The live boxes while `save` is under way: keys still in `todo` hold their old record. */
  ghost function Pending(boxes: map<int, Box>, history: seq<Block>, views: map<string, Widget>, todo: set<int>): map<int, Box>
  {
    map k | k in boxes :: if k in todo then boxes[k] else Refreshed(boxes, history, views)[k]
  }

  /** Recording one more box moves it from the old records to the refreshed ones. */
  lemma PendingStep(boxes: map<int, Box>, history: seq<Block>, views: map<string, Widget>, todo: set<int>, k: int)
    requires k in todo && k in boxes
    ensures Pending(boxes, history, views, todo)[k := Refreshed(boxes, history, views)[k]] ==
            Pending(boxes, history, views, todo - {k})
  {
  }

  /** Before the loop every box holds its old record; after it, its refreshed one. */
  lemma PendingEnds(boxes: map<int, Box>, history: seq<Block>, views: map<string, Widget>)
    ensures Pending(boxes, history, views, boxes.Keys) == boxes
    ensures Pending(boxes, history, views, {}) == Refreshed(boxes, history, views)
  {
  }

  /** Visiting one more key adds that key's snapshot, if any, at the end. */
  lemma ItemsSnoc(boxes: map<int, Box>, history: seq<Block>, views: map<string, Widget>, done: seq<int>, k: int)
    ensures Items(boxes, history, views, done + [k]) ==
            Items(boxes, history, views, done) +
            (if Changed(boxes, history, views, k) then [SnapshotOf(boxes, history, views, k)] else [])
  {
  }

  class Session {
    /** The live boxes by id (`boxes`). */
    var boxes: map<int, Box>
    /** The append-only log of `modified` and `deleted` blocks (`history`). */
    var history: seq<Block>
    /** The id the next created box takes (`id`). */
    var nextId: int
    /** The browser's key-value store. */
    var store: map<string, Value>

    /**
     The session invariant: the boxes are keyed by their ids, no live box
     is shadowed by a tombstone, and the counter is at least 1 and above
     every live id and every id any history block holds, so no id is
     ever handed out twice.
     */
    ghost predicate Valid()
      reads this
    {
      Consistent(boxes, history) && 1 <= nextId &&
      (forall k :: k in boxes ==> k < nextId) &&
      HistoryIdsBelow(history, nextId)
    }

    /** The state `init` starts from, before any document is loaded. */
    constructor (store: map<string, Value>)
      ensures Valid()
      ensures boxes == map[] && history == [] && nextId == 1 && this.store == store
    {
      boxes := map[];
      history := [];
      nextId := 1;
      this.store := store;
    }

    /** `getLatest`: the newest record of a box, `None` under a tombstone or for an unknown id. */
    method GetLatest(boxid: int) returns (r: Option<Box>)
      ensures r == Latest(history, boxes, boxid)
    {
      var i := |history|;
      while i > 0
        invariant 0 <= i <= |history|
        invariant forall j :: i <= j < |history| ==> !Mentions(history[j], boxid)
      {
        i := i - 1;
        var block := history[i];
        var k := 0;
        while k < |block.items|
          invariant 0 <= k <= |block.items|
          invariant forall q :: 0 <= q < k ==> block.items[q].id != boxid
        {
          if block.items[k].id == boxid {
            FindFirst(block.items, boxid, k);
            ScanAtMostRecent(history, boxid, i);
            if block.Modified? {
              return Some(block.items[k]);
            } else {
              return None;
            }
          }
          k := k + 1;
        }
      }
      ScanUnmentioned(history, boxid);
      if boxid in boxes {
        r := Some(boxes[boxid]);
      } else {
        r := None;
      }
    }

    /**
     One step of the loop of `save`: box `k` is compared with its latest
     record and, when it differs, its snapshot is returned and the live box
     refreshed from it.
     */
    method Visit(k: int, views: map<string, Widget>, ghost B0: map<int, Box>, ghost todo: set<int>) returns (item: seq<Box>)
      requires Consistent(B0, history)
      requires k in todo && todo <= B0.Keys
      requires boxes == Pending(B0, history, views, todo)
      modifies this
      ensures item == if Changed(B0, history, views, k) then [SnapshotOf(B0, history, views, k)] else []
      ensures boxes == Pending(B0, history, views, todo - {k})
      ensures history == old(history) && nextId == old(nextId) && store == old(store)
    {
      var b := boxes[k];
      assert b == B0[k] && b.id == k;
      PendingStep(B0, history, views, todo, k);
      item := [];
      if b.elementId in views {
        assert Latest(history, boxes, b.id) == Latest(history, B0, k);
        var latest := GetLatest(b.id);
        assert latest.Some?;
        var l := latest.value;
        var w := views[b.elementId];
        if w.text != l.content || b.width != l.width || b.height != l.height ||
           b.x != l.x || b.y != l.y || b.dx != l.dx || b.dy != l.dy
        {
          var b2 := l.(version := l.version + 1, content := w.text, width := w.width, height := w.height);
          item := [b2];
          boxes := boxes[k := b.(version := b2.version, content := b2.content, width := b2.width, height := b2.height)];
        }
      }
    }

    /**
     The loop of `save`: visits the live boxes in ascending id order and
     collects the snapshots of the changed ones, refreshing each live box
     it records.
     */
    method RecordChanges(views: map<string, Widget>) returns (block: seq<Box>)
      requires Valid()
      modifies this
      ensures block == SavedItems(old(boxes), old(history), views)
      ensures boxes == Refreshed(old(boxes), old(history), views)
      ensures history == old(history) && nextId == old(nextId) && store == old(store)
    {
      ghost var B0 := boxes;
      block := [];
      var todo := boxes.Keys;
      ghost var done: seq<int> := [];
      PendingEnds(B0, history, views);
      while todo != {}
        invariant todo <= B0.Keys
        invariant SortedKeys(B0.Keys) == done + SortedKeys(todo)
        invariant block == Items(B0, history, views, done)
        invariant boxes == Pending(B0, history, views, todo)
        invariant history == old(history) && nextId == old(nextId) && store == old(store)
        decreases todo
      {
        MinExists(todo);
        var k :| k in todo && forall j :: j in todo ==> k <= j;
        SortedKeysStep(todo, k);
        assert done + SortedKeys(todo) == (done + [k]) + SortedKeys(todo - {k});
        ItemsSnoc(B0, history, views, done, k);
        var item := Visit(k, views, B0, todo);
        block := block + item;
        done := done + [k];
        todo := todo - {k};
      }
      assert done + [] == done;
    }

    /**
     `save(name)`: records the changed boxes, appends them as one
     `modified` block (nothing when no box changed), and writes the
     document's three keys to the store unless the name is empty.
     */
    method Save(name: string, views: map<string, Widget>, lang: string) returns (stored: bool)
      requires Valid()
      modifies this
      ensures Valid()
      ensures boxes == Refreshed(old(boxes), old(history), views)
      ensures history == old(history) + Appended(SavedItems(old(boxes), old(history), views))
      ensures Chronological(old(history)) ==> Chronological(history)
      ensures nextId == old(nextId)
      ensures stored == (name != "")
      ensures store == if stored then SavedStore(old(store), name, boxes, history, lang) else old(store)
    {
      var block := RecordChanges(views);
      if |block| > 0 {
        history := history + [Modified(block)];
      }
      SaveKeepsLive(old(boxes), old(history), views);
      SaveKeepsIdsBelow(old(boxes), old(history), views, nextId);
      if Chronological(old(history)) {
        SaveKeepsChronological(old(boxes), old(history), views);
      }
      if name == "" {
        return false;
      }
      store := store[name := BoxMap(boxes)];
      store := store[HistoryKey(name) := Log(history)];
      store := store[LanguageKey(name) := Text(lang)];
      stored := true;
    }

    /**
     `loadBoxes(name)`: replaces the live boxes by the stored ones (each
     re-created under its record id), replaces the history by the stored
     one (or the empty one), and raises the counter past every id seen. A
     value that does not parse stops the load where it is.
     */
    method LoadBoxes(name: string) returns (ok: bool)
      requires Valid()
      modifies this
      ensures store == old(store)
      ensures ok <==> !ReadBoxes(store, name).Malformed? && !ReadHistory(store, name).Malformed?
      ensures ReadBoxes(store, name).Malformed? ==>
                boxes == old(boxes) && history == old(history) && nextId == old(nextId)
      ensures ReadBoxes(store, name).Absent? ==> boxes == old(boxes)
      ensures ReadBoxes(store, name).Parsed? && WellKeyed(ReadBoxes(store, name).value) ==>
                boxes == ReadBoxes(store, name).value
      ensures !ReadBoxes(store, name).Malformed? ==>
                history == match ReadHistory(store, name)
                           case Absent => []
                           case Parsed(h) => h
                           case Malformed => old(history)
      ensures nextId >= old(nextId)
      ensures forall k :: k in boxes ==> boxes[k].id < nextId
      ensures ok ==> HistoryIdsBelow(history, nextId)
      ensures ok && Consistent(boxes, history) ==> Valid()
    {
      match ReadBoxes(store, name) {
        case Malformed =>
          return false;
        case Absent =>
        case Parsed(m) =>
          boxes := m;
          var todo := m.Keys;
          while todo != {}
            invariant todo <= m.Keys
            invariant nextId >= old(nextId)
            invariant forall k :: k in todo ==> k in boxes
            invariant forall k :: k in boxes ==> boxes[k].id < nextId || (k in todo && boxes[k] == m[k])
            invariant WellKeyed(m) ==> boxes == m
            invariant history == old(history) && store == old(store)
            decreases todo
          {
            NonEmpty(todo);
            var k :| k in todo;
            var b := boxes[k];
            boxes := boxes[b.id := b];
            nextId := Max(b.id + 1, nextId);
            todo := todo - {k};
          }
      }
      match ReadHistory(store, name) {
        case Malformed =>
          return false;
        case Absent =>
          history := [];
        case Parsed(h) =>
          history := h;
      }
      ghost var n0 := nextId;
      label Loaded:
      var i := 0;
      while i < |history|
        invariant 0 <= i <= |history|
        invariant Bump(nextId, history[i..]) == Bump(n0, history)
        invariant boxes == old@Loaded(boxes) && history == old@Loaded(history) && store == old(store)
        decreases |history| - i
      {
        var items := history[i].items;
        ghost var ni := nextId;
        assert history[i..][0] == history[i] && history[i..][1..] == history[i + 1..];
        var j := 0;
        while j < |items|
          invariant 0 <= j <= |items|
          invariant BumpItems(nextId, items[j..]) == BumpItems(ni, items)
          invariant boxes == old@Loaded(boxes) && history == old@Loaded(history) && store == old(store)
        {
          assert items[j..][0] == items[j] && items[j..][1..] == items[j + 1..];
          nextId := Max(items[j].id + 1, nextId);
          j := j + 1;
        }
        i := i + 1;
      }
      BumpBounds(n0, history);
      ok := true;
    }

    /**
     A meta-click on the canvas at (x, y) creates a box under the current
     counter and increments it; any other click creates nothing. The new
     id has never been used: no history block mentions it, so its latest
     record is the new box itself.
     */
    method CreateBox(meta: bool, x: int, y: int) returns (created: Option<int>)
      requires Valid()
      modifies this
      ensures Valid()
      ensures history == old(history) && store == old(store)
      ensures !meta ==> created == None && boxes == old(boxes) && nextId == old(nextId)
      ensures meta ==>
                created == Some(old(nextId)) && nextId == old(nextId) + 1 &&
                old(nextId) !in old(boxes) &&
                boxes == old(boxes)[old(nextId) := NewBox(old(nextId), x, y)]
      ensures meta ==>
                (forall i :: 0 <= i < |history| ==> !Mentions(history[i], old(nextId))) &&
                Latest(history, boxes, old(nextId)) == Some(NewBox(old(nextId), x, y))
    {
      if !meta {
        return None;
      }
      var boxid: nat := nextId;
      nextId := nextId + 1;
      boxes := boxes[boxid := NewBox(boxid, x, y)];
      FreshIdUnmentioned(history, boxid, boxid);
      created := Some(boxid);
    }

    /**
     An alt-click on a box deletes it: a `deleted` block holding a copy of
     its record is appended and the box leaves the live map. Afterwards its
     latest record is `None`, and every other id looks up as before.
     */
    method DeleteBox(d: int)
      requires Valid() && d in boxes
      modifies this
      ensures Valid()
      ensures history == old(history) + [Deleted([old(boxes)[d]])]
      ensures Chronological(old(history)) ==> Chronological(history)
      ensures boxes == old(boxes) - {d}
      ensures nextId == old(nextId) && store == old(store)
      ensures Latest(history, boxes, d) == None
      ensures forall k :: k != d ==> Latest(history, boxes, k) == Latest(old(history), old(boxes), k)
    {
      var b := boxes[d];
      history := history + [Deleted([b])];
      boxes := boxes - {d};
      TombstoneShadows(old(history), boxes, b);
      forall k | k != d
        ensures Scan(history, k) == Scan(old(history), k)
      {
        TombstoneSkipsOthers(old(history), b, k);
      }
    }
  }

  /**
   Saving a valid session under a name and loading that name into a fresh
   session restores exactly the saved boxes and history.
   */
  method SaveAndReopen(s: Session, name: string, views: map<string, Widget>, lang: string) returns (t: Session)
    requires s.Valid() && name != ""
    modifies s
    ensures t.Valid()
    ensures t.boxes == s.boxes && t.history == s.history && t.store == s.store
    ensures s.boxes == Refreshed(old(s.boxes), old(s.history), views)
  {
    var stored := s.Save(name, views, lang);
    SavedStoreReadsBack(old(s.store), name, s.boxes, s.history, lang);
    t := new Session(s.store);
    var ok := t.LoadBoxes(name);
  }
}
