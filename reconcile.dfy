/**
 What `save` computes: for every live box with an editor, a comparison
 against its latest record and, when they differ, a version-bumped
 snapshot. The session's `Save` method is proved to compute exactly
 `SavedItems` and `Refreshed` below.
 */
module Reconcile {
  import opened Records
  import opened Ordering
  import opened History

  /** The change test of `save`: the editor text, the stored size, the anchor and the offset (never the scale). */
  predicate Differs(b: Box, latest: Box, text: string)
  {
    text != latest.content || b.width != latest.width || b.height != latest.height ||
    b.x != latest.x || b.y != latest.y || b.dx != latest.dx || b.dy != latest.dy
  }

  /** The snapshot: a copy of the latest record with a bumped version and the widget's text and size. */
  function Snapshot(latest: Box, w: Widget): Box
  {
    latest.(version := latest.version + 1, content := w.text, width := w.width, height := w.height)
  }

  /** The live box after `save` recorded it: it takes the snapshot's version, text and size. */
  function Refresh(b: Box, snap: Box): Box
  {
    b.(version := snap.version, content := snap.content, width := snap.width, height := snap.height)
  }

  /** The box is live and its element (with its editor) is on the page. */
  predicate Shown(boxes: map<int, Box>, views: map<string, Widget>, k: int)
  {
    k in boxes && boxes[k].elementId in views
  }

  /**
   What `save` needs to run to the end: the map is keyed by record ids, and
   no shown box has a tombstone as its latest record (`latest.content` on
   `null` would throw).
   */
  ghost predicate Ready(boxes: map<int, Box>, history: seq<Block>, views: map<string, Widget>)
  {
    WellKeyed(boxes) &&
    forall k :: Shown(boxes, views, k) ==> !Scan(history, k).Tombstone?
  }

  /** Box `k` is shown and differs from its latest record: `save` records it. */
  predicate Changed(boxes: map<int, Box>, history: seq<Block>, views: map<string, Widget>, k: int)
  {
    Shown(boxes, views, k) && Latest(history, boxes, k).Some? &&
    Differs(boxes[k], Latest(history, boxes, k).value, views[boxes[k].elementId].text)
  }

  function SnapshotOf(boxes: map<int, Box>, history: seq<Block>, views: map<string, Widget>, k: int): Box
    requires Changed(boxes, history, views, k)
  {
    Snapshot(Latest(history, boxes, k).value, views[boxes[k].elementId])
  }

  /** In a well-keyed map, the record `getLatest` finds for a key carries that key as its id. */
  lemma LatestCarriesId(boxes: map<int, Box>, history: seq<Block>, k: int)
    requires WellKeyed(boxes) && Latest(history, boxes, k).Some?
    ensures Latest(history, boxes, k).value.id == k
  {
  }

  /** The snapshots `save` collects while visiting `keys` in order. */
  function Items(boxes: map<int, Box>, history: seq<Block>, views: map<string, Widget>, keys: seq<int>): seq<Box>
  {
    if keys == [] then []
    else
      var k := keys[|keys| - 1];
      Items(boxes, history, views, keys[..|keys| - 1]) +
      (if Changed(boxes, history, views, k) then [SnapshotOf(boxes, history, views, k)] else [])
  }

  /** The items of the block `save` appends: one snapshot per changed box, in key order. */
  ghost function SavedItems(boxes: map<int, Box>, history: seq<Block>, views: map<string, Widget>): seq<Box>
  {
    Items(boxes, history, views, SortedKeys(boxes.Keys))
  }

  /** The live boxes after `save`. */
  function Refreshed(boxes: map<int, Box>, history: seq<Block>, views: map<string, Widget>): map<int, Box>
  {
    map k | k in boxes ::
      if Changed(boxes, history, views, k) then Refresh(boxes[k], SnapshotOf(boxes, history, views, k))
      else boxes[k]
  }

  /** What `save` appends to the history: one `modified` block, or nothing when no box changed. */
  function Appended(items: seq<Box>): seq<Block>
  {
    if items == [] then [] else [Modified(items)]
  }

  /** `b` is the snapshot of a changed box whose key is among `keys`. */
  ghost predicate CollectedFrom(boxes: map<int, Box>, history: seq<Block>, views: map<string, Widget>, keys: seq<int>, b: Box)
  {
    (exists i :: 0 <= i < |keys| && keys[i] == b.id) &&
    Changed(boxes, history, views, b.id) && b == SnapshotOf(boxes, history, views, b.id)
  }

  /** Every snapshot collected over a list of keys is the snapshot of a changed box among them. */
  lemma {:induction false} ItemsSound(boxes: map<int, Box>, history: seq<Block>, views: map<string, Widget>, keys: seq<int>)
    requires WellKeyed(boxes)
    ensures forall p :: 0 <= p < |Items(boxes, history, views, keys)| ==>
      CollectedFrom(boxes, history, views, keys, Items(boxes, history, views, keys)[p])
  {
    if keys != [] {
      var front := keys[..|keys| - 1];
      var k := keys[|keys| - 1];
      ItemsSound(boxes, history, views, front);
      var r0 := Items(boxes, history, views, front);
      var r := Items(boxes, history, views, keys);
      forall p | 0 <= p < |r|
        ensures CollectedFrom(boxes, history, views, keys, r[p])
      {
        if p < |r0| {
          assert r[p] == r0[p];
          assert CollectedFrom(boxes, history, views, front, r0[p]);
          var i :| 0 <= i < |front| && front[i] == r[p].id;
          assert keys[i] == front[i];
        } else {
          assert r[p] == SnapshotOf(boxes, history, views, k);
          LatestCarriesId(boxes, history, k);
          assert keys[|keys| - 1] == r[p].id;
        }
      }
    }
  }

  /** Some item of `r` carries the id. */
  ghost predicate Carries(r: seq<Box>, id: int)
  {
    exists p :: 0 <= p < |r| && r[p].id == id
  }

  /** Every changed box among the keys has its snapshot collected. */
  lemma {:induction false} ItemsComplete(boxes: map<int, Box>, history: seq<Block>, views: map<string, Widget>, keys: seq<int>)
    requires WellKeyed(boxes)
    ensures forall i :: 0 <= i < |keys| && Changed(boxes, history, views, keys[i]) ==>
      Carries(Items(boxes, history, views, keys), keys[i])
  {
    if keys != [] {
      var front := keys[..|keys| - 1];
      var k := keys[|keys| - 1];
      ItemsComplete(boxes, history, views, front);
      var r0 := Items(boxes, history, views, front);
      var r := Items(boxes, history, views, keys);
      forall i | 0 <= i < |keys| && Changed(boxes, history, views, keys[i])
        ensures Carries(r, keys[i])
      {
        if i < |front| {
          assert front[i] == keys[i];
          assert Carries(r0, front[i]);
          var p :| 0 <= p < |r0| && r0[p].id == front[i];
          assert r[p] == r0[p];
        } else {
          assert r[|r| - 1] == SnapshotOf(boxes, history, views, k);
          LatestCarriesId(boxes, history, k);
          assert r[|r| - 1].id == keys[i];
        }
      }
    }
  }

  /** Visiting keys in ascending order collects snapshots in ascending id order. */
  lemma {:induction false} ItemsAscending(boxes: map<int, Box>, history: seq<Block>, views: map<string, Widget>, keys: seq<int>)
    requires WellKeyed(boxes)
    requires Ascending(keys)
    ensures forall p, q :: 0 <= p < q < |Items(boxes, history, views, keys)| ==>
      Items(boxes, history, views, keys)[p].id < Items(boxes, history, views, keys)[q].id
  {
    if keys != [] {
      var front := keys[..|keys| - 1];
      var k := keys[|keys| - 1];
      ItemsAscending(boxes, history, views, front);
      ItemsSound(boxes, history, views, front);
      var r0 := Items(boxes, history, views, front);
      var r := Items(boxes, history, views, keys);
      forall p, q | 0 <= p < q < |r|
        ensures r[p].id < r[q].id
      {
        assert r[p] == r0[p];
        if q < |r0| {
          assert r[q] == r0[q];
        } else {
          assert r[q] == SnapshotOf(boxes, history, views, k);
          LatestCarriesId(boxes, history, k);
          assert CollectedFrom(boxes, history, views, front, r0[p]);
          var i :| 0 <= i < |front| && front[i] == r[p].id;
          assert keys[i] == front[i];
        }
      }
    }
  }

  /** When no box among the keys changed, nothing is collected. */
  lemma {:induction false} ItemsNone(boxes: map<int, Box>, history: seq<Block>, views: map<string, Widget>, keys: seq<int>)
    requires forall i :: 0 <= i < |keys| ==> !Changed(boxes, history, views, keys[i])
    ensures Items(boxes, history, views, keys) == []
  {
    if keys != [] {
      ItemsNone(boxes, history, views, keys[..|keys| - 1]);
    }
  }

  /**
   The block `save` appends holds exactly the snapshots of the changed
   boxes, each once, in ascending id order, and is empty when no box changed.
   */
  lemma SavedItemsExact(boxes: map<int, Box>, history: seq<Block>, views: map<string, Widget>)
    requires WellKeyed(boxes)
    ensures var r := SavedItems(boxes, history, views);
      forall p :: 0 <= p < |r| ==>
        Changed(boxes, history, views, r[p].id) && r[p] == SnapshotOf(boxes, history, views, r[p].id)
    ensures var r := SavedItems(boxes, history, views);
      forall k :: Changed(boxes, history, views, k) ==> exists p :: 0 <= p < |r| && r[p].id == k
    ensures var r := SavedItems(boxes, history, views);
      forall p, q :: 0 <= p < q < |r| ==> r[p].id < r[q].id
    ensures (forall k :: k in boxes ==> !Changed(boxes, history, views, k)) ==> SavedItems(boxes, history, views) == []
  {
    var keys := SortedKeys(boxes.Keys);
    var r := SavedItems(boxes, history, views);
    ItemsSound(boxes, history, views, keys);
    ItemsComplete(boxes, history, views, keys);
    ItemsAscending(boxes, history, views, keys);
    forall k | Changed(boxes, history, views, k)
      ensures exists p :: 0 <= p < |r| && r[p].id == k
    {
      SortedKeysComplete(boxes.Keys, k);
      var i :| 0 <= i < |keys| && keys[i] == k;
      assert Changed(boxes, history, views, keys[i]);
    }
    if forall k :: k in boxes ==> !Changed(boxes, history, views, k) {
      ItemsNone(boxes, history, views, keys);
    }
  }

  /** A snapshot keeps every field of the latest record except the version, which rises by one, and the text and size, which come from the editor. */
  lemma SnapshotFields(boxes: map<int, Box>, history: seq<Block>, views: map<string, Widget>, k: int)
    requires Changed(boxes, history, views, k)
    ensures var s, base, w := SnapshotOf(boxes, history, views, k), Latest(history, boxes, k).value, views[boxes[k].elementId];
      s.version == base.version + 1 && s.content == w.text && s.width == w.width && s.height == w.height &&
      s.(version := base.version, content := base.content, width := base.width, height := base.height) == base
  {
  }

  /**
   `save` keeps the history chronological: the snapshot of a box gets a
   version strictly above every earlier `modified` record of that box.
   */
  lemma SaveKeepsChronological(boxes: map<int, Box>, history: seq<Block>, views: map<string, Widget>)
    requires Ready(boxes, history, views)
    requires Chronological(history)
    ensures Chronological(history + Appended(SavedItems(boxes, history, views)))
  {
    var items := SavedItems(boxes, history, views);
    SavedItemsExact(boxes, history, views);
    if items != [] {
      var h' := history + [Modified(items)];
      assert forall i :: 0 <= i < |history| ==> h'[i] == history[i];
      assert h'[|history|] == Modified(items);
      forall i, p, q | 0 <= i < |h'| && 0 <= p < q < |h'[i].items|
        ensures h'[i].items[p].id != h'[i].items[q].id
      {
      }
      forall i, j, p, q |
        0 <= i < j < |h'| && h'[i].Modified? && h'[j].Modified? &&
        0 <= p < |h'[i].items| && 0 <= q < |h'[j].items| &&
        h'[i].items[p].id == h'[j].items[q].id
        ensures h'[i].items[p].version < h'[j].items[q].version
      {
        if j == |history| {
          var k := items[q].id;
          assert history[i].items[p].id == k;
          assert Mentions(history[i], k);
          ScanUnmentioned(history, k);
          var r := Scan(history, k).box;
          assert Latest(history, boxes, k) == Some(r);
          LatestRecordIsNewest(history, k, r);
        }
      }
    }
  }

  /** Box `k` sits where its latest history record places it. */
  ghost predicate Placed(boxes: map<int, Box>, history: seq<Block>, views: map<string, Widget>)
  {
    forall k :: Shown(boxes, views, k) && Scan(history, k).Record? ==>
      var r := Scan(history, k).box;
      boxes[k].x == r.x && boxes[k].y == r.y && boxes[k].dx == r.dx && boxes[k].dy == r.dy
  }

  /**
   After a save, the latest record of a box is its snapshot if it changed
   and otherwise what it was: the appended block mentions only changed boxes.
   */
  lemma SavedLookup(boxes: map<int, Box>, history: seq<Block>, views: map<string, Widget>, k: int)
    requires WellKeyed(boxes)
    ensures Scan(history + Appended(SavedItems(boxes, history, views)), k) ==
            if Changed(boxes, history, views, k) then Record(SnapshotOf(boxes, history, views, k))
            else Scan(history, k)
  {
    var items := SavedItems(boxes, history, views);
    SavedItemsExact(boxes, history, views);
    if items != [] {
      var h' := history + [Modified(items)];
      assert h'[..|h'| - 1] == history;
      assert h'[|h'| - 1] == Modified(items);
      if Changed(boxes, history, views, k) {
        var p :| 0 <= p < |items| && items[p].id == k;
        FindFirst(items, k, p);
      } else {
        assert Find(items, k).None?;
      }
    } else {
      assert history + Appended(items) == history;
    }
  }

  /** `save` keeps every live box clear of tombstones: it appends only a `modified` block. */
  lemma SaveKeepsLive(boxes: map<int, Box>, history: seq<Block>, views: map<string, Widget>)
    requires WellKeyed(boxes)
    requires forall k :: k in boxes ==> !Scan(history, k).Tombstone?
    ensures var h' := history + Appended(SavedItems(boxes, history, views));
      forall k :: k in Refreshed(boxes, history, views) ==> !Scan(h', k).Tombstone?
  {
    forall k | k in Refreshed(boxes, history, views)
      ensures !Scan(history + Appended(SavedItems(boxes, history, views)), k).Tombstone?
    {
      SavedLookup(boxes, history, views, k);
    }
  }

  /** The snapshots carry live keys, so ids below a bound on the keys stay below it. */
  lemma SaveKeepsIdsBelow(boxes: map<int, Box>, history: seq<Block>, views: map<string, Widget>, n: int)
    requires WellKeyed(boxes)
    requires forall k :: k in boxes ==> k < n
    requires HistoryIdsBelow(history, n)
    ensures HistoryIdsBelow(history + Appended(SavedItems(boxes, history, views)), n)
  {
    var items := SavedItems(boxes, history, views);
    SavedItemsExact(boxes, history, views);
    var h' := history + Appended(items);
    forall i, p | 0 <= i < |h'| && 0 <= p < |h'[i].items|
      ensures h'[i].items[p].id < n
    {
      if i < |history| {
        assert h'[i] == history[i];
      } else {
        assert h'[i].items == items;
        assert Changed(boxes, history, views, items[p].id);
      }
    }
  }

  /**
   A box that no block mentions is compared with itself, so it is recorded
   exactly when its editor text differs from its stored content.
   */
  lemma UnmentionedComparedWithItself(boxes: map<int, Box>, history: seq<Block>, views: map<string, Widget>, k: int)
    requires Shown(boxes, views, k)
    requires forall i :: 0 <= i < |history| ==> !Mentions(history[i], k)
    ensures Changed(boxes, history, views, k) <==> views[boxes[k].elementId].text != boxes[k].content
  {
    ScanUnmentioned(history, k);
  }

  /**
   After `save`, a changed live box takes the snapshot's version, the
   editor's text and the element's size; no other field of any live box
   changes, and no box is added or removed.
   */
  lemma RefreshedFields(boxes: map<int, Box>, history: seq<Block>, views: map<string, Widget>, k: int)
    requires k in boxes
    ensures var b, b' := boxes[k], Refreshed(boxes, history, views)[k];
      b'.(version := b.version, content := b.content, width := b.width, height := b.height) == b &&
      (Changed(boxes, history, views, k) ==>
         var w := views[b.elementId];
         b'.version == Latest(history, boxes, k).value.version + 1 &&
         b'.content == w.text && b'.width == w.width && b'.height == w.height) &&
      (!Changed(boxes, history, views, k) ==> b' == b)
    ensures Refreshed(boxes, history, views).Keys == boxes.Keys
  {
  }

  /**
   A second `save` with the same editor readings appends nothing, provided
   every shown box still sits where its latest record places it.
   */
  lemma SaveSettles(boxes: map<int, Box>, history: seq<Block>, views: map<string, Widget>)
    requires Ready(boxes, history, views)
    requires Placed(boxes, history, views)
    ensures var boxes', history' := Refreshed(boxes, history, views), history + Appended(SavedItems(boxes, history, views));
      Ready(boxes', history', views) && SavedItems(boxes', history', views) == []
  {
    var b2 := Refreshed(boxes, history, views);
    var h2 := history + Appended(SavedItems(boxes, history, views));
    forall k | Shown(b2, views, k)
      ensures Shown(boxes, views, k)
      ensures Scan(h2, k) == if Changed(boxes, history, views, k) then Record(SnapshotOf(boxes, history, views, k))
                             else Scan(history, k)
    {
      SavedLookup(boxes, history, views, k);
    }
    assert Ready(b2, h2, views);
    forall k | k in b2
      ensures !Changed(b2, h2, views, k)
    {
      if Shown(b2, views, k) {
        var w := views[boxes[k].elementId];
        if Changed(boxes, history, views, k) {
          var base := Latest(history, boxes, k).value;
          assert Latest(h2, b2, k) == Some(Snapshot(base, w));
          assert b2[k] == Refresh(boxes[k], Snapshot(base, w));
          assert base.x == boxes[k].x && base.y == boxes[k].y && base.dx == boxes[k].dx && base.dy == boxes[k].dy;
        } else {
          assert b2[k] == boxes[k];
          assert Latest(h2, b2, k) == Latest(history, boxes, k);
        }
      }
    }
    SavedItemsExact(b2, h2, views);
  }

  /**
   A box dragged after its latest record differs from that record, and its
   snapshot copies the record's offset, so the next save with the same
   editor readings records it again: a repeated save is not a no-op.
   */
  /** The box sits somewhere other than where record `r` places it. */
  predicate Moved(b: Box, r: Box)
  {
    b.x != r.x || b.y != r.y || b.dx != r.dx || b.dy != r.dy
  }

  /**
   A shown box that has moved away from its latest record is recorded by the
   save, and afterwards it still differs from its new latest record, which
   copied the old position: the next save records it again, and so on.
   */
  lemma MovedBoxRecordedAgain(boxes: map<int, Box>, history: seq<Block>, views: map<string, Widget>, k: int, r: Box)
    requires WellKeyed(boxes) && Shown(boxes, views, k)
    requires Scan(history, k) == Record(r) && Moved(boxes[k], r)
    ensures Changed(boxes, history, views, k)
    ensures var boxes', history' := Refreshed(boxes, history, views), history + Appended(SavedItems(boxes, history, views));
      WellKeyed(boxes') && Shown(boxes', views, k) &&
      Scan(history', k).Record? && Moved(boxes'[k], Scan(history', k).box) &&
      Changed(boxes', history', views, k)
  {
    SavedLookup(boxes, history, views, k);
    RefreshedFields(boxes, history, views, k);
  }

  lemma SaveRepeatsForMovedBox()
    ensures
      var r := Box(1, 1, "tb1", 0, 0, 0, 0, 1.0, 1.0, "25em", "10em", "");
      var boxes := map[1 := r.(dx := 5)];
      var history := [Modified([r])];
      var views := map["tb1" := Widget("", "25em", "10em")];
      Ready(boxes, history, views) && SavedItems(boxes, history, views) != [] &&
      var boxes', history' := Refreshed(boxes, history, views), history + Appended(SavedItems(boxes, history, views));
      Ready(boxes', history', views) && SavedItems(boxes', history', views) != []
  {
    var r := Box(1, 1, "tb1", 0, 0, 0, 0, 1.0, 1.0, "25em", "10em", "");
    var boxes := map[1 := r.(dx := 5)];
    var history := [Modified([r])];
    var views := map["tb1" := Widget("", "25em", "10em")];
    assert Scan(history, 1) == Record(r);
    assert Ready(boxes, history, views);
    assert Changed(boxes, history, views, 1);
    SavedItemsExact(boxes, history, views);
    var b2 := Refreshed(boxes, history, views);
    var h2 := history + Appended(SavedItems(boxes, history, views));
    SavedLookup(boxes, history, views, 1);
    assert Scan(h2, 1) == Record(r.(version := 2));
    assert b2[1] == r.(dx := 5, version := 2);
    assert Ready(b2, h2, views);
    assert Changed(b2, h2, views, 1);
    SavedItemsExact(b2, h2, views);
  }
}
