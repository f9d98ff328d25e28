/**
 The browser's key-value store as a map from keys to the values their JSON
 text encodes. A document `name` occupies the keys `name` (the live boxes),
 `name.history` (the history) and `name.lang` (the editor language).
 */
module Store {
  import opened Records
  import opened History

  /** The store after `save(name)` wrote its three keys. */
  function SavedStore(store: map<string, Value>, name: string, boxes: map<int, Box>, history: seq<Block>, lang: string): map<string, Value>
  {
    store[name := BoxMap(boxes)][HistoryKey(name) := Log(history)][LanguageKey(name) := Text(lang)]
  }

  /** Reading the box map of a document: absent, parsed, or a value of another shape (a parse failure). */
  function ReadBoxes(store: map<string, Value>, name: string): (r: Read<map<int, Box>>)
    ensures r.Absent? <==> name !in store
    ensures r.Parsed? <==> name in store && store[name].BoxMap?
  {
    if name !in store then Absent
    else match store[name]
      case BoxMap(m) => Parsed(m)
      case _ => Malformed
  }

  /** Reading the history of a document. */
  function ReadHistory(store: map<string, Value>, name: string): (r: Read<seq<Block>>)
    ensures r.Absent? <==> HistoryKey(name) !in store
    ensures r.Parsed? <==> HistoryKey(name) in store && store[HistoryKey(name)].Log?
  {
    if HistoryKey(name) !in store then Absent
    else match store[HistoryKey(name)]
      case Log(h) => Parsed(h)
      case _ => Malformed
  }

  /**
   What a saved document reads back as: its boxes and its history, whatever
   the store held before; every key outside the document is untouched.
   */
  lemma SavedStoreReadsBack(store: map<string, Value>, name: string, boxes: map<int, Box>, history: seq<Block>, lang: string)
    ensures var s := SavedStore(store, name, boxes, history, lang);
      ReadBoxes(s, name) == Parsed(boxes) && ReadHistory(s, name) == Parsed(history) &&
      LanguageKey(name) in s && s[LanguageKey(name)] == Text(lang) &&
      forall key :: key in store && key != name && key != HistoryKey(name) && key != LanguageKey(name) ==>
        key in s && s[key] == store[key]
  {
  }

  /**
   A stored document is consistent when its box map is keyed by record ids
   and no live box is shadowed by a tombstone in its history; every
   document `save` writes from a valid session is.
   */
  ghost predicate Consistent(boxes: map<int, Box>, history: seq<Block>)
  {
    WellKeyed(boxes) && forall k :: k in boxes ==> !Scan(history, k).Tombstone?
  }
}
