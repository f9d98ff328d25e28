/**
 The values the canvas document is made of: box records, history blocks,
 the editor widget readings that `save` takes as input, and the abstract
 values kept in the browser's key-value store.
 */
module Records {

  datatype Option<+T> = None | Some(value: T)

  /** One text box: its record as kept in `boxes` and in history blocks. */
  datatype Box = Box(
    version: int,
    id: int,
    elementId: string,
    x: int, y: int,       // anchor position
    dx: int, dy: int,     // accumulated drag offset
    sx: real, sy: real,   // zoom factors
    width: string,        // CSS lengths such as "25em"
    height: string,
    content: string)

  /** A history block: the type tag `modified` or `deleted` and its items. */
  datatype Block = Modified(items: seq<Box>) | Deleted(items: seq<Box>)

  /** What `save` reads from the page for one box: the editor's text and the element's size. */
  datatype Widget = Widget(text: string, width: string, height: string)

  /** A value of the store; the JSON text of the store is abstracted to the value it encodes. */
  datatype Value = BoxMap(boxes: map<int, Box>) | Log(blocks: seq<Block>) | Text(text: string)

  /** Reading one key of the store: missing, parsed, or not of the expected shape. */
  datatype Read<+T> = Absent | Parsed(value: T) | Malformed

  const HistorySuffix: string := ".history"
  const LanguageSuffix: string := ".lang"

  function HistoryKey(name: string): string { name + HistorySuffix }

  function LanguageKey(name: string): string { name + LanguageSuffix }

  /** The three keys a document occupies are pairwise distinct, whatever its name. */
  lemma DocumentKeysDistinct(name: string)
    ensures name != HistoryKey(name) && name != LanguageKey(name)
    ensures HistoryKey(name) != LanguageKey(name)
  {
  }

  /** The keys of the live box map are the ids of the records they hold. */
  ghost predicate WellKeyed(boxes: map<int, Box>)
  {
    forall k :: k in boxes ==> boxes[k].id == k
  }

  function Max(a: int, b: int): int { if a < b then b else a }

  // ---- decimal rendering of ids, used for the element id "tb" + id ----

  function Digit(d: int): char
    requires 0 <= d < 10
  {
    (48 + d) as char
  }

  function Decimal(n: nat): (s: string)
    ensures 1 <= |s|
    ensures n < 10 <==> |s| == 1
  {
    if n < 10 then [Digit(n)] else Decimal(n / 10) + [Digit(n % 10)]
  }

  /** Distinct numbers have distinct decimal renderings. */
  lemma {:induction false} DecimalInjective(a: nat, b: nat)
    requires Decimal(a) == Decimal(b)
    ensures a == b
  {
    if 10 <= a {
      var sa, sb := Decimal(a), Decimal(b);
      assert Decimal(a / 10) == sa[..|sa| - 1];
      assert Decimal(b / 10) == sb[..|sb| - 1];
      DecimalInjective(a / 10, b / 10);
      assert Digit(a % 10) == sa[|sa| - 1] == Digit(b % 10);
      assert (Digit(a % 10) as int) == 48 + a % 10;
      assert (Digit(b % 10) as int) == 48 + b % 10;
    } else {
      assert (Digit(a) as int) == 48 + a;
      assert (Digit(b) as int) == 48 + b;
    }
  }

  /** The DOM element id a new box gets (`'tb' + boxid`). */
  function ElementId(id: nat): string { "tb" + Decimal(id) }

  /** Distinct box ids give distinct element ids, so no two boxes share an editor. */
  lemma ElementIdsDistinct(a: nat, b: nat)
    requires a != b
    ensures ElementId(a) != ElementId(b)
  {
    if ElementId(a) == ElementId(b) {
      assert Decimal(a) == ElementId(a)[2..];
      assert Decimal(b) == ElementId(b)[2..];
      DecimalInjective(a, b);
    }
  }
}
