/**
 * `stringToHeader`: the parser that turns a configuration string such as
 * `"Authorization: Bearer abc, X-Scope: tenant1"` into a header dictionary.
 * The log exporter and the trace exporter each carry a copy of it, character
 * for character the same, so one definition serves both.
 */
module Headers {
  import opened Wrappers
  import opened Text
  import opened Lists

  /** What separates a key from its value inside one item. */
  const KeyValueSeparator: string := ": "

  /** What separates the items. */
  const ItemSeparator: string := ","

  /**
   * The header one item contributes: `[key, value] = item.split(": ")` keeps the
   * first two pieces; the item counts only when both are non-empty (before
   * trimming), and then both are trimmed.
   */
  function HeaderItem(item: string): (entry: Option<(string, string)>)
    ensures entry.Some? ==> Contains(item, KeyValueSeparator)
    ensures EntryTrimmed(entry)
  {
    var pieces := Split(item, KeyValueSeparator);
    if pieces[0] != "" && |pieces| > 1 && pieces[1] != "" then
      SplitInTwoContains(item, KeyValueSeparator);
      TrimIdempotent(pieces[0]);
      TrimIdempotent(pieces[1]);
      Some((Trim(pieces[0]), Trim(pieces[1])))
    else
      None
  }

  /** `s` has nothing for `trim` to remove. */
  predicate Trimmed(s: string) {
    Trim(s) == s
  }

  /** An entry, if any, sets a trimmed key to a trimmed value. */
  predicate EntryTrimmed(entry: Option<(string, string)>) {
    entry.Some? ==> Trimmed(entry.value.0) && Trimmed(entry.value.1)
  }

  /** Every key of the dictionary and every value in it is trimmed. */
  predicate HeadersTrimmed(headers: map<string, string>) {
    forall key | key in headers :: Trimmed(key) && Trimmed(headers[key])
  }

  /** A header entry, or None for an item that contributes nothing. */
  type Entry = Option<(string, string)>

  /** The key an entry sets, if it sets one. */
  function KeyOf(entry: Entry): Option<string> {
    match entry
    case None => None
    case Some(kv) => Some(kv.0)
  }

  function AddHeader(headers: map<string, string>, entry: Entry): map<string, string> {
    match entry
    case None => headers
    case Some(kv) => headers[kv.0 := kv.1]
  }

  /**
   * The `reduce` of the items' entries starting from `{}`: a left fold, so the
   * dictionary after all entries is the one after all but the last, updated by
   * the last.
   */
  function FoldHeaders(entries: seq<Entry>): map<string, string>
    decreases |entries|
  {
    if entries == [] then map[]
    else AddHeader(FoldHeaders(entries[..|entries| - 1]), entries[|entries| - 1])
  }

  /**
   * `stringToHeader(value)`: split on commas, then fold the items' entries. No
   * key and no value of the result has white space left at either end.
   */
  function StringToHeader(value: string): (headers: map<string, string>)
    ensures HeadersTrimmed(headers)
  {
    var entries := Map(HeaderItem, Split(value, ItemSeparator));
    EntriesTrimmed(Split(value, ItemSeparator));
    FoldHeadersTrimmed(entries);
    FoldHeaders(entries)
  }

  // ---------------------------------------------------------------------------
  // One item

  lemma KeyValueSeparatorNoSelfOverlap()
    ensures |KeyValueSeparator| == 2 && NoSelfOverlap(KeyValueSeparator)
  {
    assert KeyValueSeparator[1..] == " " && KeyValueSeparator[..1] == ":";
  }

  /**
   * `key: value`, possibly followed by more `: ...` text, yields the trimmed key
   * and value; whatever follows a second `": "` is lost.
   */
  lemma HeaderItemOfPair(key: string, value: string, rest: string)
    requires key != "" && value != ""
    requires !Contains(key, KeyValueSeparator) && !Contains(value, KeyValueSeparator)
    requires rest == "" || (|rest| >= 2 && rest[..2] == KeyValueSeparator)
    ensures HeaderItem(key + KeyValueSeparator + value + rest) == Some((Trim(key), Trim(value)))
  {
    var sep := KeyValueSeparator;
    KeyValueSeparatorNoSelfOverlap();
    assert key + sep + value + rest == key + sep + (value + rest);
    SplitHead(key, sep, value + rest);
    if rest == "" {
      assert value + rest == value;
      SplitNoSeparator(value, sep);
    } else {
      assert value + rest == value + sep + rest[2..];
      SplitHead(value, sep, rest[2..]);
    }
  }

  /** An item without `": "` (a bare key, or `key:value`) contributes nothing. */
  lemma HeaderItemWithoutSeparator(item: string)
    requires !Contains(item, KeyValueSeparator)
    ensures HeaderItem(item) == None
  {
    SplitNoSeparator(item, KeyValueSeparator);
  }

  /**
   * An item whose value piece is empty contributes nothing: `"key: "`, or
   * `"key: : more"` where a second `": "` follows the first at once.
   */
  lemma HeaderItemEmptyValue(key: string, rest: string)
    requires key != "" && !Contains(key, KeyValueSeparator)
    requires rest == "" || (|rest| >= 2 && rest[..2] == KeyValueSeparator)
    ensures HeaderItem(key + KeyValueSeparator + rest) == None
  {
    KeyValueSeparatorNoSelfOverlap();
    SplitHead(key, KeyValueSeparator, rest);
    assert !Contains("", KeyValueSeparator);
    if rest == "" {
      SplitNoSeparator("", KeyValueSeparator);
    } else {
      assert rest == "" + KeyValueSeparator + rest[2..];
      SplitHead("", KeyValueSeparator, rest[2..]);
    }
  }

  /** An item that starts with `": "` has an empty key and contributes nothing. */
  lemma HeaderItemEmptyKey(rest: string)
    ensures HeaderItem(KeyValueSeparator + rest) == None
  {
    KeyValueSeparatorNoSelfOverlap();
    assert !Contains("", KeyValueSeparator);
    assert "" + KeyValueSeparator + rest == KeyValueSeparator + rest;
    SplitHead("", KeyValueSeparator, rest);
  }

  // ---------------------------------------------------------------------------
  // The whole dictionary

  /** The keys of the dictionary are exactly the keys that some well-formed item sets. */
  lemma {:induction false} FoldHeadersKeys(entries: seq<Entry>, key: string)
    ensures key in FoldHeaders(entries) <==> exists i :: 0 <= i < |entries| && KeyOf(entries[i]) == Some(key)
    decreases |entries|
  {
    if entries != [] {
      var init := entries[..|entries| - 1];
      FoldHeadersKeys(init, key);
      if key in FoldHeaders(init) {
        var i :| 0 <= i < |init| && KeyOf(init[i]) == Some(key);
        assert entries[i] == init[i];
      }
      if exists i :: 0 <= i < |entries| && KeyOf(entries[i]) == Some(key) {
        var i :| 0 <= i < |entries| && KeyOf(entries[i]) == Some(key);
        if i < |init| {
          assert init[i] == entries[i];
        }
      }
    }
  }

  /**
   * A later item overwrites an earlier one: the value of a key is the one set by
   * the last well-formed item with that key.
   */
  lemma {:induction false} FoldHeadersLastWins(entries: seq<Entry>, i: nat, key: string, value: string)
    requires i < |entries| && entries[i] == Some((key, value))
    requires forall j :: i < j < |entries| ==> KeyOf(entries[j]) != Some(key)
    ensures key in FoldHeaders(entries) && FoldHeaders(entries)[key] == value
    decreases |entries|
  {
    var init := entries[..|entries| - 1];
    if i < |entries| - 1 {
      assert KeyOf(entries[|entries| - 1]) != Some(key);
      assert init[i] == entries[i];
      FoldHeadersLastWins(init, i, key, value);
    }
  }

  lemma EntriesTrimmed(items: seq<string>)
    ensures forall i :: 0 <= i < |Map(HeaderItem, items)| ==> EntryTrimmed(Map(HeaderItem, items)[i])
  {
    forall i | 0 <= i < |Map(HeaderItem, items)| ensures EntryTrimmed(Map(HeaderItem, items)[i]) {
      MapAt(HeaderItem, items, i);
    }
  }

  /** Folding trimmed entries gives a dictionary of trimmed keys and values. */
  lemma {:induction false} FoldHeadersTrimmed(entries: seq<Entry>)
    requires forall i :: 0 <= i < |entries| ==> EntryTrimmed(entries[i])
    ensures HeadersTrimmed(FoldHeaders(entries))
    decreases |entries|
  {
    if entries != [] {
      var init := entries[..|entries| - 1];
      assert forall i :: 0 <= i < |init| ==> init[i] == entries[i];
      FoldHeadersTrimmed(init);
      assert EntryTrimmed(entries[|entries| - 1]);
    }
  }

  /** Some item of `items` is well formed and sets `key`. */
  predicate SetsKey(items: seq<string>, key: string) {
    exists i :: 0 <= i < |items| && KeyOf(HeaderItem(items[i])) == Some(key)
  }

  lemma StringToHeaderKeysOfItems(items: seq<string>, key: string)
    ensures key in FoldHeaders(Map(HeaderItem, items)) <==> SetsKey(items, key)
  {
    var entries := Map(HeaderItem, items);
    FoldHeadersKeys(entries, key);
    if key in FoldHeaders(entries) {
      var i :| 0 <= i < |entries| && KeyOf(entries[i]) == Some(key);
      MapAt(HeaderItem, items, i);
    } else {
      forall i | 0 <= i < |items| ensures KeyOf(HeaderItem(items[i])) != Some(key) {
        MapAt(HeaderItem, items, i);
      }
    }
  }

  /** A key is in `stringToHeader(value)` exactly when some comma-separated item sets it. */
  lemma StringToHeaderKeys(value: string, key: string)
    ensures key in StringToHeader(value) <==> SetsKey(Split(value, ItemSeparator), key)
  {
    StringToHeaderKeysOfItems(Split(value, ItemSeparator), key);
  }

  /** No item after index `i` sets `key`. */
  predicate LastToSet(items: seq<string>, i: nat, key: string) {
    forall j :: i < j < |items| ==> KeyOf(HeaderItem(items[j])) != Some(key)
  }

  lemma LastWinsOfItems(items: seq<string>, i: nat, key: string, v: string)
    requires i < |items| && HeaderItem(items[i]) == Some((key, v)) && LastToSet(items, i, key)
    ensures key in FoldHeaders(Map(HeaderItem, items)) && FoldHeaders(Map(HeaderItem, items))[key] == v
  {
    var entries := Map(HeaderItem, items);
    MapAt(HeaderItem, items, i);
    forall j | i < j < |entries| ensures KeyOf(entries[j]) != Some(key) {
      MapAt(HeaderItem, items, j);
    }
    FoldHeadersLastWins(entries, i, key, v);
  }

  /** The value of a key in `stringToHeader(value)` comes from the last item that sets it. */
  lemma StringToHeaderLastWins(value: string, i: nat, key: string, v: string)
    requires i < |Split(value, ItemSeparator)|
    requires HeaderItem(Split(value, ItemSeparator)[i]) == Some((key, v))
    requires LastToSet(Split(value, ItemSeparator), i, key)
    ensures key in StringToHeader(value) && StringToHeader(value)[key] == v
  {
    LastWinsOfItems(Split(value, ItemSeparator), i, key, v);
  }

  /** `s` holds no comma. */
  predicate CommaFree(s: string) {
    forall k :: 0 <= k < |s| ==> s[k] != ','
  }

  lemma CommaFreeConcat(a: string, b: string)
    requires CommaFree(a) && CommaFree(b)
    ensures CommaFree(a + b)
  {
    forall k | 0 <= k < |a + b| ensures (a + b)[k] != ',' {
      if k < |a| {
        assert (a + b)[k] == a[k];
      } else {
        assert (a + b)[k] == b[k - |a|];
      }
    }
  }

  /** An item of two tokens holds no comma, with or without a leading space. */
  lemma TokenItemsCommaFree(key: string, value: string)
    requires Token(key) && Token(value)
    ensures CommaFree(key + KeyValueSeparator + value)
    ensures CommaFree(" " + key + KeyValueSeparator + value)
  {
    assert CommaFree(key) && CommaFree(value);
    assert CommaFree(KeyValueSeparator) && CommaFree(" ");
    CommaFreeConcat(key, KeyValueSeparator);
    CommaFreeConcat(key + KeyValueSeparator, value);
    CommaFreeConcat(" ", key);
    CommaFreeConcat(" " + key, KeyValueSeparator);
    CommaFreeConcat(" " + key + KeyValueSeparator, value);
  }

  /** Two comma-free items joined by a comma split back into the two. */
  lemma SplitTwoItems(a: string, b: string)
    requires CommaFree(a) && CommaFree(b)
    ensures Split(a + ItemSeparator + b, ItemSeparator) == [a, b]
  {
    NoLeadCharNoContains(a, ItemSeparator);
    NoLeadCharNoContains(b, ItemSeparator);
    SplitAround(a, ItemSeparator, b);
    SplitNoSeparator(a, ItemSeparator);
    SplitNoSeparator(b, ItemSeparator);
  }

  /** A colon-free key and value joined by `": "` form one well-formed item. */
  lemma PlainItem(key: string, value: string)
    requires key != "" && value != ""
    requires forall k :: 0 <= k < |key| ==> key[k] != ':'
    requires forall k :: 0 <= k < |value| ==> value[k] != ':'
    ensures HeaderItem(key + KeyValueSeparator + value) == Some((Trim(key), Trim(value)))
  {
    NoLeadCharNoContains(key, KeyValueSeparator);
    NoLeadCharNoContains(value, KeyValueSeparator);
    assert key + KeyValueSeparator + value == key + KeyValueSeparator + value + "";
    HeaderItemOfPair(key, value, "");
  }

  /** A key or value as the documentation writes them: non-empty, unpadded, no `,` or `:`. */
  predicate Token(s: string) {
    && s != []
    && !IsJsWhitespace(s[0]) && !IsJsWhitespace(s[|s| - 1])
    && forall k :: 0 <= k < |s| ==> s[k] != ',' && s[k] != ':'
  }

  /** An item `key: value` of two tokens sets `key` to `value`. */
  lemma TokenItem(key: string, value: string)
    requires Token(key) && Token(value)
    ensures HeaderItem(key + KeyValueSeparator + value) == Some((key, value))
  {
    PlainItem(key, value);
    TrimNoPadding(key);
    TrimNoPadding(value);
  }

  /** The space after a comma is trimmed off the key. */
  lemma SpacedTokenItem(key: string, value: string)
    requires Token(key) && Token(value)
    ensures HeaderItem(" " + key + KeyValueSeparator + value) == Some((key, value))
  {
    var spaced := " " + key;
    assert forall k :: 0 <= k < |spaced| ==> spaced[k] != ':' by {
      forall k | 0 <= k < |spaced| ensures spaced[k] != ':' {
        if k > 0 { assert spaced[k] == key[k - 1]; }
      }
    }
    PlainItem(spaced, value);
    TrimNoPadding(value);
    TrimLeadingSpace(key);
  }

  /** Folding two entries that both set a key: the second is applied last. */
  lemma FoldTwo(entries: seq<Entry>, e1: (string, string), e2: (string, string))
    requires |entries| == 2 && entries[0] == Some(e1) && entries[1] == Some(e2)
    ensures FoldHeaders(entries) == map[e1.0 := e1.1][e2.0 := e2.1]
  {
    var first := entries[..1];
    assert first[..0] == [];
    assert FoldHeaders(first) == map[e1.0 := e1.1];
  }

  /** Two items without commas, the second led by a space, split apart at the comma. */
  lemma TwoTokenItems(k1: string, v1: string, k2: string, v2: string)
    requires Token(k1) && Token(v1) && Token(k2) && Token(v2)
    ensures Split(k1 + KeyValueSeparator + v1 + ItemSeparator + " " + k2 + KeyValueSeparator + v2, ItemSeparator)
         == [k1 + KeyValueSeparator + v1, " " + k2 + KeyValueSeparator + v2]
  {
    var a := k1 + KeyValueSeparator + v1;
    var b := " " + k2 + KeyValueSeparator + v2;
    TokenItemsCommaFree(k1, v1);
    TokenItemsCommaFree(k2, v2);
    assert k1 + KeyValueSeparator + v1 + ItemSeparator + " " + k2 + KeyValueSeparator + v2 == a + ItemSeparator + b;
    SplitTwoItems(a, b);
  }

  /**
   * The documented form `"k1: v1, k2: v2"` gives the two headers; when both keys
   * are the same the second value wins.
   */
  lemma StringToHeaderTwoHeaders(k1: string, v1: string, k2: string, v2: string)
    requires Token(k1) && Token(v1) && Token(k2) && Token(v2)
    ensures StringToHeader(k1 + KeyValueSeparator + v1 + ItemSeparator + " " + k2 + KeyValueSeparator + v2)
         == map[k1 := v1][k2 := v2]
  {
    var a := k1 + KeyValueSeparator + v1;
    var b := " " + k2 + KeyValueSeparator + v2;
    var items := [a, b];
    TwoTokenItems(k1, v1, k2, v2);
    TokenItem(k1, v1);
    SpacedTokenItem(k2, v2);
    var entries := Map(HeaderItem, items);
    MapAt(HeaderItem, items, 0);
    MapAt(HeaderItem, items, 1);
    FoldTwo(entries, (k1, v1), (k2, v2));
  }
}
