/**
 * The query string appended to the address before connecting, and the text
 * a query map prints as. The map is given as its entries in iteration order,
 * which a hash map leaves unspecified.
 */
module Queries {
  import opened Wrappers

  /** What a `StringJoiner` with separator `sep` holds after adding `items` in order. */
  function Join(items: seq<string>, sep: string): (r: string)
    ensures |items| > 0 ==> |r| >= |items[|items| - 1]|
    decreases |items|
  {
    if |items| == 0 then ""
    else if |items| == 1 then items[0]
    else Join(items[..|items| - 1], sep) + sep + items[|items| - 1]
  }

  /** One `key=value` item per entry. */
  function Items(entries: seq<(string, string)>): (r: seq<string>)
    ensures |r| == |entries|
  {
    seq(|entries|, i requires 0 <= i < |entries| => entries[i].0 + "=" + entries[i].1)
  }

  /**
   * `getQueryString()`: the items joined by `&`, prefixed by `?` only when
   * the joiner holds something; the empty string otherwise.
   */
  function QueryStringOf(query: Option<seq<(string, string)>>): (r: string)
    ensures r == if query.None? || |query.value| == 0 then "" else "?" + Join(Items(query.value), "&")
  {
    var joined := if query.Some? && |query.value| > 0 then Join(Items(query.value), "&") else "";
    if |joined| > 0 then "?" + joined else joined
  }

  /** `AbstractMap.toString()`: `{k1=v1, k2=v2}`. */
  function MapText(entries: seq<(string, string)>): (r: string)
    ensures |r| >= 2 && r[0] == '{' && r[|r| - 1] == '}'
  {
    "{" + Join(Items(entries), ", ") + "}"
  }

  // The inverse of the query string, for the round trip below.

  /** The position of the last `c` in `s`, if any. */
  function LastIndexOf(s: string, c: char): (r: Option<nat>)
    ensures r.Some? ==> r.value < |s| && s[r.value] == c && c !in s[r.value + 1..]
    ensures r.None? ==> c !in s
    decreases |s|
  {
    if |s| == 0 then None
    else if s[|s| - 1] == c then Some(|s| - 1)
    else
      var r := LastIndexOf(s[..|s| - 1], c);
      assert s == s[..|s| - 1] + [s[|s| - 1]];
      r
  }

  /** The position of the first `c` in `s`, if any. */
  function FirstIndexOf(s: string, c: char): (r: Option<nat>)
    ensures r.Some? ==> r.value < |s| && s[r.value] == c && c !in s[..r.value]
    ensures r.None? ==> c !in s
    decreases |s|
  {
    if |s| == 0 then None
    else if s[0] == c then Some(0)
    else
      match FirstIndexOf(s[1..], c)
      case None => None
      case Some(i) =>
        assert s[..i + 1] == [s[0]] + s[1..][..i];
        Some(i + 1)
  }

  /** `s` cut at every `c`. */
  function SplitOn(s: string, c: char): (r: seq<string>)
    ensures |r| > 0
    decreases |s|
  {
    match LastIndexOf(s, c)
    case None => [s]
    case Some(i) => SplitOn(s[..i], c) + [s[i + 1..]]
  }

  /** An item cut at its first `=` into key and value. */
  function ParseItem(item: string): (string, string) {
    match FirstIndexOf(item, '=')
    case None => (item, "")
    case Some(i) => (item[..i], item[i + 1..])
  }

  /** The entries a query string lists. */
  function ParseQuery(qs: string): seq<(string, string)> {
    if |qs| == 0 then []
    else
      var items := SplitOn(qs[1..], '&');
      seq(|items|, i requires 0 <= i < |items| => ParseItem(items[i]))
  }

  /** The last `c` in `a + [c] + b` is the one between them when `b` has none. */
  lemma LastIndexOfAfter(a: string, c: char, b: string)
    requires c !in b
    ensures LastIndexOf(a + [c] + b, c) == Some(|a|)
  {
    var s := a + [c] + b;
    assert s[|a|] == c;
  }

  /** Splitting joined items at the separator gives the items back, when no item holds it. */
  lemma {:induction false} SplitJoin(items: seq<string>, c: char)
    requires |items| > 0
    requires forall k :: 0 <= k < |items| ==> c !in items[k]
    ensures SplitOn(Join(items, [c]), c) == items
    decreases |items|
  {
    if |items| > 1 {
      var init := items[..|items| - 1];
      var last := items[|items| - 1];
      var a := Join(init, [c]);
      var s := Join(items, [c]);
      assert s == a + [c] + last;
      LastIndexOfAfter(a, c, last);
      assert s[..|a|] == a;
      assert s[|a| + 1..] == last;
      SplitJoin(init, c);
      assert items == init + [last];
    }
  }

  /** A `key=value` item splits back into its key and value when the key has no `=`. */
  lemma ParseItemOfEntry(key: string, value: string)
    requires '=' !in key
    ensures ParseItem(key + "=" + value) == (key, value)
  {
    var item := key + "=" + value;
    assert item[|key|] == '=';
    assert item[..|key|] == key;
    assert item[|key| + 1..] == value;
  }

  /** Whether an entry survives the query string unescaped: no `&` anywhere and no `=` in the key. */
  predicate Plain(entry: (string, string)) {
    '&' !in entry.0 && '=' !in entry.0 && '&' !in entry.1
  }

  /** No item of plain entries holds the `&` separator. */
  lemma ItemsHaveNoSeparator(entries: seq<(string, string)>)
    requires forall k :: 0 <= k < |entries| ==> Plain(entries[k])
    ensures forall k :: 0 <= k < |entries| ==> '&' !in Items(entries)[k]
  {
    var items := Items(entries);
    forall k | 0 <= k < |entries|
      ensures '&' !in items[k]
    {
      assert items[k] == entries[k].0 + "=" + entries[k].1;
    }
  }

  /**
   * Round trip: the query string lists exactly the entries, in iteration
   * order, provided no key or value needs escaping (none is escaped).
   */
  lemma {:induction false} QueryRoundTrip(entries: seq<(string, string)>)
    requires forall k :: 0 <= k < |entries| ==> Plain(entries[k])
    ensures ParseQuery(QueryStringOf(Some(entries))) == entries
  {
    if |entries| > 0 {
      var items := Items(entries);
      var qs := QueryStringOf(Some(entries));
      assert qs[1..] == Join(items, "&");
      ItemsHaveNoSeparator(entries);
      SplitJoin(items, '&');
      var parsed := ParseQuery(qs);
      assert |parsed| == |entries|;
      forall k | 0 <= k < |entries|
        ensures parsed[k] == entries[k]
      {
        ParseItemOfEntry(entries[k].0, entries[k].1);
      }
    }
  }
}
