/**
 * The value of the outbound X-Presto-Session header: the cursor's session
 * properties, in the iteration order of its mapping, each written as
 * `name=value` and joined with commas (presto/nzpresto.py:98-102).
 *
 * Beside the encoding stands a reference decoding (split on commas, then each
 * item at its first `=`), and the round trip between the two.
 */
module SessionHeader {

  import opened Wrappers

  /** The session properties as the items of the cursor's mapping, in iteration order. */
  type SessionProperties = seq<(string, string)>

  const ITEM_SEPARATOR := ','
  const NAME_VALUE_SEPARATOR := '='

  /** One `'{}={}'.format(name, value)` item. */
  function Item(p: (string, string)): (item: string)
    ensures |item| == |p.0| + 1 + |p.1|
    ensures item[..|p.0|] == p.0 && item[|p.0|] == NAME_VALUE_SEPARATOR && item[|p.0| + 1..] == p.1
  {
    p.0 + [NAME_VALUE_SEPARATOR] + p.1
  }

  function Items(props: SessionProperties): (items: seq<string>)
    ensures |items| == |props|
    ensures forall i :: 0 <= i < |props| ==> items[i] == Item(props[i])
  {
    if props == [] then [] else [Item(props[0])] + Items(props[1..])
  }

  /** `sep.join(parts)` */
  function Join(parts: seq<string>, sep: char): (joined: string)
    ensures |parts| == 0 ==> joined == ""
    ensures |parts| > 0 ==> parts[0] <= joined
  {
    if |parts| == 0 then ""
    else if |parts| == 1 then parts[0]
    else parts[0] + [sep] + Join(parts[1..], sep)
  }

  /** Splits `s` at every occurrence of `sep`; always yields at least one piece. */
  function Split(s: string, sep: char): (pieces: seq<string>)
    ensures |pieces| > 0
  {
    if |s| == 0 then [""]
    else
      var rest := Split(s[1..], sep);
      if s[0] == sep then [""] + rest
      else [[s[0]] + rest[0]] + rest[1..]
  }

  /** The header value `','.join('{}={}'.format(n, v) for n, v in props)`. */
  function Value(props: SessionProperties): (v: string)
    ensures v == "" <==> props == []
  {
    Join(Items(props), ITEM_SEPARATOR)
  }

  /** A property the encoding can carry unambiguously. */
  predicate Encodable(p: (string, string))
  {
    ITEM_SEPARATOR !in p.0 && NAME_VALUE_SEPARATOR !in p.0 && ITEM_SEPARATOR !in p.1
  }

  /** Splits one item at its first `=`; an item without `=` is malformed. */
  function DecodeItem(s: string): (r: Option<(string, string)>)
  {
    if |s| == 0 then None
    else if s[0] == NAME_VALUE_SEPARATOR then Some(("", s[1..]))
    else match DecodeItem(s[1..])
      case None => None
      case Some(p) => Some(([s[0]] + p.0, p.1))
  }

  function DecodeItems(items: seq<string>): (r: Option<SessionProperties>)
  {
    if items == [] then Some([])
    else match DecodeItem(items[0])
      case None => None
      case Some(p) =>
        match DecodeItems(items[1..])
        case None => None
        case Some(ps) => Some([p] + ps)
  }

  /** Reference reading of a present X-Presto-Session header value. */
  function Decode(v: string): (r: Option<SessionProperties>)
  {
    DecodeItems(Split(v, ITEM_SEPARATOR))
  }

  lemma {:induction false} SplitWithoutSeparator(a: string, sep: char)
    requires sep !in a
    ensures Split(a, sep) == [a]
  {
    if |a| > 0 {
      SplitWithoutSeparator(a[1..], sep);
      assert [a[0]] + a[1..] == a;
    }
  }

  lemma {:induction false} SplitAfterPiece(a: string, sep: char, rest: string)
    requires sep !in a
    ensures Split(a + [sep] + rest, sep) == [a] + Split(rest, sep)
  {
    var s := a + [sep] + rest;
    if |a| == 0 {
      assert s == [sep] + rest;
      assert s[1..] == rest;
    } else {
      SplitAfterPiece(a[1..], sep, rest);
      assert s[0] == a[0];
      assert s[1..] == a[1..] + [sep] + rest;
      assert [a[0]] + a[1..] == a;
    }
  }

  /** Splitting a join gives back the parts, when no part holds the separator. */
  lemma {:induction false} SplitJoin(parts: seq<string>, sep: char)
    requires |parts| > 0
    requires forall i :: 0 <= i < |parts| ==> sep !in parts[i]
    ensures Split(Join(parts, sep), sep) == parts
  {
    if |parts| == 1 {
      SplitWithoutSeparator(parts[0], sep);
    } else {
      SplitJoin(parts[1..], sep);
      SplitAfterPiece(parts[0], sep, Join(parts[1..], sep));
    }
  }

  /** The header value lists the `name=value` items in the mapping's order. */
  lemma ValueLists(props: SessionProperties)
    requires |props| > 0
    requires forall i :: 0 <= i < |props| ==> ITEM_SEPARATOR !in props[i].0 && ITEM_SEPARATOR !in props[i].1
    ensures Split(Value(props), ITEM_SEPARATOR) == Items(props)
  {
    var items := Items(props);
    forall i | 0 <= i < |items|
      ensures ITEM_SEPARATOR !in items[i]
    {
      assert items[i] == props[i].0 + [NAME_VALUE_SEPARATOR] + props[i].1;
    }
    SplitJoin(items, ITEM_SEPARATOR);
  }

  lemma {:induction false} DecodeItemOfItem(p: (string, string))
    requires NAME_VALUE_SEPARATOR !in p.0
    ensures DecodeItem(Item(p)) == Some(p)
    decreases |p.0|
  {
    var s := Item(p);
    if |p.0| == 0 {
      assert s == [NAME_VALUE_SEPARATOR] + p.1;
      assert s[1..] == p.1;
    } else {
      DecodeItemOfItem((p.0[1..], p.1));
      assert s[1..] == Item((p.0[1..], p.1));
      assert [p.0[0]] + p.0[1..] == p.0;
    }
  }

  lemma {:induction false} DecodeItemsOfItems(props: SessionProperties)
    requires forall i :: 0 <= i < |props| ==> NAME_VALUE_SEPARATOR !in props[i].0
    ensures DecodeItems(Items(props)) == Some(props)
  {
    if props != [] {
      DecodeItemOfItem(props[0]);
      DecodeItemsOfItems(props[1..]);
      assert Items(props)[1..] == Items(props[1..]);
      assert [props[0]] + props[1..] == props;
    }
  }

  /** Decoding a non-empty header value gives back the properties, in order. */
  lemma RoundTrip(props: SessionProperties)
    requires |props| > 0
    requires forall i :: 0 <= i < |props| ==> Encodable(props[i])
    ensures Decode(Value(props)) == Some(props)
  {
    ValueLists(props);
    DecodeItemsOfItems(props);
  }

  /** Without escaping, a comma inside a value reads as a second property. */
  lemma CommaInValueIsAmbiguous()
    ensures Value([("a", "1,b=2")]) == Value([("a", "1"), ("b", "2")])
  {
  }
}
