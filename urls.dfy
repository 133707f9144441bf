/**
 * The slice of `urllib.parse` that `get_next_page_url` and `detect_pagination`
 * rely on (modules/pagination_csv.py): `urlparse`/`urlunparse` reduced to the
 * query and fragment components, `parse_qs` with its default options, and
 * `urlencode(..., doseq=True)`. Percent-encoding is not modelled: keys and
 * values are taken as already decoded and are written back verbatim.
 */
module Urls {
  import opened Wrappers
  import opened Text

  /** `s` cut at the first `c`: the text before it, and the text after it when `c` occurs. */
  function CutAt(s: string, c: char): (r: (string, Option<string>))
    ensures c !in r.0
    ensures r.1.None? ==> r.0 == s
    ensures r.1.Some? ==> s == r.0 + [c] + r.1.value
    decreases |s|
  {
    if s == [] then ("", None)
    else if s[0] == c then ("", Some(s[1..]))
    else
      var rest := CutAt(s[1..], c);
      assert s == [s[0]] + s[1..];
      ([s[0]] + rest.0, rest.1)
  }

  /** The cut happens at the first occurrence of `c`. */
  lemma {:induction false} CutAtFirst(b: string, c: char, a: string)
    requires c !in b
    ensures CutAt(b + [c] + a, c) == (b, Some(a))
    decreases |b|
  {
    var s := b + [c] + a;
    if b == [] {
      assert s[1..] == a;
    } else {
      assert s[1..] == b[1..] + [c] + a;
      CutAtFirst(b[1..], c, a);
      assert [b[0]] + b[1..] == b;
    }
  }

  /** Without `c` there is nothing to cut. */
  lemma {:induction false} CutAtAbsent(s: string, c: char)
    requires c !in s
    ensures CutAt(s, c) == (s, None)
    decreases |s|
  {
    if s != [] {
      CutAtAbsent(s[1..], c);
      assert [s[0]] + s[1..] == s;
    }
  }

  /** A URL as `urlsplit` divides it: everything before the query (scheme,
      network location, path and parameters, kept verbatim), the query and the fragment. */
  datatype Url = Url(head: string, query: string, fragment: string)

  /** `urlsplit`: the fragment follows the first `#`, the query the first `?` before it. */
  function SplitUrl(s: string): Url
  {
    var fragmentCut := CutAt(s, '#');
    var queryCut := CutAt(fragmentCut.0, '?');
    Url(queryCut.0, queryCut.1.GetOr(""), fragmentCut.1.GetOr(""))
  }

  /** `urlunsplit`: an empty query or fragment is written without its marker. */
  function UnsplitUrl(u: Url): string
  {
    u.head + (if u.query != "" then "?" + u.query else "") + (if u.fragment != "" then "#" + u.fragment else "")
  }

  /** The components `SplitUrl` can produce. */
  predicate WellFormedUrl(u: Url)
  {
    '#' !in u.head && '?' !in u.head && '#' !in u.query
  }

  lemma SplitUrlWellFormed(s: string)
    ensures WellFormedUrl(SplitUrl(s))
  {
  }

  /** Splitting what `UnsplitUrl` wrote gives back the components. */
  lemma SplitUnsplit(u: Url)
    requires WellFormedUrl(u)
    ensures SplitUrl(UnsplitUrl(u)) == u
  {
    var rest := u.head + (if u.query != "" then "?" + u.query else "");
    assert '#' !in rest;
    if u.fragment != "" {
      assert UnsplitUrl(u) == rest + ['#'] + u.fragment;
      CutAtFirst(rest, '#', u.fragment);
    } else {
      assert UnsplitUrl(u) == rest;
      CutAtAbsent(rest, '#');
    }
    if u.query != "" {
      assert rest == u.head + ['?'] + u.query;
      CutAtFirst(u.head, '?', u.query);
    } else {
      assert rest == u.head;
      CutAtAbsent(u.head, '?');
    }
  }

  /** Putting a cut back together, writing the separator only before a non-empty remainder. */
  lemma RejoinCut(s: string, c: char, cut: (string, Option<string>))
    requires cut.1.None? ==> cut.0 == s
    requires cut.1.Some? ==> s == cut.0 + [c] + cut.1.value
    requires cut.1 != Some("")
    ensures s == cut.0 + (if cut.1.GetOr("") != "" then [c] + cut.1.GetOr("") else "")
  {
    match cut.1
    case None =>
      assert cut.0 + "" == cut.0;
    case Some(rest) =>
      assert cut.0 + [c] + rest == cut.0 + ([c] + rest);
  }

  /** Rejoining the components of a URL gives it back, unless it ends in an empty
      query or fragment marker, which `urlunsplit` drops. */
  lemma UnsplitSplit(s: string)
    requires CutAt(s, '#').1 != Some("") && CutAt(CutAt(s, '#').0, '?').1 != Some("")
    ensures UnsplitUrl(SplitUrl(s)) == s
  {
    RejoinCut(s, '#', CutAt(s, '#'));
    RejoinCut(CutAt(s, '#').0, '?', CutAt(CutAt(s, '#').0, '?'));
  }

  /** A parsed query: each key with its values, keys in order of first appearance. */
  type Query = seq<(string, seq<string>)>

  /** `query.get(key)`. */
  function Lookup(q: Query, key: string): (r: Option<seq<string>>)
    ensures r.Some? <==> exists i :: 0 <= i < |q| && q[i].0 == key
    ensures r.Some? ==> exists i :: 0 <= i < |q| && q[i] == (key, r.value)
    decreases |q|
  {
    if q == [] then None
    else if q[0].0 == key then Some(q[0].1)
    else
      var r := Lookup(q[1..], key);
      assert forall i :: 0 < i < |q| ==> q[i] == q[1..][i - 1];
      r
  }

  /** The keys of a query, in order. */
  function Keys(q: Query): (r: seq<string>)
    ensures |r| == |q| && forall i :: 0 <= i < |q| ==> r[i] == q[i].0
  {
    seq(|q|, i requires 0 <= i < |q| => q[i].0)
  }

  /** One `name=value` field as `parse_qs` reads it: split at the first `=`;
      a field without `=` or with an empty value is dropped. */
  function ParsePair(field: string): Option<(string, string)>
  {
    var cut := CutAt(field, '=');
    if cut.1.Some? && cut.1.value != "" then Some((cut.0, cut.1.value)) else None
  }

  /** The fields `parse_qsl` keeps, in order. */
  function Pairs(fields: seq<string>): seq<(string, string)>
    decreases |fields|
  {
    if fields == [] then []
    else
      var init := Pairs(fields[..|fields| - 1]);
      match ParsePair(fields[|fields| - 1])
      case None => init
      case Some(p) => init + [p]
  }

  /** Record one more value for `key`: appended to its list, or a new entry at the end. */
  function Add(q: Query, key: string, value: string): Query
    decreases |q|
  {
    if q == [] then [(key, [value])]
    else if q[0].0 == key then [(key, q[0].1 + [value])] + q[1..]
    else [q[0]] + Add(q[1..], key, value)
  }

  /** The pairs grouped by key onto `acc`. */
  function GroupFrom(acc: Query, pairs: seq<(string, string)>): Query
    decreases |pairs|
  {
    if pairs == [] then acc
    else
      var last := pairs[|pairs| - 1];
      Add(GroupFrom(acc, pairs[..|pairs| - 1]), last.0, last.1)
  }

  /** `parse_qs(query)`: fields separated by `&`, grouped by key. */
  function ParseQs(query: string): Query
  {
    GroupFrom([], Pairs(Split(query, '&')))
  }

  /** Each value of `key` as a pair of its own. */
  function Expand(key: string, values: seq<string>): (r: seq<(string, string)>)
    ensures |r| == |values| && forall i :: 0 <= i < |r| ==> r[i] == (key, values[i])
  {
    seq(|values|, i requires 0 <= i < |values| => (key, values[i]))
  }

  /** Every key/value pair of a query, in order. */
  function Flatten(q: Query): seq<(string, string)>
    decreases |q|
  {
    if q == [] then [] else Flatten(q[..|q| - 1]) + Expand(q[|q| - 1].0, q[|q| - 1].1)
  }

  /** The `name=value` fields `urlencode` writes. */
  function Fields(pairs: seq<(string, string)>): (r: seq<string>)
    ensures |r| == |pairs| && forall i :: 0 <= i < |r| ==> r[i] == pairs[i].0 + "=" + pairs[i].1
  {
    seq(|pairs|, i requires 0 <= i < |pairs| => pairs[i].0 + "=" + pairs[i].1)
  }

  /** `urlencode(query, doseq=True)`. */
  function Encode(q: Query): string
  {
    Join("&", Fields(Flatten(q)))
  }

  /** `query[key] = values`: replaced where the key is, or added at the end. */
  function SetParam(q: Query, key: string, values: seq<string>): Query
    decreases |q|
  {
    if q == [] then [(key, values)]
    else if q[0].0 == key then [(key, values)] + q[1..]
    else [q[0]] + SetParam(q[1..], key, values)
  }

  predicate SafeKey(k: string)
  {
    '&' !in k && '=' !in k && '#' !in k
  }

  predicate SafeValue(v: string)
  {
    v != "" && '&' !in v && '#' !in v
  }

  predicate SafeValues(values: seq<string>)
  {
    values != [] && forall k :: 0 <= k < |values| ==> SafeValue(values[k])
  }

  /** Queries `parse_qs` can return from text without `#`: distinct keys, each
      with at least one value, and no separator inside a key or a value. */
  predicate WellFormedQuery(q: Query)
  {
    && (forall i, j :: 0 <= i < j < |q| ==> q[i].0 != q[j].0)
    && (forall i :: 0 <= i < |q| ==> SafeKey(q[i].0) && SafeValues(q[i].1))
  }

  /** `key` is not among the keys of `q`. */
  predicate Fresh(q: Query, key: string)
  {
    forall i :: 0 <= i < |q| ==> q[i].0 != key
  }

  /** Adding a value under a new key opens an entry at the end. */
  lemma {:induction false} AddNew(q: Query, key: string, value: string)
    requires Fresh(q, key)
    ensures Add(q, key, value) == q + [(key, [value])]
    decreases |q|
  {
    if q != [] {
      AddNew(q[1..], key, value);
      assert q == [q[0]] + q[1..];
    }
  }

  /** Adding a value under the key of the last entry extends that entry. */
  lemma {:induction false} AddToLast(q: Query, key: string, values: seq<string>, value: string)
    requires Fresh(q, key)
    ensures Add(q + [(key, values)], key, value) == q + [(key, values + [value])]
    decreases |q|
  {
    if q != [] {
      AddToLast(q[1..], key, values, value);
      assert (q + [(key, values)])[1..] == q[1..] + [(key, values)];
      assert q == [q[0]] + q[1..];
    }
  }

  /** Grouping a concatenation groups the second part onto the first. */
  lemma {:induction false} GroupFromConcat(acc: Query, a: seq<(string, string)>, b: seq<(string, string)>)
    ensures GroupFrom(acc, a + b) == GroupFrom(GroupFrom(acc, a), b)
    decreases |b|
  {
    if b == [] {
      assert a + b == a;
    } else {
      GroupFromConcat(acc, a, b[..|b| - 1]);
      assert (a + b)[..|a + b| - 1] == a + b[..|b| - 1];
      assert (a + b)[|a + b| - 1] == b[|b| - 1];
    }
  }

  /** The values of a new key, grouped, form one entry at the end. */
  lemma {:induction false} GroupExpand(q: Query, key: string, values: seq<string>)
    requires Fresh(q, key) && values != []
    ensures GroupFrom(q, Expand(key, values)) == q + [(key, values)]
    decreases |values|
  {
    var e := Expand(key, values);
    var init := values[..|values| - 1];
    assert e[..|e| - 1] == Expand(key, init);
    if init == [] {
      AddNew(q, key, values[0]);
      assert e[..0] == [] && values == [values[0]];
    } else {
      GroupExpand(q, key, init);
      AddToLast(q, key, init, values[|values| - 1]);
      assert init + [values[|values| - 1]] == values;
    }
  }

  /** The entries before the last of a well-formed query are well formed, and
      the last has a safe key of its own and safe values. */
  lemma WellFormedLast(q: Query)
    requires WellFormedQuery(q) && q != []
    ensures var init := q[..|q| - 1];
      && WellFormedQuery(init) && Fresh(init, q[|q| - 1].0)
      && SafeKey(q[|q| - 1].0) && SafeValues(q[|q| - 1].1)
  {
    var init := q[..|q| - 1];
    assert forall i :: 0 <= i < |init| ==> init[i] == q[i];
  }

  /** Grouping the pairs of a well-formed query rebuilds it. */
  lemma {:induction false} GroupFlatten(q: Query)
    requires WellFormedQuery(q)
    ensures GroupFrom([], Flatten(q)) == q
    decreases |q|
  {
    if q != [] {
      var init := q[..|q| - 1];
      var last := q[|q| - 1];
      assert Flatten(q) == Flatten(init) + Expand(last.0, last.1);
      WellFormedLast(q);
      GroupFlatten(init);
      GroupFromConcat([], Flatten(init), Expand(last.0, last.1));
      GroupExpand(init, last.0, last.1);
      assert init + [last] == q;
    }
  }

  /** Every pair of a well-formed query is safe, and there is one when the query is not empty. */
  lemma {:induction false} FlattenSafe(q: Query)
    requires WellFormedQuery(q)
    ensures forall i :: 0 <= i < |Flatten(q)| ==> SafeKey(Flatten(q)[i].0) && SafeValue(Flatten(q)[i].1)
    ensures q != [] ==> Flatten(q) != []
    decreases |q|
  {
    if q != [] {
      var init := q[..|q| - 1];
      WellFormedLast(q);
      FlattenSafe(init);
      var last := q[|q| - 1];
      var e := Expand(last.0, last.1);
      var f := Flatten(q);
      assert f == Flatten(init) + e;
      forall i | 0 <= i < |f|
        ensures SafeKey(f[i].0) && SafeValue(f[i].1)
      {
        if i >= |Flatten(init)| {
          assert f[i] == e[i - |Flatten(init)|];
        }
      }
    }
  }

  /** Reading back the fields of safe pairs gives the pairs. */
  lemma {:induction false} PairsOfFields(pairs: seq<(string, string)>)
    requires forall i :: 0 <= i < |pairs| ==> SafeKey(pairs[i].0) && SafeValue(pairs[i].1)
    ensures Pairs(Fields(pairs)) == pairs
    decreases |pairs|
  {
    if pairs != [] {
      var n := |pairs|;
      var f := Fields(pairs);
      assert f[..n - 1] == Fields(pairs[..n - 1]);
      PairsOfFields(pairs[..n - 1]);
      var last := pairs[n - 1];
      assert f[n - 1] == last.0 + ['='] + last.1;
      CutAtFirst(last.0, '=', last.1);
      assert pairs[..n - 1] + [last] == pairs;
    }
  }

  /** The empty query string parses to the empty query. */
  lemma ParseQsEmpty()
    ensures ParseQs("") == []
  {
    assert Split("", '&') == [""];
    CutAtAbsent("", '=');
    assert Pairs([""]) == [];
  }

  /** `parse_qs(urlencode(q, doseq=True)) == q` for every well-formed query. */
  lemma EncodeParseRoundTrip(q: Query)
    requires WellFormedQuery(q)
    ensures ParseQs(Encode(q)) == q
  {
    FlattenSafe(q);
    GroupFlatten(q);
    var fields := Fields(Flatten(q));
    if q == [] {
      assert Encode(q) == "";
      ParseQsEmpty();
    } else {
      forall k | 0 <= k < |fields|
        ensures '&' !in fields[k]
      {
      }
      JoinSplitRoundTrip(fields, '&');
      PairsOfFields(Flatten(q));
    }
  }

  /** A character absent from the text is absent from every piece of its split. */
  lemma {:induction false} SplitAvoids(s: string, sep: char, d: char)
    requires d !in s
    ensures forall k :: 0 <= k < |Split(s, sep)| ==> d !in Split(s, sep)[k]
    decreases |s|
  {
    if s != [] {
      assert d !in s[1..];
      SplitAvoids(s[1..], sep, d);
    }
  }

  /** The pairs read from `&`-free, `#`-free fields are safe. */
  lemma {:induction false} PairsSafe(fields: seq<string>)
    requires forall k :: 0 <= k < |fields| ==> '&' !in fields[k] && '#' !in fields[k]
    ensures forall i :: 0 <= i < |Pairs(fields)| ==> SafeKey(Pairs(fields)[i].0) && SafeValue(Pairs(fields)[i].1)
    decreases |fields|
  {
    if fields != [] {
      PairsSafe(fields[..|fields| - 1]);
    }
  }

  /** Adding a safe pair keeps a query well formed. */
  lemma {:induction false} AddWellFormed(q: Query, key: string, value: string)
    requires WellFormedQuery(q) && SafeKey(key) && SafeValue(value)
    ensures WellFormedQuery(Add(q, key, value))
    decreases |q|
  {
    if q != [] && q[0].0 == key {
      var r := Add(q, key, value);
      assert forall i :: 0 < i < |r| ==> r[i] == q[i];
    } else if q != [] {
      var rest := q[1..];
      assert WellFormedQuery(rest);
      assert Fresh(rest, q[0].0);
      AddWellFormed(rest, key, value);
      AddKeepsFresh(rest, key, value, q[0].0);
      ConsWellFormed(q[0], Add(rest, key, value));
    }
  }

  /** Adding under one key keeps every other absent key absent. */
  lemma {:induction false} AddKeepsFresh(q: Query, key: string, value: string, other: string)
    requires other != key && Fresh(q, other)
    ensures Fresh(Add(q, key, value), other)
    decreases |q|
  {
    if q != [] && q[0].0 != key {
      AddKeepsFresh(q[1..], key, value, other);
      assert Add(q, key, value) == [q[0]] + Add(q[1..], key, value);
    }
  }

  /** A safe entry with a new key in front of a well-formed query. */
  lemma ConsWellFormed(entry: (string, seq<string>), q: Query)
    requires WellFormedQuery(q) && Fresh(q, entry.0) && SafeKey(entry.0) && SafeValues(entry.1)
    ensures WellFormedQuery([entry] + q)
  {
    var r := [entry] + q;
    assert forall i :: 0 < i < |r| ==> r[i] == q[i - 1];
  }

  lemma {:induction false} GroupFromWellFormed(acc: Query, pairs: seq<(string, string)>)
    requires WellFormedQuery(acc)
    requires forall i :: 0 <= i < |pairs| ==> SafeKey(pairs[i].0) && SafeValue(pairs[i].1)
    ensures WellFormedQuery(GroupFrom(acc, pairs))
    decreases |pairs|
  {
    if pairs != [] {
      GroupFromWellFormed(acc, pairs[..|pairs| - 1]);
      var last := pairs[|pairs| - 1];
      AddWellFormed(GroupFrom(acc, pairs[..|pairs| - 1]), last.0, last.1);
    }
  }

  /** `parse_qs` of a query component (which holds no `#`) is well formed. */
  lemma ParseQsWellFormed(query: string)
    requires '#' !in query
    ensures WellFormedQuery(ParseQs(query))
  {
    var fields := Split(query, '&');
    SplitAvoids(query, '&', '#');
    PairsSafe(fields);
    GroupFromWellFormed([], Pairs(fields));
  }

  /** `q[key] = values` as a dictionary assignment: the entry of `key` is replaced
      where it stands, every other entry is as it was, and a new key goes last. */
  lemma {:induction false} SetParamEntries(q: Query, key: string, values: seq<string>)
    requires forall i, j :: 0 <= i < j < |q| ==> q[i].0 != q[j].0
    ensures var r := SetParam(q, key, values);
      && |r| == (if Fresh(q, key) then |q| + 1 else |q|)
      && (forall i :: 0 <= i < |q| ==> r[i] == (if q[i].0 == key then (key, values) else q[i]))
      && (Fresh(q, key) ==> r[|q|] == (key, values))
    decreases |q|
  {
    if q != [] {
      var rest := q[1..];
      SetParamEntries(rest, key, values);
      var r := SetParam(q, key, values);
      if q[0].0 == key {
        assert r == [(key, values)] + rest;
        forall i | 0 < i < |q|
          ensures r[i] == q[i] && q[i].0 != key
        {
        }
      } else {
        assert r == [q[0]] + SetParam(rest, key, values);
      }
    }
  }

  /** The keys after `q[key] = values`: unchanged, or `key` added at the end. */
  lemma SetParamKeys(q: Query, key: string, values: seq<string>)
    requires forall i, j :: 0 <= i < j < |q| ==> q[i].0 != q[j].0
    ensures Keys(SetParam(q, key, values)) == if Fresh(q, key) then Keys(q) + [key] else Keys(q)
  {
    SetParamEntries(q, key, values);
    var r := Keys(SetParam(q, key, values));
    var e := if Fresh(q, key) then Keys(q) + [key] else Keys(q);
    assert |r| == |e|;
    forall i | 0 <= i < |r|
      ensures r[i] == e[i]
    {
    }
  }

  /** After `q[key] = values`, `key` maps to `values` and every other key to what it did. */
  lemma {:induction false} SetParamLookup(q: Query, key: string, values: seq<string>, other: string)
    ensures Lookup(SetParam(q, key, values), key) == Some(values)
    ensures other != key ==> Lookup(SetParam(q, key, values), other) == Lookup(q, other)
    decreases |q|
  {
    if q != [] {
      SetParamLookup(q[1..], key, values, other);
      var r := SetParam(q, key, values);
      if q[0].0 == key {
        assert r[1..] == q[1..];
      } else {
        assert r[1..] == SetParam(q[1..], key, values);
      }
    }
  }

  /** Assigning a key twice is assigning it once, with the later values. */
  lemma {:induction false} SetParamTwice(q: Query, key: string, first: seq<string>, second: seq<string>)
    ensures SetParam(SetParam(q, key, first), key, second) == SetParam(q, key, second)
    decreases |q|
  {
    if q != [] && q[0].0 != key {
      SetParamTwice(q[1..], key, first, second);
    }
  }

  /** A safe assignment keeps a query well formed. */
  lemma SetParamWellFormed(q: Query, key: string, values: seq<string>)
    requires WellFormedQuery(q) && SafeKey(key) && SafeValues(values)
    ensures WellFormedQuery(SetParam(q, key, values))
  {
    SetParamEntries(q, key, values);
    var r := SetParam(q, key, values);
    forall i | 0 <= i < |r|
      ensures r[i].0 == key || r[i] == q[i]
    {
    }
  }

  /** A character outside the separator and every part is outside their join. */
  lemma {:induction false} JoinAvoids(sep: string, parts: seq<string>, d: char)
    requires d !in sep && forall k :: 0 <= k < |parts| ==> d !in parts[k]
    ensures d !in Join(sep, parts)
    decreases |parts|
  {
    if |parts| > 1 {
      JoinAvoids(sep, parts[1..], d);
    }
  }

  /** The encoding of a well-formed query has no `#`, so it stays one URL component. */
  lemma EncodeAvoidsHash(q: Query)
    requires WellFormedQuery(q)
    ensures '#' !in Encode(q)
  {
    FlattenSafe(q);
    var fields := Fields(Flatten(q));
    forall k | 0 <= k < |fields|
      ensures '#' !in fields[k]
    {
    }
    JoinAvoids("&", fields, '#');
  }

  /** The URL with its query parameter `key` set to `values`, as
      `get_next_page_url` builds it. */
  function WithParam(url: string, key: string, values: seq<string>): string
  {
    var u := SplitUrl(url);
    UnsplitUrl(u.(query := Encode(SetParam(ParseQs(u.query), key, values))))
  }

  /** Setting a parameter keeps everything before the query and the fragment,
      and the new query parses to the old one with the assignment made. */
  lemma WithParamParts(url: string, key: string, values: seq<string>)
    requires SafeKey(key) && SafeValues(values)
    ensures var u := SplitUrl(url);
      var u' := SplitUrl(WithParam(url, key, values));
      && u'.head == u.head && u'.fragment == u.fragment
      && ParseQs(u'.query) == SetParam(ParseQs(u.query), key, values)
  {
    var u := SplitUrl(url);
    var q := SetParam(ParseQs(u.query), key, values);
    SplitUrlWellFormed(url);
    ParseQsWellFormed(u.query);
    SetParamWellFormed(ParseQs(u.query), key, values);
    EncodeAvoidsHash(q);
    SplitUnsplit(u.(query := Encode(q)));
    EncodeParseRoundTrip(q);
  }

  /** Setting a parameter twice is setting it once, with the later values. */
  lemma WithParamTwice(url: string, key: string, first: seq<string>, second: seq<string>)
    requires SafeKey(key) && SafeValues(first) && SafeValues(second)
    ensures WithParam(WithParam(url, key, first), key, second) == WithParam(url, key, second)
  {
    var u := SplitUrl(url);
    var q := ParseQs(u.query);
    WithParamParts(url, key, first);
    SetParamTwice(q, key, first, second);
    var u1 := SplitUrl(WithParam(url, key, first));
    assert u1.(query := Encode(SetParam(ParseQs(u1.query), key, second)))
        == u.(query := Encode(SetParam(q, key, second)));
  }
}
