/** The symbol suggestions of ux/autocomplete.py: the pairs of a fixed list
    whose base, symbol or quote starts with the upper-cased prefix, in list
    order, cut to `limit` with Python's slice rule. */
module Autocomplete {
  import opened Common

  datatype Pair = Pair(symbol: string, base: string, quote: string)

  /** `POPULAR_PAIRS`. */
  const PopularPairs: seq<Pair> := [
    Pair("BTCUSDT", "BTC", "USDT"),
    Pair("ETHUSDT", "ETH", "USDT"),
    Pair("BNBUSDT", "BNB", "USDT"),
    Pair("SOLUSDT", "SOL", "USDT"),
    Pair("XRPUSDT", "XRP", "USDT"),
    Pair("DOGEUSDT", "DOGE", "USDT"),
    Pair("BTCBUSD", "BTC", "BUSD")
  ]

  /** The default `limit` of `suggest_symbols`. */
  const DefaultLimit: int := 5

  predicate PairMatches(x: Pair, p: string) {
    StartsWith(x.base, p) || StartsWith(x.symbol, p) || StartsWith(x.quote, p)
  }

  /** The list comprehension: the matching pairs, in order. */
  function Filter(pairs: seq<Pair>, p: string): seq<Pair>
    decreases |pairs|
  {
    if pairs == [] then []
    else (if PairMatches(pairs[0], p) then [pairs[0]] else []) + Filter(pairs[1..], p)
  }

  /** The comprehension keeps exactly the matching pairs and no more. */
  lemma {:induction false} FilterSpec(pairs: seq<Pair>, p: string)
    ensures var r := Filter(pairs, p);
      && |r| <= |pairs|
      && (forall i :: 0 <= i < |r| ==> r[i] in pairs && PairMatches(r[i], p))
      && (forall x :: x in pairs && PairMatches(x, p) ==> x in r)
    decreases |pairs|
  {
    if pairs != [] {
      FilterSpec(pairs[1..], p);
      var r := Filter(pairs, p);
      var head := if PairMatches(pairs[0], p) then [pairs[0]] else [];
      var rest := Filter(pairs[1..], p);
      assert r == head + rest;
      forall i | 0 <= i < |r|
        ensures r[i] in pairs && PairMatches(r[i], p)
      {
        if i >= |head| {
          assert r[i] == rest[i - |head|];
        }
      }
      forall x | x in pairs && PairMatches(x, p)
        ensures x in r
      {
        if x != pairs[0] {
          assert x in pairs[1..];
        }
      }
    }
  }

  /** Python's `s[:limit]`: a negative limit counts from the end. */
  function Prefix<T>(s: seq<T>, limit: int): (r: seq<T>)
    ensures limit >= 0 ==> |r| == MinInt(limit, |s|)
    ensures limit < 0 ==> |r| == (if |s| + limit > 0 then |s| + limit else 0)
    ensures r == s[..|r|]
  {
    if limit >= 0 then s[..MinInt(limit, |s|)]
    else if |s| + limit > 0 then s[..|s| + limit]
    else []
  }

  /** `suggest_symbols(prefix, limit)`. */
  function SuggestSymbols(prefix: string, limit: int): seq<Pair> {
    Prefix(Filter(PopularPairs, Upper(prefix)), limit)
  }

  /** The comprehension keeps list order: filtering a concatenation is
      filtering each part. */
  lemma {:induction false} FilterConcat(a: seq<Pair>, b: seq<Pair>, p: string)
    ensures Filter(a + b, p) == Filter(a, p) + Filter(b, p)
    decreases |a|
  {
    if a == [] {
      assert a + b == b;
    } else {
      assert (a + b)[0] == a[0];
      assert (a + b)[1..] == a[1..] + b;
      FilterConcat(a[1..], b, p);
    }
  }

  /** At most `limit` results, each matching the upper-cased prefix, and
      they are the first `limit` matching pairs of the list, in its order. */
  lemma SuggestionsAreFirstMatches(prefix: string, limit: int)
    ensures var r := SuggestSymbols(prefix, limit);
      var all := Filter(PopularPairs, Upper(prefix));
      && (limit >= 0 ==> |r| <= limit)
      && (forall i :: 0 <= i < |r| ==> r[i] in PopularPairs && PairMatches(r[i], Upper(prefix)))
      && r == all[..|r|]
      && (limit >= 0 && |r| < limit ==> r == all)
  {
    FirstMatches(PopularPairs, Upper(prefix), limit);
  }

  lemma FirstMatches(pairs: seq<Pair>, p: string, limit: int)
    ensures var r := Prefix(Filter(pairs, p), limit);
      var all := Filter(pairs, p);
      && (limit >= 0 ==> |r| <= limit)
      && (forall i :: 0 <= i < |r| ==> r[i] in pairs && PairMatches(r[i], p))
      && r == all[..|r|]
      && (limit >= 0 && |r| < limit ==> r == all)
  {
    var all := Filter(pairs, p);
    FilterSpec(pairs, p);
    var r := Prefix(all, limit);
    forall i | 0 <= i < |r|
      ensures r[i] in pairs && PairMatches(r[i], p)
    {
      assert r[i] == all[i];
    }
  }

  /** Matching ignores the case of the prefix. */
  lemma CaseInsensitive(prefix: string, limit: int)
    ensures SuggestSymbols(Lower(prefix), limit) == SuggestSymbols(prefix, limit)
    ensures SuggestSymbols(Upper(prefix), limit) == SuggestSymbols(prefix, limit)
  {
    UpperOfLower(prefix);
    UpperIdempotent(prefix);
  }

  /** Every pair matches the empty prefix, so it returns the first `limit`
      pairs of the list. */
  lemma {:induction false} EmptyPrefixKeepsAll(pairs: seq<Pair>)
    ensures Filter(pairs, "") == pairs
    decreases |pairs|
  {
    if pairs != [] {
      assert PairMatches(pairs[0], "");
      EmptyPrefixKeepsAll(pairs[1..]);
    }
  }

  lemma EmptyPrefix(limit: int)
    ensures SuggestSymbols("", limit) == Prefix(PopularPairs, limit)
  {
    assert Upper("") == "";
    EmptyPrefixKeepsAll(PopularPairs);
  }
}
