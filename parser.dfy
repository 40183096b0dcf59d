/** The command parser of ux/parser.py. The regular-expression searches and
    `float()` are not modelled: their results on the stripped text are the
    inputs `Matches`. The keyword tables, the suffix fallback for symbols,
    the token window for quantities and the resolution of order type and
    price are modelled as the code writes them. */
module OrderParser {
  import opened Common
  import opened Records

  // ---------------------------------------------------------------------------
  // Tables

  /** `SIDE_MAP`, in insertion order. */
  const SideMap: seq<(string, string)> := [
    ("куп", "BUY"), ("купи", "BUY"), ("купить", "BUY"), ("покупаю", "BUY"), ("buy", "BUY"), ("b", "BUY"),
    ("прод", "SELL"), ("продай", "SELL"), ("продать", "SELL"), ("sell", "SELL"), ("s", "SELL")
  ]

  const SideKeys: set<string> := set i | 0 <= i < |SideMap| :: SideMap[i].0

  /** `ORDER_TYPE_KEYWORDS`, in insertion order. */
  const OrderTypeKeywords: seq<(string, string)> := [
    ("market", "MARKET"), ("по рынку", "MARKET"), ("рыноч", "MARKET"),
    ("limit", "LIMIT"), ("лимит", "LIMIT"), ("по цене", "LIMIT")
  ]

  /** The quote assets the symbol fallback tries, in order. */
  const Quotes: seq<string> := ["USDT", "USDC", "BTC", "ETH", "BNB"]

  // ---------------------------------------------------------------------------
  // First hit in a table

  /** The index of the first element from `from` on that satisfies `hit`:
      the early-return `for` loops over the tables. */
  function FirstIndex<T>(s: seq<T>, hit: T -> bool, from: nat): (r: Option<nat>)
    ensures r.Some? ==> from <= r.value < |s| && hit(s[r.value])
                        && forall j :: from <= j < r.value ==> !hit(s[j])
    ensures r.None? ==> forall j :: from <= j < |s| ==> !hit(s[j])
    decreases |s| - from
  {
    if from >= |s| then None
    else if hit(s[from]) then Some(from)
    else FirstIndex(s, hit, from + 1)
  }

  /** The value of the first key of `table` that satisfies `hit`. */
  function FirstMatch(table: seq<(string, string)>, hit: string -> bool): Option<string> {
    match FirstIndex(table, (e: (string, string)) => hit(e.0), 0)
    case None => None
    case Some(i) => Some(table[i].1)
  }

  /** When the first `n` keys of a table all map to `v` and no later key
      does, the result is `v` exactly when one of the first `n` keys hits. */
  lemma FirstBlockWins(table: seq<(string, string)>, hit: string -> bool, n: nat, v: string)
    requires n <= |table|
    requires forall i :: 0 <= i < n ==> table[i].1 == v
    requires forall i :: n <= i < |table| ==> table[i].1 != v
    ensures FirstMatch(table, hit) == Some(v) <==> exists i :: 0 <= i < n && hit(table[i].0)
  {
    var f := (e: (string, string)) => hit(e.0);
    var r := FirstIndex(table, f, 0);
    if r.Some? && r.value >= n {
      forall i | 0 <= i < n ensures !hit(table[i].0) {
        assert !f(table[i]);
      }
    }
    if exists i :: 0 <= i < n && hit(table[i].0) {
      var i :| 0 <= i < n && hit(table[i].0);
      assert f(table[i]);
    }
  }

  /** `parse_side`: the value of the first `SIDE_MAP` key, in insertion
      order, that occurs as a whole word; `wholeWord(k)` is the result of
      the case-insensitive search for `\bk\b`. */
  function ParseSide(wholeWord: string -> bool): Option<string> {
    FirstMatch(SideMap, wholeWord)
  }

  /** All buy words come before all sell words, so any buy word makes the
      side BUY, and the side is SELL only when no buy word occurs. */
  lemma BuyWordsWin(wholeWord: string -> bool)
    ensures ParseSide(wholeWord) == Some("BUY") <==> exists i :: 0 <= i < 6 && wholeWord(SideMap[i].0)
    ensures ParseSide(wholeWord) == Some("SELL") <==>
              (forall i :: 0 <= i < 6 ==> !wholeWord(SideMap[i].0))
              && exists i :: 6 <= i < |SideMap| && wholeWord(SideMap[i].0)
    ensures ParseSide(wholeWord).None? <==> forall i :: 0 <= i < |SideMap| ==> !wholeWord(SideMap[i].0)
  {
    FirstBlockWins(SideMap, wholeWord, 6, "BUY");
    var f := (e: (string, string)) => wholeWord(e.0);
    var r := FirstIndex(SideMap, f, 0);
    if r.None? {
      forall i | 0 <= i < |SideMap| ensures !wholeWord(SideMap[i].0) {
        assert !f(SideMap[i]);
      }
    } else {
      assert f(SideMap[r.value]);
      forall i | 0 <= i < r.value ensures !wholeWord(SideMap[i].0) {
        assert !f(SideMap[i]);
      }
    }
  }

  /** `parse_order_type`: the value of the first keyword, in insertion
      order, that occurs in the lower-cased text. */
  function ParseOrderType(text: string): Option<string> {
    FirstMatch(OrderTypeKeywords, (k: string) => Contains(Lower(text), k))
  }

  /** Market keywords come first, so they win over limit keywords. */
  lemma MarketWins(text: string)
    ensures ParseOrderType(text) == Some("MARKET") <==>
              exists i :: 0 <= i < 3 && Contains(Lower(text), OrderTypeKeywords[i].0)
    ensures ParseOrderType(text) == Some("LIMIT") ==>
              forall i :: 0 <= i < 3 ==> !Contains(Lower(text), OrderTypeKeywords[i].0)
    ensures ParseOrderType(text) in {None, Some("MARKET"), Some("LIMIT")}
  {
    var hit := (k: string) => Contains(Lower(text), k);
    FirstBlockWins(OrderTypeKeywords, hit, 3, "MARKET");
    var f := (e: (string, string)) => hit(e.0);
    var r := FirstIndex(OrderTypeKeywords, f, 0);
    if r.Some? {
      assert r.value < 6;
      assert OrderTypeKeywords[r.value].1 in {"MARKET", "LIMIT"};
    }
  }

  // ---------------------------------------------------------------------------
  // Symbol

  /** `{'base': …, 'quote': …, 'symbol': …}`. */
  datatype SymbolParts = SymbolParts(base: string, quote: string, symbol: string)

  /** The suffix fallback on an upper-cased token: the first quote asset the
      token ends with, leaving a non-empty base. */
  function SplitQuote(s: string): (r: Option<SymbolParts>)
    ensures r.Some? ==> && r.value.base + r.value.quote == r.value.symbol == s
                        && |r.value.base| > 0
    ensures r.Some? ==> exists i :: 0 <= i < |Quotes| && r.value.quote == Quotes[i]
                                    && forall j :: 0 <= j < i ==> !(EndsWith(s, Quotes[j]) && |s| > |Quotes[j]|)
    ensures r.None? <==> forall j :: 0 <= j < |Quotes| ==> !(EndsWith(s, Quotes[j]) && |s| > |Quotes[j]|)
  {
    var hit := (q: string) => EndsWith(s, q) && |s| > |q|;
    match FirstIndex(Quotes, hit, 0)
    case None => None
    case Some(i) =>
      var q := Quotes[i];
      assert hit(q);
      assert s[..|s| - |q|] + q == s by {
        assert s[|s| - |q|..] == q;
      }
      Some(SymbolParts(s[..|s| - |q|], q, s))
  }

  /** `parse_symbol`: `pair` is the two groups of the `SYMBOL_RE` search,
      `word` the group of the search for a 5 to 10 letter word. */
  function ParseSymbol(pair: Option<(string, string)>, word: Option<string>): (r: Option<SymbolParts>)
    ensures r.Some? ==> r.value.symbol == r.value.base + r.value.quote
    ensures pair.Some? ==> r == Some(SymbolParts(Upper(pair.value.0), Upper(pair.value.1),
                                                 Upper(pair.value.0) + Upper(pair.value.1)))
    ensures pair.None? && word.Some? ==> r == SplitQuote(Upper(word.value))
    ensures pair.None? && word.None? ==> r.None?
  {
    if pair.Some? then
      var a := Upper(pair.value.0);
      var b := Upper(pair.value.1);
      Some(SymbolParts(a, b, a + b))
    else if word.Some? then SplitQuote(Upper(word.value))
    else None
  }

  // ---------------------------------------------------------------------------
  // Quantity

  /** `tok.lower() in SIDE_MAP`. */
  predicate IsSideToken(tok: string) {
    Lower(tok) in SideKeys
  }

  /** The first number among `tokens[j..hi]`; `amountAt(t)` is the number
      `AMOUNT_RE.match(t)` reads at the start of `t`, if any. */
  function Window(tokens: seq<string>, j: nat, hi: nat, amountAt: string -> Option<real>): Option<real>
    requires hi <= |tokens|
    decreases hi - j
  {
    if j >= hi then None
    else if amountAt(tokens[j]).Some? then amountAt(tokens[j])
    else Window(tokens, j + 1, hi, amountAt)
  }

  /** The end of the window after the side token at `i`:
      `min(i + 4, len(tokens))`. */
  function WindowEnd(tokens: seq<string>, i: nat): nat {
    MinInt(i + 4, |tokens|)
  }

  /** The number found by the nested loops from token `i` on. */
  function NearSide(tokens: seq<string>, i: nat, amountAt: string -> Option<real>): Option<real>
    decreases |tokens| - i
  {
    if i >= |tokens| then None
    else if IsSideToken(tokens[i]) && Window(tokens, i + 1, WindowEnd(tokens, i), amountAt).Some? then
      Window(tokens, i + 1, WindowEnd(tokens, i), amountAt)
    else NearSide(tokens, i + 1, amountAt)
  }

  /** What `parse_quantity` returns: a number near a side token, or else
      the first number of the text (`firstAmount`, the `AMOUNT_RE` search). */
  function QuantityOf(tokens: seq<string>, amountAt: string -> Option<real>, firstAmount: Option<real>): Option<real> {
    match NearSide(tokens, 0, amountAt)
    case Some(q) => Some(q)
    case None => firstAmount
  }

  /** `parse_quantity`, with `tokens` the result of `re.split(r"\s+", text)`. */
  method ParseQuantity(tokens: seq<string>, amountAt: string -> Option<real>, firstAmount: Option<real>)
    returns (q: Option<real>)
    ensures q == QuantityOf(tokens, amountAt, firstAmount)
  {
    var i := 0;
    while i < |tokens|
      invariant 0 <= i <= |tokens|
      invariant NearSide(tokens, 0, amountAt) == NearSide(tokens, i, amountAt)
    {
      if Lower(tokens[i]) in SideKeys {
        var hi := MinInt(i + 4, |tokens|);
        var j := i + 1;
        while j < hi
          invariant i + 1 <= j
          invariant j <= hi || hi <= i + 1
          invariant Window(tokens, i + 1, hi, amountAt) == Window(tokens, j, hi, amountAt)
          decreases hi - j
        {
          var m := amountAt(tokens[j]);
          if m.Some? {
            return m;
          }
          j := j + 1;
        }
      }
      i := i + 1;
    }
    return firstAmount;
  }

  /** A number near a side token comes from the first side token that has
      one among the 3 tokens after it, and it is the first number among
      those tokens. */
  lemma {:induction false} NearSideWitness(tokens: seq<string>, i: nat, amountAt: string -> Option<real>)
    returns (a: nat, b: nat)
    requires NearSide(tokens, i, amountAt).Some?
    ensures i <= a < b < WindowEnd(tokens, a) && b <= a + 3
    ensures IsSideToken(tokens[a]) && amountAt(tokens[b]) == NearSide(tokens, i, amountAt)
    ensures forall c :: a < c < b ==> amountAt(tokens[c]).None?
    ensures forall c :: i <= c < a && IsSideToken(tokens[c]) ==>
              Window(tokens, c + 1, WindowEnd(tokens, c), amountAt).None?
    decreases |tokens| - i
  {
    if IsSideToken(tokens[i]) && Window(tokens, i + 1, WindowEnd(tokens, i), amountAt).Some? {
      a := i;
      b := WindowWitness(tokens, i + 1, WindowEnd(tokens, i), amountAt);
    } else {
      a, b := NearSideWitness(tokens, i + 1, amountAt);
    }
  }

  lemma {:induction false} WindowWitness(tokens: seq<string>, j: nat, hi: nat, amountAt: string -> Option<real>)
    returns (b: nat)
    requires hi <= |tokens| && Window(tokens, j, hi, amountAt).Some?
    ensures j <= b < hi && amountAt(tokens[b]) == Window(tokens, j, hi, amountAt)
    ensures forall c :: j <= c < b ==> amountAt(tokens[c]).None?
    decreases hi - j
  {
    if amountAt(tokens[j]).Some? {
      b := j;
    } else {
      b := WindowWitness(tokens, j + 1, hi, amountAt);
    }
  }

  /** The fallback: when no side token has a number in its window, the
      quantity is the first number of the text. */
  lemma {:induction false} NearSideNone(tokens: seq<string>, i: nat, amountAt: string -> Option<real>)
    requires forall c :: i <= c < |tokens| && IsSideToken(tokens[c]) ==>
               Window(tokens, c + 1, WindowEnd(tokens, c), amountAt).None?
    ensures NearSide(tokens, i, amountAt).None?
    decreases |tokens| - i
  {
    if i < |tokens| {
      NearSideNone(tokens, i + 1, amountAt);
    }
  }

  // ---------------------------------------------------------------------------
  // parse

  /** The regular-expression results on the stripped text: the `SYMBOL_RE`
      groups, the 5-10 letter word, the whole-word test of each side key,
      the `\s+` split, the number at the start of a token, the first number
      of the text, and the result of `parse_price`. */
  datatype Matches = Matches(pair: Option<(string, string)>, word: Option<string>,
                             wholeWord: string -> bool, tokens: seq<string>,
                             amountAt: string -> Option<real>, firstAmount: Option<real>,
                             price: Option<real>)

  const ParseKeys: set<string> :=
    {"raw_text", "side", "quantity", "order_type", "price", "symbol", "base_asset", "quote_asset"}

  /** `parse(text)`. */
  function Parse(text: string, m: Matches): Dict {
    var t := Strip(text);
    Assemble(t, ParseSide(m.wholeWord), QuantityOf(m.tokens, m.amountAt, m.firstAmount),
             ParseOrderType(t), ParseSymbol(m.pair, m.word), m.price)
  }

  /** The body of `parse` once the pieces are found: the dictionary `res`,
      then its symbol fields, then the price rule, then the market rule, in
      the order the code applies them. */
  function Assemble(t: string, side: Option<string>, qty: Option<real>, otype: Option<string>,
                    sym: Option<SymbolParts>, price: Option<real>): Dict {
    MarketRule(PriceRule(WithSymbol(Initial(t, side, qty, otype), sym), price))
  }

  function Initial(t: string, side: Option<string>, qty: Option<real>, otype: Option<string>): Dict {
    map["raw_text" := Str(t), "side" := OfString(side), "quantity" := OfNumber(qty),
        "order_type" := OfString(otype),
        "price" := Null, "symbol" := Null, "base_asset" := Null, "quote_asset" := Null]
  }

  /** `if sym:` set the three symbol fields. */
  function WithSymbol(res: Dict, sym: Option<SymbolParts>): Dict {
    if sym.Some? then res["symbol" := Str(sym.value.symbol)]["base_asset" := Str(sym.value.base)]
                         ["quote_asset" := Str(sym.value.quote)]
    else res
  }

  /** A truthy price is kept on a LIMIT order and makes an untyped order a
      LIMIT order. */
  function PriceRule(res: Dict, price: Option<real>): Dict
    requires "order_type" in res
  {
    var priced := price.Some? && price.value != 0.0;
    if priced && res["order_type"] == Str("LIMIT") then res["price" := Num(price.value)]
    else if priced && res["order_type"] == Null then
      res["price" := Num(price.value)]["order_type" := Str("LIMIT")]
    else res
  }

  /** A MARKET order has its price cleared. */
  function MarketRule(res: Dict): Dict
    requires "order_type" in res
  {
    if res["order_type"] == Str("MARKET") then res["price" := Null] else res
  }

  /** The symbol fields are all set, with symbol = base ++ quote, or all
      `None`. */
  predicate SymbolFields(r: Dict)
    requires "symbol" in r && "base_asset" in r && "quote_asset" in r
  {
    || (r["symbol"].Str? && r["base_asset"].Str? && r["quote_asset"].Str?
        && r["symbol"].s == r["base_asset"].s + r["quote_asset"].s)
    || (r["symbol"] == Null && r["base_asset"] == Null && r["quote_asset"] == Null)
  }

  /** The result has the eight keys; `raw_text` is the stripped input; the
      text fields hold strings and the numbers numbers; the symbol fields
      are all set, with symbol = base ++ quote, or all `None`. */
  lemma ParseShape(text: string, m: Matches)
    ensures var r := Parse(text, m);
      && r.Keys == ParseKeys
      && r["raw_text"] == Str(Strip(text))
      && WellTyped(r)
      && SymbolFields(r)
      && r["side"] == OfString(ParseSide(m.wholeWord))
      && r["quantity"] == OfNumber(QuantityOf(m.tokens, m.amountAt, m.firstAmount))
  {
    var t := Strip(text);
    var sym := ParseSymbol(m.pair, m.word);
    AssembleShape(t, ParseSide(m.wholeWord), QuantityOf(m.tokens, m.amountAt, m.firstAmount),
                  ParseOrderType(t), sym, m.price);
  }

  lemma AssembleShape(t: string, side: Option<string>, qty: Option<real>, otype: Option<string>,
                      sym: Option<SymbolParts>, price: Option<real>)
    requires sym.Some? ==> sym.value.symbol == sym.value.base + sym.value.quote
    ensures var r := Assemble(t, side, qty, otype, sym, price);
      && r.Keys == ParseKeys
      && r["raw_text"] == Str(t)
      && WellTyped(r)
      && SymbolFields(r)
      && r["side"] == OfString(side)
      && r["quantity"] == OfNumber(qty)
  {
    var r0 := Initial(t, side, qty, otype);
    InitialShape(t, side, qty, otype);
    var r1 := WithSymbol(r0, sym);
    WithSymbolShape(r0, sym);
    var r2 := PriceRule(r1, price);
    PriceRuleShape(r1, price);
    MarketRuleShape(r2);
  }

  /** What every stage keeps. */
  predicate Shaped(r: Dict) {
    r.Keys == ParseKeys && WellTyped(r) && SymbolFields(r)
  }

  lemma InitialShape(t: string, side: Option<string>, qty: Option<real>, otype: Option<string>)
    ensures var r := Initial(t, side, qty, otype);
      Shaped(r) && r["raw_text"] == Str(t) && r["side"] == OfString(side) && r["quantity"] == OfNumber(qty)
      && r["order_type"] == OfString(otype) && r["price"] == Null
  {
    var r := Initial(t, side, qty, otype);
    assert r.Keys == ParseKeys;
  }

  lemma WithSymbolShape(r: Dict, sym: Option<SymbolParts>)
    requires Shaped(r)
    requires sym.Some? ==> sym.value.symbol == sym.value.base + sym.value.quote
    ensures var d := WithSymbol(r, sym);
      Shaped(d) && forall k :: k in r && k !in {"symbol", "base_asset", "quote_asset"} ==> d[k] == r[k]
  {
  }

  lemma PriceRuleShape(r: Dict, price: Option<real>)
    requires Shaped(r)
    ensures var d := PriceRule(r, price);
      Shaped(d) && forall k :: k in r && k !in {"price", "order_type"} ==> d[k] == r[k]
  {
  }

  lemma MarketRuleShape(r: Dict)
    requires Shaped(r)
    ensures var d := MarketRule(r);
      Shaped(d) && forall k :: k in r && k != "price" ==> d[k] == r[k]
  {
  }

  /** The order-type and price rules: a truthy price with no type gives a
      LIMIT order at that price; a price with LIMIT is kept; otherwise the
      price is `None` (a price of 0 counts as absent); a MARKET order never
      has a price, and a price only appears on a LIMIT order. */
  lemma PriceRules(text: string, m: Matches)
    ensures var r := Parse(text, m);
      var otype := ParseOrderType(Strip(text));
      var priced := m.price.Some? && m.price.value != 0.0;
      && (priced && otype.None? ==> r["order_type"] == Str("LIMIT") && r["price"] == Num(m.price.value))
      && (priced && otype == Some("LIMIT") ==> r["order_type"] == Str("LIMIT") && r["price"] == Num(m.price.value))
      && (otype == Some("MARKET") ==> r["order_type"] == Str("MARKET") && r["price"] == Null)
      && (!priced ==> r["price"] == Null && r["order_type"] == OfString(otype))
      && (r["order_type"] == Str("MARKET") ==> r["price"] == Null)
      && (r["price"] != Null ==> r["order_type"] == Str("LIMIT"))
  {
    var t := Strip(text);
    AssemblePrice(t, ParseSide(m.wholeWord), QuantityOf(m.tokens, m.amountAt, m.firstAmount),
                  ParseOrderType(t), ParseSymbol(m.pair, m.word), m.price);
  }

  lemma AssemblePrice(t: string, side: Option<string>, qty: Option<real>, otype: Option<string>,
                      sym: Option<SymbolParts>, price: Option<real>)
    ensures var r := Assemble(t, side, qty, otype, sym, price);
      var priced := price.Some? && price.value != 0.0;
      && (priced && otype.None? ==> r["order_type"] == Str("LIMIT") && r["price"] == Num(price.value))
      && (priced && otype == Some("LIMIT") ==> r["order_type"] == Str("LIMIT") && r["price"] == Num(price.value))
      && (otype == Some("MARKET") ==> r["order_type"] == Str("MARKET") && r["price"] == Null)
      && (!priced ==> r["price"] == Null && r["order_type"] == OfString(otype))
      && (r["order_type"] == Str("MARKET") ==> r["price"] == Null)
      && (r["price"] != Null ==> r["order_type"] == Str("LIMIT"))
  {
    var r0 := Initial(t, side, qty, otype);
    var r1 := WithSymbol(r0, sym);
    assert r1["order_type"] == OfString(otype) && r1["price"] == Null by {
      InitialShape(t, side, qty, otype);
      WithSymbolKeeps(r0, sym, "order_type");
      WithSymbolKeeps(r0, sym, "price");
    }
    PriceRuleEffect(r1, price);
    MarketRuleEffect(PriceRule(r1, price));
  }

  lemma WithSymbolKeeps(r: Dict, sym: Option<SymbolParts>, k: string)
    requires k in r && k != "symbol" && k != "base_asset" && k != "quote_asset"
    ensures k in WithSymbol(r, sym) && WithSymbol(r, sym)[k] == r[k]
  {
  }

  /** The price rule on an order whose price is still `None`. */
  lemma PriceRuleEffect(r: Dict, price: Option<real>)
    requires "order_type" in r && "price" in r && r["price"] == Null
    ensures var d := PriceRule(r, price);
      var priced := price.Some? && price.value != 0.0;
      && "order_type" in d && "price" in d
      && (priced && r["order_type"] in {Null, Str("LIMIT")} ==>
            d["order_type"] == Str("LIMIT") && d["price"] == Num(price.value))
      && (!(priced && r["order_type"] in {Null, Str("LIMIT")}) ==>
            d["order_type"] == r["order_type"] && d["price"] == Null)
  {
  }

  lemma MarketRuleEffect(r: Dict)
    requires "order_type" in r && "price" in r
    ensures var d := MarketRule(r);
      && "order_type" in d && "price" in d
      && d["order_type"] == r["order_type"]
      && d["price"] == (if r["order_type"] == Str("MARKET") then Null else r["price"])
  {
  }
}
