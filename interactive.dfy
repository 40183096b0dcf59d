/** The dialog rules of `DialogManager` in ux/interactive.py: which field
    to ask for next, the prompt texts, the validation order of a draft
    order, and how a reply is merged into the draft. The parser is
    `OrderParser.Parse`, its regular-expression results given as inputs. */
module Dialog {
  import opened Common
  import opened Records
  import opened OrderParser
  import opened Templates
  import opened Autocomplete

  /** `REQUIRED_FIELDS`, in order. */
  const RequiredFields: seq<string> := ["side", "quantity", "base_asset", "quote_asset", "order_type"]

  /** `start(text)`: a copy of the parse result. */
  function Start(text: string, m: Matches): (r: Dict)
    ensures r.Keys == ParseKeys && r["raw_text"] == Str(Strip(text)) && WellTyped(r)
  {
    ParseShape(text, m);
    Parse(text, m)
  }

  // ---------------------------------------------------------------------------
  // next_prompt

  /** A field `next_prompt` asks for: a falsy value, except that a missing
      base asset is accepted when a symbol is set. */
  predicate Missing(state: Dict, f: string) {
    !Truthy(Get(state, f)) && !(f == "base_asset" && Truthy(Get(state, "symbol")))
  }

  /** The first field from index `i` of `fields` that is missing. */
  function FirstMissing(state: Dict, fields: seq<string>, i: nat): (r: Option<string>)
    ensures r.Some? ==> exists j :: i <= j < |fields| && fields[j] == r.value && Missing(state, fields[j])
                                    && forall l :: i <= l < j ==> !Missing(state, fields[l])
    ensures r.None? <==> forall j :: i <= j < |fields| ==> !Missing(state, fields[j])
    decreases |fields| - i
  {
    if i >= |fields| then None
    else if Missing(state, fields[i]) then Some(fields[i])
    else FirstMissing(state, fields, i + 1)
  }

  /** The prompts of `prompt_for(field, state)`, one per field; the state
      is not consulted. */
  const Prompts: seq<(string, string)> := [
    ("side", "Вы хотите купить или продать? (купи / продай)"),
    ("quantity", "Сколько единиц вы хотите купить/продать? (например: 0.1)"),
    ("base_asset", "Какой актив вы хотите торговать? (например: BTC или BTC/USDT)"),
    ("quote_asset", "В какой валюте расчетов? (например: USDT)"),
    ("order_type", "Тип ордера? (market / limit)")
  ]

  const DefaultPrompt: string := "Уточните, пожалуйста."

  /** `prompt_for(field, state)`. */
  function PromptFor(field: string): string {
    match Lookup(Prompts, field)
    case Some(text) => text
    case None => DefaultPrompt
  }

  /** Each required field has its own prompt, the prompts differ from one
      another and from the default, and any other field gets the default. */
  lemma PromptTable(field: string)
    ensures forall i :: 0 <= i < |RequiredFields| ==> PromptFor(RequiredFields[i]) == Prompts[i].1
    ensures forall i, j :: 0 <= i < j < |Prompts| ==> Prompts[i].1 != Prompts[j].1
    ensures forall i :: 0 <= i < |Prompts| ==> Prompts[i].1 != DefaultPrompt
    ensures field !in RequiredFields ==> PromptFor(field) == DefaultPrompt
  {
    assert Prompts[1..][1..][1..][1..][1..] == [];
  }

  /** Every prompt is a non-empty text. */
  lemma PromptNonEmpty(field: string)
    ensures PromptFor(field) != ""
  {
    LookupFinds(Prompts, field);
    if Lookup(Prompts, field).Some? {
      var i :| 0 <= i < |Prompts| && Prompts[i] == (field, Lookup(Prompts, field).value);
      assert |Prompts[i].1| > 0;
    }
  }

  /** What `next_prompt(state)` returns. */
  function Prompt(state: Dict): Option<string> {
    match FirstMissing(state, RequiredFields, 0)
    case None => None
    case Some(f) => Some(PromptFor(f))
  }

  /** `next_prompt(state)`: the early-return loop over `REQUIRED_FIELDS`. */
  method NextPrompt(state: Dict) returns (r: Option<string>)
    ensures r == Prompt(state)
  {
    var i := 0;
    while i < |RequiredFields|
      invariant 0 <= i <= |RequiredFields|
      invariant FirstMissing(state, RequiredFields, 0) == FirstMissing(state, RequiredFields, i)
    {
      var f := RequiredFields[i];
      if !Truthy(Get(state, f)) {
        if !(f == "base_asset" && Truthy(Get(state, "symbol"))) {
          return Some(PromptFor(f));
        }
      }
      i := i + 1;
    }
    return None;
  }

  /** No prompt exactly when side, quantity, quote asset and order type are
      truthy and the base asset is truthy or a symbol is set; otherwise the
      prompt is that of the first missing field in `REQUIRED_FIELDS` order. */
  lemma PromptRules(state: Dict)
    ensures Prompt(state).None? <==>
              && Truthy(Get(state, "side")) && Truthy(Get(state, "quantity"))
              && (Truthy(Get(state, "base_asset")) || Truthy(Get(state, "symbol")))
              && Truthy(Get(state, "quote_asset")) && Truthy(Get(state, "order_type"))
    ensures Prompt(state).Some? ==>
              exists j :: 0 <= j < |RequiredFields| && Missing(state, RequiredFields[j])
                          && Prompt(state) == Some(PromptFor(RequiredFields[j]))
                          && forall l :: 0 <= l < j ==> !Missing(state, RequiredFields[l])
  {
    var r := FirstMissing(state, RequiredFields, 0);
    if r.None? {
      assert !Missing(state, RequiredFields[0]) && !Missing(state, RequiredFields[1]);
      assert !Missing(state, RequiredFields[2]) && !Missing(state, RequiredFields[3]);
      assert !Missing(state, RequiredFields[4]);
    }
  }

  // ---------------------------------------------------------------------------
  // validate

  /** The error code of `validate(state)`, checked in the code's order. A
      quantity that is a string would make `<= 0` raise; no parse result
      holds one. */
  function ValidationCode(state: Dict): (r: Option<string>)
    requires !Get(state, "quantity").Str?
  {
    if Get(state, "quantity") == Null then Some("quantity_missing")
    else if Get(state, "quantity").x <= 0.0 then Some("quantity_invalid")
    else if !Truthy(Get(state, "symbol")) then Some("symbol_missing")
    else if Get(state, "order_type") == Str("LIMIT") && Get(state, "price") == Null then Some("price_missing")
    else None
  }

  /** `validate(state)`: the friendly text of the code. */
  function Validate(state: Dict): Option<string>
    requires !Get(state, "quantity").Str?
  {
    match ValidationCode(state)
    case None => None
    case Some(code) => Some(FriendlyError(code))
  }

  /** The validation order: a missing quantity first, then a non-positive
      one, then a missing symbol, then a LIMIT order without a price; a
      state passes exactly when none of these holds. */
  lemma ValidationRules(state: Dict)
    requires !Get(state, "quantity").Str?
    ensures var q := Get(state, "quantity");
      && (q == Null ==> Validate(state) == Some(FriendlyError("quantity_missing")))
      && (q.Num? && q.x <= 0.0 ==> Validate(state) == Some(FriendlyError("quantity_invalid")))
      && (q.Num? && q.x > 0.0 && !Truthy(Get(state, "symbol")) ==>
            Validate(state) == Some(FriendlyError("symbol_missing")))
      && (q.Num? && q.x > 0.0 && Truthy(Get(state, "symbol")) ==>
            Validate(state) == (if Get(state, "order_type") == Str("LIMIT") && Get(state, "price") == Null
                                then Some(FriendlyError("price_missing")) else None))
      && (Validate(state).None? <==>
            q.Num? && q.x > 0.0 && Truthy(Get(state, "symbol"))
            && !(Get(state, "order_type") == Str("LIMIT") && Get(state, "price") == Null))
  {
  }

  // ---------------------------------------------------------------------------
  // handle_user_reply

  /** The keys a reply may fill in, in the order of the loop. */
  const ReplyKeys: seq<string> := ["side", "quantity", "order_type", "symbol", "base_asset", "quote_asset", "price"]

  /** The loop of `handle_user_reply` over `keys[i..]`: each key whose
      parsed value is truthy is copied into the state. */
  function Merge(state: Dict, p: Dict, keys: seq<string>, i: nat): Dict
    decreases |keys| - i
  {
    if i >= |keys| then state
    else Merge(if Truthy(Get(p, keys[i])) then state[keys[i] := p[keys[i]]] else state, p, keys, i + 1)
  }

  /** A text field's string; the dialog keeps strings in these fields. */
  function Text(v: Value): string {
    if v.Str? then v.s else ""
  }

  /** The symbol completion after the merge: base ++ quote when the symbol
      is missing and both are set; otherwise, when only the quote is
      missing, the quote and symbol of the first suggestion for the base,
      if there is one. */
  function Autofill(state: Dict): Dict {
    var base := Get(state, "base_asset");
    var quote := Get(state, "quote_asset");
    if !Truthy(Get(state, "symbol")) && Truthy(base) && Truthy(quote) then
      state["symbol" := Str(Text(base) + Text(quote))]
    else if !Truthy(quote) && Truthy(base) then
      var suggestions := SuggestSymbols(Text(base), DefaultLimit);
      if |suggestions| > 0 then
        state["quote_asset" := Str(suggestions[0].quote)]["symbol" := Str(suggestions[0].symbol)]
      else state
    else state
  }

  /** What `handle_user_reply(state, reply)` returns once the reply is
      parsed into `p`. */
  function AfterParsed(state: Dict, p: Dict): Dict {
    Autofill(Merge(state, p, ReplyKeys, 0))
  }

  /** What `handle_user_reply(state, reply)` returns. */
  function AfterReply(state: Dict, reply: string, m: Matches): Dict {
    AfterParsed(state, Parse(reply, m))
  }

  /** `handle_user_reply(state, reply)`: the regular-expression results of
      the stripped reply are `m`. */
  method HandleUserReply(state: Dict, reply: string, m: Matches) returns (r: Dict)
    ensures r == AfterReply(state, reply, m)
  {
    var p := Parse(reply, m);
    r := CopyTruthy(state, p);
    r := Complete(r);
  }

  /** The copy loop of `handle_user_reply` over `ReplyKeys`. */
  method CopyTruthy(state: Dict, p: Dict) returns (r: Dict)
    ensures r == Merge(state, p, ReplyKeys, 0)
  {
    r := state;
    var i := 0;
    while i < |ReplyKeys|
      invariant 0 <= i <= |ReplyKeys|
      invariant Merge(state, p, ReplyKeys, 0) == Merge(r, p, ReplyKeys, i)
    {
      var k := ReplyKeys[i];
      if Truthy(Get(p, k)) {
        r := r[k := p[k]];
      }
      i := i + 1;
    }
  }

  /** The symbol completion at the end of `handle_user_reply`. */
  method Complete(state: Dict) returns (r: Dict)
    ensures r == Autofill(state)
  {
    r := state;
    var base := Get(state, "base_asset");
    var quote := Get(state, "quote_asset");
    if !Truthy(Get(state, "symbol")) && Truthy(base) && Truthy(quote) {
      r := r["symbol" := Str(Text(base) + Text(quote))];
    } else if !Truthy(quote) && Truthy(base) {
      var suggestions := SuggestSymbols(Text(base), DefaultLimit);
      if |suggestions| > 0 {
        r := r["quote_asset" := Str(suggestions[0].quote)]["symbol" := Str(suggestions[0].symbol)];
      }
    }
  }

  /** The merge overwrites exactly the listed keys whose parsed value is
      truthy; every other key keeps its value (and its absence). */
  lemma {:induction false} MergeOverwritesTruthyOnly(state: Dict, p: Dict, keys: seq<string>, i: nat)
    requires i <= |keys|
    ensures var r := Merge(state, p, keys, i);
      && (forall k :: k in keys[i..] && Truthy(Get(p, k)) ==> k in r && r[k] == p[k])
      && (forall k :: !(k in keys[i..] && Truthy(Get(p, k))) ==>
            (k in r <==> k in state) && (k in state ==> r[k] == state[k]))
    decreases |keys| - i
  {
    if i < |keys| {
      var k0 := keys[i];
      var s1 := if Truthy(Get(p, k0)) then state[k0 := p[k0]] else state;
      MergeOverwritesTruthyOnly(s1, p, keys, i + 1);
      assert keys[i..] == [k0] + keys[i + 1..];
    }
  }

  /** The completion rules. */
  lemma AutofillRules(state: Dict)
    ensures var r := Autofill(state);
      var base := Get(state, "base_asset");
      var quote := Get(state, "quote_asset");
      && (!Truthy(Get(state, "symbol")) && Truthy(base) && Truthy(quote) ==>
            r == state["symbol" := Str(Text(base) + Text(quote))])
      && (!Truthy(quote) && Truthy(base) ==>
            var sug := SuggestSymbols(Text(base), DefaultLimit);
            && (sug == [] ==> r == state)
            && (sug != [] ==> r == state["quote_asset" := Str(sug[0].quote)]["symbol" := Str(sug[0].symbol)]))
      && (!Truthy(base) ==> r == state)
      && (Truthy(Get(state, "symbol")) && Truthy(quote) ==> r == state)
  {
  }

  /** A suggested completion is a known pair whose base, symbol or quote
      starts with the upper-cased base asset. */
  lemma AutofillSuggests(state: Dict)
    requires !Truthy(Get(state, "quote_asset")) && Truthy(Get(state, "base_asset"))
    requires SuggestSymbols(Text(Get(state, "base_asset")), DefaultLimit) != []
    ensures var r := Autofill(state);
      exists x :: x in PopularPairs && PairMatches(x, Upper(Text(Get(state, "base_asset"))))
                  && r["quote_asset"] == Str(x.quote) && r["symbol"] == Str(x.symbol)
  {
    var sug := SuggestSymbols(Text(Get(state, "base_asset")), DefaultLimit);
    SuggestionsAreFirstMatches(Text(Get(state, "base_asset")), DefaultLimit);
    assert sug[0] in PopularPairs;
  }

  /** Replies keep the draft well typed, so `validate` can always compare
      its quantity. */
  lemma ReplyKeepsTyped(state: Dict, reply: string, m: Matches)
    requires WellTyped(state)
    ensures WellTyped(AfterReply(state, reply, m))
  {
    ParseShape(reply, m);
    ParsedKeepsTyped(state, Parse(reply, m));
  }

  lemma ParsedKeepsTyped(state: Dict, p: Dict)
    requires WellTyped(state) && WellTyped(p)
    ensures WellTyped(AfterParsed(state, p))
  {
    var r := Merge(state, p, ReplyKeys, 0);
    MergeOverwritesTruthyOnly(state, p, ReplyKeys, 0);
    assert WellTyped(r) by {
      forall k | k in r
        ensures (k in NumberFields ==> !r[k].Str?) && (k !in NumberFields ==> !r[k].Num?)
      {
        if k in ReplyKeys[0..] && Truthy(Get(p, k)) {
          assert r[k] == p[k];
        } else {
          assert r[k] == state[k];
        }
      }
    }
    AutofillKeepsTyped(r);
  }

  lemma AutofillKeepsTyped(state: Dict)
    requires WellTyped(state)
    ensures WellTyped(Autofill(state))
  {
    assert "symbol" !in NumberFields && "quote_asset" !in NumberFields;
    var base := Get(state, "base_asset");
    var quote := Get(state, "quote_asset");
    if !Truthy(Get(state, "symbol")) && Truthy(base) && Truthy(quote) {
      TextKeepsTyped(state, "symbol", Str(Text(base) + Text(quote)));
    } else if !Truthy(quote) && Truthy(base) {
      var sug := SuggestSymbols(Text(base), DefaultLimit);
      if |sug| > 0 {
        TextKeepsTyped(state, "quote_asset", Str(sug[0].quote));
        TextKeepsTyped(state["quote_asset" := Str(sug[0].quote)], "symbol", Str(sug[0].symbol));
      }
    }
  }

  /** Storing a string under a text field keeps a dictionary well typed. */
  lemma TextKeepsTyped(d: Dict, k: string, v: Value)
    requires WellTyped(d) && k !in NumberFields && v.Str?
    ensures WellTyped(d[k := v])
  {
  }
}
