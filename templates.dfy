/** The message templates of ux/templates.py: the friendly texts of the
    validation error codes, and the confirmation message of an order. */
module Templates {
  import opened Common
  import opened Records

  /** `ERRORS`, in its order. */
  const Errors: seq<(string, string)> := [
    ("quantity_missing", "Количество не указано. Пожалуйста, введите количество (например: 0.1)."),
    ("quantity_invalid", "Некорректное количество. Должно быть положительным числом."),
    ("symbol_missing", "Не указан торговый символ. Укажите, например, BTC/USDT."),
    ("price_missing", "Для лимитного ордера необходима цена. Укажите цену (например: 40000).")
  ]

  const UnknownError: string := "Неизвестная ошибка. Пожалуйста, повторите."

  /** A dictionary lookup on a table of distinct keys. */
  function Lookup(table: seq<(string, string)>, key: string): Option<string>
    decreases |table|
  {
    if table == [] then None
    else if table[0].0 == key then Some(table[0].1)
    else Lookup(table[1..], key)
  }

  /** A lookup finds the first entry of its key. */
  lemma {:induction false} LookupFinds(table: seq<(string, string)>, key: string)
    ensures Lookup(table, key).Some? <==> exists i :: 0 <= i < |table| && table[i].0 == key
    ensures Lookup(table, key).Some? ==>
              exists i :: 0 <= i < |table| && table[i] == (key, Lookup(table, key).value)
                          && forall l :: 0 <= l < i ==> table[l].0 != key
    decreases |table|
  {
    if table != [] {
      LookupFinds(table[1..], key);
      if table[0].0 != key {
        if Lookup(table, key).Some? {
          var i :| 1 <= i + 1 < |table| + 1 && 0 <= i < |table[1..]| && table[1..][i] == (key, Lookup(table, key).value)
                   && forall l :: 0 <= l < i ==> table[1..][l].0 != key;
          assert table[i + 1] == table[1..][i];
          forall l | 0 <= l < i + 1
            ensures table[l].0 != key
          {
            if l > 0 { assert table[l] == table[1..][l - 1]; }
          }
        }
        forall i | 0 <= i < |table| && table[i].0 == key
          ensures Lookup(table, key).Some?
        {
          assert table[1..][i - 1] == table[i];
        }
      }
    }
  }

  /** `friendly_error(code)`: `ERRORS.get(code, default)`. */
  function FriendlyError(code: string): string {
    match Lookup(Errors, code)
    case Some(text) => text
    case None => UnknownError
  }

  /** The four known codes get their own texts, which differ from one
      another and from the default; every other code gets the default. */
  lemma FriendlyErrorTable(code: string)
    ensures FriendlyError("quantity_missing") == Errors[0].1
    ensures FriendlyError("quantity_invalid") == Errors[1].1
    ensures FriendlyError("symbol_missing") == Errors[2].1
    ensures FriendlyError("price_missing") == Errors[3].1
    ensures code !in {"quantity_missing", "quantity_invalid", "symbol_missing", "price_missing"} ==>
              FriendlyError(code) == UnknownError
    ensures forall i, j :: 0 <= i < j < |Errors| ==> Errors[i].1 != Errors[j].1
    ensures forall i :: 0 <= i < |Errors| ==> Errors[i].1 != UnknownError
    ensures FriendlyError(code) != ""
  {
    LookupFinds(Errors, code);
    assert Errors[1..][1..][1..][1..] == [];
  }

  /** `a or b` on dictionary values. */
  function Or(a: Value, b: Value): Value {
    if Truthy(a) then a else b
  }

  /** `a and b` on dictionary values. */
  function And(a: Value, b: Value): Value {
    if Truthy(a) then b else a
  }

  /** The symbol shown: `state.get('symbol') or (base and quote and
      f"{base}{quote}") or '—'`. */
  function DisplaySymbol(state: Dict, showNum: real -> string): (r: Value)
    ensures Truthy(Get(state, "symbol")) ==> r == Get(state, "symbol")
    ensures !Truthy(Get(state, "symbol")) && Truthy(Get(state, "base_asset")) && Truthy(Get(state, "quote_asset"))
            && Show(Get(state, "base_asset"), showNum) + Show(Get(state, "quote_asset"), showNum) != "" ==>
              r == Str(Show(Get(state, "base_asset"), showNum) + Show(Get(state, "quote_asset"), showNum))
    ensures !Truthy(Get(state, "symbol")) && !(Truthy(Get(state, "base_asset")) && Truthy(Get(state, "quote_asset"))) ==>
              r == Str("—")
  {
    var base := Get(state, "base_asset");
    var quote := Get(state, "quote_asset");
    Or(Or(Get(state, "symbol"), And(And(base, quote), Str(Show(base, showNum) + Show(quote, showNum)))), Str("—"))
  }

  const ConfirmationHeader: string := "Ордeр для подтверждения:"
  const ConfirmationPrompt: string := "\nПожалуйста, подтвердите операцию:"
  const ConfirmationButtons: string := "[Подтвердить]  [Редактировать]  [Отменить]"

  /** The lines of `render_confirmation(state)`, before they are joined. */
  function ConfirmationLines(state: Dict, showNum: real -> string): seq<string> {
    var side := GetOr(state, "side", Str("—"));
    var qty := GetOr(state, "quantity", Str("—"));
    var sym := DisplaySymbol(state, showNum);
    var otype := GetOr(state, "order_type", Str("—"));
    var price := Get(state, "price");
    var lines := [ConfirmationHeader,
                  Show(side, showNum) + " " + Show(qty, showNum) + " " + Show(sym, showNum)
                  + " (" + Show(otype, showNum) + ")"];
    var lines := if otype == Str("LIMIT") && Truthy(price) then lines + ["Цена: " + Show(price, showNum)] else lines;
    lines + [ConfirmationPrompt, ConfirmationButtons]
  }

  /** `render_confirmation(state)`. */
  function RenderConfirmation(state: Dict, showNum: real -> string): string {
    Join("\n", ConfirmationLines(state, showNum))
  }

  /** The confirmation is the header, the "side qty sym (type)" line, a
      price line exactly when the type is 'LIMIT' and the price is truthy,
      then the prompt and the buttons; absent fields print as '—'. */
  lemma ConfirmationLayout(state: Dict, showNum: real -> string)
    ensures var lines := ConfirmationLines(state, showNum);
      var priced := GetOr(state, "order_type", Str("—")) == Str("LIMIT") && Truthy(Get(state, "price"));
      && |lines| == (if priced then 5 else 4)
      && lines[0] == ConfirmationHeader
      && lines[1] == Show(GetOr(state, "side", Str("—")), showNum) + " " + Show(GetOr(state, "quantity", Str("—")), showNum)
                     + " " + Show(DisplaySymbol(state, showNum), showNum)
                     + " (" + Show(GetOr(state, "order_type", Str("—")), showNum) + ")"
      && (priced ==> lines[2] == "Цена: " + Show(Get(state, "price"), showNum))
      && lines[|lines| - 2] == ConfirmationPrompt
      && lines[|lines| - 1] == ConfirmationButtons
    ensures "side" !in state ==> StartsWith(ConfirmationLines(state, showNum)[1], "— ")
  {
  }
}
