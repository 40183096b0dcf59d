/** The helpers of telegram-bot/utils.py: the HTML order summary sent to a
    chat, and the column layout of the CSV and Excel exports (the file
    writes themselves are not modelled). */
module BotUtils {
  import opened Common
  import opened Records
  import opened Templates

  const BuyEmoji: string := "🟢"
  const SellEmoji: string := "🔴"
  const TableFooter: string := "\nДля подтверждения используйте кнопки ниже."

  /** The symbol shown: `order.get('symbol', base and quote and
      f"{base}{quote}" or '—')`; the fallback applies only when the key is
      absent, so a `None` symbol prints as "None". */
  function TableSymbol(order: Dict, showNum: real -> string): Value {
    var base := Get(order, "base_asset");
    var quote := Get(order, "quote_asset");
    GetOr(order, "symbol", Or(And(And(base, quote), Str(Show(base, showNum) + Show(quote, showNum))), Str("—")))
  }

  /** The lines of `format_order_table(order)`, before they are joined. */
  function OrderTableLines(order: Dict, showNum: real -> string): seq<string> {
    var side := GetOr(order, "side", Str("—"));
    var qty := GetOr(order, "quantity", Str("—"));
    var sym := TableSymbol(order, showNum);
    var otype := GetOr(order, "order_type", Str("—"));
    var price := GetOr(order, "price", Str(""));
    var emoji := if side == Str("BUY") then BuyEmoji else SellEmoji;
    var lines := [emoji + " <b>Ордeр</b>",
                  "<code>Side:   " + Show(side, showNum) + "</code>",
                  "<code>Qty:    " + Show(qty, showNum) + "</code>",
                  "<code>Symbol: " + Show(sym, showNum) + "</code>",
                  "<code>Type:   " + Show(otype, showNum) + "</code>"];
    var lines := if Truthy(price) then lines + ["<code>Price:  " + Show(price, showNum) + "</code>"] else lines;
    lines + [TableFooter]
  }

  /** `format_order_table(order)`. */
  function FormatOrderTable(order: Dict, showNum: real -> string): string {
    Join("\n", OrderTableLines(order, showNum))
  }

  /** The header is green exactly when the side is 'BUY' (red for any other
      side, a missing one included); then come Side, Qty, Symbol and Type,
      a Price line exactly when the price is truthy, and the footer. */
  lemma OrderTableLayout(order: Dict, showNum: real -> string)
    ensures var lines := OrderTableLines(order, showNum);
      var priced := "price" in order && Truthy(order["price"]);
      && |lines| == (if priced then 7 else 6)
      && (StartsWith(lines[0], BuyEmoji) <==> "side" in order && order["side"] == Str("BUY"))
      && (StartsWith(lines[0], SellEmoji) <==> !("side" in order && order["side"] == Str("BUY")))
      && lines[1] == "<code>Side:   " + Show(GetOr(order, "side", Str("—")), showNum) + "</code>"
      && lines[2] == "<code>Qty:    " + Show(GetOr(order, "quantity", Str("—")), showNum) + "</code>"
      && lines[3] == "<code>Symbol: " + Show(TableSymbol(order, showNum), showNum) + "</code>"
      && lines[4] == "<code>Type:   " + Show(GetOr(order, "order_type", Str("—")), showNum) + "</code>"
      && (priced ==> lines[5] == "<code>Price:  " + Show(order["price"], showNum) + "</code>")
      && lines[|lines| - 1] == TableFooter
  {
    var lines := OrderTableLines(order, showNum);
    assert BuyEmoji[0] != SellEmoji[0];
    assert (BuyEmoji + " <b>Ордeр</b>")[..|BuyEmoji|] == BuyEmoji;
    assert (SellEmoji + " <b>Ордeр</b>")[..|SellEmoji|] == SellEmoji;
  }

  /** A stored symbol wins, even `None`; without the key the summary shows
      base ++ quote when both are truthy, else '—'. */
  lemma TableSymbolRules(order: Dict, showNum: real -> string)
    ensures "symbol" in order ==> TableSymbol(order, showNum) == order["symbol"]
    ensures var base := Get(order, "base_asset");
      var quote := Get(order, "quote_asset");
      var both := Show(base, showNum) + Show(quote, showNum);
      && ("symbol" !in order && Truthy(base) && Truthy(quote) && both != "" ==> TableSymbol(order, showNum) == Str(both))
      && ("symbol" !in order && !(Truthy(base) && Truthy(quote)) ==> TableSymbol(order, showNum) == Str("—"))
  {
  }

  // ---------------------------------------------------------------------------
  // Export columns

  /** The keys of all rows. */
  function KeyUnion(rows: seq<Dict>): set<string>
    decreases |rows|
  {
    if rows == [] then {} else rows[0].Keys + KeyUnion(rows[1..])
  }

  /** A key is a column exactly when some row has it. */
  lemma {:induction false} KeyUnionMembers(rows: seq<Dict>)
    ensures forall k :: k in KeyUnion(rows) <==> exists i :: 0 <= i < |rows| && k in rows[i]
    decreases |rows|
  {
    if rows != [] {
      KeyUnionMembers(rows[1..]);
      forall k | k in KeyUnion(rows)
        ensures exists i :: 0 <= i < |rows| && k in rows[i]
      {
        if k !in rows[0] {
          assert k in KeyUnion(rows[1..]);
          var i :| 0 <= i < |rows[1..]| && k in rows[1..][i];
          assert k in rows[i + 1];
        }
      }
      forall k, i | 0 <= i < |rows| && k in rows[i]
        ensures k in KeyUnion(rows)
      {
        if i > 0 {
          assert rows[1..][i - 1] == rows[i];
        }
      }
    }
  }

  /** The `keys` loop of `export_csv`: the union of the rows' keys. */
  method CollectKeys(rows: seq<Dict>) returns (keys: set<string>)
    ensures keys == KeyUnion(rows)
  {
    keys := {};
    var i := 0;
    while i < |rows|
      invariant 0 <= i <= |rows|
      invariant keys + KeyUnion(rows[i..]) == KeyUnion(rows)
    {
      assert rows[i..][1..] == rows[i + 1..];
      keys := keys + rows[i].Keys;
      i := i + 1;
    }
  }

  /** Python's `sorted` on a set of strings, as repeated extraction of the
      least remaining element. */
  method Sorted(s: set<string>) returns (r: seq<string>)
    ensures r == SortedList(s)
  {
    r := [];
    var rest := s;
    while rest != {}
      invariant rest <= s
      invariant StrictlySorted(r)
      invariant forall x :: x in r <==> x in s && x !in rest
      invariant forall x, y :: x in r && y in rest ==> StrLess(x, y)
      decreases |rest|
    {
      LeastExists(rest);
      var m :| m in rest && IsLeast(m, rest);
      forall i | 0 <= i < |r|
        ensures StrLess(r[i], m)
      {
        assert r[i] in r;
      }
      r := r + [m];
      rest := rest - {m};
    }
    SortedListUnique(s, r);
  }

  /** The field names of `export_csv` and the header of `export_excel`. */
  method Columns(rows: seq<Dict>) returns (keys: seq<string>)
    ensures keys == SortedList(KeyUnion(rows))
  {
    var union := CollectKeys(rows);
    keys := Sorted(union);
  }

  /** The columns are sorted, each once, and each is a key of some row; so
      every row's keys are among them and `writerow` never meets an
      unknown field. */
  lemma ColumnsCoverRows(rows: seq<Dict>)
    ensures StrictlySorted(SortedList(KeyUnion(rows)))
    ensures forall k :: k in SortedList(KeyUnion(rows)) <==> exists i :: 0 <= i < |rows| && k in rows[i]
    ensures forall i, k :: 0 <= i < |rows| && k in rows[i] ==> k in SortedList(KeyUnion(rows))
  {
    KeyUnionMembers(rows);
  }

  /** One row of the export under the given columns: `r.get(k)` for each. */
  function RowCells(r: Dict, keys: seq<string>): (cells: seq<Value>)
    ensures |cells| == |keys|
    ensures forall j :: 0 <= j < |keys| ==> cells[j] == (if keys[j] in r then r[keys[j]] else Null)
  {
    seq(|keys|, j requires 0 <= j < |keys| => Get(r, keys[j]))
  }

  /** One row as `csv.DictWriter.writerow` lays it out: a column the row
      lacks takes the writer's default `restval`, the empty string. */
  function CsvCells(r: Dict, keys: seq<string>): (cells: seq<Value>)
    ensures |cells| == |keys|
    ensures forall j :: 0 <= j < |keys| ==> cells[j] == (if keys[j] in r then r[keys[j]] else Str(""))
  {
    seq(|keys|, j requires 0 <= j < |keys| => GetOr(r, keys[j], Str("")))
  }

  /** A header row of the columns, then one row of cells per input row. */
  function Sheet(keys: seq<string>, rows: seq<Dict>): seq<seq<Value>> {
    [seq(|keys|, j requires 0 <= j < |keys| => Str(keys[j]))]
    + seq(|rows|, i requires 0 <= i < |rows| => RowCells(rows[i], keys))
  }

  /** The sheet of `export_excel`: nothing for no rows, else the header of
      the sorted columns and one row per input row, in input order. */
  ghost function ExcelSheet(rows: seq<Dict>): seq<seq<Value>> {
    if rows == [] then [] else Sheet(SortedList(KeyUnion(rows)), rows)
  }

  /** Row `i + 1` of a sheet is input row `i`, with `None` in each column
      the row does not have. */
  lemma SheetLayout(keys: seq<string>, rows: seq<Dict>)
    ensures var sheet := Sheet(keys, rows);
      && |sheet| == |rows| + 1
      && |sheet[0]| == |keys| && (forall j :: 0 <= j < |keys| ==> sheet[0][j] == Str(keys[j]))
      && (forall i, j :: 0 <= i < |rows| && 0 <= j < |keys| && keys[j] !in rows[i] ==> sheet[i + 1][j] == Null)
      && (forall i, j :: 0 <= i < |rows| && 0 <= j < |keys| && keys[j] in rows[i] ==>
            sheet[i + 1][j] == rows[i][keys[j]])
  {
    var sheet := Sheet(keys, rows);
    forall i | 0 <= i < |rows|
      ensures sheet[i + 1] == RowCells(rows[i], keys)
    {
    }
  }

  /** An empty export has no header; otherwise the header names each key
      of some row exactly once, in sorted order, and row `i + 1` holds
      input row `i` under it, `None` where the row lacks the column. */
  lemma ExcelLayout(rows: seq<Dict>)
    ensures rows == [] <==> ExcelSheet(rows) == []
    ensures rows != [] ==>
              var sheet := ExcelSheet(rows);
              var keys := SortedList(KeyUnion(rows));
              && |sheet| == |rows| + 1
              && sheet[0] == seq(|keys|, j requires 0 <= j < |keys| => Str(keys[j]))
              && StrictlySorted(keys)
              && (forall k :: k in keys <==> exists i :: 0 <= i < |rows| && k in rows[i])
              && (forall i, j :: 0 <= i < |rows| && 0 <= j < |keys| ==> sheet[i + 1][j] == Get(rows[i], keys[j]))
  {
    if rows != [] {
      SheetLayout(SortedList(KeyUnion(rows)), rows);
      ColumnsCoverRows(rows);
    }
  }
}
