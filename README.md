# binance-enhanced: a verified model of the trading-assistant core

This project models the core of binance-enhanced, a Binance trading assistant written in Python, and proves properties of that model in Dafny. The core covers:

- the performance layer: the token-bucket `RateLimiter`, the retrying `AsyncAPIClient` request engine, the TTL price cache and balances cache, the jq program cache;
- the natural-language order pipeline of `ux/`: the command parser, the symbol autocompletion, the message templates, the `DialogManager` and the prototype Telegram handlers;
- the Telegram webhook server of `telegram-bot/`: message and callback dispatch, inline buttons, the sendMessage payload, webhook notifications, the order summary and the export column layout;
- the key-file framing of `security/keys_crypto.py`;
- the alert rules of `monitoring/engine/alerts.py` and the alert log of the dashboard's `api_push`.

One Dafny module per source file:

| module | file | source |
|---|---|---|
| `Common` | common.dfy | shared Python behaviour: `lstrip`/`rstrip`, `lower`/`upper`, `split(':', 1)`, `str(int)`/`int(str)`, `sorted` on strings |
| `Records` | records.dfy | the JSON-like dictionaries of the ux layer: `Null`, `Str` and `Num` values, truthiness, `dict.get` |
| `RateLimiting` | rate_limiter.dfy | `RateLimiter` in performance/async_api.py |
| `AsyncClient` | async_client.dfy | `AsyncAPIClient` in performance/async_api.py |
| `Caching` | cache.dfy | performance/cache.py |
| `JqCaching` | jq_cache.dfy | performance/jq_cache.py |
| `OrderParser` | parser.dfy | ux/parser.py |
| `Autocomplete` | autocomplete.dfy | ux/autocomplete.py |
| `Templates` | templates.dfy | ux/templates.py |
| `Dialog` | interactive.dfy | ux/interactive.py |
| `BotPrototype` | bot_prototype.dfy | ux/telegram_bot_prototype.py |
| `BotUtils` | bot_utils.dfy | telegram-bot/utils.py |
| `BotServer` | bot_server.dfy | telegram-bot/bot.py |
| `KeysCrypto` | keys_crypto.dfy | security/keys_crypto.py |
| `Alerts` | alerts.dfy | monitoring/engine/alerts.py |
| `Dashboard` | dashboard.dfy | monitoring/dashboard/app.py |

The model follows the form of the code:

- Objects that update their own fields are classes with `modifies` clauses: `RateLimiter`, `APIClient`, `TTLCache`, `BalancesCache`, `JQCache` and the dashboard's `AlertLog`.
- The following loops are methods with loop invariants, proved against a specification function: the retry loop of `_request`, the re-tries of `acquire`, `next_prompt`, `handle_user_reply`, `parse_quantity`, `check_stop_take`, the export key loop and `notify_webhooks`.
- Three short search loops of ux/parser.py are recursive functions instead. These are the keyword loops of `parse_side` and `parse_order_type` (as `OrderParser.FirstIndex`) and the `QUOTES` loop of `parse_symbol` (as `OrderParser.SplitQuote`). Each returns at its first hit, and the function's contract states that first hit.
- Pure code is functions, with lemmas about them.

Side effects become explicit inputs. These include the clock (`time.time()`), `random.random()`, the HTTP transport, `json.loads`, the file system, the jq compiler, PBKDF2 and AES-GCM, the regular-expression searches and the id the order store assigns.

## Model

| member | source | states |
|---|---|---|
| `RateLimiting.RateLimiter.constructor` | performance/async_api.py:27-31 | The bucket starts full: capacity and tokens are `rate`, and `last` is the creation time. It is within bounds for a non-negative rate. |
| `RateLimiting.RateLimiter.Pass` | performance/async_api.py:35-48 | One pass of `acquire`, with its new state: refill when the elapsed refill is positive, then take the tokens or report the wait. A division by zero on `per == 0` or `capacity == 0` is an outcome. |
| `RateLimiting.RateLimiter.Acquire` | performance/async_api.py:34-51 | The recursive re-try is a loop over clock readings. The loop's waits, its end and the final bucket are exactly those of the pass-by-pass run `RunAcquire`. |
| `RateLimiting.RefillOnMonotoneClock` | performance/async_api.py:38-42 | On a clock that does not go back, a pass moves `last` to now and sets tokens to `min(capacity, tokens + elapsed * rate)`. Capacity and period are kept. |
| `RateLimiting.RefillIgnoresEarlierClock` | performance/async_api.py:38-42 | A clock reading at or before `last` gives no refill and leaves the bucket unchanged. |
| `RateLimiting.TryAcquireInBounds` | performance/async_api.py:38-48 | A pass with a non-negative cost keeps tokens within `[0, capacity]`. It never changes capacity or period. |
| `RateLimiting.WaitIsEnough` | performance/async_api.py:43-51 | When a cost within capacity must wait, a pass after sleeping the reported wait is granted. |
| `RateLimiting.OverCapacityRefused` | performance/async_api.py:43-48 | A pass whose cost exceeds the capacity is never granted, and it keeps the bucket within bounds. |
| `RateLimiting.OverCapacityNeverAcquired` | performance/async_api.py:34-51 | However many times the caller retries, a cost above capacity is never acquired. |
| `RateLimiting.AcquireWithinTwoPasses` | performance/async_api.py:34-51 | With sleeps at least as long as asked, a cost within capacity is acquired within two passes, with at most one wait. |
| `RateLimiting.InflowAdds` | performance/async_api.py:38-39 | Regeneration over consecutive intervals adds up. |
| `RateLimiting.StepBudget` | performance/async_api.py:38-45 | One pass on a monotone clock: tokens left plus tokens granted are at most tokens before plus what regenerated since `last`. |
| `RateLimiting.ServeInBounds` | performance/async_api.py:38-45 | Any run of passes with non-negative costs keeps the bucket within bounds. |
| `RateLimiting.NoTokenFabrication` | performance/async_api.py:34-45 | For any sequence of calls on a monotone clock, tokens left plus all tokens granted are at most the initial tokens plus the regeneration up to the last call. |
| `RateLimiting.NextBucket` | performance/async_api.py:38-45 | After the first call the bucket is again configured and within bounds. The remaining calls are still ordered from its `last`, and the first call's budget holds. |
| `RateLimiting.BudgetStep` | performance/async_api.py:38-45 | The budget of the remaining calls plus the first call's budget give the budget of the whole sequence. |
| `RateLimiting.GrantedBounded` | performance/async_api.py:34-45 | The total granted over any sequence of calls is at most the capacity plus the regeneration over the calls' span. |
| `AsyncClient.StoredBase` | performance/async_api.py:58 | The stored base URL does not end with '/', and only trailing slashes were dropped. |
| `AsyncClient.OneSlashAtSeam` | performance/async_api.py:73 | For a base not ending in '/', the URL is the base, one '/', then the path without its leading slashes. The character after that '/' is not a slash. |
| `AsyncClient.StrippedPath` | performance/async_api.py:73 | The path part is the path with its leading slashes removed, and it does not start with '/'. |
| `AsyncClient.ExtraSlashesIgnored` | performance/async_api.py:58-73 | Extra slashes at the end of the base or the start of the path do not change the URL. Stripping the base twice is stripping it once. |
| `AsyncClient.ClassifyRules` | performance/async_api.py:78-95 | Only a cancellation propagates. A 5xx is retried, and so is a 4xx whose body is not JSON and a transport error. A 4xx or success with a JSON body returns it, and a success with another body returns its text. |
| `AsyncClient.RetryStep` | performance/async_api.py:93-98 | A retryable failure before the last attempt is followed by one sleep, then the later attempts with the backoff doubled. |
| `AsyncClient.FinalStep` | performance/async_api.py:75-99 | Otherwise the attempt ends the run, after its `acquire` or after its send. |
| `AsyncClient.RoundEvents` | performance/async_api.py:76-98 | The events of one attempt record one send of that attempt and one jittered sleep. |
| `AsyncClient.AttemptRounds` | performance/async_api.py:75-98 | Every run is a sequence of rounds: each is an `acquire` followed by a send, with exactly one sleep between consecutive attempts. |
| `AsyncClient.AttemptsNumbered` | performance/async_api.py:75 | The attempts sent are numbered consecutively from the first, in order. There are at most `retries + 1` of them. |
| `AsyncClient.SleepsAreBackoffs` | performance/async_api.py:96-98 | Sleep j lasts `b_j + random() * b_j`, where `b_j` is the start backoff doubled j times. |
| `AsyncClient.SleepsBounded` | performance/async_api.py:97 | With `random()` in `[0, 1)`, sleep j lies in `[b_j, 2 * b_j)`. |
| `AsyncClient.BackoffPositive` | performance/async_api.py:74-98 | Doubling a positive starting backoff keeps it positive. |
| `AsyncClient.JitteredWithin` | performance/async_api.py:97 | A jittered sleep lies between the backoff and twice the backoff. |
| `AsyncClient.BackoffDoubles` | performance/async_api.py:98 | Each backoff is twice the one before. |
| `AsyncClient.OutcomeExplained` | performance/async_api.py:75-99 | Every send before the last was retried. A returned value is the classification of the last response. A cancellation ends the run at once. A retryable failure escapes only from attempt `retries`. A limiter error ends the run right after its `acquire`. |
| `AsyncClient.AllFailLastPropagates` | performance/async_api.py:93-95 | When every acquire completes and every send fails retryably, the run sends exactly `retries + 1` attempts in order and raises the last failure. |
| `AsyncClient.APIClient.constructor` | performance/async_api.py:55-61 | The client stores `base_url.rstrip('/')` and a fresh, full limiter. |
| `AsyncClient.APIClient.Request` | performance/async_api.py:71-99 | `_request` builds its URL from the stored base and the stripped path. Its outcome, events and final limiter are exactly those of the attempt run `Attempts` from backoff 0.2. |
| `AsyncClient.APIClient.Retry` | performance/async_api.py:74-99 | The `for` loop of `_request`, starting from backoff 0.2: its outcome, events and final limiter state are exactly those of `Attempts` from the limiter's old state. |
| `AsyncClient.APIClient.Pass` | performance/async_api.py:75-98 | One loop pass either ends the call with the run's outcome, or sleeps and leaves the later attempts, with doubled backoff, as the rest of the run. |
| `AsyncClient.ContinuesFromStart` | performance/async_api.py:74-75 | The retry loop's invariant holds before the first attempt. |
| `AsyncClient.ContinuesPastLast` | performance/async_api.py:99 | Once every attempt is spent, the events so far are the whole run, ending in "unreachable". |
| `AsyncClient.Zip` | performance/async_api.py:115 | Python's `zip`: pairs position by position, up to the shorter list. |
| `AsyncClient.GatherReturns` | performance/async_api.py:116 | `gather` returns a list exactly when every task returned. The list holds their replies in task order. |
| `AsyncClient.GatherFailing` | performance/async_api.py:116 | When `gather` raises, the exception comes from one of exactly the tasks that did not return, and there is at least one. |
| `AsyncClient.ParallelGetRaises` | performance/async_api.py:107-116 | `parallel_get` returns the replies of every `get` in input order when all return. Otherwise it raises the exception of one of the failing `get` calls, and no list. |
| `AsyncClient.ParallelGetOrder` | performance/async_api.py:107-116 | Result i is the `get` of path i with params i, in input order. Without a params list there is one result per path, each with no params; with one, there are as many as the shorter list. |
| `Caching.ApplyKeepsAligned` | performance/cache.py:27-53 | Every TTLCache operation keeps `_store` and `_exp` on the same keys. |
| `Caching.AlwaysAligned` | performance/cache.py:21-53 | Every sequence of operations from an aligned cache keeps the two dictionaries aligned, so the `del self._exp[key]` in `get` never fails. |
| `Caching.ReadBeforeExpiry` | performance/cache.py:27-41 | A `get` strictly before `set`-time plus TTL returns the value just set. |
| `Caching.ExpiredIsDeleted` | performance/cache.py:29-36 | A `get` at or after the expiry returns nothing and deletes the key from both dictionaries. No other key changes. |
| `Caching.PutTouchesOnlyItsKey` | performance/cache.py:38-41 | `set` stores the value and the expiry `now + ttl` for its key, and leaves every other key as it was. |
| `Caching.RemoveTouchesOnlyItsKey` | performance/cache.py:43-48 | `invalidate` removes only its key; a later `get` of it returns nothing. It is a no-op for an absent key. |
| `Caching.StaysUntilExpiry` | performance/cache.py:27-48 | After `set`, any run of operations on other keys, with gets before the expiry, still finds the value. |
| `Caching.StaysAcross` | performance/cache.py:27-48 | A live entry survives operations on other keys, with its value and expiry intact. |
| `Caching.TTLCache.constructor` | performance/cache.py:21-24 | Both dictionaries start empty and the TTL is stored. |
| `Caching.TTLCache.Get` | performance/cache.py:27-36 | The result and new state are `Lookup` and `AfterLookup` of the old contents, and alignment is kept. |
| `Caching.TTLCache.Set` | performance/cache.py:38-41 | The new contents are `Put` of the old, and alignment is kept. |
| `Caching.TTLCache.Invalidate` | performance/cache.py:43-48 | The new contents are `Remove` of the old, and alignment is kept. |
| `Caching.TTLCache.Clear` | performance/cache.py:50-53 | Both dictionaries end empty. |
| `Caching.BalancesCache.constructor` | performance/cache.py:57-59 | The store starts empty. |
| `Caching.BalancesCache.Get` | performance/cache.py:61-63 | Returns the snapshot exactly when the account is stored, at any time. |
| `Caching.BalancesCache.Set` | performance/cache.py:65-70 | Stores `{balances, last_update: now}` under the account and changes nothing else. |
| `Caching.BalancesCache.Invalidate` | performance/cache.py:72-75 | Removes exactly that account. |
| `Caching.BalancesCache.Clear` | performance/cache.py:77-79 | The store ends empty. |
| `Caching.Caches.constructor` | performance/cache.py:83-84 | An empty price cache with a TTL of 7 seconds and an empty balances cache. |
| `Caching.Caches.InvalidateOnBalanceChange` | performance/cache.py:87-89 | Only that account leaves the balances cache. The price cache is untouched. |
| `JqCaching.HitReadsNothing` | performance/jq_cache.py:25-26 | A cached path is served from the cache, whatever the files, compiler and time, and the cache is unchanged. |
| `JqCaching.MissStoresWhatItReturns` | performance/jq_cache.py:27-34 | A successful miss stores `{prog, loaded}` and returns that same program: compiled when the compiler is present, the raw text otherwise. A failed read or compile stores nothing. |
| `JqCaching.LoadTouchesOnlyItsPath` | performance/jq_cache.py:22-34 | A load changes at most the entry of its own path. |
| `JqCaching.EntriesNeverRefreshed` | performance/jq_cache.py:25-34 | Once cached, an entry survives every later load unchanged, so a changed file is never re-read. |
| `JqCaching.JQCache.constructor` | performance/jq_cache.py:18-20 | The cache starts empty. |
| `JqCaching.JQCache.LoadPath` | performance/jq_cache.py:22-34 | The result and new cache are those of `Load` on the old cache. |
| `OrderParser.FirstIndex` | ux/parser.py:51-62 | The first index from `from` whose element hits, with no hit before it; `None` exactly when no element hits. |
| `OrderParser.FirstBlockWins` | ux/parser.py:51-62 | When a table's first n keys share value v and no later key has it, the result is v exactly when one of those keys hits. |
| `OrderParser.BuyWordsWin` | ux/parser.py:51-55 | Any buy word makes the side BUY. The side is SELL exactly when no buy word and some sell word matches, and `None` when neither matches. |
| `OrderParser.MarketWins` | ux/parser.py:58-62 | MARKET exactly when a market keyword occurs in the lower-cased text, even beside a limit keyword. LIMIT only when no market keyword occurs. No other value is possible. |
| `OrderParser.SplitQuote` | ux/parser.py:43-47 | The first quote asset, in the order USDT, USDC, BTC, ETH, BNB, that the token ends with and that leaves a non-empty base. Base plus quote is the token. |
| `OrderParser.ParseSymbol` | ux/parser.py:35-48 | A `SYMBOL_RE` match gives the upper-cased groups and their concatenation. Otherwise the suffix split of the upper-cased word is used, and `None` when there is neither. |
| `OrderParser.ParseQuantity` | ux/parser.py:65-79 | The nested loops return the first number among the 3 tokens after the first side token that has one, else the first number of the text. |
| `OrderParser.NearSideWitness` | ux/parser.py:67-74 | A number found near a side token comes from a side token whose window holds it as its first number. No earlier side token has a number in its window. |
| `OrderParser.WindowWitness` | ux/parser.py:71-74 | A window's number is the amount of some token in it, and no token before it has one. |
| `OrderParser.NearSideNone` | ux/parser.py:75-79 | When no side token has a number in its window, the quantity is the text's first number. |
| `OrderParser.ParseShape` | ux/parser.py:93-121 | The result has exactly the eight keys, with `raw_text` the stripped input. Text fields are strings or `None`; quantity and price are numbers or `None`. Symbol, base and quote are all set with symbol = base + quote, or all `None`. |
| `OrderParser.AssembleShape` | ux/parser.py:95-121 | The same shape for the dictionary built from any pieces. |
| `OrderParser.InitialShape` | ux/parser.py:95-104 | The initial `res` has the shape, the found side, quantity and type, and no price. |
| `OrderParser.WithSymbolShape` | ux/parser.py:105-109 | Setting the symbol fields keeps the shape and every other key. |
| `OrderParser.PriceRuleShape` | ux/parser.py:111-117 | The price rule keeps the shape and every key other than price and type. |
| `OrderParser.MarketRuleShape` | ux/parser.py:119-120 | The market rule keeps the shape and every key but price. |
| `OrderParser.PriceRules` | ux/parser.py:110-120 | A truthy price with no type gives a LIMIT order at that price. A truthy price is kept on LIMIT; otherwise the price is `None`. A MARKET order never has a price, and a price appears only on a LIMIT order. |
| `OrderParser.AssemblePrice` | ux/parser.py:110-120 | The same rules for any parsed pieces. |
| `OrderParser.WithSymbolKeeps` | ux/parser.py:105-109 | Setting the symbol fields leaves the other keys unchanged. |
| `OrderParser.PriceRuleEffect` | ux/parser.py:111-117 | The price rule's effect on each combination of truthy price and order type. |
| `OrderParser.MarketRuleEffect` | ux/parser.py:119-120 | MARKET clears the price; every other type leaves the dictionary unchanged. |
| `Autocomplete.FilterSpec` | ux/autocomplete.py:19 | The comprehension keeps exactly the matching pairs, no more. Each kept pair is a list pair matching on base, symbol or quote prefix. |
| `Autocomplete.Prefix` | ux/autocomplete.py:20 | Python's `s[:limit]`, including a negative limit counting from the end. |
| `Autocomplete.FilterConcat` | ux/autocomplete.py:19 | Filtering a concatenation is concatenating the filtered parts, so list order is kept. |
| `Autocomplete.SuggestionsAreFirstMatches` | ux/autocomplete.py:17-20 | At most `limit` results, each matching the upper-cased prefix: they are the first matching pairs of `POPULAR_PAIRS`, in order. |
| `Autocomplete.FirstMatches` | ux/autocomplete.py:19-20 | The same for any list of pairs. |
| `Autocomplete.CaseInsensitive` | ux/autocomplete.py:18 | Prefixes that differ only in case give the same suggestions. |
| `Autocomplete.EmptyPrefixKeepsAll` | ux/autocomplete.py:19 | Every pair matches the empty prefix. |
| `Autocomplete.EmptyPrefix` | ux/autocomplete.py:17-20 | The empty prefix yields the first `limit` popular pairs. |
| `Templates.LookupFinds` | ux/templates.py:14-15 | A table lookup returns the value of the first entry with that key, and `None` when there is none. |
| `Templates.FriendlyErrorTable` | ux/templates.py:6-15 | The four known codes give their own distinct texts; every other code gives the default text. |
| `Templates.DisplaySymbol` | ux/templates.py:21 | A truthy symbol is shown. Otherwise, when base and quote are truthy and their text is non-empty, that text is shown; when they are not both truthy, '—' is shown. |
| `Templates.ConfirmationLayout` | ux/templates.py:18-30 | The lines, in order: header, "side qty sym (type)", a price line exactly for a truthy price on LIMIT, the prompt and the buttons. Absent fields print as '—'. |
| `Dialog.Start` | ux/interactive.py:17-20 | The draft has exactly the parser's eight keys, `raw_text` is the stripped text, and it is well typed. |
| `Dialog.FirstMissing` | ux/interactive.py:22-29 | The first field from index i that is missing. No field before it is missing, and `None` means none is. |
| `Dialog.PromptTable` | ux/interactive.py:31-42 | Each required field has its own prompt, all distinct and distinct from the default. Other fields get the default. |
| `Dialog.PromptNonEmpty` | ux/interactive.py:31-42 | Every prompt is non-empty, so `if missing:` is true exactly when a prompt is returned. |
| `Dialog.NextPrompt` | ux/interactive.py:22-29 | The early-return loop returns the prompt of the first missing required field, else `None`. |
| `Dialog.PromptRules` | ux/interactive.py:22-29 | No prompt exactly when side, quantity, quote and type are truthy and the base is truthy or a symbol is set. Otherwise the prompt is that of the first missing field. |
| `Dialog.ValidationRules` | ux/interactive.py:61-71 | The checks, in order: missing quantity, non-positive quantity, missing symbol, LIMIT without a price. A state passes exactly when none applies. |
| `Dialog.HandleUserReply` | ux/interactive.py:44-59 | The returned draft is the reply's truthy fields merged in, then the symbol completion. |
| `Dialog.CopyTruthy` | ux/interactive.py:47-49 | The copy loop yields the merge over `ReplyKeys`. |
| `Dialog.Complete` | ux/interactive.py:50-58 | The completion branch yields `Autofill`. |
| `Dialog.MergeOverwritesTruthyOnly` | ux/interactive.py:47-49 | A listed key with a truthy parsed value takes that value. Every other key keeps its value or its absence. |
| `Dialog.AutofillRules` | ux/interactive.py:51-58 | A missing symbol with base and quote set becomes base + quote. Else a missing quote with a base and a suggestion takes the first suggestion's quote and symbol. Otherwise nothing changes. |
| `Dialog.AutofillSuggests` | ux/interactive.py:53-58 | A suggested completion is a popular pair matching the upper-cased base. |
| `Dialog.ReplyKeepsTyped` | ux/interactive.py:44-59 | A reply keeps the draft well typed, so `validate` can always compare the quantity. |
| `Dialog.ParsedKeepsTyped` | ux/interactive.py:47-49 | Merging a parse result keeps the draft well typed. |
| `Dialog.AutofillKeepsTyped` | ux/interactive.py:50-58 | The completion keeps the draft well typed. |
| `Dialog.TextKeepsTyped` | ux/interactive.py:52 | Storing a string under a text field keeps a draft well typed. |
| `BotPrototype.OnMessageRules` | ux/telegram_bot_prototype.py:21-37 | The reply goes to the sender. It is the first prompt while a field is missing, else the validation error, else the confirmation. Only the confirmation carries the Confirm/Edit/Cancel buttons. |
| `BotPrototype.OnCallback` | ux/telegram_bot_prototype.py:39-47 | A reply goes to the callback's chat and never carries buttons. |
| `BotPrototype.CallbackRules` | ux/telegram_bot_prototype.py:39-47 | Any data starting "confirm" gets the sent text, and any starting "edit" the edit question. No reply comes exactly when the data starts with neither and is not exactly "cancel". So "cancel:" plus anything gets no reply. |
| `BotUtils.OrderTableLayout` | telegram-bot/utils.py:24-41 | The header is green exactly for side BUY and red otherwise, including no side. Then Side, Qty, Symbol and Type, a Price line exactly for a truthy price, then the footer. |
| `BotUtils.TableSymbolRules` | telegram-bot/utils.py:28 | A stored symbol is shown even when it is `None`. Without the key, base + quote is shown when both are truthy, else '—'. |
| `BotUtils.KeyUnionMembers` | telegram-bot/utils.py:61-63 | A key is in the union exactly when some row has it. |
| `BotUtils.CollectKeys` | telegram-bot/utils.py:61-63 | The key loop computes the union of the rows' keys. |
| `BotUtils.Sorted` | telegram-bot/utils.py:64 | `sorted` lists the set strictly ascending, each element once, and nothing else. |
| `BotUtils.Columns` | telegram-bot/utils.py:61-64 | The columns are the sorted union of the rows' keys. |
| `BotUtils.ColumnsCoverRows` | telegram-bot/utils.py:60-69 | The columns are sorted, each appears once, and each is a key of some row. Every key of every row is a column, so `writerow` never meets an unknown field. |
| `BotUtils.RowCells` | telegram-bot/utils.py:88 | One cell per column: the row's value, or `None` where the row lacks the key. |
| `BotUtils.CsvCells` | telegram-bot/utils.py:68-69 | One cell per column: the row's value, or the empty `restval` where the row lacks the key. |
| `BotUtils.SheetLayout` | telegram-bot/utils.py:85-88 | Row 0 of the sheet is the header. Row i + 1 is input row i, with `None` where the row lacks a column. |
| `BotUtils.ExcelLayout` | telegram-bot/utils.py:82-88 | No rows give an empty sheet. Otherwise the header names each key of some row once, in sorted order, and row i + 1 is input row i under it. |
| `BotServer.CallbackIdOf` | telegram-bot/bot.py:135-141 | Reading the id back from a button's data gives the order id. |
| `BotServer.SplitAtFirst` | telegram-bot/bot.py:66 | `split(':', 1)` of `a + ":" + b`, with no ':' in `a`, gives `a` and `b`. |
| `BotServer.InlineButtons` | telegram-bot/bot.py:135-141 | Three buttons, confirm, edit and cancel in that order. Each one's data is the action, ':' and the order id, which reads back as the id. |
| `BotServer.SavedOnlyWhenComplete` | telegram-bot/bot.py:39-59 | A message's order is saved exactly when its text is non-empty, there is no prompt and validation passes. It is saved before the summary is sent, the summary's buttons carry the saved id, and the answer reports it. |
| `BotServer.StateRules` | telegram-bot/bot.py:45-59 | The order is saved exactly when there is no prompt and validation passes. Then the effects are the save, followed by the HTML summary with the buttons of the saved id, and the answer carries the id. Otherwise the answer carries no id, and nothing notifies. |
| `BotServer.CallbackDispatch` | telegram-bot/bot.py:60-78 | "confirm:" confirms and alone notifies the webhooks; then "cancel:" and "edit:". Each replies to the callback's chat. A bad id after one of the three prefixes is a server error. Any other data sends nothing and answers ok. |
| `BotServer.ButtonsRoundTrip` | telegram-bot/bot.py:60-78 | Pressing Confirm on a saved order's summary confirms that order and notifies the webhooks of its id. Cancel and Edit answer without notifying. |
| `BotServer.KeyboardRows` | telegram-bot/bot.py:153 | One keyboard row per button. |
| `BotServer.KeyboardFlattens` | telegram-bot/bot.py:151-154 | Reading the keyboard rows back gives the buttons. |
| `BotServer.SendPayload` | telegram-bot/bot.py:144-155 | Nothing is posted without a truthy bot token. The chat id and text are kept, `parse_mode` is included exactly when truthy, and the keyboard exactly for a non-empty button list. |
| `BotServer.Posts` | telegram-bot/bot.py:164-174 | One POST per registered webhook. |
| `BotServer.NotifyWebhooks` | telegram-bot/bot.py:164-174 | The loop's POSTs are `Posts` of the webhooks. |
| `BotServer.AuthorizationHeader` | telegram-bot/bot.py:169-172 | Every webhook is posted to, in order. The only header is Authorization, present exactly when the token is truthy, and then "Bearer " + token. |
| `KeysCrypto.Slice` | security/keys_crypto.py:44-46 | Python's `b[lo:hi]` with clamping: its length is the clamped difference. |
| `KeysCrypto.SliceFrom` | security/keys_crypto.py:47 | Python's `b[lo:]` with clamping. |
| `KeysCrypto.UnpackPack` | security/keys_crypto.py:39-47 | Slicing a packed frame with a 16-byte salt, 12-byte nonce and 16-byte tag gives back its four parts. |
| `KeysCrypto.PackUnpack` | security/keys_crypto.py:43-47 | The four slices cover any blob, so re-packing them restores it. |
| `KeysCrypto.ShortBlob` | security/keys_crypto.py:43-47 | A blob shorter than 44 bytes is cut into short or empty parts with an empty ciphertext; slicing does not fail. |
| `KeysCrypto.DecryptSeesEncryption` | security/keys_crypto.py:34-48 | Decryption reads back the salt, nonce, tag and ciphertext that `encrypt` wrote, so the same password derives the same key. |
| `KeysCrypto.DecryptEncrypt` | security/keys_crypto.py:34-51 | With a correct AES-GCM, decrypting what `encrypt` wrote under the same password gives the data back. |
| `Alerts.PercentChange` | monitoring/engine/alerts.py:10-14 | The change times the old price is 100 times the difference, and it is 0.0 for an old price of zero. |
| `Alerts.PercentChangeSign` | monitoring/engine/alerts.py:10-14 | From a positive price a rise is positive, a fall negative and no change zero. |
| `Alerts.CheckPriceChange` | monitoring/engine/alerts.py:21-22 | No alert for fewer than two points. |
| `Alerts.PriceChangeUsesLastTwo` | monitoring/engine/alerts.py:21-28 | Only the last two points count. The alert fires exactly when the absolute percent change reaches the threshold, and reports that change, the two prices and the last time. |
| `Alerts.CheckStopTake` | monitoring/engine/alerts.py:31-46 | The loop's alerts are `StopTake` of the portfolio. |
| `Alerts.HoldingAlertRules` | monitoring/engine/alerts.py:37-45 | A falsy price raises nothing. Otherwise a stop loss fires exactly at a change of at most -\|stop\|, and a take profit exactly when not, at a change of at least \|take\|. |
| `Alerts.StopTakeConcat` | monitoring/engine/alerts.py:36-46 | The alerts of two portfolios in a row are the alerts of each, in order. |
| `Alerts.OneAlertPerHolding` | monitoring/engine/alerts.py:35-46 | At most one alert per holding, in portfolio order. |
| `Alerts.InWindow` | monitoring/engine/alerts.py:57 | The window is no longer than the series. |
| `Alerts.InWindowMembers` | monitoring/engine/alerts.py:57 | A price is in the window exactly when its point is at or after `start`. |
| `Alerts.Max` | monitoring/engine/alerts.py:60 | `max` of a non-empty list is an element and bounds every element. |
| `Alerts.Min` | monitoring/engine/alerts.py:61 | `min` of a non-empty list is an element and is below every element. |
| `Alerts.VolatilityRules` | monitoring/engine/alerts.py:49-66 | No alert for an empty series or a window with fewer than two points. A zero mean raises. Otherwise the alert fires exactly when `(max - min) / mean * 100` reaches the threshold, stamped with the last time. |
| `Alerts.LastPointInWindow` | monitoring/engine/alerts.py:55-57 | For a non-negative window length, the last price lies in the window that ends at its time. |
| `Alerts.LastKept` | monitoring/engine/alerts.py:57 | A last point at or after `start` keeps its price in the window. |
| `Alerts.CheckLowBalance` | monitoring/engine/alerts.py:69-72 | The alert fires exactly when the balance is at or below the threshold, and reports both. |
| `Dashboard.BodyOf` | monitoring/dashboard/app.py:75 | A missing body is stored as `{}`; any body present, the empty one included, is stored as given. |
| `Dashboard.PushListSpec` | monitoring/dashboard/app.py:80-81 | The new alert comes first and the list has at most 100 entries. The old alerts follow in order, and only the oldest beyond the cap are dropped. |
| `Dashboard.PushAllNewestFirst` | monitoring/dashboard/app.py:73-82 | After a run of pushes the log is the newest alert back to the oldest, then the old log, cut to 100: capping each time is capping once. |
| `Dashboard.AlertLog.ApiPush` | monitoring/dashboard/app.py:73-82 | An unreadable file counts as an empty list. A JSON list gets the alert pushed and is capped. Any other JSON document makes the request fail with the file unchanged. |
| `Common.ContainsIff` | ux/parser.py:60 | Python's `k in s` holds exactly when `k` occurs at some position of `s`. |
| `Common.LStripWhere` | performance/async_api.py:73 | `lstrip` removes exactly the leading characters in the set, keeping a suffix. |
| `Common.RStripWhere` | performance/async_api.py:58 | `rstrip` removes exactly the trailing characters in the set, keeping a prefix. |
| `Common.LStripIdempotent` | performance/async_api.py:73 | Stripping twice is stripping once. |
| `Common.RStripIdempotent` | performance/async_api.py:58 | Stripping twice is stripping once. |
| `Common.UpperIdempotent` | ux/autocomplete.py:18 | Upper-casing twice is upper-casing once. |
| `Common.UpperOfLower` | ux/autocomplete.py:18 | Upper-casing forgets an earlier lower-casing. |
| `Common.SplitOnce` | telegram-bot/bot.py:66 | `split(':', 1)`: one part without the separator, or a part before the first separator and the rest. |
| `Common.NatToStringDigits` | telegram-bot/bot.py:138-140 | `str(n)` is a non-empty run of digits with value n. |
| `Common.ParseIntToString` | telegram-bot/bot.py:66 | `int(str(n)) == n`. |
| `Common.NoColonInIntToString` | telegram-bot/bot.py:138-140 | An id printed with `str` contains no ':'. |
| `Common.StrLessIrreflexive` | telegram-bot/utils.py:64 | Lexicographic string order is irreflexive. |
| `Common.StrLessTransitive` | telegram-bot/utils.py:64 | Lexicographic string order is transitive. |
| `Common.StrLessTotal` | telegram-bot/utils.py:64 | Lexicographic string order is total. |
| `Common.StrLessAsymmetric` | telegram-bot/utils.py:64 | Lexicographic string order is asymmetric. |
| `Common.LeastExists` | telegram-bot/utils.py:64 | A non-empty set of strings has a least element. |
| `Common.LeastUnique` | telegram-bot/utils.py:64 | The least element is unique. |
| `Common.SortedList` | telegram-bot/utils.py:64 | The sorted listing of a set is strictly ascending, as long as the set, and holds exactly its elements. |
| `Common.HeadIsLeast` | telegram-bot/utils.py:64 | The head of a sorted listing is the least element. |
| `Common.TailListing` | telegram-bot/utils.py:64 | The tail of a sorted listing lists the set without its least element. |
| `Common.SortedListUnique` | telegram-bot/utils.py:64 | A set has exactly one strictly sorted listing. |

## Left out

- Concurrency is not modelled. The model has no `asyncio.Lock`, `Semaphore`, `create_task` or `gather` scheduling. Each locked operation is one atomic step, and `parallel_get` is modelled by its result order.
- The clock, `asyncio.sleep` and `random.random()` are inputs: clock readings per pass, and jitter draws per attempt. Sleep events record the backoff and the draw; their length is `Pause(backoff, draw)`.
- aiohttp is left out: the session, `timeout=10`, the method, params, JSON body and headers of `_request`. Each attempt's transport result is an input, and `get`/`post` are `_request` itself.
- `json.loads`/`orjson`, AES-GCM, PBKDF2 and `get_random_bytes` are parameters. The salt and nonce of `encrypt` are inputs, and the command-line part of security/keys_crypto.py is not modelled.
- The regular-expression searches of ux/parser.py and `float()`/`normalize_num` are not modelled. Their results on the stripped text are inputs (`Matches`).
- Python's `lower()`/`upper()` are modelled for ASCII and the Cyrillic range U+0400–U+045F only.
- File I/O (the jq files, keys, exports, alerts JSON) is reduced to what the files hold: a function from path to contents, or the file state as a field.
- Flask routing, `request.get_json(force=True)` and the Telegram HTTP calls are left out. The webhook's JSON update is given already decoded as `Update`, and the handler returns the effects it asks for.
- The `set_webhook`, export and webhook-registration routes are not modelled beyond the column layout.
- telegram-bot/storage.py is not part of this model: the id `save_order` returns is an input, and `list_webhooks` is a list of hooks.
- `pretty_timestamp`, `export_json` and the value formatting of `csv.DictWriter` and openpyxl are not modelled. Cells are kept as values, as is `f"{x}"` of a float, which is a parameter `showNum`.
- The fallback of `export_excel` to CSV when openpyxl fails is not modelled.
- `BotServer.CallbackId`: Python's `int()` also accepts surrounding whitespace and digit underscores. The model accepts only an optional sign followed by ASCII digits.
- `Dialog.HandleUserReply` returns a new dictionary, whereas the source updates the caller's `state` in place and returns it. Aliasing of that dictionary is not modelled.
- `AsyncClient.ClassifyRules` follows the code (client error path at performance/async_api.py:83-85 and the handler at 93-98). A 4xx whose body is not JSON raises inside the `try` and is retried, although the comment says client errors return their body.
- `Alerts.CheckVolatility`: datetimes are real minutes, and `timedelta(minutes=w)` is `w`.
- Python floats are exact `real`s throughout. This covers tokens, capacity, period, clock readings, backoffs, prices and percentages. IEEE rounding, `inf` and `nan` are not modelled. So `RateLimiting.WaitIsEnough` and `RateLimiting.AcquireWithinTwoPasses` hold for exact arithmetic only. In doubles, the refill after the reported sleep can round below the cost, and the source then waits once more. `AsyncClient.SleepsBounded` is stated over exact products too. `Alerts.HoldingAlertRules` and `Alerts.VolatilityRules` assume ordered values: with a `nan` change, neither the stop nor the take comparison holds.
- `AsyncClient.ParallelGet`: gives the per-path results in input order. `AsyncClient.Gather` models `asyncio.gather` without `return_exceptions`: it returns the replies only when every `get` returns, and otherwise raises. Which failing `get`'s exception is raised depends on completion order, which is not modelled. The model gives the set of positions it can come from. The tasks still running after that exception are not modelled either.
- `Alerts.CheckPriceChange`: its `ticker` field is always `None` and is not kept.
- `Dashboard.AlertLog.ApiPush`: a JSON body that is not an object is not distinguished from one that is, and the file's JSON encoding is not modelled.
- `RateLimiting.RateLimiter.Acquire`: is given a finite list of clock readings. When the list runs out while the caller is still waiting, it ends with `ClockStopped`. The source re-tries with a nested `await self.acquire(tokens)` (performance/async_api.py:50-51). Under CPython, after about `sys.getrecursionlimit()` nested re-tries it raises `RecursionError`, for example for any cost above capacity. That end and its depth are not modelled; such a run ends in `ClockStopped` instead.
- `AsyncClient.APIClient.Request`: the limiter stalling on its clock ends the run with `ClockExhausted`. In the source, a limiter that re-tries too deeply raises `RecursionError`. Because `acquire` is called before the `try` (performance/async_api.py:75-76), that error leaves `_request` without a retry. This end is not modelled.
- `KeysCrypto.DecryptEncrypt`: proved under the assumption `Gcm` that AES-GCM opens what it sealed with 16-byte tags. The cipher itself is not modelled.
- `Dialog.PromptFor`: the prompt texts are a table, and `prompt_for` ignores the state as the source does.
- The rest of the repository is not modelled because it lies outside this core:
  - performance/benchmark.py;
  - the strategies;
  - the reports, email, webhook and Telegram senders of monitoring/;
  - the other dashboard routes;
  - webhook-handler.py.
- The price-change alert's ticker lookup is left out, because the source always passes `None`.
