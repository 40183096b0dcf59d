/** The webhook server of telegram-bot/bot.py: the inline buttons of a
    saved order, the dispatch of an update to its effects, the Telegram
    message payload and the webhook notifications. Telegram, HTTP and the
    order storage are outside the model: the handler returns the effects
    it asks for, and the id the storage assigns is an input. */
module BotServer {
  import opened Common
  import opened Records
  import opened OrderParser
  import opened Dialog
  import opened BotUtils
  import opened Templates

  datatype Button = Button(text: string, callbackData: string)

  /** `build_inline_buttons(state, order_id)`. */
  function BuildInlineButtons(orderId: int): seq<Button> {
    [Button("✅ Подтвердить", "confirm:" + IntToString(orderId)),
     Button("✏️ Редактировать", "edit:" + IntToString(orderId)),
     Button("❌ Отменить", "cancel:" + IntToString(orderId))]
  }

  /** `int(data.split(':', 1)[1])`: `None` for the ValueError of a text
      that is not a number, and for the IndexError of data without ':'. */
  function CallbackId(data: string): Option<int> {
    var parts := SplitOnce(data, ':');
    if |parts| < 2 then None else ParseInt(parts[1])
  }

  /** Reading the id back from a button's data returns the order id. */
  lemma {:induction false} CallbackIdOf(action: string, orderId: int)
    requires ':' !in action
    ensures CallbackId(action + ":" + IntToString(orderId)) == Some(orderId)
  {
    var data := action + ":" + IntToString(orderId);
    var parts := SplitOnce(data, ':');
    SplitAtFirst(action, IntToString(orderId));
    ParseIntToString(orderId);
  }

  /** Splitting at the first ':' of `a ++ ":" ++ b`, with no ':' in `a`,
      gives `a` and `b`. */
  lemma {:induction false} SplitAtFirst(a: string, b: string)
    requires ':' !in a
    ensures SplitOnce(a + ":" + b, ':') == [a, b]
    decreases |a|
  {
    if a == [] {
      assert a + ":" + b == [':'] + b;
    } else {
      assert (a + ":" + b)[0] == a[0];
      assert (a + ":" + b)[1..] == a[1..] + ":" + b;
      SplitAtFirst(a[1..], b);
      assert [a[0]] + a[1..] == a;
    }
  }

  /** Three buttons, confirm, edit and cancel in that order, whose data is
      the action, ':' and the order id, which reads back as the id. */
  lemma InlineButtons(orderId: int)
    ensures var bs := BuildInlineButtons(orderId);
      && |bs| == 3
      && bs[0].callbackData == "confirm:" + IntToString(orderId)
      && bs[1].callbackData == "edit:" + IntToString(orderId)
      && bs[2].callbackData == "cancel:" + IntToString(orderId)
      && forall i :: 0 <= i < 3 ==> CallbackId(bs[i].callbackData) == Some(orderId)
  {
    CallbackIdOf("confirm", orderId);
    CallbackIdOf("edit", orderId);
    CallbackIdOf("cancel", orderId);
    assert "confirm" + ":" + IntToString(orderId) == "confirm:" + IntToString(orderId);
    assert "edit" + ":" + IntToString(orderId) == "edit:" + IntToString(orderId);
    assert "cancel" + ":" + IntToString(orderId) == "cancel:" + IntToString(orderId);
  }

  // ---------------------------------------------------------------------------
  // The webhook

  /** An incoming update: a message (its text is "" when absent), a
      callback query, or neither. */
  datatype Update<Id> =
    | Message(chatId: Id, userId: Id, text: string)
    | CallbackQuery(chatId: Id, data: string)
    | Other

  /** What the handler asks of the outside world, in order. */
  datatype Effect<Id> =
    | Send(chatId: Id, text: string, parseMode: Option<string>, buttons: seq<Button>)
    | SaveOrder(chatId: Id, userId: Id, order: Dict)
    | NotifyConfirmed(orderId: int)

  /** The HTTP answer: `{'ok': True}` with the order id of a saved order,
      or the server error of an uncaught exception. */
  datatype Outcome = Answered(orderId: Option<int>) | ServerError

  const ConfirmedText: string := "Ордeр подтверждён. (Прототип — не отправляет на биржу)"
  const CancelledText: string := "Операция отменена."
  const EditText: string := "Откройте диалог для редактирования. (Прототип)"

  /** `webhook()`: `m` holds the regular-expression results of the message
      text, `savedId` the id `save_order` returns. */
  function Webhook<Id>(u: Update<Id>, m: Matches, showNum: real -> string, savedId: int): (seq<Effect<Id>>, Outcome) {
    match u
    case Message(chatId, userId, text) =>
      if text == "" then ([], Answered(None))
      else OnText(chatId, userId, text, m, showNum, savedId)
    case CallbackQuery(chatId, data) => OnCallback(chatId, data)
    case Other => ([], Answered(None))
  }

  /** The message branch: the dialog state is the parse of the text. */
  function OnText<Id>(chatId: Id, userId: Id, text: string, m: Matches, showNum: real -> string,
                      savedId: int): (seq<Effect<Id>>, Outcome) {
    var state := Start(text, m);
    assert "quantity" in NumberFields;
    OnState(chatId, userId, state, showNum, savedId)
  }

  /** The message branch once the state is known: the first prompt, else
      the validation error, else the order is saved and its summary sent
      with the buttons for the saved id. */
  function OnState<Id>(chatId: Id, userId: Id, state: Dict, showNum: real -> string,
                       savedId: int): (seq<Effect<Id>>, Outcome)
    requires !Get(state, "quantity").Str?
  {
    var missing := Prompt(state);
    if missing.Some? && missing.value != "" then ([Send(chatId, missing.value, None, [])], Answered(None))
    else
      var err := Validate(state);
      if err.Some? && err.value != "" then ([Send(chatId, err.value, None, [])], Answered(None))
      else
        ([SaveOrder(chatId, userId, state),
          Send(chatId, FormatOrderTable(state, showNum), Some("HTML"), BuildInlineButtons(savedId))],
         Answered(Some(savedId)))
  }

  /** The callback branch: confirm, then cancel, then edit. */
  function OnCallback<Id>(chatId: Id, data: string): (seq<Effect<Id>>, Outcome) {
    if StartsWith(data, "confirm:") then
      match CallbackId(data)
      case None => ([], ServerError)
      case Some(id) => ([Send(chatId, ConfirmedText, None, []), NotifyConfirmed(id)], Answered(None))
    else if StartsWith(data, "cancel:") then
      if CallbackId(data).None? then ([], ServerError) else ([Send(chatId, CancelledText, None, [])], Answered(None))
    else if StartsWith(data, "edit:") then
      if CallbackId(data).None? then ([], ServerError) else ([Send(chatId, EditText, None, [])], Answered(None))
    else ([], Answered(None))
  }

  predicate Saves<Id>(effects: seq<Effect<Id>>) {
    exists i :: 0 <= i < |effects| && effects[i].SaveOrder?
  }

  predicate Notifies<Id>(effects: seq<Effect<Id>>) {
    exists i :: 0 <= i < |effects| && effects[i].NotifyConfirmed?
  }

  /** An order is saved only when the dialog has no prompt and validation
      passes; it is saved before the summary goes out, and the summary's
      buttons carry the saved id. */
  lemma SavedOnlyWhenComplete<Id>(chatId: Id, userId: Id, text: string, m: Matches, showNum: real -> string, savedId: int)
    ensures var (effects, outcome) := Webhook(Message(chatId, userId, text), m, showNum, savedId);
      var state := Start(text, m);
      && !Notifies(effects)
      && (Saves(effects) <==> text != "" && Prompt(state).None? && Validate(state).None?)
      && (Saves(effects) ==>
            effects == [SaveOrder(chatId, userId, state),
                        Send(chatId, FormatOrderTable(state, showNum), Some("HTML"), BuildInlineButtons(savedId))]
            && outcome == Answered(Some(savedId)))
      && (!Saves(effects) ==> outcome == Answered(None))
  {
    var state := Start(text, m);
    assert "quantity" in NumberFields;
    if text != "" {
      StateRules(chatId, userId, state, showNum, savedId);
    }
  }

  lemma StateRules<Id>(chatId: Id, userId: Id, state: Dict, showNum: real -> string, savedId: int)
    requires !Get(state, "quantity").Str?
    ensures var (effects, outcome) := OnState(chatId, userId, state, showNum, savedId);
      && !Notifies(effects)
      && (Saves(effects) <==> Prompt(state).None? && Validate(state).None?)
      && (Saves(effects) ==>
            effects == [SaveOrder(chatId, userId, state),
                        Send(chatId, FormatOrderTable(state, showNum), Some("HTML"), BuildInlineButtons(savedId))]
            && outcome == Answered(Some(savedId)))
      && (!Saves(effects) ==> outcome == Answered(None))
  {
    var (effects, outcome) := OnState(chatId, userId, state, showNum, savedId);
    match Prompt(state)
    case Some(f) =>
      var field :| FirstMissing(state, RequiredFields, 0) == Some(field);
      PromptNonEmpty(field);
    case None =>
      match ValidationCode(state)
      case Some(code) => FriendlyErrorTable(code);
      case None =>
        assert effects[0].SaveOrder?;
  }

  /** Callbacks: data starting "confirm:" confirms (and alone notifies the
      webhooks), else "cancel:" cancels, else "edit:" edits; each answers
      the callback's chat, a bad id is a server error, and any other data
      sends nothing and answers ok. */
  lemma CallbackDispatch<Id>(chatId: Id, data: string)
    ensures var (effects, outcome) := OnCallback(chatId, data);
      && (Notifies(effects) <==> StartsWith(data, "confirm:") && CallbackId(data).Some?)
      && (Notifies(effects) ==>
            effects == [Send(chatId, ConfirmedText, None, []), NotifyConfirmed(CallbackId(data).value)])
      && (!Saves(effects))
      && (outcome == ServerError <==>
            (StartsWith(data, "confirm:") || StartsWith(data, "cancel:") || StartsWith(data, "edit:"))
            && CallbackId(data).None?)
      && (!StartsWith(data, "confirm:") && StartsWith(data, "cancel:") && CallbackId(data).Some? ==>
            effects == [Send(chatId, CancelledText, None, [])])
      && ((!StartsWith(data, "confirm:") && !StartsWith(data, "cancel:") && StartsWith(data, "edit:")
           && CallbackId(data).Some?) ==> effects == [Send(chatId, EditText, None, [])])
      && (!StartsWith(data, "confirm:") && !StartsWith(data, "cancel:") && !StartsWith(data, "edit:") ==>
            effects == [] && outcome == Answered(None))
  {
    var (effects, outcome) := OnCallback(chatId, data);
    if StartsWith(data, "confirm:") && CallbackId(data).Some? {
      assert effects[1].NotifyConfirmed?;
    }
  }

  /** Pressing Confirm on a saved order's summary confirms that order and
      notifies the webhooks of its id; Cancel and Edit answer without
      notifying. */
  lemma ButtonsRoundTrip<Id>(chatId: Id, orderId: int)
    ensures var bs := BuildInlineButtons(orderId);
      && OnCallback(chatId, bs[0].callbackData) ==
           ([Send(chatId, ConfirmedText, None, []), NotifyConfirmed(orderId)], Answered(None))
      && OnCallback(chatId, bs[1].callbackData) == ([Send(chatId, EditText, None, [])], Answered(None))
      && OnCallback(chatId, bs[2].callbackData) == ([Send(chatId, CancelledText, None, [])], Answered(None))
  {
    InlineButtons(orderId);
    var n := IntToString(orderId);
    assert ("confirm:" + n)[..8] == "confirm:";
    assert ("edit:" + n)[..5] == "edit:";
    assert ("cancel:" + n)[..7] == "cancel:";
    assert ("edit:" + n)[0] != 'c';
    assert ("cancel:" + n)[1] != "confirm:"[1];
  }

  // ---------------------------------------------------------------------------
  // send_message and notify_webhooks

  /** The form fields of the sendMessage request; the keyboard holds the
      rows of `reply_markup` (its JSON encoding is not modelled). */
  datatype Payload<Id> = Payload(chatId: Id, text: string, parseMode: Option<string>,
                                 keyboard: Option<seq<seq<Button>>>)

  /** `[[b] for b in buttons]`. */
  function KeyboardRows(buttons: seq<Button>): (rows: seq<seq<Button>>)
    ensures |rows| == |buttons|
  {
    seq(|buttons|, i requires 0 <= i < |buttons| => [buttons[i]])
  }

  /** The keyboard puts each button in a row of its own, in order: reading
      the rows back gives the buttons. */
  lemma {:induction false} KeyboardFlattens(buttons: seq<Button>)
    ensures forall i :: 0 <= i < |buttons| ==> KeyboardRows(buttons)[i] == [buttons[i]]
    ensures Flatten(KeyboardRows(buttons)) == buttons
    decreases |buttons|
  {
    if buttons != [] {
      KeyboardFlattens(buttons[1..]);
      assert KeyboardRows(buttons)[1..] == KeyboardRows(buttons[1..]);
    }
  }

  function Flatten<T>(rows: seq<seq<T>>): seq<T>
    decreases |rows|
  {
    if rows == [] then [] else rows[0] + Flatten(rows[1..])
  }

  /** The request `send_message` posts: nothing without a bot token;
      `parse_mode` only when truthy; the keyboard only for a non-empty list
      of buttons. */
  function SendPayload<Id>(botToken: Option<string>, chatId: Id, text: string, parseMode: Option<string>,
                           buttons: seq<Button>): (r: Option<Payload<Id>>)
    ensures r.Some? <==> botToken.Some? && botToken.value != ""
    ensures r.Some? ==> r.value.chatId == chatId && r.value.text == text
    ensures r.Some? ==> (r.value.parseMode.Some? <==> parseMode.Some? && parseMode.value != "")
    ensures r.Some? && r.value.parseMode.Some? ==> r.value.parseMode == parseMode
    ensures r.Some? ==> (r.value.keyboard.Some? <==> buttons != [])
  {
    if botToken.None? || botToken.value == "" then None
    else
      var mode := if parseMode.Some? && parseMode.value != "" then parseMode else None;
      var keyboard := if buttons != [] then Some(KeyboardRows(buttons)) else None;
      Some(Payload(chatId, text, mode, keyboard))
  }

  /** A registered webhook; a token of `None` or "" is falsy. */
  datatype Hook = Hook(url: string, token: Option<string>)

  /** One POST of `notify_webhooks`: its target, its JSON body (the
      confirmed order's id) and its headers. */
  datatype Post = Post(url: string, orderId: int, headers: map<string, string>)

  /** The headers of one POST. */
  function HeadersFor(w: Hook): map<string, string> {
    if w.token.Some? && w.token.value != "" then map["Authorization" := "Bearer " + w.token.value] else map[]
  }

  /** The POSTs `notify_webhooks` makes, one per registered webhook in
      order; a failing POST is caught and the loop goes on. */
  function Posts(hooks: seq<Hook>, orderId: int): (r: seq<Post>)
    ensures |r| == |hooks|
  {
    seq(|hooks|, i requires 0 <= i < |hooks| => Post(hooks[i].url, orderId, HeadersFor(hooks[i])))
  }

  /** `notify_webhooks({'event': 'order_confirmed', 'order_id': id})`. */
  method NotifyWebhooks(hooks: seq<Hook>, orderId: int) returns (posts: seq<Post>)
    ensures posts == Posts(hooks, orderId)
  {
    posts := [];
    var i := 0;
    while i < |hooks|
      invariant 0 <= i <= |hooks|
      invariant posts == Posts(hooks[..i], orderId)
    {
      var w := hooks[i];
      var headers := map[];
      if w.token.Some? && w.token.value != "" {
        headers := headers["Authorization" := "Bearer " + w.token.value];
      }
      assert Posts(hooks[..i + 1], orderId) == Posts(hooks[..i], orderId) + [Post(w.url, orderId, headers)];
      posts := posts + [Post(w.url, orderId, headers)];
      i := i + 1;
    }
    assert hooks[..i] == hooks;
  }

  /** Every webhook is posted to, in order; the only header is
      Authorization, present exactly when the token is truthy and then
      "Bearer " followed by the token. */
  lemma AuthorizationHeader(hooks: seq<Hook>, orderId: int)
    ensures var posts := Posts(hooks, orderId);
      forall i :: 0 <= i < |hooks| ==>
        && posts[i].url == hooks[i].url && posts[i].orderId == orderId
        && posts[i].headers.Keys <= {"Authorization"}
        && ("Authorization" in posts[i].headers <==> hooks[i].token.Some? && hooks[i].token.value != "")
        && ("Authorization" in posts[i].headers ==>
              posts[i].headers["Authorization"] == "Bearer " + hooks[i].token.value)
  {
  }
}
