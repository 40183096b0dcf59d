/** The handlers of `TelegramBotPrototype` in ux/telegram_bot_prototype.py:
    a message runs the dialog rules on the parsed text and answers with the
    first prompt, the validation error or the confirmation with its
    buttons; a callback answers by the prefix of its data. */
module BotPrototype {
  import opened Common
  import opened Records
  import opened OrderParser
  import opened Templates
  import opened Dialog

  /** The reply dictionary: `buttons` is present only on a confirmation. */
  datatype Reply<Id> = Reply(chatId: Id, text: string, buttons: Option<seq<string>>)

  const PrototypeButtons: seq<string> := ["Confirm", "Edit", "Cancel"]

  /** `on_message(chat_id, text)`; `if missing:` and `if err:` test the
      texts for truthiness. */
  function OnMessage<Id>(chatId: Id, text: string, m: Matches, showNum: real -> string): Reply<Id> {
    var state := Start(text, m);
    var missing := Prompt(state);
    if missing.Some? && missing.value != "" then Reply(chatId, missing.value, None)
    else
      assert "quantity" in NumberFields;
      var err := Validate(state);
      if err.Some? && err.value != "" then Reply(chatId, err.value, None)
      else Reply(chatId, RenderConfirmation(state, showNum), Some(PrototypeButtons))
  }

  /** The reply goes to the sender; it is the first prompt while a field is
      missing, else the validation error while one applies, else the
      confirmation, and only the confirmation carries the buttons. */
  lemma OnMessageRules<Id>(chatId: Id, text: string, m: Matches, showNum: real -> string)
    ensures var state := Start(text, m);
      var r := OnMessage(chatId, text, m, showNum);
      && r.chatId == chatId
      && (Prompt(state).Some? ==> r == Reply(chatId, Prompt(state).value, None))
      && (Prompt(state).None? && Validate(state).Some? ==> r == Reply(chatId, Validate(state).value, None))
      && (r.buttons.Some? <==> Prompt(state).None? && Validate(state).None?)
      && (r.buttons.Some? ==> r.text == RenderConfirmation(state, showNum) && r.buttons.value == PrototypeButtons)
  {
    var state := Start(text, m);
    match Prompt(state)
    case Some(f) =>
      var field :| FirstMissing(state, RequiredFields, 0) == Some(field);
      PromptNonEmpty(field);
    case None =>
      assert "quantity" in NumberFields;
      match ValidationCode(state)
      case Some(code) => FriendlyErrorTable(code);
      case None =>
  }

  /** `on_callback(chat_id, callback_data, state)`: `None` when no branch
      applies. */
  function OnCallback<Id>(chatId: Id, data: string): (r: Option<Reply<Id>>)
    ensures r.Some? ==> r.value.chatId == chatId && r.value.buttons.None?
  {
    if StartsWith(data, "confirm") then Some(Reply(chatId, "Ордeр отправлен (прототип).", None))
    else if StartsWith(data, "edit") then Some(Reply(chatId, "Что хотели бы изменить? (Например: количество, цену)", None))
    else if data == "cancel" then Some(Reply(chatId, "Операция отменена.", None))
    else None
  }

  /** The confirmation branch wins for any data that starts with
      "confirm" (such as "confirm:7"), editing for any that starts with
      "edit", cancelling only for exactly "cancel", and every other data,
      "cancel:7" among them, gets no reply. */
  lemma CallbackRules<Id>(chatId: Id, data: string, rest: string)
    ensures OnCallback(chatId, "confirm" + rest) == Some(Reply(chatId, "Ордeр отправлен (прототип).", None))
    ensures OnCallback(chatId, "edit" + rest) ==
              Some(Reply(chatId, "Что хотели бы изменить? (Например: количество, цену)", None))
    ensures OnCallback(chatId, data).None? <==>
              !StartsWith(data, "confirm") && !StartsWith(data, "edit") && data != "cancel"
    ensures OnCallback(chatId, "cancel:" + rest).None?
  {
    assert ("confirm" + rest)[..7] == "confirm";
    assert ("edit" + rest)[..4] == "edit";
    assert ("edit" + rest)[..4] != "conf";
    var c := "cancel:" + rest;
    assert c[0] == 'c' && c[1] == 'a';
    assert |c| >= 7 > 6;
  }
}
