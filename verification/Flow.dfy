/** The browser form and the `/send` route together: what the server does
    with the body the submit handler posts. */
module Flow {
  import opened Wrappers
  import opened JsText
  import opened FormScript
  import opened SendHandler

  /** The request the route receives for a posted form. */
  function RequestOf(s: Submission): (req: Request)
    requires s.Post?
  {
    Request(s.number, s.message, s.datetime)
  }

  /** A form that passes the submit check makes the server send its trimmed
      message to the chat of its rewritten number exactly once, whatever the
      requested time, and reply once: at once when the typed time is absent,
      past or unparseable, otherwise from the one timer armed for it. */
  lemma PostedFormSendsOnce(widgetNumber: string, messageValue: string, datetimeValue: string,
                                               now: int, parse: string -> Option<int>, formatLocal: int -> string)
    requires OnSubmit(widgetNumber, messageValue, datetimeValue).Post?
    ensures var effs := HandleSend(RequestOf(OnSubmit(widgetNumber, messageValue, datetimeValue)), now, parse, formatLocal);
      var send := SendMessage(Destinatario(NormalizeArgentine(widgetNumber)), Trim(messageValue));
      var b := Decide(datetimeValue, now, parse);
      && SendCount(effs) == 1 && Replies(effs) == 1
      && (!b.Scheduled? ==> effs[0] == send)
      && (b.Scheduled? ==> effs[0] == ArmTimer(b.delay, [send]))
  {
    var s := OnSubmit(widgetNumber, messageValue, datetimeValue);
    var req := RequestOf(s);
    ExactlyOneSendPerRequest(req, now, parse, formatLocal);
    var to := Destinatario(req.number);
    assert EnviarMensaje(to, req.message) == [SendMessage(to, req.message)];
    if Decide(req.datetime, now, parse).Scheduled? {
      ScheduledSendsOnlyFromTimer(req, now, parse, formatLocal);
    } else {
      ImmediateSendsNow(req, now, parse, formatLocal);
    }
  }

  /** An Argentine number from the phone widget reaches WhatsApp with the
      mobile `9` after the country code: its chat id starts "549". */
  lemma ArgentineChatIdHasMobileNine(widgetNumber: string)
    requires StartsWith(widgetNumber, "+54")
    ensures StartsWith(Destinatario(NormalizeArgentine(widgetNumber)), "549")
  {
    NormalizeArgentineResult(widgetNumber);
    var number := NormalizeArgentine(widgetNumber);
    var prefix := number[..4];
    assert prefix == "+" + "549";
    DestinatarioChatId(number, prefix, number[4..]);
    StripNonDigitPrefix("+", "549");
    var d := Destinatario(number);
    assert d[..3] == d[..|d| - |ChatSuffix|][..3];
  }
}
