/** The pure part of the `/send` route of index.js: how the destination
    chat id is formed, when the message is handed to the WhatsApp client,
    how the requested time decides between sending now and arming a timer,
    and which reply text goes back to the browser.

    The clock, the date parser and the locale formatter are parameters:
    `now` is `new Date().getTime()` in milliseconds, `parse(s)` is
    `new Date(s).getTime()` with `None` for `NaN`, and `formatLocal(t)` is
    `new Date(t).toLocaleString()`. */
module SendHandler {
  import opened Wrappers
  import opened JsText

  /** The fields of the url-encoded form body. An empty `datetime` is the
      falsy value the route treats as "no time given". */
  datatype Request = Request(number: string, message: string, datetime: string)

  /** What the handler does, in order: a call to `client.sendMessage`, a
      `setTimeout` whose callback will produce `onFire`, or `res.send`. */
  datatype Effect =
    | SendMessage(to: string, body: string)
    | ArmTimer(delay: int, onFire: seq<Effect>)
    | Reply(text: string)

  /** The suffix whatsapp-web.js expects on an individual chat id. */
  const ChatSuffix: string := "@c.us"

  /** `destinatario`: the digits of the number followed by "@c.us". */
  function Destinatario(number: string): (d: string)
    ensures |d| == |StripNonDigits(number)| + |ChatSuffix| && d != ""
    ensures d[|d| - |ChatSuffix|..] == ChatSuffix
    ensures AllDigits(d[..|d| - |ChatSuffix|])
  {
    StripNonDigits(number) + ChatSuffix
  }

  /** The chat id can be read back from the destination by dropping the
      suffix, and it is the number's digits in their original order. */
  lemma DestinatarioChatId(number: string, prefix: string, rest: string)
    requires number == prefix + rest
    ensures var d := Destinatario(number);
      d[..|d| - |ChatSuffix|] == StripNonDigits(prefix) + StripNonDigits(rest)
  {
    StripNonDigitsAppend(prefix, rest);
    var d := Destinatario(number);
    assert d[..|d| - |ChatSuffix|] == StripNonDigits(number);
  }

  /** `enviarMensaje`: hands the message to the client only when both the
      message and the destination are non-empty strings. */
  function EnviarMensaje(destinatario: string, mensaje: string): (effs: seq<Effect>)
    ensures |effs| <= 1
    ensures effs != [] <==> mensaje != "" && destinatario != ""
    ensures forall e :: e in effs ==> e == SendMessage(destinatario, mensaje)
  {
    if mensaje != "" && destinatario != "" then [SendMessage(destinatario, mensaje)] else []
  }

  /** Since the destination always ends in "@c.us", the guard inside
      `enviarMensaje` only ever tests the message: a request whose number has
      no digit at all is still sent, to the chat id "@c.us". */
  lemma GuardIsMessageTest(number: string, mensaje: string)
    ensures EnviarMensaje(Destinatario(number), mensaje) != [] <==> mensaje != ""
    ensures StripNonDigits(number) == "" && mensaje != "" ==>
      EnviarMensaje(Destinatario(number), mensaje) == [SendMessage(ChatSuffix, mensaje)]
  {
    if StripNonDigits(number) == "" {
      assert Destinatario(number) == ChatSuffix;
    }
  }

  /** The timing decision on a parsed target time. */
  datatype Timing = Immediate | Deferred(delay: int)

  /** Defer exactly when a target exists and lies strictly after `now`;
      `NaN > now` is false, so an unparseable time (None) sends now. */
  function Classify(target: Option<int>, now: int): (t: Timing)
    ensures t.Deferred? <==> target.Some? && target.value > now
  {
    if target.Some? && target.value > now then Deferred(target.value - now) else Immediate
  }

  /** A deferred send waits a positive delay that ends exactly at the target. */
  lemma DeferredDelayReachesTarget(target: Option<int>, now: int)
    requires Classify(target, now).Deferred?
    ensures Classify(target, now).delay > 0
    ensures now + Classify(target, now).delay == target.value
  {
  }

  /** The three branches of the route, which differ in their reply. */
  datatype Branch = NoTime | Scheduled(target: int, delay: int) | PastOrInvalid

  /** `if (horaEnvio) { ... if (hora > ahora) ... else ... } else ...`. */
  function Decide(datetime: string, now: int, parse: string -> Option<int>): (b: Branch)
    ensures b.NoTime? <==> datetime == ""
    ensures b.Scheduled? <==> datetime != "" && Classify(parse(datetime), now).Deferred?
    ensures b.Scheduled? ==> parse(datetime) == Some(b.target) && b.delay == b.target - now && b.delay > 0
  {
    if datetime == "" then NoTime
    else match Classify(parse(datetime), now)
      case Deferred(delay) => Scheduled(parse(datetime).value, delay)
      case Immediate => PastOrInvalid
  }

  /** The timing the branch stands for. */
  function TimingOf(b: Branch): Timing {
    match b
    case Scheduled(_, delay) => Deferred(delay)
    case _ => Immediate
  }

  /** A time that is absent, not after `now`, or unparseable means "now";
      otherwise the delay is the distance to the parsed time. */
  lemma DecideAgreesWithClassify(datetime: string, now: int, parse: string -> Option<int>)
    ensures datetime == "" ==> TimingOf(Decide(datetime, now, parse)) == Immediate
    ensures datetime != "" ==> TimingOf(Decide(datetime, now, parse)) == Classify(parse(datetime), now)
    ensures datetime != "" && (parse(datetime) == None || parse(datetime).value <= now) ==>
      Decide(datetime, now, parse) == PastOrInvalid
  {
  }

  const ReplyScheduledPrefix: string := "\U{2705} Mensaje programado para "
  const ReplyPastOrInvalid: string := "\U{2705} Mensaje enviado inmediatamente (hora programada pasada o no v\U{E1}lida)."
  const ReplyNoTime: string := "\U{2705} Mensaje enviado inmediatamente."

  /** The text `res.send` returns for each branch: each "send now" branch
      has its own fixed text, and the scheduled reply carries the target
      time as the locale formatter prints it. */
  function ReplyText(b: Branch, formatLocal: int -> string): (text: string)
    ensures b.NoTime? <==> text == ReplyNoTime
    ensures b.PastOrInvalid? <==> text == ReplyPastOrInvalid
    ensures b.Scheduled? ==> StartsWith(text, ReplyScheduledPrefix) && text[|text| - 1] == '.'
    ensures b.Scheduled? ==> text[|ReplyScheduledPrefix|..|text| - 1] == formatLocal(b.target)
  {
    // position 10 is 'p' in "programado" and 'e' in "enviado"
    assert ReplyPastOrInvalid[10] == 'e' && ReplyNoTime[10] == 'e';
    assert |ReplyNoTime| != |ReplyPastOrInvalid|;
    match b
    case Scheduled(target, _) =>
      var text := ReplyScheduledPrefix + formatLocal(target) + ".";
      assert text[10] == 'p';
      assert text[|ReplyScheduledPrefix|..|text| - 1] == formatLocal(target);
      text
    case PastOrInvalid => ReplyPastOrInvalid
    case NoTime => ReplyNoTime
  }

  /** The reply tells the three branches apart, whatever the locale
      formatter prints. */
  lemma ReplyIdentifiesBranch(b1: Branch, b2: Branch, f1: int -> string, f2: int -> string)
    requires ReplyText(b1, f1) == ReplyText(b2, f2)
    ensures b1.Scheduled? == b2.Scheduled? && b1.NoTime? == b2.NoTime?
  {
    var t := ReplyText(b1, f1);
    // position 10 is 'p' in "programado" and 'e' in "enviado"
    assert ReplyPastOrInvalid[10] == 'e' && ReplyNoTime[10] == 'e';
    assert b1.Scheduled? ==> t[10] == 'p';
    assert b2.Scheduled? ==> t[10] == 'p';
    assert |ReplyNoTime| != |ReplyPastOrInvalid|;
  }

  /** The whole route: form the destination, then by branch either call
      `enviarMensaje` now or arm one timer whose callback calls it, and
      reply exactly once. */
  function HandleSend(req: Request, now: int, parse: string -> Option<int>, formatLocal: int -> string): (effs: seq<Effect>)
    ensures |effs| >= 1 && effs[|effs| - 1] == Reply(ReplyText(Decide(req.datetime, now, parse), formatLocal))
  {
    var send := EnviarMensaje(Destinatario(req.number), req.message);
    var b := Decide(req.datetime, now, parse);
    match b
    case Scheduled(_, delay) => [ArmTimer(delay, send), Reply(ReplyText(b, formatLocal))]
    case _ => send + [Reply(ReplyText(b, formatLocal))]
  }

  /** Number of `client.sendMessage` calls the effects lead to, counting
      those a timer performs when it fires. */
  function SendCount(effs: seq<Effect>): nat
    decreases effs
  {
    if effs == [] then 0
    else
      (match effs[0]
       case SendMessage(_, _) => 1
       case ArmTimer(_, onFire) => SendCount(onFire)
       case Reply(_) => 0)
      + SendCount(effs[1..])
  }

  /** Number of `client.sendMessage` calls made before the route returns. */
  function ImmediateSends(effs: seq<Effect>): nat {
    if effs == [] then 0 else (if effs[0].SendMessage? then 1 else 0) + ImmediateSends(effs[1..])
  }

  /** Number of timers armed. */
  function TimersArmed(effs: seq<Effect>): nat {
    if effs == [] then 0 else (if effs[0].ArmTimer? then 1 else 0) + TimersArmed(effs[1..])
  }

  /** Number of replies. */
  function Replies(effs: seq<Effect>): nat {
    if effs == [] then 0 else (if effs[0].Reply? then 1 else 0) + Replies(effs[1..])
  }

  lemma {:induction false} CountsAppend(a: seq<Effect>, b: seq<Effect>)
    ensures SendCount(a + b) == SendCount(a) + SendCount(b)
    ensures ImmediateSends(a + b) == ImmediateSends(a) + ImmediateSends(b)
    ensures TimersArmed(a + b) == TimersArmed(a) + TimersArmed(b)
    ensures Replies(a + b) == Replies(a) + Replies(b)
  {
    if a == [] {
      assert a + b == b;
    } else {
      assert (a + b)[0] == a[0];
      assert (a + b)[1..] == a[1..] + b;
      CountsAppend(a[1..], b);
    }
  }

  /** Each request sends its message at most once: exactly once when the
      message is non-empty, either right away or from the single timer,
      never both; a timer is armed exactly on the scheduled branch, and
      there is exactly one reply. */
  lemma ExactlyOneSendPerRequest(req: Request, now: int, parse: string -> Option<int>, formatLocal: int -> string)
    ensures var effs := HandleSend(req, now, parse, formatLocal);
      && SendCount(effs) == (if req.message != "" then 1 else 0)
      && TimersArmed(effs) == (if Decide(req.datetime, now, parse).Scheduled? then 1 else 0)
      && ImmediateSends(effs) + TimersArmed(effs) <= 1
      && Replies(effs) == 1
  {
    var send := EnviarMensaje(Destinatario(req.number), req.message);
    var b := Decide(req.datetime, now, parse);
    var r := [Reply(ReplyText(b, formatLocal))];
    GuardIsMessageTest(req.number, req.message);
    SendCounts(Destinatario(req.number), req.message);
    assert SendCount(r) == 0 && ImmediateSends(r) == 0 && TimersArmed(r) == 0 && Replies(r) == 1;
    if b.Scheduled? {
      var timer := [ArmTimer(b.delay, send)];
      assert HandleSend(req, now, parse, formatLocal) == timer + r;
      assert SendCount(timer) == SendCount(send) && ImmediateSends(timer) == 0;
      assert TimersArmed(timer) == 1 && Replies(timer) == 0;
      CountsAppend(timer, r);
    } else {
      assert HandleSend(req, now, parse, formatLocal) == send + r;
      CountsAppend(send, r);
    }
  }

  /** What `enviarMensaje` contributes: one immediate send when the message
      is non-empty, and nothing else. */
  lemma SendCounts(destinatario: string, mensaje: string)
    requires destinatario != ""
    ensures var send := EnviarMensaje(destinatario, mensaje);
      && SendCount(send) == ImmediateSends(send) == (if mensaje != "" then 1 else 0)
      && TimersArmed(send) == 0 && Replies(send) == 0
  {
  }

  /** On the scheduled branch nothing is sent before the route returns: the
      one timer is armed for the delay up to the target, and firing it
      sends the message to the destination. */
  lemma ScheduledSendsOnlyFromTimer(req: Request, now: int, parse: string -> Option<int>, formatLocal: int -> string)
    requires Decide(req.datetime, now, parse).Scheduled?
    ensures var b := Decide(req.datetime, now, parse);
      var effs := HandleSend(req, now, parse, formatLocal);
      && effs[0] == ArmTimer(b.delay, EnviarMensaje(Destinatario(req.number), req.message))
      && now + effs[0].delay == b.target
      && ImmediateSends(effs) == 0
  {
    var b := Decide(req.datetime, now, parse);
    var send := EnviarMensaje(Destinatario(req.number), req.message);
    var r := [Reply(ReplyText(b, formatLocal))];
    assert HandleSend(req, now, parse, formatLocal) == [ArmTimer(b.delay, send)] + r;
    CountsAppend([ArmTimer(b.delay, send)], r);
  }

  /** On the two "send now" branches (no time given; a past, equal or
      unparseable time) the route calls `enviarMensaje` right away, to the
      destination formed from the number and with the message, arms no
      timer, and then replies. */
  lemma ImmediateSendsNow(req: Request, now: int, parse: string -> Option<int>, formatLocal: int -> string)
    requires !Decide(req.datetime, now, parse).Scheduled?
    ensures var b := Decide(req.datetime, now, parse);
      var effs := HandleSend(req, now, parse, formatLocal);
      && effs == EnviarMensaje(Destinatario(req.number), req.message) + [Reply(ReplyText(b, formatLocal))]
      && (req.message != "" ==> effs[0] == SendMessage(Destinatario(req.number), req.message))
      && TimersArmed(effs) == 0
  {
    var b := Decide(req.datetime, now, parse);
    var send := EnviarMensaje(Destinatario(req.number), req.message);
    var r := [Reply(ReplyText(b, formatLocal))];
    GuardIsMessageTest(req.number, req.message);
    SendCounts(Destinatario(req.number), req.message);
    assert HandleSend(req, now, parse, formatLocal) == send + r;
    assert TimersArmed(r) == 0;
    CountsAppend(send, r);
  }
}
