# WhatsApp scheduler: number handling, send timing and contact extraction

This project models, in Dafny, the decision logic of a small WhatsApp
message scheduler. A browser form (`public/script.js`) posts a phone number,
a message and an optional date-time to an Express route (`index.js`). The
route forms a WhatsApp chat id from the number and sends the message through
the WhatsApp Web client, either at once or from a timer that fires at the
requested time. A helper script (`google-auth.js`) turns the Google People
API contact list into `{nombre, numero}` records for the form's contact
picker.

Modules:

- `JsText` covers the JavaScript string operations the code relies on:
  - `replace(/\D/g, '')` as `StripNonDigits`, shared by the route and the contact extraction;
  - `startsWith`;
  - `trim`, with the ECMAScript whitespace and line-terminator set.
- `SendHandler` models the `/send` route:
  - the chat id and destination;
  - the `enviarMensaje` guard;
  - the three-way branch on the requested time;
  - the reply texts.

  The route's effects are a sequence of `Effect` values: a `sendMessage` call, an armed timer carrying the effects it will have when it fires, and the reply. The clock (`now`), the date parser (`parse`, where `None` stands for `NaN`) and the locale formatter are parameters.
- `FormScript` models the form:
  - the contact-select handler, which strips a leading `549` or `54`;
  - the Argentine rewrite of `+54…` to `+549…`;
  - the submit handler's required-field check.
- `Contacts` models the `filter`/`map` over the People API connections. A person with an empty `names` or `phoneNumbers` array passes the filter, because an empty array is truthy in JavaScript. The map then reads a property of `undefined`; the resulting `TypeError` is the `Failure` case of the result.
- `Flow` connects the form to the route: what the server does with a form that passes the submit check.

Two observations follow from the model:

- The destination always ends in `"@c.us"`, so the `destinatario` half of the guard `mensaje && destinatario` never fails. A number with no digit at all is therefore sent to the chat id `"@c.us"` (`SendHandler.GuardIsMessageTest`).
- Each request calls `enviarMensaje` exactly once, with the destination formed from its number and with its message. The call happens at once on the two "send now" branches (`SendHandler.ImmediateSendsNow`) or from the single timer on the scheduled branch (`SendHandler.ScheduledSendsOnlyFromTimer`), never both (`SendHandler.ExactlyOneSendPerRequest`).

## Model

| member | source | states |
|---|---|---|
| JsText.StripNonDigits | index.js:45 | the chat id holds only the characters '0'..'9' and is no longer than the number |
| JsText.StripNonDigitsKeepsDigits | index.js:45 | every digit of the number occurs in the chat id exactly as often as in the number |
| JsText.StripNonDigitsAppend | index.js:45 | stripping distributes over concatenation, so the digits keep their relative order |
| JsText.StripNonDigitsOfDigits | google-auth.js:55 | a number that is already digits only is left unchanged |
| JsText.StripNonDigitsOfNonDigits | index.js:45 | a string without digits strips to the empty string |
| JsText.StripNonDigitPrefix | index.js:45 | non-digit characters in front of a run of digits vanish and the digits are kept as they are |
| JsText.StripNonDigitsIdempotent | google-auth.js:55 | stripping an already stripped number changes nothing |
| JsText.TrimStart | public/script.js:66 | the result is a suffix of the input, only whitespace was dropped, and it does not start with whitespace |
| JsText.TrimEnd | public/script.js:66 | the result is a prefix of the input, only whitespace was dropped, and it does not end with whitespace |
| JsText.Trim | public/script.js:66 | a trimmed message neither starts nor ends with whitespace |
| JsText.TrimIsSlice | public/script.js:66 | the trimmed message is a contiguous piece of the input with only whitespace on either side |
| JsText.TrimEmptyIff | public/script.js:66 | a message trims to the empty string exactly when it is all whitespace |
| JsText.TrimIdempotent | public/script.js:66 | trimming twice equals trimming once |
| SendHandler.Destinatario | index.js:45-46 | the destination is the digits of the number followed by "@c.us": never empty, ends in "@c.us", digits before it |
| SendHandler.DestinatarioChatId | index.js:45-46 | for any split of the number into two parts, the part before "@c.us" is the digits of the first part followed by the digits of the second |
| SendHandler.EnviarMensaje | index.js:49-55 | at most one send, made exactly when message and destination are both non-empty, always with that destination and message |
| SendHandler.GuardIsMessageTest | index.js:46-51 | a send happens exactly when the message is non-empty; a number with no digits sends to "@c.us" |
| SendHandler.Classify | index.js:61-62 | defer exactly when a parsed target exists and is strictly after now; an unparseable time sends now |
| SendHandler.DeferredDelayReachesTarget | index.js:61-62 | a deferred send waits a positive delay equal to target minus now |
| SendHandler.Decide | index.js:58-77 | no time given gives the no-time branch; the scheduled branch is taken exactly when the time parses to a target after now, with delay = target - now > 0 |
| SendHandler.DecideAgreesWithClassify | index.js:58-77 | an absent, past, equal or unparseable time means "now"; a given future time means "defer" with the same delay as the plain classification |
| SendHandler.ReplyText | index.js:66-76 | the no-time branch replies exactly "✅ Mensaje enviado inmediatamente." and the past-or-invalid branch exactly the "(hora programada pasada o no válida)" text, each text only on its branch; the scheduled reply is "✅ Mensaje programado para ", the target time as the locale formatter prints it, then '.' |
| SendHandler.ReplyIdentifiesBranch | index.js:66-76 | equal reply texts imply the same branch, whatever the locale formatter prints |
| SendHandler.HandleSend | index.js:38-77 | the route's last effect is its one reply, with the text of the branch taken |
| SendHandler.ExactlyOneSendPerRequest | index.js:57-77 | one send if the message is non-empty, otherwise none; it happens now or from the single timer, never both; a timer is armed exactly on the scheduled branch; exactly one reply |
| SendHandler.ScheduledSendsOnlyFromTimer | index.js:61-66 | on the scheduled branch nothing is sent before returning; the first effect is a timer for target - now whose callback performs the guarded send |
| SendHandler.ImmediateSendsNow | index.js:68-77 | with no time, or a past, equal or unparseable one, the route calls `enviarMensaje` right away with the number's destination and the message (so a non-empty message is sent first), arms no timer, then replies |
| FormScript.NormalizeArgentine | public/script.js:62-64 | "+54…" not already "+549…" becomes "+549" followed by the input after its third character, one character longer; any other number is unchanged |
| FormScript.NormalizeArgentineInsertsNine | public/script.js:62-63 | the rewrite only inserts a '9' at position 3: removing it gives the original number |
| FormScript.NormalizeArgentineResult | public/script.js:62-64 | the result starts with "+549" exactly when the input starts with "+54"; numbers not starting with "+54" are untouched |
| FormScript.NormalizeArgentineIdempotent | public/script.js:62-64 | applying the rewrite twice equals applying it once |
| FormScript.NormalizeArgentineEmpty | public/script.js:62-69 | the rewrite yields an empty number exactly when the widget's number is empty |
| FormScript.StripCountryPrefix | public/script.js:35-39 | putting back the removed prefix ("549", else "54", else nothing) restores the selected number |
| FormScript.StripCountryPrefixLengths | public/script.js:35-39 | a "549…" number loses exactly three characters (the "54" branch is not taken), another "54…" number exactly two, any other none |
| FormScript.OnContactSelected | public/script.js:30-42 | an empty selection leaves the number field untouched; otherwise the field becomes the selected number without its country prefix |
| FormScript.OnSubmit | public/script.js:59-72 | a warning, and no request body, exactly when the number is empty or the message is all whitespace; otherwise the body carries the rewritten number, the trimmed non-empty message and the date-time as typed |
| Contacts.KeepWithNamesAndPhones | google-auth.js:51-52 | every kept person has both names and phone numbers, and there are no more of them than connections |
| Contacts.KeepMembers | google-auth.js:51-52 | a person is kept exactly when it is a connection with both names and phone numbers |
| Contacts.ToContacto | google-auth.js:53-56 | succeeds exactly when the first name and first phone value exist; nombre is the first displayName and numero the digits of the first phone value |
| Contacts.MapToContactos | google-auth.js:53-56 | succeeds exactly when every kept person can be read, with one contact per kept person in order, each being that person's mapped record |
| Contacts.GetContactos | google-auth.js:49-56 | absent connections yield an empty list; on success there are no more contacts than connections and every numero is digits only; success exactly when no kept person makes the map throw |
| Contacts.KeptIndices | google-auth.js:51-52 | every kept position holds a connection with both names and phone numbers |
| Contacts.KeptIndicesIncreasing | google-auth.js:51-52 | the kept positions are strictly increasing |
| Contacts.KeptIndicesComplete | google-auth.js:51-52 | every position whose connection has both fields is a kept position |
| Contacts.KeepAtKeptIndices | google-auth.js:51-52 | the filter's output is the connections at the kept positions, in order |
| Contacts.ContactosFollowConnections | google-auth.js:49-56 | the k-th contact comes from the k-th kept connection, in the connections' order, with nombre its first displayName and numero the digits of its first phone value |
| Flow.PostedFormSendsOnce | public/script.js:69-83 | a form that passes the submit check leads the server to send exactly once, to the chat of the rewritten number and with the trimmed message, and to reply once; the send comes first when the typed time is absent, past or unparseable, otherwise the first effect is the one timer for the delay to that time that makes this send |
| Flow.ArgentineChatIdHasMobileNine | public/script.js:62-64 | a "+54…" number from the phone widget reaches WhatsApp as a chat id starting "549" |

## Left out

- The WhatsApp Web client is not modelled: its lifecycle, QR code, `initialize`, and the promise returned by `sendMessage` (index.js:3-26, 51-53). A send is the effect `SendMessage(to, body)`.
- Timer firing is not modelled. The model arms a timer with the route's delay and records what its callback will do. Node's clamping of delays above 2^31-1 ms to 1 ms is not modelled.
- The clock, ISO date-time parsing and `toLocaleString` are parameters: `now`, `parse` and `formatLocal`. Their locale and time-zone behaviour is library-defined.
- Express, body parsing and the `res.send` transport are not modelled. Request fields are strings, so an absent `number` (which would make `numero.replace` throw) is not modelled.
- The DOM, `intlTelInput`, `fetch`, URL encoding of the posted body and the alert rendering are not modelled. The number the widget reports is an input to `OnSubmit`.
- The Spanish `localeCompare` sort of the contact list is not modelled, because locale collation cannot be stated faithfully.
- OAuth authorisation, the readline prompt and all file reads and writes are not modelled. That includes `JSON.stringify` dropping a `nombre` that is `undefined`.
- JavaScript strings are sequences of UTF-16 code units and may hold lone surrogates. The model's strings are sequences of Unicode scalar values, so strings with lone surrogates are not modelled. On strings that can be represented, `replace(/\D/g, '')`, `startsWith` and `trim` give the same results as in JavaScript.
- Only the fields the code reads are modelled. Values of other JSON types (a non-array `names`, a non-string `value`) are not modelled.
