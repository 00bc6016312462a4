/** The number handling and submit guard of public/script.js: stripping the
    Argentine country prefix from a selected contact, inserting the mobile
    `9` after the country code 54 of an outgoing number, and refusing a
    submission without number or message. */
module FormScript {
  import opened JsText

  /** Outgoing numbers: "+54..." that is not already "+549..." becomes
      "+549" followed by everything after the first three characters. */
  function NormalizeArgentine(full: string): (r: string)
    ensures StartsWith(full, "+54") && !StartsWith(full, "+549") ==>
      StartsWith(r, "+549") && |r| == |full| + 1 && r[4..] == full[3..]
    ensures !StartsWith(full, "+54") || StartsWith(full, "+549") ==> r == full
  {
    if StartsWith(full, "+54") && !StartsWith(full, "+549") then "+549" + full[3..] else full
  }

  /** The rewrite only inserts a '9' right after "+54": removing that
      character gives the original number back. */
  lemma NormalizeArgentineInsertsNine(full: string)
    requires StartsWith(full, "+54") && !StartsWith(full, "+549")
    ensures var r := NormalizeArgentine(full);
      r[..3] + r[4..] == full && r[3] == '9'
  {
    var r := NormalizeArgentine(full);
    assert r[..3] == "+54" == full[..3];
    assert full == full[..3] + full[3..];
  }

  /** Every number starting "+54" comes out starting "+549", and no other
      number is touched. */
  lemma NormalizeArgentineResult(full: string)
    ensures StartsWith(full, "+54") <==> StartsWith(NormalizeArgentine(full), "+549")
    ensures !StartsWith(full, "+54") ==> NormalizeArgentine(full) == full
  {
  }

  /** Applying the rewrite twice is applying it once. */
  lemma NormalizeArgentineIdempotent(full: string)
    ensures NormalizeArgentine(NormalizeArgentine(full)) == NormalizeArgentine(full)
  {
    NormalizeArgentineResult(full);
  }

  /** The rewrite never turns an empty number into a non-empty one, nor the
      reverse. */
  lemma NormalizeArgentineEmpty(full: string)
    ensures NormalizeArgentine(full) == "" <==> full == ""
  {
  }

  /** A selected contact's number loses "549" if it starts so, otherwise
      "54" if it starts so; the prefix that was removed, put back in front,
      restores the number. */
  function StripCountryPrefix(numero: string): (r: string)
    ensures StartsWith(numero, "549") ==> "549" + r == numero
    ensures !StartsWith(numero, "549") && StartsWith(numero, "54") ==> "54" + r == numero
    ensures !StartsWith(numero, "54") ==> r == numero
  {
    if StartsWith(numero, "549") then numero[3..]
    else if StartsWith(numero, "54") then numero[2..]
    else numero
  }

  /** The two-character branch is never taken for a number starting "549":
      such a number loses exactly three characters. */
  lemma StripCountryPrefixLengths(numero: string)
    ensures StartsWith(numero, "549") ==> |StripCountryPrefix(numero)| == |numero| - 3
    ensures !StartsWith(numero, "549") && StartsWith(numero, "54") ==>
      |StripCountryPrefix(numero)| == |numero| - 2
    ensures !StartsWith(numero, "54") ==> |StripCountryPrefix(numero)| == |numero|
  {
    var r := StripCountryPrefix(numero);
    if StartsWith(numero, "549") {
      assert |"549" + r| == |numero|;
    } else if StartsWith(numero, "54") {
      assert |"54" + r| == |numero|;
    }
  }

  /** The contact `change` handler: the new value of the number field. An
      empty selection returns early and leaves the field as it was. */
  function OnContactSelected(selected: string, numberField: string): (newField: string)
    ensures selected == "" ==> newField == numberField
    ensures selected != "" ==> newField == StripCountryPrefix(selected)
  {
    if selected == "" then numberField else StripCountryPrefix(selected)
  }

  const RequiredWarning: string := "\U{26A0}\U{FE0F} N\U{FA}mero y mensaje son obligatorios."

  /** What the submit handler does: show the warning, or post the form
      with these three fields. */
  datatype Submission = Warning(text: string) | Post(number: string, message: string, datetime: string)

  /** The submit handler up to building the request body: the number the
      phone widget reports is rewritten, the message is trimmed, and an
      empty number or message stops with a warning. */
  function OnSubmit(widgetNumber: string, messageValue: string, datetimeValue: string): (s: Submission)
    ensures s.Warning? <==> widgetNumber == "" || AllWhitespace(messageValue)
    ensures s.Warning? ==> s.text == RequiredWarning
    ensures s.Post? ==> s.number == NormalizeArgentine(widgetNumber) && s.number != ""
    ensures s.Post? ==> s.message == Trim(messageValue) && s.message != ""
    ensures s.Post? ==> !IsJsWhitespace(s.message[0]) && !IsJsWhitespace(s.message[|s.message| - 1])
    ensures s.Post? ==> s.datetime == datetimeValue
  {
    NormalizeArgentineEmpty(widgetNumber);
    TrimEmptyIff(messageValue);
    var fullNumber := NormalizeArgentine(widgetNumber);
    var message := Trim(messageValue);
    if fullNumber == "" || message == "" then Warning(RequiredWarning)
    else Post(fullNumber, message, datetimeValue)
  }
}
