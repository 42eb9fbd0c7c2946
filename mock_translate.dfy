/** The mock translation endpoint of frontend/pages/api/translate.js: a
    POST with `text`, `sourceLanguage` and `targetLanguage` is answered with
    the text prefixed by the bracketed, upper-cased target language. */
module MockTranslate {
  import opened Basics

  /** The JSON body's three fields; None is a field that is absent. */
  datatype Body = Body(text: Option<string>, sourceLanguage: Option<string>, targetLanguage: Option<string>)

  /** `req.body` is None when the request carries no body at all. */
  datatype Request = Request(httpMethod: string, body: Option<Body>)

  datatype Payload = ErrorMessage(error: string) | Translated(translatedText: string)

  datatype Response = Response(status: int, payload: Payload)

  /** A field is usable when present and truthy (a non-empty string). */
  predicate Given(field: Option<string>) {
    field.Some? && Truthy(field.value)
  }

  function UpperChar(c: char): (u: char)
    ensures 'a' <= c <= 'z' ==> u as int == c as int - 32
    ensures !('a' <= c <= 'z') ==> u == c
  {
    if 'a' <= c <= 'z' then (c as int - 32) as char else c
  }

  /** `toUpperCase` on the ASCII letters. */
  function Upper(s: string): (r: string)
    ensures |r| == |s|
    ensures forall i :: 0 <= i < |s| ==> r[i] == UpperChar(s[i])
  {
    if s == [] then [] else [UpperChar(s[0])] + Upper(s[1..])
  }

  /** The `switch (targetLanguage)`: eight listed codes with their own
      prefixes, the default case for all others. Every case is the
      default's formula. */
  function Translate(targetLanguage: string, text: string): (r: string)
    ensures r == "[" + Upper(targetLanguage) + "] " + text
  {
    if targetLanguage == "es" then "[ES] " + text
    else if targetLanguage == "fr" then "[FR] " + text
    else if targetLanguage == "de" then "[DE] " + text
    else if targetLanguage == "ja" then "[JA] " + text
    else if targetLanguage == "zh" then "[ZH] " + text
    else if targetLanguage == "ko" then "[KO] " + text
    else if targetLanguage == "ru" then "[RU] " + text
    else if targetLanguage == "ar" then "[AR] " + text
    else "[" + Upper(targetLanguage) + "] " + text
  }

  /** The text is kept whole at the end, behind a prefix three characters
      longer than the language code. */
  lemma TranslateKeepsText(targetLanguage: string, text: string)
    ensures var r := Translate(targetLanguage, text);
      && |r| == |targetLanguage| + 3 + |text|
      && r[|r| - |text|..] == text
      && r[1..|targetLanguage| + 1] == Upper(targetLanguage)
  {
    var r := Translate(targetLanguage, text);
    assert r == ("[" + Upper(targetLanguage) + "] ") + text;
  }

  /** `handler(req, res)`: the status and JSON body sent. A missing body
      makes the destructuring throw, which the catch turns into 500. */
  function Handle(req: Request): (r: Response)
    ensures req.httpMethod != "POST" ==> r == Response(405, ErrorMessage("Method not allowed"))
    ensures req.httpMethod == "POST" && req.body.None? ==> r == Response(500, ErrorMessage("Translation failed"))
    ensures req.httpMethod == "POST" && req.body.Some? ==>
      var b := req.body.value;
      if Given(b.text) && Given(b.sourceLanguage) && Given(b.targetLanguage) then
        r == Response(200, Translated("[" + Upper(b.targetLanguage.value) + "] " + b.text.value))
      else r == Response(400, ErrorMessage("Missing required parameters"))
    ensures r.status == 200 <==> r.payload.Translated?
  {
    if req.httpMethod != "POST" then Response(405, ErrorMessage("Method not allowed"))
    else if req.body.None? then Response(500, ErrorMessage("Translation failed"))
    else
      var b := req.body.value;
      if !Given(b.text) || !Given(b.sourceLanguage) || !Given(b.targetLanguage) then
        Response(400, ErrorMessage("Missing required parameters"))
      else Response(200, Translated(Translate(b.targetLanguage.value, b.text.value)))
  }

  /** The answer never depends on the source language, as long as one is
      given. */
  lemma SourceLanguageIgnored(verb: string, text: Option<string>, s1: string, s2: string, target: Option<string>)
    requires Truthy(s1) && Truthy(s2)
    ensures Handle(Request(verb, Some(Body(text, Some(s1), target))))
         == Handle(Request(verb, Some(Body(text, Some(s2), target))))
  {
  }
}
