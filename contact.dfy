/**
 * The contact form handler of chat.js (initContactForm): the payload read
 * from the form with its defaults, the mail subject and the mail body. The
 * mailto navigation, encodeURIComponent, the status text and form.reset()
 * are outside the model.
 */
module Contact {
  import opened Wrappers
  import opened Text

  const Recipient: string := "ryankbrown@gmail.com"
  const SubjectPrefix: string := "4everinbeta contact ("
  const NoCompany: string := "N/A"
  const DefaultIntent: string := "Other inquiries"
  const NoResume: string := "No"
  const NoMessage: string := "Message: (not provided)"

  /** FormData.get for each field: None is null (no such field). */
  datatype FormData = FormData(
    name: Option<string>, email: Option<string>, company: Option<string>,
    intent: Option<string>, resumeRequest: Option<string>, message: Option<string>)

  datatype Payload = Payload(name: string, email: string, company: string, intent: string, resume: string, message: string)

  datatype Mail = Mail(to: string, subject: string, body: string)

  /** No leading or trailing ECMAScript whitespace. */
  predicate Trimmed(s: string) {
    s == [] || (!IsJsSpace(s[0]) && !IsJsSpace(s[|s| - 1]))
  }

  /** A field that is missing or blank after trimming. */
  predicate Blank(v: Option<string>) {
    v.None? || forall k :: 0 <= k < |v.value| ==> IsJsSpace(v.value[k])
  }

  /** data.get(field)?.trim() || fallback */
  function TrimmedOr(v: Option<string>, fallback: string): (r: string)
    ensures Blank(v) ==> r == fallback
    ensures !Blank(v) ==> r == Trim(v.value, IsJsSpace) && r != "" && Trimmed(r)
  {
    if v.Some? && Trim(v.value, IsJsSpace) != "" then Trim(v.value, IsJsSpace) else fallback
  }

  /** data.get(field) || fallback: no trimming, only null and "" fall back. */
  function ValueOr(v: Option<string>, fallback: string): (r: string)
    ensures (v.None? || v == Some("")) ==> r == fallback
    ensures v.Some? && v.value != "" ==> r == v.value
  {
    if v.Some? && v.value != "" then v.value else fallback
  }

  /**
   * The payload object literal. intent and resume are taken as given,
   * untrimmed; only a missing or "" value falls back. Company, intent and
   * resume are never "".
   */
  function MakePayload(data: FormData): (p: Payload)
    ensures p.company != "" && p.intent != "" && p.resume != ""
    ensures data.intent.None? || data.intent == Some("") ==> p.intent == DefaultIntent
    ensures data.intent.Some? && data.intent.value != "" ==> p.intent == data.intent.value
    ensures data.resumeRequest.None? || data.resumeRequest == Some("") ==> p.resume == NoResume
    ensures data.resumeRequest.Some? && data.resumeRequest.value != "" ==> p.resume == data.resumeRequest.value
  {
    Payload(
      TrimmedOr(data.name, ""),
      TrimmedOr(data.email, ""),
      TrimmedOr(data.company, NoCompany),
      ValueOr(data.intent, DefaultIntent),
      ValueOr(data.resumeRequest, NoResume),
      TrimmedOr(data.message, ""))
  }

  /**
   * The trimmed fields lose their surrounding whitespace; name, email and
   * message are "" exactly when missing or blank, company is then "N/A".
   */
  lemma {:induction false} PayloadTrimmedFields(data: FormData)
    ensures var p := MakePayload(data);
      Trimmed(p.name) && Trimmed(p.email) && Trimmed(p.company) && Trimmed(p.message)
      && (Blank(data.name) <==> p.name == "")
      && (Blank(data.email) <==> p.email == "")
      && (Blank(data.message) <==> p.message == "")
      && (Blank(data.company) ==> p.company == NoCompany)
      && (!Blank(data.company) ==> p.company == Trim(data.company.value, IsJsSpace))
  {
    assert Trimmed(NoCompany);
  }

  /**
   * 4everinbeta contact (intent): the intent can be read back from the
   * subject, between the prefix and the closing parenthesis.
   */
  function Subject(p: Payload): (s: string)
    ensures StartsWith(s, SubjectPrefix) && s[|s| - 1] == ')' && s[|SubjectPrefix|..|s| - 1] == p.intent
  {
    SubjectPrefix + p.intent + ")"
  }

  /** bodyLines */
  function BodyLines(p: Payload): (lines: seq<string>)
    ensures |lines| == 7 && lines[5] == ""
    ensures lines[6] == (if p.message != "" then p.message else NoMessage)
  {
    [ "Name: " + p.name,
      "Email: " + p.email,
      "Company: " + p.company,
      "Intent: " + p.intent,
      "Resume/CV request: " + p.resume,
      "",
      if p.message != "" then p.message else NoMessage ]
  }

  /** bodyLines.join("\n") */
  function Body(p: Payload): (b: string)
    ensures StartsWith(b, "Name: " + p.name + "\n")
    ensures var last := BodyLines(p)[6];
      |b| > |last| && b[|b| - |last|..] == last && b[|b| - |last| - 1] == '\n'
  {
    var lines := BodyLines(p);
    assert lines == lines[..6] + [lines[6]];
    JoinSnoc(lines[..6], lines[6], "\n");
    Join(lines, "\n")
  }

  /** The mail the handler opens. */
  function ComposeMail(data: FormData): Mail {
    var p := MakePayload(data);
    Mail(Recipient, Subject(p), Body(p))
  }

  /** A field without line breaks keeps its line of the body to itself. */
  lemma {:induction false} NoBreakInLabelled(tag: string, v: string)
    requires '\n' !in tag && '\n' !in v
    ensures '\n' !in tag + v
  {
  }

  /** No field of the payload holds a line break. */
  predicate SingleLine(p: Payload) {
    '\n' !in p.name && '\n' !in p.email && '\n' !in p.company && '\n' !in p.intent
    && '\n' !in p.resume && '\n' !in p.message
  }

  /**
   * When no field holds a line break, splitting the body at line breaks
   * gives back the seven lines.
   */
  lemma {:induction false} BodyLinesRecoverable(p: Payload)
    requires SingleLine(p)
    ensures Split(Body(p), '\n') == BodyLines(p)
  {
    var lines := BodyLines(p);
    NoBreakInLabelled("Name: ", p.name);
    NoBreakInLabelled("Email: ", p.email);
    NoBreakInLabelled("Company: ", p.company);
    NoBreakInLabelled("Intent: ", p.intent);
    NoBreakInLabelled("Resume/CV request: ", p.resume);
    assert '\n' !in NoMessage;
    assert forall k :: 0 <= k < |lines| ==> '\n' !in lines[k];
    SplitJoin(lines, '\n');
  }

  /** The last body line is the trimmed message, or the placeholder when it is missing or blank. */
  lemma {:induction false} LastLineIsMessage(data: FormData)
    ensures BodyLines(MakePayload(data))[6] ==
      (if Blank(data.message) then NoMessage else Trim(data.message.value, IsJsSpace))
  {
  }

  /** The subject names the payload's intent, which defaults to "Other inquiries". */
  lemma {:induction false} MailDefaults(data: FormData)
    requires Blank(data.company) && data.intent.None? && data.resumeRequest.None? && Blank(data.message)
    ensures ComposeMail(data).subject == SubjectPrefix + DefaultIntent + ")"
    ensures BodyLines(MakePayload(data))[2] == "Company: N/A"
    ensures BodyLines(MakePayload(data))[4] == "Resume/CV request: No"
    ensures BodyLines(MakePayload(data))[6] == NoMessage
  {
    var p := MakePayload(data);
    assert p.intent == DefaultIntent && p.resume == NoResume && p.company == NoCompany && p.message == "";
    assert ComposeMail(data).subject == Subject(p);
  }
}
