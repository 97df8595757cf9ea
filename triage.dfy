/** The triage endpoint (`POST /api/triage`): classify the report text with a
    text-generation backend, create a Trello card from the classification, then
    attach an uploaded photo. Every network call is an abstract outcome given as input. */
module Triage {
  import opened Wrappers
  import opened Text
  import opened Json

  // ---------------------------------------------------------------------------
  // Classification (`classifyWithGemini`)
  // ---------------------------------------------------------------------------

  /** The classifier's record (`LLMResult`). A field holds whatever non-null JSON
      value the reply supplied, so it is a JSON value and not only a string. */
  datatype LlmResult = LlmResult(severity: JsonValue, category: JsonValue, title: JsonValue)

  const DefaultSeverity: string := "Minor"
  const DefaultCategory: string := "General"
  const DefaultTitleLength: nat := 40

  /** `s.slice(0, n)`. */
  function Slice(s: string, n: nat): (r: string)
    ensures |r| == if |s| < n then |s| else n
    ensures r == s[..|r|]
  {
    if |s| <= n then s else s[..n]
  }

  /** The record the classifier starts from and falls back to. */
  function DefaultResult(report: string): (r: LlmResult)
    ensures r.severity == JString(DefaultSeverity) && r.category == JString(DefaultCategory)
    ensures r.title.JString? && |r.title.s| <= DefaultTitleLength && |r.title.s| <= |report|
    ensures r.title.s == report[..|r.title.s|]
    ensures |r.title.s| == DefaultTitleLength || r.title.s == report
  {
    LlmResult(JString(DefaultSeverity), JString(DefaultCategory), JString(Slice(report, DefaultTitleLength)))
  }

  /** The first position of `c` in `s`, if any. */
  function FirstIndexOf(s: string, c: char): (r: Option<nat>)
    ensures r.Some? ==> r.value < |s| && s[r.value] == c
    ensures r.Some? ==> forall k :: 0 <= k < r.value ==> s[k] != c
    ensures r.None? ==> forall k :: 0 <= k < |s| ==> s[k] != c
  {
    if |s| == 0 then None
    else if s[0] == c then Some(0)
    else match FirstIndexOf(s[1..], c)
      case None => None
      case Some(i) => Some(i + 1)
  }

  /** The last position of `c` in `s`, if any. */
  function LastIndexOf(s: string, c: char): (r: Option<nat>)
    ensures r.Some? ==> r.value < |s| && s[r.value] == c
    ensures r.Some? ==> forall k :: r.value < k < |s| ==> s[k] != c
    ensures r.None? ==> forall k :: 0 <= k < |s| ==> s[k] != c
  {
    if |s| == 0 then None
    else if s[|s| - 1] == c then Some(|s| - 1)
    else LastIndexOf(s[..|s| - 1], c)
  }

  /** The regular expression `/\{[\s\S]*\}/` matches the slice `s[i..j]`:
      an opening brace, any characters at all, a closing brace. */
  ghost predicate RegexMatch(s: string, i: int, j: int) {
    0 <= i && i + 2 <= j <= |s| && s[i] == '{' && s[j - 1] == '}'
  }

  /** The match `String.prototype.match` reports for a greedy pattern: the leftmost
      start, and at that start the longest slice. */
  ghost predicate IsLeftmostLongest(s: string, i: int, j: int) {
    && RegexMatch(s, i, j)
    && (forall i', j' :: RegexMatch(s, i', j') ==> i <= i')
    && (forall j' :: RegexMatch(s, i, j') ==> j' <= j)
  }

  /** `rawText.match(/\{[\s\S]*\}/)?.[0]`: from the first `{` to the last `}`,
      when that `}` comes after that `{`. */
  function BraceSpan(s: string): (r: Option<string>)
    ensures r.Some? ==> |r.value| >= 2 && r.value[0] == '{' && r.value[|r.value| - 1] == '}'
  {
    SpanBetween(s, FirstIndexOf(s, '{'), LastIndexOf(s, '}'))
  }

  /** The slice from position `first` to position `last`, both included, when both
      exist and `first` comes before `last`. */
  function SpanBetween(s: string, first: Option<nat>, last: Option<nat>): (r: Option<string>) {
    if first.Some? && last.Some? && first.value < last.value < |s| then Some(s[first.value..last.value + 1])
    else None
  }

  /** `BraceSpan` is exactly what the regular expression yields: no span when nothing
      matches, and otherwise the leftmost-longest match, which is unique. */
  lemma BraceSpanMatchesRegex(s: string)
    ensures BraceSpan(s).None? <==> (forall i, j :: !RegexMatch(s, i, j))
    ensures BraceSpan(s).Some? ==>
      exists i, j :: IsLeftmostLongest(s, i, j) && BraceSpan(s).value == s[i..j]
    ensures forall i, j :: IsLeftmostLongest(s, i, j) ==> BraceSpan(s) == Some(s[i..j])
  {
    var first, last := FirstIndexOf(s, '{'), LastIndexOf(s, '}');
    forall i, j | RegexMatch(s, i, j)
      ensures first.Some? && last.Some? && first.value <= i && j - 1 <= last.value
    {
    }
    if first.Some? && last.Some? && first.value < last.value {
      var i, j := first.value, last.value + 1;
      assert RegexMatch(s, i, j);
      assert IsLeftmostLongest(s, i, j);
      forall i', j' | IsLeftmostLongest(s, i', j') ensures i' == i && j' == j {
        assert RegexMatch(s, i, j);
      }
    } else {
    }
  }

  /** Text around the object that adds no `{` before it and no `}` after it is
      ignored; text that does (a second object, say) is kept inside the span. */
  lemma BraceSpanSkipsCommentary(before: string, obj: string, after: string)
    requires |obj| >= 2 && obj[0] == '{' && obj[|obj| - 1] == '}'
    requires forall k :: 0 <= k < |before| ==> before[k] != '{'
    requires forall k :: 0 <= k < |after| ==> after[k] != '}'
    ensures BraceSpan(before + obj + after) == Some(obj)
  {
    var s := before + obj + after;
    var i, j := |before|, |before| + |obj|;
    assert s[i..j] == obj;
    assert RegexMatch(s, i, j);
    forall i', j' | RegexMatch(s, i', j') ensures i <= i' && j' <= j {
    }
    assert IsLeftmostLongest(s, i, j);
    BraceSpanMatchesRegex(s);
  }

  /** Cutting away characters other than `c` from both ends shifts the first `c`. */
  lemma FirstIndexOfInner(s: string, c: char, a: nat, b: nat)
    requires a <= b <= |s|
    requires forall i :: 0 <= i < a ==> s[i] != c
    requires forall i :: b <= i < |s| ==> s[i] != c
    ensures FirstIndexOf(s, c).Some? ==>
      a <= FirstIndexOf(s, c).value < b && FirstIndexOf(s[a..b], c) == Some(FirstIndexOf(s, c).value - a)
    ensures FirstIndexOf(s, c).None? ==> FirstIndexOf(s[a..b], c).None?
  {
    var t := s[a..b];
    if FirstIndexOf(s, c).Some? {
      var k := FirstIndexOf(s, c).value;
      assert t[k - a] == c;
      var r := FirstIndexOf(t, c).value;
      assert s[r + a] == c;
    }
  }

  /** Cutting away characters other than `c` from both ends shifts the last `c`. */
  lemma LastIndexOfInner(s: string, c: char, a: nat, b: nat)
    requires a <= b <= |s|
    requires forall i :: 0 <= i < a ==> s[i] != c
    requires forall i :: b <= i < |s| ==> s[i] != c
    ensures LastIndexOf(s, c).Some? ==>
      a <= LastIndexOf(s, c).value < b && LastIndexOf(s[a..b], c) == Some(LastIndexOf(s, c).value - a)
    ensures LastIndexOf(s, c).None? ==> LastIndexOf(s[a..b], c).None?
  {
    var t := s[a..b];
    if LastIndexOf(s, c).Some? {
      var k := LastIndexOf(s, c).value;
      assert t[k - a] == c;
      var r := LastIndexOf(t, c).value;
      assert s[r + a] == c;
    }
  }

  lemma SliceOfSlice(s: string, a: nat, b: nat, i: nat, j: nat)
    requires a <= b <= |s| && i <= j <= b - a
    ensures s[a..b][i..j] == s[a + i..a + j]
  {
    var u, v := s[a..b][i..j], s[a + i..a + j];
    assert |u| == |v|;
    forall k | 0 <= k < |u| ensures u[k] == v[k] {
      assert u[k] == s[a..b][i + k];
    }
  }

  /** Positions shifted by `a` pick out the same span of the slice `s[a..b]`. */
  lemma SpanBetweenShifted(s: string, a: nat, b: nat, first: Option<nat>, last: Option<nat>,
                           first': Option<nat>, last': Option<nat>)
    requires a <= b <= |s|
    requires first.Some? ==> a <= first.value && first' == Some(first.value - a)
    requires first.None? ==> first'.None?
    requires last.Some? ==> a <= last.value < b && last' == Some(last.value - a)
    requires last.None? ==> last'.None?
    ensures SpanBetween(s[a..b], first', last') == SpanBetween(s, first, last)
  {
    if first.Some? && last.Some? && first.value < last.value {
      SliceOfSlice(s, a, b, first.value - a, last.value - a + 1);
    }
  }

  /** Cutting away brace-free ends does not change the span. */
  lemma BraceSpanOfInner(s: string, a: nat, b: nat)
    requires a <= b <= |s|
    requires forall i :: 0 <= i < a ==> s[i] != '{' && s[i] != '}'
    requires forall i :: b <= i < |s| ==> s[i] != '{' && s[i] != '}'
    ensures BraceSpan(s[a..b]) == BraceSpan(s)
  {
    FirstIndexOfInner(s, '{', a, b);
    LastIndexOfInner(s, '}', a, b);
    SpanBetweenShifted(s, a, b, FirstIndexOf(s, '{'), LastIndexOf(s, '}'),
                       FirstIndexOf(s[a..b], '{'), LastIndexOf(s[a..b], '}'));
  }

  /** Trimming the reply first does not change the span: whitespace holds no brace. */
  lemma BraceSpanOfTrim(s: string)
    ensures BraceSpan(Trim(s)) == BraceSpan(s)
  {
    var a, b := TrimIsInnerSlice(s);
    BraceSpanOfInner(s, a, b);
  }

  /** The reply's text field after `?.trim() ?? ""`. `None` stands for the TypeError
      raised when the field is present but not a string (it has no `trim`), which the
      classifier catches like a parse failure. */
  function RawText(text: Option<JsonValue>): (r: Option<string>)
    ensures text.None? || text == Some(JNull) ==> r == Some("")
    ensures text.Some? && text.value.JString? ==> r == Some(Trim(text.value.s))
    ensures r.None? <==> text.Some? && text.value != JNull && !text.value.JString?
  {
    match text
    case None => Some("")
    case Some(JNull) => Some("")
    case Some(JString(s)) => Some(Trim(s))
    case Some(_) => None
  }

  /** The brace span of the reply's text, if the text can be read and has one. */
  function CandidateSpan(text: Option<JsonValue>): (r: Option<string>) {
    match RawText(text)
    case None => None
    case Some(raw) => BraceSpan(raw)
  }

  /** The reply supplies a usable value for `key`: present and not null. */
  predicate Supplied(obj: map<string, JsonValue>, key: string) {
    key in obj && obj[key] != JNull
  }

  /** `{ severity: obj.severity ?? d.severity, ... }`: each field takes the reply's
      value whenever it is present and non-null, whatever it is (an empty string,
      a word outside the expected set, a number), and keeps the fallback otherwise. */
  function Merge(obj: map<string, JsonValue>, d: LlmResult): (r: LlmResult)
    ensures Supplied(obj, "severity") ==> r.severity == obj["severity"]
    ensures !Supplied(obj, "severity") ==> r.severity == d.severity
    ensures Supplied(obj, "category") ==> r.category == obj["category"]
    ensures !Supplied(obj, "category") ==> r.category == d.category
    ensures Supplied(obj, "title") ==> r.title == obj["title"]
    ensures !Supplied(obj, "title") ==> r.title == d.title
  {
    LlmResult(
      if Supplied(obj, "severity") then obj["severity"] else d.severity,
      if Supplied(obj, "category") then obj["category"] else d.category,
      if Supplied(obj, "title") then obj["title"] else d.title)
  }

  /** The classification of `report` once the backend's reply was read: the default,
      overwritten by the merge when a span was found and parsed. Never a null field. */
  function ClassifyText(report: string, text: Option<JsonValue>,
                        parse: string -> Option<map<string, JsonValue>>): (r: LlmResult)
    ensures r.severity != JNull && r.category != JNull && r.title != JNull
    ensures CandidateSpan(text).None? ==> r == DefaultResult(report)
    ensures CandidateSpan(text).Some? && parse(CandidateSpan(text).value).None? ==>
      r == DefaultResult(report)
    ensures CandidateSpan(text).Some? && parse(CandidateSpan(text).value).Some? ==>
      r == Merge(parse(CandidateSpan(text).value).value, DefaultResult(report))
  {
    var d := DefaultResult(report);
    match CandidateSpan(text)
    case None => d
    case Some(span) =>
      match parse(span)
      case None => d
      case Some(obj) => Merge(obj, d)
  }

  /** The outcome of the call to the text-generation backend: the call or reading
      its body as JSON threw, or a body was read whose candidate text is `text`
      (`None` when some link of `data?.candidates?.[0]?.content?.parts?.[0]?.text`
      is missing). */
  datatype GeminiReply = GeminiFailed(message: string) | GeminiBody(text: Option<JsonValue>)

  /** `classifyWithGemini`: fails only when the backend call itself throws. */
  function ClassifyWithGemini(report: string, reply: GeminiReply,
                              parse: string -> Option<map<string, JsonValue>>): (r: Result<LlmResult>)
    ensures reply.GeminiFailed? ==> r == Err(reply.message)
    ensures reply.GeminiBody? ==> r.Ok? && r.value == ClassifyText(report, reply.text, parse)
  {
    match reply
    case GeminiFailed(m) => Err(m)
    case GeminiBody(text) => Ok(ClassifyText(report, text, parse))
  }

  /** A reply without `{ ... }` anywhere in its text gives exactly the default. */
  lemma FallbackWithoutBraces(report: string, s: string,
                              parse: string -> Option<map<string, JsonValue>>)
    requires forall i, j :: 0 <= i < j < |s| ==> !(s[i] == '{' && s[j] == '}')
    ensures ClassifyText(report, Some(JString(s)), parse) == DefaultResult(report)
  {
    BraceSpanOfTrim(s);
    BraceSpanMatchesRegex(s);
  }

  /** The candidate span of a text reply with commentary around the object is the
      object alone. */
  lemma CandidateSpanOfCommentary(before: string, obj: string, after: string)
    requires |obj| >= 2 && obj[0] == '{' && obj[|obj| - 1] == '}'
    requires forall k :: 0 <= k < |before| ==> before[k] != '{'
    requires forall k :: 0 <= k < |after| ==> after[k] != '}'
    ensures CandidateSpan(Some(JString(before + obj + after))) == Some(obj)
  {
    var s := before + obj + after;
    var raw := Trim(s);
    assert RawText(Some(JString(s))) == Some(raw);
    BraceSpanOfTrim(s);
    BraceSpanSkipsCommentary(before, obj, after);
    assert BraceSpan(raw) == Some(obj);
  }

  /** Commentary the backend puts around the object is ignored: the classification
      is what parsing the object alone gives. */
  lemma ClassifyIgnoresCommentary(report: string, before: string, obj: string, after: string,
                                  parse: string -> Option<map<string, JsonValue>>)
    requires |obj| >= 2 && obj[0] == '{' && obj[|obj| - 1] == '}'
    requires forall k :: 0 <= k < |before| ==> before[k] != '{'
    requires forall k :: 0 <= k < |after| ==> after[k] != '}'
    ensures ClassifyText(report, Some(JString(before + obj + after)), parse) ==
      match parse(obj)
      case None => DefaultResult(report)
      case Some(fields) => Merge(fields, DefaultResult(report))
  {
    CandidateSpanOfCommentary(before, obj, after);
  }

  // ---------------------------------------------------------------------------
  // Card text
  // ---------------------------------------------------------------------------

  /** Where each part sits in `[${sev} - ${cat}] ${title}`. */
  lemma NameLayout(sev: string, cat: string, title: string)
    ensures var r := "[" + sev + " - " + cat + "] " + title;
      && |r| == |sev| + |cat| + |title| + 6
      && r[..1] == "["
      && r[1..1 + |sev|] == sev
      && r[1 + |sev|..4 + |sev|] == " - "
      && r[4 + |sev|..4 + |sev| + |cat|] == cat
      && r[4 + |sev| + |cat|..6 + |sev| + |cat|] == "] "
      && r[6 + |sev| + |cat|..] == title
  {
  }

  /** The card name `[${severity} - ${category}] ${title}`. */
  function CardName(c: LlmResult): (r: string)
    ensures var sev, cat, title := Render(c.severity), Render(c.category), Render(c.title);
      && |r| == |sev| + |cat| + |title| + 6
      && r[..1] == "["
      && r[1..1 + |sev|] == sev
      && r[1 + |sev|..4 + |sev|] == " - "
      && r[4 + |sev|..4 + |sev| + |cat|] == cat
      && r[4 + |sev| + |cat|..6 + |sev| + |cat|] == "] "
      && r[6 + |sev| + |cat|..] == title
  {
    NameLayout(Render(c.severity), Render(c.category), Render(c.title));
    "[" + Render(c.severity) + " - " + Render(c.category) + "] " + Render(c.title)
  }

  /** When the classifier fell back, the card is named `[Minor - General] ` followed
      by the first `DefaultTitleLength` (40) characters of the report. */
  lemma FallbackCardName(report: string)
    ensures CardName(DefaultResult(report)) == "[Minor - General] " + Slice(report, DefaultTitleLength)
  {
  }

  /** The card description: the report, followed by the machine when one was given. */
  function CardDescription(report: string, machineId: Option<string>): (r: string)
    ensures |r| >= |report| && r[..|report|] == report
    ensures r == report <==> !Present(machineId)
    ensures Present(machineId) ==> r[|report|..] == "\n\nMachine: " + machineId.value
  {
    if Present(machineId) then report + "\n\nMachine: " + machineId.value else report
  }

  // ---------------------------------------------------------------------------
  // The request handler (`POST`)
  // ---------------------------------------------------------------------------

  /** JavaScript truthiness of a `string | null`: present and not empty. */
  predicate Present(s: Option<string>) {
    s.Some? && s.value != ""
  }

  /** An uploaded file: its name, its size in bytes and its content type. */
  datatype Photo = Photo(name: string, size: nat, mimeType: string)

  /** The multipart fields `formData.get` returns; `None` stands for `null`. */
  datatype Form = Form(report: Option<string>, photo: Option<Photo>, machineId: Option<string>)

  /** Creating the card: the call, or reading its reply as JSON, threw; or a reply
      was read, with its status and the card's `id` and `url`. */
  datatype CardReply = CardFailed(message: string) | CardBody(ok: bool, id: string, url: Option<string>)

  /** Uploading the photo: the uploader throws on any failure, or returns the file's URL. */
  datatype UploadReply = UploadFailed | UploadDone(url: Option<string>)

  /** Attaching the URL to the card: the call threw; or a reply came back, and when
      it is not ok, `jsonError` is the error raised while reading its body as JSON. */
  datatype AttachReply = AttachFailed(message: string) | AttachBody(ok: bool, jsonError: Option<string>)

  /** What every collaborator of one request does, including `JSON.parse`. */
  datatype Collaborators = Collaborators(
    gemini: GeminiReply,
    parse: string -> Option<map<string, JsonValue>>,
    card: CardReply,
    upload: UploadReply,
    attach: AttachReply)

  /** A call to an external service, in the order the handler makes them. */
  datatype Call =
    | Classify(report: string)
    | CreateCard(name: string, desc: string)
    | Upload(photo: Photo, folder: string)
    | Attach(cardId: string, url: string)

  /** The JSON response with its HTTP status. */
  datatype TriageResponse = TriageResponse(
    status: nat, success: bool, message: string,
    trelloUrl: Option<string>, llmData: Option<LlmResult>)

  const NoReportMessage: string := "No report text provided"
  const CardFailedMessage: string := "Failed to create Trello card"
  const UploadFailedMessage: string := "Failed to upload image to Cloudinary"
  const SuccessMessage: string := "Report triaged via Gemini and Trello card created."
  const UploadFolder: string := "reports"

  function Failure(status: nat, message: string): (r: TriageResponse) {
    TriageResponse(status, false, message, None, None)
  }

  // How far a request gets.
  predicate Admitted(form: Result<Form>) {
    form.Ok? && Present(form.value.report)
  }
  predicate Classified(form: Result<Form>, env: Collaborators) {
    Admitted(form) && env.gemini.GeminiBody?
  }
  predicate CardCreated(form: Result<Form>, env: Collaborators) {
    Classified(form, env) && env.card.CardBody? && env.card.ok
  }
  predicate UploadAttempted(form: Result<Form>, env: Collaborators) {
    CardCreated(form, env) && form.value.photo.Some?
  }
  predicate AttachAttempted(form: Result<Form>, env: Collaborators) {
    UploadAttempted(form, env) && env.upload.UploadDone? && Present(env.upload.url)
  }
  /** An attachment outcome that escapes as an exception rather than being logged. */
  predicate AttachFatal(a: AttachReply) {
    a.AttachFailed? || (!a.ok && a.jsonError.Some?)
  }

  /** The classification a request that reaches the backend obtains. */
  function Classification(form: Result<Form>, env: Collaborators): (r: LlmResult)
    requires Classified(form, env)
  {
    ClassifyText(form.value.report.value, env.gemini.text, env.parse)
  }

  /** The message of an attachment outcome that escapes as an exception. */
  function AttachError(a: AttachReply): (m: string)
    requires AttachFatal(a)
  {
    if a.AttachFailed? then a.message else a.jsonError.value
  }

  /** The external calls a request makes, in order: the classification once the
      report is admitted, the card once it is classified, the upload once the card
      exists and a photo came with the request, the attachment once the upload
      returned a URL. */
  function ExpectedCalls(form: Result<Form>, env: Collaborators): (r: seq<Call>)
    ensures |r| <= 4
  {
    if !Admitted(form) then []
    else
      var classify := Classify(form.value.report.value);
      if !Classified(form, env) then [classify]
      else
        var create := CreateCard(CardName(Classification(form, env)),
                                 CardDescription(form.value.report.value, form.value.machineId));
        if !UploadAttempted(form, env) then [classify, create]
        else
          var upload := Upload(form.value.photo.value, UploadFolder);
          if !AttachAttempted(form, env) then [classify, create, upload]
          else [classify, create, upload, Attach(env.card.id, env.upload.url.value)]
  }

  /** The response a request gets: the first step that throws decides a 500 with its
      message (a missing report a 400), and a request no step of which throws succeeds
      with the card's URL and the classification. */
  function ExpectedResponse(form: Result<Form>, env: Collaborators): (r: TriageResponse) {
    if form.Err? then Failure(500, form.message)
    else if !Admitted(form) then Failure(400, NoReportMessage)
    else if !Classified(form, env) then Failure(500, env.gemini.message)
    else if env.card.CardFailed? then Failure(500, env.card.message)
    else if !env.card.ok then Failure(500, CardFailedMessage)
    else if UploadAttempted(form, env) && env.upload.UploadFailed? then Failure(500, UploadFailedMessage)
    else if AttachAttempted(form, env) && AttachFatal(env.attach) then Failure(500, AttachError(env.attach))
    else TriageResponse(200, true, SuccessMessage, env.card.url, Some(Classification(form, env)))
  }

  /** Only three statuses occur, `success` mirrors the status, and a failure carries
      neither a card URL nor a classification. */
  lemma StatusIsSuccessFlag(form: Result<Form>, env: Collaborators)
    ensures var r := ExpectedResponse(form, env);
      && (r.success <==> r.status == 200)
      && (r.status == 200 || r.status == 400 || r.status == 500)
      && (!r.success ==> r.trelloUrl.None? && r.llmData.None?)
  {
  }

  /** A body that cannot be parsed as a form fails with the parser's message, and
      nothing is called. */
  lemma UnreadableFormFails(form: Result<Form>, env: Collaborators)
    requires form.Err?
    ensures ExpectedResponse(form, env) == Failure(500, form.message)
    ensures ExpectedCalls(form, env) == []
  {
  }

  /** The report text is checked before anything is called: a 400 comes exactly
      from a missing or empty report, and then no call is made. */
  lemma MissingReportRejected(form: Result<Form>, env: Collaborators)
    ensures ExpectedResponse(form, env).status == 400 <==> form.Ok? && !Present(form.value.report)
    ensures ExpectedResponse(form, env).status == 400 ==>
      ExpectedResponse(form, env).message == NoReportMessage && ExpectedCalls(form, env) == []
  {
  }

  /** An admitted report is classified first; a backend that throws fails the
      request with its message before anything else is called. */
  lemma ClassifiesFirst(form: Result<Form>, env: Collaborators)
    requires Admitted(form)
    ensures |ExpectedCalls(form, env)| >= 1
    ensures ExpectedCalls(form, env)[0] == Classify(form.value.report.value)
    ensures env.gemini.GeminiFailed? ==>
      ExpectedResponse(form, env) == Failure(500, env.gemini.message) && |ExpectedCalls(form, env)| == 1
  {
  }

  /** The card is created from the classification and the report; when creating it
      throws or is refused, the request fails and no upload follows. */
  lemma CardFromClassification(form: Result<Form>, env: Collaborators)
    requires Classified(form, env)
    ensures |ExpectedCalls(form, env)| >= 2
    ensures ExpectedCalls(form, env)[1] == CreateCard(
      CardName(Classification(form, env)),
      CardDescription(form.value.report.value, form.value.machineId))
    ensures !CardCreated(form, env) ==>
      && |ExpectedCalls(form, env)| == 2
      && ExpectedResponse(form, env) ==
         Failure(500, if env.card.CardFailed? then env.card.message else CardFailedMessage)
  {
  }

  /** The photo is uploaded exactly when the card exists and a photo was sent; an
      upload that throws fails the request although the card was created. */
  lemma UploadOnlyAfterCard(form: Result<Form>, env: Collaborators)
    ensures |ExpectedCalls(form, env)| >= 3 <==> UploadAttempted(form, env)
    ensures UploadAttempted(form, env) ==>
      ExpectedCalls(form, env)[2] == Upload(form.value.photo.value, UploadFolder)
    ensures UploadAttempted(form, env) && env.upload.UploadFailed? ==>
      ExpectedResponse(form, env) == Failure(500, UploadFailedMessage) && |ExpectedCalls(form, env)| == 3
  {
  }

  /** The attachment is requested exactly when the upload returned a URL, with that
      URL and the new card's id. */
  lemma AttachOnlyWithUrl(form: Result<Form>, env: Collaborators)
    ensures |ExpectedCalls(form, env)| == 4 <==> AttachAttempted(form, env)
    ensures AttachAttempted(form, env) ==>
      ExpectedCalls(form, env)[3] == Attach(env.card.id, env.upload.url.value)
  {
  }

  /** An attachment call that throws, or a refusal whose body is not JSON, fails
      the request with that error's message. */
  lemma AttachErrorIsFatal(form: Result<Form>, env: Collaborators)
    requires AttachAttempted(form, env) && AttachFatal(env.attach)
    ensures ExpectedResponse(form, env) == Failure(500, AttachError(env.attach))
  {
  }

  /** The request succeeds exactly when the card was created and no later step threw:
      an upload without URL skips the attachment, and a refused attachment whose
      body is JSON is only logged. Success reports the card's URL and the
      classification. */
  lemma SucceedsExactlyWhen(form: Result<Form>, env: Collaborators)
    ensures ExpectedResponse(form, env).success <==>
      && CardCreated(form, env)
      && (UploadAttempted(form, env) ==> env.upload.UploadDone?)
      && (AttachAttempted(form, env) ==> !AttachFatal(env.attach))
    ensures ExpectedResponse(form, env).success ==>
      ExpectedResponse(form, env) ==
        TriageResponse(200, true, SuccessMessage, env.card.url, Some(Classification(form, env)))
  {
  }

  /** The handler. `form` is the parsed multipart body (or the error parsing it
      threw); `calls` lists the external calls made, in order. */
  method Post(form: Result<Form>, env: Collaborators) returns (resp: TriageResponse, calls: seq<Call>)
    ensures resp == ExpectedResponse(form, env)
    ensures calls == ExpectedCalls(form, env)
  {
    calls := [];
    if form.Err? {
      resp := Failure(500, form.message);
      return;
    }
    var f := form.value;
    if !Present(f.report) {
      resp := Failure(400, NoReportMessage);
      return;
    }
    var report := f.report.value;
    calls := [Classify(report)];
    var classified := ClassifyWithGemini(report, env.gemini, env.parse);
    if classified.Err? {
      resp := Failure(500, classified.message);
      return;
    }
    var llmData := classified.value;
    var create := CreateCard(CardName(llmData), CardDescription(report, f.machineId));
    calls := [Classify(report), create];
    if env.card.CardFailed? {
      resp := Failure(500, env.card.message);
      return;
    }
    if !env.card.ok {
      resp := Failure(500, CardFailedMessage);
      return;
    }
    if f.photo.Some? {
      calls := [Classify(report), create, Upload(f.photo.value, UploadFolder)];
      if env.upload.UploadFailed? {
        resp := Failure(500, UploadFailedMessage);
        return;
      }
      if Present(env.upload.url) {
        calls := [Classify(report), create, Upload(f.photo.value, UploadFolder), Attach(env.card.id, env.upload.url.value)];
        match env.attach {
          case AttachFailed(m) =>
            resp := Failure(500, m);
            return;
          case AttachBody(ok, jsonError) =>
            if !ok && jsonError.Some? {
              resp := Failure(500, jsonError.value);
              return;
            }
        }
      }
    }
    assert llmData == Classification(form, env);
    assert UploadAttempted(form, env) ==> env.upload.UploadDone?;
    assert AttachAttempted(form, env) ==> !AttachFatal(env.attach);
    SucceedsExactlyWhen(form, env);
    resp := TriageResponse(200, true, SuccessMessage, env.card.url, Some(llmData));
  }
}
