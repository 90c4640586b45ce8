/** api/guidance.ts: the serverless handler that answers a described
    situation with biblical guidance. The handler checks the HTTP method,
    the API credential and the `situation` field, builds a context string
    from the optional mood and journal text, asks a language model for a
    JSON reply, pulls the JSON-looking span out of the reply and parses it,
    and falls back to one of two fixed payloads when parsing or the call
    fails.

    The model call is not modelled: its outcome is the `Upstream`
    parameter, and `JSON.parse` is the `parse` parameter. */
module Guidance {
  import opened Model

  datatype Verse = Verse(reference: string, text: string, application: string)

  datatype GuidanceText = GuidanceText(
    verses: seq<Verse>, prayer: string, actionStep: string, encouragement: string)

  /** The guidance a response carries: what `JSON.parse` gave for the model's
      reply, passed on with no shape check, or a fixed fallback. */
  datatype Payload<J> = Parsed(value: J) | Fixed(text: GuidanceText)

  /** The destructured fields of `req.body`; `None` stands for a missing
      field (`undefined` or `null`). */
  datatype RequestBody = RequestBody(
    situation: Option<string>, mood: Option<string>, recentJournalContent: Option<string>)

  /** `body` is `None` when the request has no parsed body at all. */
  datatype Request = Request(verb: string, body: Option<RequestBody>)

  /** How the model call ended. */
  datatype Upstream =
      /** the response was not ok: its status and its text */
    | NotOk(status: nat, errorText: string)
      /** the fetch, the JSON decoding of the response or `data.content[0]`
          threw, with this message (`""` when it had none) */
    | Threw(message: string)
      /** `data.content[0].text`, `None` when it is not a string */
    | Replied(text: Option<string>)

  datatype Body<J> =
    | ErrorBody(error: string, message: Option<string>)
      /** `errorNote` is the `error` key of the fallback response */
    | GuidanceBody(success: bool, guidance: Payload<J>, errorNote: Option<string>)

  datatype Response<J> = Response(status: nat, body: Body<J>)

  /** JavaScript truthiness of an optional string field. */
  predicate Truthy(v: Option<string>) {
    v.Some? && v.value != ""
  }

  // ---------------------------------------------------------------------
  // The fixed payloads

  /** The guidance used when the reply holds no JSON that parses. */
  const ParseFailureGuidance := GuidanceText(
    [Verse(
      "Philippians 4:6-7",
      "Do not be anxious about anything, but in every situation, by prayer and petition, with thanksgiving, present your requests to God.",
      "God invites you to bring your specific concerns to Him right now.")],
    "Lord, please provide wisdom and peace in this situation. Amen.",
    "Take 5 minutes to pray and cast your cares on God.",
    "God is with you in this. You are not alone.")

  /** The guidance used when the call fails or anything else throws. */
  const CallFailureGuidance := GuidanceText(
    [Verse(
      "Proverbs 3:5-6",
      "Trust in the Lord with all your heart and lean not on your own understanding; in all your ways submit to him, and he will make your paths straight.",
      "Even when things are unclear, God promises to guide you as you trust Him."),
     Verse(
      "Philippians 4:19",
      "And my God will meet all your needs according to the riches of his glory in Christ Jesus.",
      "God knows your needs and will provide in His perfect timing.")],
    "Lord, grant wisdom and peace in this challenging time. Guide each step with Your love. Amen.",
    "Spend 10 minutes in quiet prayer, sharing your heart with God.",
    "God sees you, loves you, and is working all things for your good.")

  /** The message of the TypeError a Node runtime throws when the handler
      destructures an undefined `req.body` with native object
      destructuring; a build that lowers the destructuring would report
      "Cannot read properties of undefined (reading 'situation')" instead. */
  const MissingBodyMessage := "Cannot destructure property 'situation' of 'req.body' as it is undefined."

  // ---------------------------------------------------------------------
  // Building the context

  /** The mood sentence: the lead-in `The person is feeling `, the mood
      verbatim, and the closing `. `. */
  function MoodSentence(mood: string): (m: string)
    ensures |m| == 22 + |mood| + 2
    ensures m[22..22 + |mood|] == mood
    ensures m[..22] == "The person is feeling " && m[22 + |mood|..] == ". "
  {
    "The person is feeling " + mood + ". "
  }

  /** The reflection sentence: the lead-in `Recent reflection: "`, the
      journal text verbatim, and the closing quote and space. */
  function ReflectionSentence(text: string): (m: string)
    ensures |m| == 20 + |text| + 2
    ensures m[20..20 + |text|] == text
    ensures m[..20] == "Recent reflection: \"" && m[20 + |text|..] == "\" "
  {
    "Recent reflection: \"" + text + "\" "
  }

  /** The context the prompt carries: the mood sentence when the mood is
      given, then the reflection sentence when journal text is given. */
  function Context(mood: Option<string>, recent: Option<string>): (c: string)
    ensures c == "" <==> !Truthy(mood) && !Truthy(recent)
    ensures Truthy(mood) ==> MoodSentence(mood.value) <= c
    ensures Truthy(recent) ==>
              var tail := ReflectionSentence(recent.value);
              |tail| <= |c| && c[|c| - |tail|..] == tail
    ensures !Truthy(mood) && Truthy(recent) ==> c == ReflectionSentence(recent.value)
    ensures |c| == (if Truthy(mood) then |MoodSentence(mood.value)| else 0)
                 + (if Truthy(recent) then |ReflectionSentence(recent.value)| else 0)
  {
    (if Truthy(mood) then MoodSentence(mood.value) else "")
      + (if Truthy(recent) then ReflectionSentence(recent.value) else "")
  }

  /** The handler's `let context = ''` followed by two guarded `+=`. */
  method BuildContext(mood: Option<string>, recent: Option<string>) returns (context: string)
    ensures context == Context(mood, recent)
  {
    context := "";
    if Truthy(mood) {
      context := context + MoodSentence(mood.value);
    }
    assert context == if Truthy(mood) then MoodSentence(mood.value) else "";
    if Truthy(recent) {
      context := context + ReflectionSentence(recent.value);
    }
  }

  // ---------------------------------------------------------------------
  // Extracting the JSON span: `text.match(/\{[\s\S]*\}/)`

  /** A match of the pattern at `[p, q)`: an opening brace at `p`, a closing
      brace at `q - 1`, anything between. */
  ghost predicate IsMatch(s: string, p: int, q: int) {
    0 <= p && p + 2 <= q <= |s| && s[p] == '{' && s[q - 1] == '}'
  }

  /** The match a JavaScript regular expression reports: the leftmost start,
      and for that start the longest (greedy) end. */
  ghost predicate IsReportedMatch(s: string, p: int, q: int) {
    IsMatch(s, p, q) &&
    forall p', q' :: IsMatch(s, p', q') ==> p <= p' && (p' == p ==> q' <= q)
  }

  /** The first index of `c` in `s`, or `|s|` when there is none. */
  function IndexOf(s: string, c: char): (i: nat)
    ensures i <= |s|
    ensures i < |s| ==> s[i] == c
    ensures forall k :: 0 <= k < i ==> s[k] != c
  {
    if s == [] then 0
    else if s[0] == c then 0
    else 1 + IndexOf(s[1..], c)
  }

  /** The last index at or after `from` holding `c`, if any. */
  function LastIndexFrom(s: string, c: char, from: nat): (r: Option<nat>)
    ensures r.Some? ==> from <= r.value < |s| && s[r.value] == c
    ensures r.Some? ==> forall k :: r.value < k < |s| ==> s[k] != c
    ensures r.None? ==> forall k :: from <= k < |s| ==> s[k] != c
    decreases |s|
  {
    if |s| <= from then None
    else if s[|s| - 1] == c then Some(|s| - 1)
    else LastIndexFrom(s[..|s| - 1], c, from)
  }

  /** The span `[p, q)` of the match: from the first `{` to the last `}`
      after it; none when no `}` follows the first `{`. */
  function MatchSpan(s: string): (r: Option<(nat, nat)>)
    ensures r.Some? ==> IsReportedMatch(s, r.value.0, r.value.1)
    ensures r.None? <==> forall p, q :: !IsMatch(s, p, q)
  {
    var i := IndexOf(s, '{');
    if i == |s| then None
    else match LastIndexFrom(s, '}', i + 1)
      case None => None
      case Some(j) => Some((i, j + 1))
  }

  /** `jsonMatch[0]`, the matched text. */
  function ExtractJson(s: string): (r: Option<string>)
    ensures r.Some? ==> |r.value| >= 2 && r.value[0] == '{' && r.value[|r.value| - 1] == '}'
    ensures r.Some? ==> exists p, q :: IsReportedMatch(s, p, q) && r.value == s[p..q]
    ensures r.None? <==> forall p, q :: !IsMatch(s, p, q)
  {
    match MatchSpan(s)
    case None => None
    case Some((p, q)) => Some(s[p..q])
  }

  /** A JSON object wrapped in explanation text is recovered exactly, as
      long as the text before it has no `{` and the text after it no `}`. */
  lemma ExtractJsonUnwraps(before: string, inner: string, after: string)
    requires forall k :: 0 <= k < |before| ==> before[k] != '{'
    requires forall k :: 0 <= k < |after| ==> after[k] != '}'
    ensures ExtractJson(before + "{" + inner + "}" + after) == Some("{" + inner + "}")
  {
    var s := before + "{" + inner + "}" + after;
    var p, q := |before|, |before| + |inner| + 2;
    assert IsMatch(s, p, q);
    var r := MatchSpan(s);
    assert r.Some?;
    var (p', q') := r.value;
    assert p' == p by {
      assert IsMatch(s, p', q');
      assert forall k :: 0 <= k < p ==> s[k] == before[k];
    }
    assert q' == q by {
      assert IsMatch(s, p', q');
      assert forall k :: q <= k < |s| ==> s[k] == after[k - q];
    }
    assert s[p..q] == "{" + inner + "}";
  }

  /** A `{` inside the text before the object moves the match's start in
      front of the object, so the object is not what comes back. */
  lemma ExtractJsonMissesAfterOpen(before: string, inner: string, after: string, k: nat)
    requires k < |before| && before[k] == '{'
    ensures ExtractJson(before + "{" + inner + "}" + after) != Some("{" + inner + "}")
  {
    var s := before + "{" + inner + "}" + after;
    var q := |before| + |inner| + 2;
    assert s[k] == '{' && s[q - 1] == '}';
    assert IsMatch(s, k, q);
    var (p', q') := MatchSpan(s).value;
    assert IsMatch(s, p', q);
    assert p' <= k && q' >= q;
  }

  /** A `}` inside the text after the object extends the greedy match past
      the object, so the object is not what comes back. */
  lemma ExtractJsonMissesBeforeClose(before: string, inner: string, after: string, k: nat)
    requires k < |after| && after[k] == '}'
    ensures ExtractJson(before + "{" + inner + "}" + after) != Some("{" + inner + "}")
  {
    var s := before + "{" + inner + "}" + after;
    var p, q := |before|, |before| + |inner| + 2;
    assert s[p] == '{' && s[q + k] == '}';
    assert IsMatch(s, p, q + k + 1);
    var (p', q') := MatchSpan(s).value;
    assert p' <= p;
    assert IsMatch(s, p', q + k + 1);
    assert q' >= q + k + 1;
  }

  /** The wrapped object comes back exactly when the text before it has no
      `{` and the text after it no `}`. */
  lemma ExtractJsonUnwrapsIff(before: string, inner: string, after: string)
    ensures ExtractJson(before + "{" + inner + "}" + after) == Some("{" + inner + "}")
        <==> (forall k :: 0 <= k < |before| ==> before[k] != '{') &&
             (forall k :: 0 <= k < |after| ==> after[k] != '}')
  {
    if exists k :: 0 <= k < |before| && before[k] == '{' {
      var k :| 0 <= k < |before| && before[k] == '{';
      ExtractJsonMissesAfterOpen(before, inner, after, k);
    } else if exists k :: 0 <= k < |after| && after[k] == '}' {
      var k :| 0 <= k < |after| && after[k] == '}';
      ExtractJsonMissesBeforeClose(before, inner, after, k);
    } else {
      ExtractJsonUnwraps(before, inner, after);
    }
  }

  // ---------------------------------------------------------------------
  // Parsing the reply

  /** The inner `try`: the guidance made from the model's reply text. A
      reply with a JSON span that parses gives the parsed value; a reply
      that is not a string, has no span, or whose span does not parse gives
      the parse-failure payload. */
  function ReplyGuidance<J>(text: Option<string>, parse: string -> Option<J>): (g: Payload<J>)
    ensures g.Parsed? <==>
              text.Some? && ExtractJson(text.value).Some? && parse(ExtractJson(text.value).value).Some?
    ensures g.Parsed? ==> g.value == parse(ExtractJson(text.value).value).value
    ensures g.Fixed? ==> g.text == ParseFailureGuidance
  {
    if text.None? then Fixed(ParseFailureGuidance)
    else match ExtractJson(text.value)
      case None => Fixed(ParseFailureGuidance)
      case Some(candidate) =>
        match parse(candidate)
        case Some(v) => Parsed(v)
        case None => Fixed(ParseFailureGuidance)
  }

  // ---------------------------------------------------------------------
  // The error text of the fallback response

  function DigitChar(d: nat): char
    requires d < 10
  {
    "0123456789"[d]
  }

  /** The decimal text of `n`, as a template string prints it. */
  function DecimalText(n: nat): (r: string)
    ensures |r| >= 1
    decreases n
  {
    if n < 10 then [DigitChar(n)] else DecimalText(n / 10) + [DigitChar(n % 10)]
  }

  /** The message of what the outer `catch` caught: the thrown message as
      is, or for a non-ok status the API-error text that ends with the
      upstream's error text. */
  function ThrownMessage(u: Upstream): (m: string)
    requires !u.Replied?
    ensures u.Threw? ==> m == u.message
    ensures u.NotOk? ==>
              "Claude API error: " <= m && |m| > 21 + |u.errorText| &&
              m[|m| - |u.errorText|..] == u.errorText
  {
    match u
    case NotOk(status, errorText) => "Claude API error: " + DecimalText(status) + " - " + errorText
    case Threw(message) => message
  }

  /** `error.message || 'Using fallback guidance'` */
  function ErrorField(message: string): (e: string)
    ensures e != ""
    ensures message != "" ==> e == message
  {
    if message != "" then message else "Using fallback guidance"
  }

  /** The body of the outer `catch`: `success: false`, the two-verse
      guidance and the caught message, or its fallback, as the error note. */
  function CallFailure<J>(message: string): (b: Body<J>)
    ensures b.GuidanceBody? && !b.success && b.guidance == Fixed(CallFailureGuidance)
    ensures b.errorNote.Some? && b.errorNote.value != ""
    ensures message != "" ==> b.errorNote == Some(message)
  {
    GuidanceBody(false, Fixed(CallFailureGuidance), Some(ErrorField(message)))
  }

  // ---------------------------------------------------------------------
  // The handler

  /** `handler(req, res)`. `hasApiKey` says whether the credential is set;
      `upstream` is how the model call ends, and `parse` is `JSON.parse`.
      `prompted` is the context sent with the model call, `None` when the
      handler returns before making it. */
  method Handle<J>(req: Request, hasApiKey: bool, upstream: Upstream, parse: string -> Option<J>)
    returns (res: Response<J>, prompted: Option<string>)
    ensures res.status == 405 <==> req.verb != "POST"
    ensures res.status == 405 ==> res.body == ErrorBody("Method not allowed", None)
    ensures res.status == 500 <==> req.verb == "POST" && !hasApiKey
    ensures res.status == 500 ==>
              res.body == ErrorBody("API configuration error", Some("Claude API key not configured"))
    ensures res.status == 400 <==>
              req.verb == "POST" && hasApiKey && req.body.Some? && !Truthy(req.body.value.situation)
    ensures res.status == 400 ==> res.body == ErrorBody("Situation is required", None)
    ensures res.status in {200, 400, 405, 500}
    ensures res.status == 200 <==> res.body.GuidanceBody?
    ensures prompted.Some? <==>
              req.verb == "POST" && hasApiKey && req.body.Some? && Truthy(req.body.value.situation)
    ensures prompted.Some? ==>
              prompted.value == Context(req.body.value.mood, req.body.value.recentJournalContent)
    ensures res.body.GuidanceBody? ==> (res.body.success <==> prompted.Some? && upstream.Replied?)
    ensures res.body.GuidanceBody? && res.body.success ==>
              res.body.guidance == ReplyGuidance(upstream.text, parse) && res.body.errorNote.None?
    ensures res.body.GuidanceBody? && !res.body.success ==>
              res.body.guidance == Fixed(CallFailureGuidance) && res.body.errorNote.Some? && res.body.errorNote.value != ""
    ensures res.body.GuidanceBody? && !res.body.success ==>
              res.body.errorNote == Some(ErrorField(
                if req.body.None? then MissingBodyMessage
                else if upstream.Replied? then ""
                else ThrownMessage(upstream)))
  {
    prompted := None;
    if req.verb != "POST" {
      return Response(405, ErrorBody("Method not allowed", None)), None;
    }
    // The source answers OPTIONS with 200 here; the check above has
    // already sent every non-POST request away, so that branch is dead.

    if !hasApiKey {
      return Response(500, ErrorBody("API configuration error", Some("Claude API key not configured"))), None;
    }

    // Destructuring an undefined body throws inside the outer try.
    if req.body.None? {
      return Response(200, CallFailure(MissingBodyMessage)), None;
    }
    var body := req.body.value;

    if !Truthy(body.situation) {
      return Response(400, ErrorBody("Situation is required", None)), None;
    }

    var context := BuildContext(body.mood, body.recentJournalContent);
    prompted := Some(context);

    match upstream {
      case NotOk(_, _) =>
        res := Response(200, CallFailure(ThrownMessage(upstream)));
      case Threw(message) =>
        res := Response(200, CallFailure(message));
      case Replied(text) =>
        var guidance := ReplyGuidance(text, parse);
        res := Response(200, GuidanceBody(true, guidance, None));
    }
  }
}
