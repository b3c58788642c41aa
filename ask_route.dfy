/**
 * The `POST /api/ask` handler of `app/api/ask/route.js`. The request body is
 * read as a JSON object of strings, five of its fields are interpolated into
 * a fixed prompt, one chat-completion request is sent to the provider, and
 * the reply is picked from the provider's answer. The HTTP exchange with the
 * provider is a function parameter that maps the outbound request to what
 * came back; every path answers a JSON object with one `reply` string and status 200.
 */
module AskRoute {
  import opened Wrappers
  import opened JsString

  /** The request body after `req.json()`; `Malformed` when parsing or destructuring throws. */
  datatype RequestBody = Malformed | Json(fields: map<string, string>)

  /** One entry of the `messages` list sent to the provider. */
  datatype ChatMessage = ChatMessage(role: string, content: string)

  /** The JSON body of the outbound chat-completion request. */
  datatype ChatRequest = ChatRequest(model: string, messages: seq<ChatMessage>)

  /**
   * What the provider call ends in: `Threw` when `fetch` or `response.json()`
   * throws, otherwise the content of the first choice's message,
   * `None` when any link of that optional chain is missing.
   */
  datatype ProviderResult = Threw | Parsed(content: Option<string>)

  /** The JSON response: one `reply` string, and the status is always the default 200. */
  datatype Reply = Reply(status: int, reply: string)

  const Model: string := "openrouter/auto"
  const SystemPrompt: string :=
    "You are a helpful health assistant. Provide guidance based on symptoms and user info."
  const NoAnswerReply: string := "Sorry, I couldn\U{2019}t process your request at this time."
  const ServerErrorReply: string := "Something went wrong on the server."

  /** The five values the template interpolates, in template order. */
  datatype PromptFields = PromptFields(
    name: string, age: string, gender: string, pincode: string, message: string)

  /** A template literal prints a missing field as "undefined". */
  function Lookup(fields: map<string, string>, key: string): (v: string)
    ensures key in fields ==> v == fields[key]
    ensures key !in fields ==> v == "undefined"
  {
    if key in fields then fields[key] else "undefined"
  }

  /** The five fields the handler destructures from the body, by their own names. */
  function Destructure(fields: map<string, string>): (f: PromptFields)
    ensures "name" in fields ==> f.name == fields["name"]
    ensures "age" in fields ==> f.age == fields["age"]
    ensures "gender" in fields ==> f.gender == fields["gender"]
    ensures "pincode" in fields ==> f.pincode == fields["pincode"]
    ensures "message" in fields ==> f.message == fields["message"]
    ensures "name" !in fields ==> f.name == "undefined"
    ensures "age" !in fields ==> f.age == "undefined"
    ensures "gender" !in fields ==> f.gender == "undefined"
    ensures "pincode" !in fields ==> f.pincode == "undefined"
    ensures "message" !in fields ==> f.message == "undefined"
  {
    PromptFields(Lookup(fields, "name"), Lookup(fields, "age"), Lookup(fields, "gender"),
                 Lookup(fields, "pincode"), Lookup(fields, "message"))
  }

  const Intro: string := "\nUser Details:\n"
  const SymptomsHeading: string := "\nSymptoms:\n"
  const Instructions: string :=
    "\n\nBased on the above, provide:\n"
    + "1. Possible diagnosis or health suggestion\n"
    + "2. Suggested treatments\n"
    + "3. A list of 3 nearby hospitals/nursing homes (based on pincode) with estimated treatment cost in INR\n"
    + "4. Reliability percentage (just a rough estimate)\n"

  /** One "- Label: value" line of the user details. */
  function DetailLine(tag: string, value: string): string
  {
    tag + value + "\n"
  }

  /** The prompt template, filled in. */
  function BuildPrompt(f: PromptFields): string
  {
    Intro
    + (DetailLine("- Name: ", f.name)
    + (DetailLine("- Age: ", f.age)
    + (DetailLine("- Gender: ", f.gender)
    + (DetailLine("- Pincode: ", f.pincode)
    + (SymptomsHeading
    + (f.message + Instructions))))))
  }

  /** The outbound message list: the fixed system message, then the prompt as the user message. */
  function Outbound(prompt: string): (req: ChatRequest)
    ensures req.model == Model && |req.messages| == 2
    ensures req.messages[0] == ChatMessage("system", SystemPrompt)
    ensures req.messages[1].role == "user" && req.messages[1].content == prompt
  {
    ChatRequest(Model, [ChatMessage("system", SystemPrompt), ChatMessage("user", prompt)])
  }

  /**
   * The reply chosen inside the try/catch: a thrown error gives the
   * server-error reply, a missing or empty content the apology, and any
   * other content is passed on.
   */
  function SelectReply(result: ProviderResult): (reply: string)
    ensures reply != ""
    ensures result.Threw? ==> reply == ServerErrorReply
    ensures result.Parsed? && result.content.Some? && result.content.value != ""
      ==> reply == result.content.value
    ensures result.Parsed? && (result.content.None? || result.content.value == "")
      ==> reply == NoAnswerReply
  {
    match result
    case Threw => ServerErrorReply
    case Parsed(Some(c)) => if c != "" then c else NoAnswerReply
    case Parsed(None) => NoAnswerReply
  }

  /** The request the handler sends for a well-formed body. */
  function RequestFor(fields: map<string, string>): (req: ChatRequest)
    ensures req.model == Model && |req.messages| == 2
    ensures req.messages[0] == ChatMessage("system", SystemPrompt)
    ensures req.messages[1].role == "user"
  {
    Outbound(BuildPrompt(Destructure(fields)))
  }

  /** The whole handler, with the provider exchange as `provider`. */
  function Post(body: RequestBody, provider: ChatRequest -> ProviderResult): (r: Reply)
    ensures r.status == 200 && r.reply != ""
    ensures body.Malformed? ==> r.reply == ServerErrorReply
    ensures body.Json? ==> r.reply == SelectReply(provider(RequestFor(body.fields)))
  {
    match body
    case Malformed => Reply(200, ServerErrorReply)
    case Json(fields) => Reply(200, SelectReply(provider(RequestFor(fields))))
  }

  // ---- Reading the prompt back -------------------------------------------

  /** The text up to the first line break and the text after it, if there is one. */
  function TakeLine(s: string): (r: Option<(string, string)>)
    ensures r.Some? ==> s == r.value.0 + "\n" + r.value.1 && '\n' !in r.value.0
    decreases |s|
  {
    if s == "" then None
    else if s[0] == '\n' then Some(("", s[1..]))
    else match TakeLine(s[1..])
      case None => None
      case Some((line, rest)) => Some(([s[0]] + line, rest))
  }

  lemma {:induction false} TakeLineOf(line: string, rest: string)
    requires '\n' !in line
    ensures TakeLine(line + "\n" + rest) == Some((line, rest))
    decreases |line|
  {
    var s := line + "\n" + rest;
    if line != "" {
      assert s[0] == line[0];
      assert s[1..] == line[1..] + "\n" + rest;
      TakeLineOf(line[1..], rest);
      assert [s[0]] + line[1..] == line;
    }
  }

  /** The remainder of `s` after `prefix`, if `s` starts with it. */
  function DropPrefix(s: string, prefix: string): (r: Option<string>)
    ensures r.Some? <==> StartsWith(s, prefix)
    ensures r.Some? ==> s == prefix + r.value
  {
    if StartsWith(s, prefix) then Some(s[|prefix|..]) else None
  }

  lemma DropPrefixOf(prefix: string, rest: string)
    ensures DropPrefix(prefix + rest, prefix) == Some(rest)
  {
    assert (prefix + rest)[..|prefix|] == prefix;
    assert (prefix + rest)[|prefix|..] == rest;
  }

  /** The text before `suffix`, if `s` ends with it. */
  function DropSuffix(s: string, suffix: string): (r: Option<string>)
    ensures r.Some? <==> |suffix| <= |s| && s[|s| - |suffix|..] == suffix
    ensures r.Some? ==> s == r.value + suffix
  {
    if |suffix| <= |s| && s[|s| - |suffix|..] == suffix then Some(s[..|s| - |suffix|]) else None
  }

  lemma DropSuffixOf(x: string, suffix: string)
    ensures DropSuffix(x + suffix, suffix) == Some(x)
  {
    assert (x + suffix)[|x|..] == suffix;
    assert (x + suffix)[..|x|] == x;
  }

  /** One detail line off the front of `s`: its value after `tag`, and what follows the line break. */
  function ReadDetail(s: string, tag: string): Option<(string, string)>
  {
    match DropPrefix(s, tag)
    case None => None
    case Some(t) => TakeLine(t)
  }

  lemma ReadDetailOf(tag: string, value: string, rest: string)
    requires '\n' !in value
    ensures ReadDetail(DetailLine(tag, value) + rest, tag) == Some((value, rest))
  {
    assert DetailLine(tag, value) + rest == tag + (value + "\n" + rest);
    DropPrefixOf(tag, value + "\n" + rest);
    TakeLineOf(value, rest);
  }

  /** The symptom text between the "Symptoms:" heading and the closing instructions. */
  function ReadSymptoms(s: string): Option<string>
  {
    match DropPrefix(s, SymptomsHeading)
    case None => None
    case Some(t) => DropSuffix(t, Instructions)
  }

  lemma ReadSymptomsOf(message: string)
    ensures ReadSymptoms(SymptomsHeading + (message + Instructions)) == Some(message)
  {
    DropPrefixOf(SymptomsHeading, message + Instructions);
    DropSuffixOf(message, Instructions);
  }

  /** Recovers the five fields from a prompt. */
  function ReadPrompt(p: string): Option<PromptFields>
  {
    match DropPrefix(p, Intro)
    case None => None
    case Some(s0) =>
      match ReadDetail(s0, "- Name: ")
      case None => None
      case Some((name, s1)) =>
        match ReadDetail(s1, "- Age: ")
        case None => None
        case Some((age, s2)) =>
          match ReadDetail(s2, "- Gender: ")
          case None => None
          case Some((gender, s3)) =>
            match ReadDetail(s3, "- Pincode: ")
            case None => None
            case Some((pincode, s4)) =>
              match ReadSymptoms(s4)
              case None => None
              case Some(message) => Some(PromptFields(name, age, gender, pincode, message))
  }

  /**
   * The prompt carries each field in its own place, in the order name, age,
   * gender, pincode, message: reading it back gives the fields again as long
   * as the four one-line details hold no line break (the message may).
   */
  lemma ReadPromptBuild(f: PromptFields)
    requires '\n' !in f.name && '\n' !in f.age && '\n' !in f.gender && '\n' !in f.pincode
    ensures ReadPrompt(BuildPrompt(f)) == Some(f)
  {
    var s4 := SymptomsHeading + (f.message + Instructions);
    var s3 := DetailLine("- Pincode: ", f.pincode) + s4;
    var s2 := DetailLine("- Gender: ", f.gender) + s3;
    var s1 := DetailLine("- Age: ", f.age) + s2;
    var s0 := DetailLine("- Name: ", f.name) + s1;
    assert BuildPrompt(f) == Intro + s0;
    DropPrefixOf(Intro, s0);
    ReadDetailOf("- Name: ", f.name, s1);
    ReadDetailOf("- Age: ", f.age, s2);
    ReadDetailOf("- Gender: ", f.gender, s3);
    ReadDetailOf("- Pincode: ", f.pincode, s4);
    ReadSymptomsOf(f.message);
  }

  /** Distinct one-line details or messages always give distinct prompts. */
  lemma BuildPromptInjective(f: PromptFields, g: PromptFields)
    requires '\n' !in f.name && '\n' !in f.age && '\n' !in f.gender && '\n' !in f.pincode
    requires '\n' !in g.name && '\n' !in g.age && '\n' !in g.gender && '\n' !in g.pincode
    requires BuildPrompt(f) == BuildPrompt(g)
    ensures f == g
  {
    ReadPromptBuild(f);
    ReadPromptBuild(g);
  }

  /** The field `key` is present in both bodies or in neither, with the same value. */
  predicate SameField(a: map<string, string>, b: map<string, string>, key: string)
  {
    (key in a <==> key in b) && (key in a ==> a[key] == b[key])
  }

  /** The five read fields agree, whether present or absent, between two bodies. */
  predicate SamePromptFields(a: map<string, string>, b: map<string, string>)
  {
    && SameField(a, b, "name") && SameField(a, b, "age") && SameField(a, b, "gender")
    && SameField(a, b, "pincode") && SameField(a, b, "message")
  }

  /** Body fields other than the five read ones (`duration`, `issue`, ...) change nothing. */
  lemma PostIgnoresOtherFields(a: map<string, string>, b: map<string, string>,
                               provider: ChatRequest -> ProviderResult)
    requires SamePromptFields(a, b)
    ensures RequestFor(a) == RequestFor(b)
    ensures Post(Json(a), provider) == Post(Json(b), provider)
  {
    assert Destructure(a) == Destructure(b);
  }

  /**
   * The user message of the request carries the body's five read fields:
   * reading its prompt back gives each of them, or "undefined" for a missing
   * one, as long as the four one-line details hold no line break.
   */
  lemma RequestCarriesFields(fields: map<string, string>)
    requires '\n' !in Lookup(fields, "name") && '\n' !in Lookup(fields, "age")
    requires '\n' !in Lookup(fields, "gender") && '\n' !in Lookup(fields, "pincode")
    ensures ReadPrompt(RequestFor(fields).messages[1].content) == Some(PromptFields(
      Lookup(fields, "name"), Lookup(fields, "age"), Lookup(fields, "gender"),
      Lookup(fields, "pincode"), Lookup(fields, "message")))
  {
    ReadPromptBuild(Destructure(fields));
  }

}
