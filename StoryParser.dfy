/** Reading the outline the chat model returns (`parseStoryResponse` in
    repository/ComicRepository.kt): the markdown code-fence markers are
    removed, the text is trimmed and parsed as JSON, and `title` and
    `panels` (each with `panelNumber`, `description` and `dialogue`) are
    taken from the object. Text-to-JSON parsing is Gson's and is a
    parameter here; every failure becomes an error whose message starts
    with "Failed to parse story: ". */
module StoryParser {
  import opened Wrappers
  import opened JavaNumbers
  import opened KotlinText
  import opened Json
  import opened Model

  const ParseFailure: string := "Failed to parse story: "
  const JsonFence: string := "```json"
  const Fence: string := "```"

  /** The text handed to the JSON parser: every "```json" removed, then
      every "```", then surrounding whitespace. */
  function CleanContent(content: string): string
  {
    Trim(RemoveAll(RemoveAll(content, JsonFence), Fence))
  }

  /** No code fence survives the cleaning: removing every "```" leaves
      none, and trimming cannot bring one in. */
  lemma CleanContentHasNoFence(content: string)
    ensures !Contains(CleanContent(content), Fence)
  {
    var t := RemoveAll(content, JsonFence);
    assert Fence == ['`', '`', '`'];
    RemoveTripleLeavesNone(t, '`');
    TrimKeepsAbsent(RemoveAll(t, Fence), Fence);
  }

  predicate NoBacktick(s: string) {
    forall i :: 0 <= i < |s| ==> s[i] != '`'
  }

  lemma RemoveAllOfPlain(s: string, pat: string)
    requires |pat| > 0 && pat[0] == '`' && NoBacktick(s)
    ensures RemoveAll(s, pat) == s
  {
    RemoveAllSkipsPrefix(s, [], pat);
    assert s + [] == s;
  }

  lemma RemoveFencesOfClosing(a: string)
    requires NoBacktick(a)
    ensures RemoveAll(a + Fence, JsonFence) == a + Fence
    ensures RemoveAll(a + Fence, Fence) == a
  {
    RemoveAllSkipsPrefix(a, Fence, JsonFence);
    RemoveAllSkipsPrefix(a, Fence, Fence);
    assert RemoveAll("`", JsonFence) == "`" + RemoveAll([], JsonFence);
    assert RemoveAll("``", JsonFence) == "`" + RemoveAll("`", JsonFence);
    assert RemoveAll(Fence, JsonFence) == "`" + RemoveAll("``", JsonFence);
    RemoveAllOfLeadingMatch(Fence, []);
    assert Fence + [] == Fence;
  }

  lemma NewlineBodyNoBacktick(body: string)
    requires NoBacktick(body)
    ensures NoBacktick("\n" + body + "\n")
  {
    var a := "\n" + body + "\n";
    forall i | 0 <= i < |a| ensures a[i] != '`' {
      if 0 < i < |a| - 1 {
        assert a[i] == body[i - 1];
      }
    }
  }

  /** The body between a newline after the opening fence and a newline
      before the closing one: removing the fences leaves it with its two
      newlines. */
  lemma BodyOfFences(body: string)
    requires NoBacktick(body)
    ensures RemoveAll(RemoveAll("\n" + body + "\n" + Fence, JsonFence), Fence) == "\n" + body + "\n"
    ensures Trim("\n" + body + "\n") == Trim(body)
  {
    var a := "\n" + body + "\n";
    NewlineBodyNoBacktick(body);
    RemoveFencesOfClosing(a);
    TrimSurrounded(body, '\n', '\n');
    assert ['\n'] + body + ['\n'] == a;
  }

  lemma JsonFenced(body: string)
    requires NoBacktick(body)
    ensures RemoveAll(JsonFence + "\n" + body + "\n" + Fence, JsonFence) == RemoveAll("\n" + body + "\n" + Fence, JsonFence)
  {
    var t := "\n" + body + "\n" + Fence;
    assert JsonFence + "\n" + body + "\n" + Fence == JsonFence + t;
    RemoveAllOfLeadingMatch(JsonFence, t);
  }

  /** A text with a line break among its first four characters does not
      start with "```json". */
  lemma NotJsonFence(u: string, k: nat)
    requires k < 4 && k < |u| && u[k] == '\n'
    ensures !(JsonFence <= u)
  {
    assert JsonFence[k] != '\n';
  }

  /** Three characters none of which starts pat where it stands are kept. */
  lemma KeepsThree(c: char, t: string, pat: string)
    requires |pat| > 0
    requires !(pat <= [c] + t) && !(pat <= [c] + ([c] + t)) && !(pat <= [c] + ([c] + ([c] + t)))
    ensures RemoveAll([c] + ([c] + ([c] + t)), pat) == [c] + ([c] + ([c] + RemoveAll(t, pat)))
  {
    RemoveAllKeepsHead(c, t, pat);
    RemoveAllKeepsHead(c, [c] + t, pat);
    RemoveAllKeepsHead(c, [c] + ([c] + t), pat);
  }

  /** "```" + u, spelled one backtick at a time. */
  lemma FenceSpelled(u: string)
    ensures Fence + u == ['`'] + (['`'] + (['`'] + u))
  {
    assert Fence == ['`', '`', '`'];
  }

  /** A bare fence before a line break is not a "```json" fence and stays. */
  lemma FenceKept(t: string)
    requires |t| > 0 && t[0] == '\n'
    ensures RemoveAll(Fence + t, JsonFence) == Fence + RemoveAll(t, JsonFence)
  {
    NotJsonFence(['`'] + t, 1);
    NotJsonFence(['`'] + (['`'] + t), 2);
    NotJsonFence(['`'] + (['`'] + (['`'] + t)), 3);
    KeepsThree('`', t, JsonFence);
    FenceSpelled(t);
    FenceSpelled(RemoveAll(t, JsonFence));
  }

  lemma PlainFenced(body: string)
    ensures RemoveAll(Fence + "\n" + body + "\n" + Fence, JsonFence) == Fence + RemoveAll("\n" + body + "\n" + Fence, JsonFence)
  {
    var t := "\n" + body + "\n" + Fence;
    assert Fence + "\n" + body + "\n" + Fence == Fence + t;
    FenceKept(t);
  }

  /** A reply wrapped in a "```json" or a bare "```" fence is cleaned to the
      same text as the unwrapped body, when the body has no backtick. */
  lemma FencedPayload(body: string)
    requires NoBacktick(body)
    ensures CleanContent(body) == Trim(body)
    ensures CleanContent(JsonFence + "\n" + body + "\n" + Fence) == CleanContent(body)
    ensures CleanContent(Fence + "\n" + body + "\n" + Fence) == CleanContent(body)
  {
    RemoveAllOfPlain(body, JsonFence);
    RemoveAllOfPlain(body, Fence);
    BodyOfFences(body);
    JsonFenced(body);
    PlainFenced(body);
    var t := "\n" + body + "\n" + Fence;
    RemoveAllOfLeadingMatch(Fence, RemoveAll(t, JsonFence));
  }

  // ------------------------------------------------------------ extraction

  /** `obj.get(name).asInt`: None when the member is missing or not an `Int`. */
  function IntField(members: map<string, JsonValue>, name: string): (r: Option<int>)
    ensures name !in members ==> r.None?
    ensures r.Some? ==> IsInt32(r.value)
  {
    match Get(members, name)
    case None => None
    case Some(v) => AsInt(v)
  }

  /** `obj.get(name).asString`: None when the member is missing or has no
      string form. */
  function StringField(members: map<string, JsonValue>, name: string): (r: Option<string>)
    ensures name !in members ==> r.None?
    ensures name in members && members[name].JString? ==> r == Some(members[name].text)
  {
    match Get(members, name)
    case None => None
    case Some(v) => AsString(v)
  }

  /** One element of the `panels` array as a panel without an image. */
  function ExtractPanel(element: JsonValue): (r: Result<ComicPanel>)
    ensures r.Ok? <==> element.JObject? && IntField(element.members, "panelNumber").Some?
                       && StringField(element.members, "description").Some?
                       && StringField(element.members, "dialogue").Some?
    ensures r.Ok? ==>
              && r.value.panelNumber == IntField(element.members, "panelNumber").value
              && r.value.description == StringField(element.members, "description").value
              && r.value.dialogue == StringField(element.members, "dialogue").value
    ensures r.Ok? ==> r.value.imageUrl.None? && !r.value.isGenerating
  {
    if !element.JObject? then Err("panel is not a JSON object")
    else
      var m := element.members;
      match IntField(m, "panelNumber")
      case None => Err("panelNumber is missing or not an Int")
      case Some(number) =>
        match StringField(m, "description")
        case None => Err("description is missing or not a string")
        case Some(description) =>
          match StringField(m, "dialogue")
          case None => Err("dialogue is missing or not a string")
          case Some(dialogue) => Ok(ComicPanel(number, description, dialogue, None, false))
  }

  /** `panelsArray.map { ... }`: every element in order; the first element
      that fails stops the mapping with its error. */
  function ExtractPanels(elements: seq<JsonValue>): (r: Result<seq<ComicPanel>>)
    ensures r.Ok? <==> forall k :: 0 <= k < |elements| ==> ExtractPanel(elements[k]).Ok?
    ensures r.Ok? ==> |r.value| == |elements|
    ensures r.Ok? ==> forall k :: 0 <= k < |elements| ==> r.value[k] == ExtractPanel(elements[k]).value
    ensures r.Err? ==> exists k :: 0 <= k < |elements| && ExtractPanel(elements[k]).Err?
                        && (forall j :: 0 <= j < k ==> ExtractPanel(elements[j]).Ok?)
                        && r.message == ExtractPanel(elements[k]).message
    decreases |elements|
  {
    if elements == [] then Ok([])
    else
      var rest := elements[1..];
      assert forall k :: 1 <= k < |elements| ==> elements[k] == rest[k - 1];
      match ExtractPanel(elements[0])
      case Err(message) => Err(message)
      case Ok(panel) =>
        match ExtractPanels(rest)
        case Err(message) =>
          var k :| 0 <= k < |rest| && ExtractPanel(rest[k]).Err?
                   && (forall j :: 0 <= j < k ==> ExtractPanel(rest[j]).Ok?)
                   && message == ExtractPanel(rest[k]).message;
          assert ExtractPanel(elements[k + 1]).Err?;
          Err(message)
        case Ok(panels) => Ok([panel] + panels)
  }

  /** The members of a well-formed outline object. */
  predicate HasStoryShape(v: JsonValue) {
    && v.JObject?
    && StringField(v.members, "title").Some?
    && "panels" in v.members && v.members["panels"].JArray?
  }

  /** The story a parsed outline describes. */
  function ExtractStory(v: JsonValue): (r: Result<ComicStory>)
    ensures r.Ok? <==> HasStoryShape(v)
                       && forall k :: 0 <= k < |v.members["panels"].elements| ==>
                            ExtractPanel(v.members["panels"].elements[k]).Ok?
    ensures r.Ok? ==> r.value.title == StringField(v.members, "title").value
    ensures r.Ok? ==> r.value == ComicStory(r.value.title, ExtractPanels(v.members["panels"].elements).value, |r.value.panels|)
  {
    if !v.JObject? then Err("not a JSON object")
    else
      var m := v.members;
      match StringField(m, "title")
      case None => Err("title is missing or not a string")
      case Some(title) =>
        if "panels" !in m || !m["panels"].JArray? then Err("panels is missing or not an array")
        else
          match ExtractPanels(m["panels"].elements)
          case Err(message) => Err(message)
          case Ok(panels) => Ok(ComicStory(title, panels, |panels|))
  }

  /** `parseStoryResponse(content)`, given what Gson's `parseString` makes of
      a text (None where it throws). */
  function ParseStoryResponse(content: string, parseJson: string -> Option<JsonValue>): (r: Result<ComicStory>)
    ensures r.Err? ==> ParseFailure <= r.message
    ensures r.Ok? <==> parseJson(CleanContent(content)).Some? && ExtractStory(parseJson(CleanContent(content)).value).Ok?
    ensures r.Ok? ==> r == ExtractStory(parseJson(CleanContent(content)).value)
  {
    match parseJson(CleanContent(content))
    case None => Err(ParseFailure + "malformed JSON")
    case Some(v) =>
      match ExtractStory(v)
      case Ok(story) => Ok(story)
      case Err(message) => Err(ParseFailure + message)
  }

  // ---------------------------------------------------------------- lemmas

  /** A parse result that is an error carrying the parser's prefix. */
  predicate Rejected(r: Result<ComicStory>) {
    r.Err? && ParseFailure <= r.message
  }

  /** An outline the parser accepts has one panel per array element, in
      order, `totalPanels` equal to their number, `panelNumber` copied as
      written, and no image on any panel. */
  lemma ParsedStoryFollowsArray(content: string, parseJson: string -> Option<JsonValue>)
    requires ParseStoryResponse(content, parseJson).Ok?
    ensures parseJson(CleanContent(content)).Some?
    ensures HasStoryShape(parseJson(CleanContent(content)).value)
    ensures var story := ParseStoryResponse(content, parseJson).value;
            var elements := parseJson(CleanContent(content)).value.members["panels"].elements;
            && story.totalPanels == |story.panels| == |elements|
            && (forall k :: 0 <= k < |elements| ==>
                  && elements[k].JObject?
                  && Some(story.panels[k].panelNumber) == IntField(elements[k].members, "panelNumber")
                  && Some(story.panels[k].description) == StringField(elements[k].members, "description")
                  && Some(story.panels[k].dialogue) == StringField(elements[k].members, "dialogue"))
            && (forall k :: 0 <= k < |story.panels| ==> story.panels[k].imageUrl.None?)
  {
    var v := parseJson(CleanContent(content)).value;
    assert ParseStoryResponse(content, parseJson) == ExtractStory(v);
    ExtractedStoryFollowsArray(v);
  }

  /** The tree-level half of `ParsedStoryFollowsArray`. */
  lemma ExtractedStoryFollowsArray(v: JsonValue)
    requires ExtractStory(v).Ok?
    ensures HasStoryShape(v)
    ensures var story := ExtractStory(v).value;
            var elements := v.members["panels"].elements;
            && story.totalPanels == |story.panels| == |elements|
            && (forall k :: 0 <= k < |elements| ==>
                  && elements[k].JObject?
                  && Some(story.panels[k].panelNumber) == IntField(elements[k].members, "panelNumber")
                  && Some(story.panels[k].description) == StringField(elements[k].members, "description")
                  && Some(story.panels[k].dialogue) == StringField(elements[k].members, "dialogue"))
            && (forall k :: 0 <= k < |story.panels| ==> story.panels[k].imageUrl.None?)
  {
    var story := ExtractStory(v).value;
    var elements := v.members["panels"].elements;
    var panels := ExtractPanels(elements);
    assert story.panels == panels.value;
    forall k | 0 <= k < |elements|
      ensures ExtractPanel(elements[k]).Ok? && story.panels[k] == ExtractPanel(elements[k]).value
    {
    }
  }

  /** Unparsable text and a value other than an object are rejected. */
  lemma ParseRejectsNonObject(content: string, parseJson: string -> Option<JsonValue>)
    requires parseJson(CleanContent(content)).None? || !parseJson(CleanContent(content)).value.JObject?
    ensures Rejected(ParseStoryResponse(content, parseJson))
  {
  }

  /** A panel element the parser cannot read: not an object, or one of the
      three fields missing or of the wrong kind. */
  predicate PanelIncomplete(element: JsonValue) {
    || !element.JObject?
    || IntField(element.members, "panelNumber").None?
    || StringField(element.members, "description").None?
    || StringField(element.members, "dialogue").None?
  }

  /** An object without a usable `title`, without a `panels` array, or with
      any panel lacking a field is rejected. */
  lemma ParseRejectsIncomplete(content: string, parseJson: string -> Option<JsonValue>, members: map<string, JsonValue>)
    requires parseJson(CleanContent(content)) == Some(JObject(members))
    ensures StringField(members, "title").None? ==> Rejected(ParseStoryResponse(content, parseJson))
    ensures "panels" !in members || !members["panels"].JArray? ==> Rejected(ParseStoryResponse(content, parseJson))
    ensures "panels" in members && members["panels"].JArray? ==>
              forall k :: 0 <= k < |members["panels"].elements| && PanelIncomplete(members["panels"].elements[k]) ==>
                Rejected(ParseStoryResponse(content, parseJson))
  {
    var v := JObject(members);
    if "panels" in members && members["panels"].JArray? {
      var elements := members["panels"].elements;
      forall k | 0 <= k < |elements| && PanelIncomplete(elements[k])
        ensures Rejected(ParseStoryResponse(content, parseJson))
      {
        assert ExtractPanel(elements[k]).Err?;
        assert ExtractStory(v).Err?;
      }
    }
  }

  /** Gson's `getAsString` turns a number, a boolean or a one-element array
      into text, so such a `title` is accepted as that text. */
  lemma TitleIsCoerced(members: map<string, JsonValue>, lexeme: string, b: bool)
    ensures "title" in members && members["title"] == JNumber(lexeme) ==> StringField(members, "title") == Some(lexeme)
    ensures "title" in members && members["title"] == JBool(b) ==> StringField(members, "title") == Some(BoolText(b))
    ensures "title" in members && members["title"] == JArray([JString(lexeme)]) ==> StringField(members, "title") == Some(lexeme)
  {
  }

  // ------------------------------------------------------------ round trip

  /** A panel as the parser returns it: no image, not generating. */
  function Unillustrated(p: ComicPanel): ComicPanel
  {
    p.(imageUrl := None, isGenerating := false)
  }

  function UnillustratedPanels(ps: seq<ComicPanel>): (r: seq<ComicPanel>)
    ensures |r| == |ps|
  {
    seq(|ps|, k requires 0 <= k < |ps| => Unillustrated(ps[k]))
  }

  /** The JSON form of a panel that the system prompt asks the model for. */
  function PanelJson(p: ComicPanel): JsonValue
  {
    JObject(map[
      "panelNumber" := JNumber(IntToString(p.panelNumber)),
      "description" := JString(p.description),
      "dialogue" := JString(p.dialogue)])
  }

  /** The JSON form of a story that the system prompt asks the model for. */
  function StoryJson(s: ComicStory): JsonValue
  {
    JObject(map[
      "title" := JString(s.title),
      "panels" := JArray(seq(|s.panels|, k requires 0 <= k < |s.panels| => PanelJson(s.panels[k])))])
  }

  lemma ExtractPanelOfPanelJson(p: ComicPanel)
    requires IsInt32(p.panelNumber)
    ensures ExtractPanel(PanelJson(p)) == Ok(Unillustrated(p))
  {
    AsIntOfIntText(p.panelNumber);
  }

  /** Reading back the JSON form of a story gives the story with its images
      dropped and `totalPanels` set to the number of panels. */
  lemma ExtractStoryOfStoryJson(s: ComicStory)
    requires forall k :: 0 <= k < |s.panels| ==> IsInt32(s.panels[k].panelNumber)
    ensures ExtractStory(StoryJson(s)) == Ok(ComicStory(s.title, UnillustratedPanels(s.panels), |s.panels|))
  {
    var v := StoryJson(s);
    var elements := v.members["panels"].elements;
    forall k | 0 <= k < |elements| ensures ExtractPanel(elements[k]) == Ok(Unillustrated(s.panels[k])) {
      ExtractPanelOfPanelJson(s.panels[k]);
    }
    assert ExtractPanels(elements).value == UnillustratedPanels(s.panels);
  }

  /** Whatever fence and whitespace surround it, a reply the parser turns
      into the JSON form of a story yields that story. */
  lemma ParseOfStoryJson(content: string, parseJson: string -> Option<JsonValue>, s: ComicStory)
    requires forall k :: 0 <= k < |s.panels| ==> IsInt32(s.panels[k].panelNumber)
    requires parseJson(CleanContent(content)) == Some(StoryJson(s))
    ensures ParseStoryResponse(content, parseJson) == Ok(ComicStory(s.title, UnillustratedPanels(s.panels), |s.panels|))
  {
    ExtractStoryOfStoryJson(s);
  }
}
