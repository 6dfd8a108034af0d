/** The prompt texts the repository sends (repository/ComicRepository.kt):
    the system and user messages of the outline request and the image
    prompt for a panel. Each is a Kotlin raw string template whose lines are
    indented 12 spaces, whose closing quotes stand after 8 spaces, and whose
    text goes through `trimIndent()` after interpolation. Long literal lines
    are written as concatenations of short pieces. */
module Prompts {
  import opened JavaNumbers
  import opened KotlinText
  import opened Model

  const TemplateIndent: nat := 12
  const ClosingIndent: nat := 8

  /** A raw string template as the program evaluates it. */
  function Template(ls: seq<string>): string
  {
    TrimIndent(RawBlock(ls, TemplateIndent, ClosingIndent))
  }

  lemma IntTextNoBreak(n: int)
    ensures NoBreak(IntToString(n))
  {
    var s := IntToString(n);
    forall c | c in s ensures c != '\n' && c != '\r' {
      var j :| 0 <= j < |s| && s[j] == c;
      if n >= 0 {
        assert IsDigit(s[j]);
      } else if j > 0 {
        assert s[j] == NatToString(-n)[j - 1];
        assert IsDigit(s[j]);
      }
    }
  }

  /** The template's lines, read back: `trimIndent` leaves exactly the lines
      as written when no interpolated text breaks a line. */
  lemma TemplateText(ls: seq<string>)
    requires |ls| >= 1
    requires forall k :: 0 <= k < |ls| ==> NoBreak(ls[k])
    requires |ls[0]| > 0 && !IsWhitespace(ls[0][0])
    ensures Template(ls) == JoinLines(ls)
    ensures Lines(Template(ls)) == ls
  {
    TrimIndentOfRawBlock(ls, TemplateIndent, ClosingIndent);
    LinesOfJoinLines(ls);
  }

  // ---------------------------------------------------------- image prompt

  // The template's long lines are written as concatenations of short
  // literals. The text is the same as one literal; short pieces keep the
  // verifier's reasoning about each character cheap.
  const ImageDirective: string := "Comic book style " + "illustration: "
  const StyleLine1: string := "Style: Colorful, " + "vibrant comic book " + "art style suitable " + "for children."
  const StyleLine2: string := "Clean lines, bright " + "colors, friendly " + "and engaging."
  const StyleLine3: string := "Professional comic " + "book illustration."

  function ImagePromptLines(description: string): seq<string>
  {
    [ImageDirective + description, "", StyleLine1, StyleLine2, StyleLine3]
  }

  /** `buildImagePrompt(panel)`. */
  function BuildImagePrompt(panel: ComicPanel): string
  {
    Template(ImagePromptLines(panel.description))
  }

  // One lemma per template line shows that it holds no line break: each
  // short piece is checked on its own and the pieces are then joined with
  // `NoBreakConcat`, which costs far less than checking the whole line at
  // once.

  lemma ImageDirectiveNoBreak()
    ensures NoBreak(ImageDirective)
  {
    assert NoBreak("Comic book style ");
    assert NoBreak("illustration: ");
    NoBreakConcat("Comic book style ", "illustration: ");
  }

  lemma StyleLine1NoBreak()
    ensures NoBreak(StyleLine1)
  {
    assert NoBreak("Style: Colorful, ");
    assert NoBreak("vibrant comic book ");
    assert NoBreak("art style suitable ");
    assert NoBreak("for children.");
    NoBreakConcat("Style: Colorful, ", "vibrant comic book ");
    NoBreakConcat("Style: Colorful, " + "vibrant comic book ", "art style suitable ");
    NoBreakConcat("Style: Colorful, " + "vibrant comic book " + "art style suitable ", "for children.");
  }

  lemma StyleLine2NoBreak()
    ensures NoBreak(StyleLine2)
  {
    assert NoBreak("Clean lines, bright ");
    assert NoBreak("colors, friendly ");
    assert NoBreak("and engaging.");
    NoBreakConcat("Clean lines, bright ", "colors, friendly ");
    NoBreakConcat("Clean lines, bright " + "colors, friendly ", "and engaging.");
  }

  lemma StyleLine3NoBreak()
    ensures NoBreak(StyleLine3)
  {
    assert NoBreak("Professional comic ");
    assert NoBreak("book illustration.");
    NoBreakConcat("Professional comic ", "book illustration.");
  }

  lemma JoinFive(a: string, b: string, c: string, d: string, e: string)
    ensures JoinLines([a, b, c, d, e]) == a + "\n" + b + "\n" + c + "\n" + d + "\n" + e
  {
    var ls := [a, b, c, d, e];
    assert ls[1..] == [b, c, d, e];
    assert ls[1..][1..] == [c, d, e];
    assert ls[1..][1..][1..] == [d, e];
    assert ls[1..][1..][1..][1..] == [e];
    assert JoinLines([d, e]) == d + "\n" + e;
    assert JoinLines([c, d, e]) == c + "\n" + (d + "\n" + e);
    assert JoinLines([b, c, d, e]) == b + "\n" + (c + "\n" + (d + "\n" + e));
    assert JoinLines(ls) == a + "\n" + (b + "\n" + (c + "\n" + (d + "\n" + e)));
  }

  /** A line, an empty line and three more lines, joined. */
  lemma ParagraphText(a: string, c: string, d: string, e: string)
    ensures JoinLines([a, "", c, d, e]) == a + "\n\n" + c + "\n" + d + "\n" + e
    ensures a <= JoinLines([a, "", c, d, e])
  {
    JoinFive(a, "", c, d, e);
    assert a + "\n" + "" + "\n" == a + "\n\n";
  }

  /** For a one-line description the image prompt is the style directive,
      the description, an empty line and the three style lines. */
  lemma ImagePromptText(panel: ComicPanel)
    requires NoBreak(panel.description)
    ensures BuildImagePrompt(panel)
         == ImageDirective + panel.description + "\n\n" + StyleLine1 + "\n" + StyleLine2 + "\n" + StyleLine3
    ensures ImageDirective + panel.description <= BuildImagePrompt(panel)
  {
    var ls := ImagePromptLines(panel.description);
    ImageDirectiveNoBreak();
    StyleLine1NoBreak();
    StyleLine2NoBreak();
    StyleLine3NoBreak();
    NoBreakConcat(ImageDirective, panel.description);
    forall k | 0 <= k < |ls| ensures NoBreak(ls[k]) {
    }
    TemplateText(ls);
    ParagraphText(ImageDirective + panel.description, StyleLine1, StyleLine2, StyleLine3);
  }

  /** Text inserted with a break in it, regrouped around that break. */
  lemma BreakRegroup(h: string, a: string, b: string, q: string)
    ensures h + (a + "\n" + b) == (h + a) + "\n" + b
    ensures h + (a + "\n" + b) + q == (h + a) + "\n" + (b + q)
  {
  }

  lemma ImageDirectiveStart()
    ensures |ImageDirective| > 0 && ImageDirective[0] == 'C'
  {
  }

  /** A text that starts with the template indent does not start with a
      line that begins with a letter. */
  lemma IndentedNotPrefix(d: string, x: string, s: string)
    requires |d| > 0 && d[0] != ' '
    requires Spaces(TemplateIndent) + x <= s
    ensures !(d <= s)
  {
    assert s[0] == Spaces(TemplateIndent)[0] == ' ';
  }

  /** The image prompt's lines after the first are free of breaks. */
  lemma ImageTailNoBreak(description: string)
    ensures forall k :: 0 <= k < |ImagePromptLines(description)[1..]| ==> NoBreak(ImagePromptLines(description)[1..][k])
  {
    StyleLine1NoBreak();
    StyleLine2NoBreak();
    StyleLine3NoBreak();
    var ls := ImagePromptLines(description)[1..];
    forall k | 0 <= k < |ls| ensures NoBreak(ls[k]) {
    }
  }

  /** A description that breaks onto a line at column 0 keeps the whole
      template indented: the prompt then starts with twelve spaces, not with
      the style directive. */
  lemma ImagePromptOfBrokenDescription(panel: ComicPanel, a: string, b: string)
    requires panel.description == a + "\n" + b
    requires NoBreak(a) && NoBreak(b) && |b| > 0 && !IsWhitespace(b[0])
    ensures Spaces(TemplateIndent) + ImageDirective + a <= BuildImagePrompt(panel)
    ensures !(ImageDirective <= BuildImagePrompt(panel))
  {
    var x := ImageDirective + a;
    var ls := ImagePromptLines(panel.description);
    ImageDirectiveNoBreak();
    NoBreakConcat(ImageDirective, a);
    BreakRegroup(ImageDirective, a, b, "");
    assert ls == [x + "\n" + b] + ls[1..];
    ImageTailNoBreak(panel.description);
    TrimIndentOfBrokenFirstLine(x, b, ls[1..], TemplateIndent, ClosingIndent);
    ImageDirectiveStart();
    IndentedNotPrefix(ImageDirective, x, BuildImagePrompt(panel));
  }

  // ------------------------------------------------------- outline prompts

  // Long lines are split into short literals here too, for the same reason
  // as the image prompt's.
  const SystemIntro: string := "You are a creative " + "children's comic " + "book writer. Create " + "engaging, " + "age-appropriate " + "stories."
  const SystemFormat: string := "Return ONLY a valid " + "JSON object with " + "this structure:"
  const SchemaTitle: string := "  \"title\": " + "\"Comic Title\","
  const SchemaNumber: string := "      \"panelNumber" + "\": 1,"
  const SchemaDescription: string := "      \"description" + "\": \"Visual " + "description of " + "what's happening\","
  const SchemaDialogue: string := "      \"dialogue\": " + "\"Character dialogue " + "or narration\""

  function CountLine(panelCount: int): string
  {
    "Generate a comic " + "story with exactly " + IntToString(panelCount) + " panels."
  }

  /** The lines of the system message, with the JSON shape the model must
      answer in. */
  function SystemPromptLines(panelCount: int): seq<string>
  {
    [ SystemIntro,
      CountLine(panelCount),
      "",
      SystemFormat,
      "{",
      SchemaTitle,
      "  \"panels\": [",
      "    {",
      SchemaNumber,
      SchemaDescription,
      SchemaDialogue,
      "    }",
      "  ]",
      "}" ]
  }

  function SystemPrompt(panelCount: int): string
  {
    Template(SystemPromptLines(panelCount))
  }

  function TopicLine(prompt: string, childAge: int): string
  {
    "Create a " + IntToString(childAge) + "-year-old " + "appropriate comic " + "story about: \"" + prompt + "\""
  }

  function ExactlyLine(panelCount: int): string
  {
    "- Exactly " + IntToString(panelCount) + " panels"
  }

  function AgeLine(childAge: int): string
  {
    "- Age-appropriate " + "for " + IntToString(childAge) + " years old"
  }

  const RequirementsHeading: string := "Requirements:"
  const RequirementFun: string := "- Engaging and fun"
  const RequirementVisual: string := "- Each panel should " + "have clear visual " + "description and " + "dialogue"
  const RequirementArc: string := "- Story should have " + "beginning, middle, " + "and end"
  const ClosingLine: string := "Return only the " + "JSON, no other text."

  /** The lines of the user message. */
  function UserPromptLines(request: ComicRequest, panelCount: int): seq<string>
  {
    [ TopicLine(request.prompt, request.childAge),
      "",
      RequirementsHeading,
      ExactlyLine(panelCount),
      AgeLine(request.childAge),
      RequirementFun,
      RequirementVisual,
      RequirementArc,
      "",
      ClosingLine ]
  }

  function UserPrompt(request: ComicRequest, panelCount: int): string
  {
    Template(UserPromptLines(request, panelCount))
  }

  // As for the image prompt: the outline templates' long lines are split
  // into short literals above, and each line gets its own lemma showing
  // that it holds no line break, joined piece by piece, so that no single
  // proof has to reason about a whole long line.

  lemma SystemIntroNoBreak()
    ensures NoBreak(SystemIntro)
  {
    assert NoBreak("You are a creative ");
    assert NoBreak("children's comic ");
    assert NoBreak("book writer. Create ");
    assert NoBreak("engaging, ");
    assert NoBreak("age-appropriate ");
    assert NoBreak("stories.");
    NoBreakConcat("You are a creative ", "children's comic ");
    NoBreakConcat("You are a creative " + "children's comic ", "book writer. Create ");
    NoBreakConcat("You are a creative " + "children's comic " + "book writer. Create ", "engaging, ");
    NoBreakConcat("You are a creative " + "children's comic " + "book writer. Create " + "engaging, ", "age-appropriate ");
    NoBreakConcat("You are a creative " + "children's comic " + "book writer. Create " + "engaging, " + "age-appropriate ", "stories.");
  }

  lemma SystemFormatNoBreak()
    ensures NoBreak(SystemFormat)
  {
    assert NoBreak("Return ONLY a valid ");
    assert NoBreak("JSON object with ");
    assert NoBreak("this structure:");
    NoBreakConcat("Return ONLY a valid ", "JSON object with ");
    NoBreakConcat("Return ONLY a valid " + "JSON object with ", "this structure:");
  }

  lemma SchemaTitleNoBreak()
    ensures NoBreak(SchemaTitle)
  {
    assert NoBreak("  \"title\": ");
    assert NoBreak("\"Comic Title\",");
    NoBreakConcat("  \"title\": ", "\"Comic Title\",");
  }

  lemma SchemaNumberNoBreak()
    ensures NoBreak(SchemaNumber)
  {
    assert NoBreak("      \"panelNumber");
    assert NoBreak("\": 1,");
    NoBreakConcat("      \"panelNumber", "\": 1,");
  }

  lemma SchemaDescriptionNoBreak()
    ensures NoBreak(SchemaDescription)
  {
    assert NoBreak("      \"description");
    assert NoBreak("\": \"Visual ");
    assert NoBreak("description of ");
    assert NoBreak("what's happening\",");
    NoBreakConcat("      \"description", "\": \"Visual ");
    NoBreakConcat("      \"description" + "\": \"Visual ", "description of ");
    NoBreakConcat("      \"description" + "\": \"Visual " + "description of ", "what's happening\",");
  }

  lemma SchemaDialogueNoBreak()
    ensures NoBreak(SchemaDialogue)
  {
    assert NoBreak("      \"dialogue\": ");
    assert NoBreak("\"Character dialogue ");
    assert NoBreak("or narration\"");
    NoBreakConcat("      \"dialogue\": ", "\"Character dialogue ");
    NoBreakConcat("      \"dialogue\": " + "\"Character dialogue ", "or narration\"");
  }

  lemma SchemaBracketsNoBreak()
    ensures NoBreak("{") && NoBreak("  \"panels\": [") && NoBreak("    {")
  {
  }

  lemma SchemaClosersNoBreak()
    ensures NoBreak("    }") && NoBreak("  ]") && NoBreak("}") && NoBreak("")
  {
  }

  lemma CountLineNoBreak(panelCount: int)
    ensures NoBreak(CountLine(panelCount))
  {
    var n := IntToString(panelCount);
    IntTextNoBreak(panelCount);
    assert NoBreak("Generate a comic ");
    assert NoBreak("story with exactly ");
    assert NoBreak(" panels.");
    NoBreakConcat("Generate a comic ", "story with exactly ");
    NoBreakConcat("Generate a comic " + "story with exactly ", n);
    NoBreakConcat("Generate a comic " + "story with exactly " + n, " panels.");
  }

  lemma SystemLinesNoBreak(panelCount: int)
    ensures forall k :: 0 <= k < |SystemPromptLines(panelCount)| ==> NoBreak(SystemPromptLines(panelCount)[k])
  {
    SystemIntroNoBreak();
    CountLineNoBreak(panelCount);
    SystemFormatNoBreak();
    SchemaTitleNoBreak();
    SchemaNumberNoBreak();
    SchemaDescriptionNoBreak();
    SchemaDialogueNoBreak();
    SchemaBracketsNoBreak();
    SchemaClosersNoBreak();
    var ls := SystemPromptLines(panelCount);
    forall k | 0 <= k < |ls| ensures NoBreak(ls[k]) {
    }
  }

  lemma TopicHeadNoBreak(age: string)
    requires NoBreak(age)
    ensures NoBreak("Create a " + age + "-year-old " + "appropriate comic " + "story about: \"")
  {
    assert NoBreak("Create a ");
    assert NoBreak("-year-old ");
    assert NoBreak("appropriate comic ");
    assert NoBreak("story about: \"");
    NoBreakConcat("Create a ", age);
    NoBreakConcat("Create a " + age, "-year-old ");
    NoBreakConcat("Create a " + age + "-year-old ", "appropriate comic ");
    NoBreakConcat("Create a " + age + "-year-old " + "appropriate comic ", "story about: \"");
  }

  lemma TopicLineNoBreak(prompt: string, childAge: int)
    requires NoBreak(prompt)
    ensures NoBreak(TopicLine(prompt, childAge))
  {
    var age := IntToString(childAge);
    var head := "Create a " + age + "-year-old " + "appropriate comic " + "story about: \"";
    IntTextNoBreak(childAge);
    TopicHeadNoBreak(age);
    assert NoBreak("\"");
    NoBreakConcat(head, prompt);
    NoBreakConcat(head + prompt, "\"");
  }

  lemma ExactlyLineNoBreak(panelCount: int)
    ensures NoBreak(ExactlyLine(panelCount))
  {
    IntTextNoBreak(panelCount);
    NoBreakConcat("- Exactly ", IntToString(panelCount));
    NoBreakConcat("- Exactly " + IntToString(panelCount), " panels");
  }

  lemma AgeLineNoBreak(childAge: int)
    ensures NoBreak(AgeLine(childAge))
  {
    var age := IntToString(childAge);
    IntTextNoBreak(childAge);
    assert NoBreak("- Age-appropriate ");
    assert NoBreak("for ");
    assert NoBreak(" years old");
    NoBreakConcat("- Age-appropriate ", "for ");
    NoBreakConcat("- Age-appropriate " + "for ", age);
    NoBreakConcat("- Age-appropriate " + "for " + age, " years old");
  }

  lemma RequirementVisualNoBreak()
    ensures NoBreak(RequirementVisual)
  {
    assert NoBreak("- Each panel should ");
    assert NoBreak("have clear visual ");
    assert NoBreak("description and ");
    assert NoBreak("dialogue");
    NoBreakConcat("- Each panel should ", "have clear visual ");
    NoBreakConcat("- Each panel should " + "have clear visual ", "description and ");
    NoBreakConcat("- Each panel should " + "have clear visual " + "description and ", "dialogue");
  }

  lemma RequirementArcNoBreak()
    ensures NoBreak(RequirementArc)
  {
    assert NoBreak("- Story should have ");
    assert NoBreak("beginning, middle, ");
    assert NoBreak("and end");
    NoBreakConcat("- Story should have ", "beginning, middle, ");
    NoBreakConcat("- Story should have " + "beginning, middle, ", "and end");
  }

  lemma ClosingLineNoBreak()
    ensures NoBreak(ClosingLine)
  {
    assert NoBreak("Return only the ");
    assert NoBreak("JSON, no other text.");
    NoBreakConcat("Return only the ", "JSON, no other text.");
  }

  lemma UserFixedLinesNoBreak()
    ensures NoBreak("") && NoBreak(RequirementsHeading) && NoBreak(RequirementFun)
  {
  }

  lemma UserLinesNoBreak(request: ComicRequest, panelCount: int)
    requires NoBreak(request.prompt)
    ensures forall k :: 0 <= k < |UserPromptLines(request, panelCount)| ==> NoBreak(UserPromptLines(request, panelCount)[k])
  {
    TopicLineNoBreak(request.prompt, request.childAge);
    UserTailNoBreak(request, panelCount);
    var ls := UserPromptLines(request, panelCount);
    forall k | 0 <= k < |ls| ensures NoBreak(ls[k]) {
      if k > 0 {
        assert ls[k] == ls[1..][k - 1];
      }
    }
  }

  /** Every line of the user message after the first is free of breaks,
      whatever the idea. */
  lemma UserTailNoBreak(request: ComicRequest, panelCount: int)
    ensures forall k :: 0 <= k < |UserPromptLines(request, panelCount)[1..]| ==> NoBreak(UserPromptLines(request, panelCount)[1..][k])
  {
    ExactlyLineNoBreak(panelCount);
    AgeLineNoBreak(request.childAge);
    RequirementVisualNoBreak();
    RequirementArcNoBreak();
    ClosingLineNoBreak();
    UserFixedLinesNoBreak();
    var ls := UserPromptLines(request, panelCount)[1..];
    forall k | 0 <= k < |ls| ensures NoBreak(ls[k]) {
    }
  }

  /** The system message states the panel count on its second line. */
  lemma SystemPromptStatesCount(panelCount: int)
    ensures SystemPrompt(panelCount) == JoinLines(SystemPromptLines(panelCount))
    ensures Lines(SystemPrompt(panelCount)) == SystemPromptLines(panelCount)
    ensures Lines(SystemPrompt(panelCount))[1] == "Generate a comic " + "story with exactly " + IntToString(panelCount) + " panels."
  {
    var ls := SystemPromptLines(panelCount);
    SystemLinesNoBreak(panelCount);
    assert ls[0] == SystemIntro;
    assert SystemIntro[0] == 'Y';
    assert ls[1] == CountLine(panelCount);
    TemplateText(ls);
  }

  /** For a one-line idea the user message is its lines as written. */
  lemma UserPromptText(request: ComicRequest, panelCount: int)
    requires NoBreak(request.prompt)
    ensures UserPrompt(request, panelCount) == JoinLines(UserPromptLines(request, panelCount))
    ensures Lines(UserPrompt(request, panelCount)) == UserPromptLines(request, panelCount)
  {
    var ls := UserPromptLines(request, panelCount);
    UserLinesNoBreak(request, panelCount);
    assert ls[0] == TopicLine(request.prompt, request.childAge);
    assert ls[0][0] == 'C';
    TemplateText(ls);
  }

  /** The k-th line of a text read back as ls is ls[k]. */
  lemma LineAt(text: string, ls: seq<string>, k: nat, line: string)
    requires Lines(text) == ls && k < |ls| && ls[k] == line
    ensures k < |Lines(text)| && Lines(text)[k] == line
  {
  }

  /** For a one-line idea the first line of the user message names the
      child's age and the idea. */
  lemma UserPromptStatesTopic(request: ComicRequest, panelCount: int)
    requires NoBreak(request.prompt)
    ensures |Lines(UserPrompt(request, panelCount))| == 10
    ensures Lines(UserPrompt(request, panelCount))[0]
         == "Create a " + IntToString(request.childAge) + "-year-old " + "appropriate comic " + "story about: \"" + request.prompt + "\""
  {
    UserPromptText(request, panelCount);
    LineAt(UserPrompt(request, panelCount), UserPromptLines(request, panelCount), 0, TopicLine(request.prompt, request.childAge));
  }

  /** The user message read back at one of its lines, for a one-line idea. */
  lemma UserPromptLine(request: ComicRequest, panelCount: int, k: nat)
    requires NoBreak(request.prompt) && k < 10
    ensures |Lines(UserPrompt(request, panelCount))| == 10
    ensures Lines(UserPrompt(request, panelCount))[k] == UserPromptLines(request, panelCount)[k]
  {
    UserPromptText(request, panelCount);
    LineAt(UserPrompt(request, panelCount), UserPromptLines(request, panelCount), k, UserPromptLines(request, panelCount)[k]);
  }

  /** The count and age lines of the user message, spelled out. */
  lemma UserLinesSpelled(request: ComicRequest, panelCount: int)
    ensures |UserPromptLines(request, panelCount)| == 10
    ensures UserPromptLines(request, panelCount)[3] == "- Exactly " + IntToString(panelCount) + " panels"
    ensures UserPromptLines(request, panelCount)[4] == "- Age-appropriate " + "for " + IntToString(request.childAge) + " years old"
  {
    var ls := UserPromptLines(request, panelCount);
    assert ls[3] == ExactlyLine(panelCount);
    assert ls[4] == AgeLine(request.childAge);
  }

  /** For a one-line idea the fourth line of the user message asks for the
      planned number of panels. */
  lemma UserPromptStatesCount(request: ComicRequest, panelCount: int)
    requires NoBreak(request.prompt)
    ensures |Lines(UserPrompt(request, panelCount))| == 10
    ensures Lines(UserPrompt(request, panelCount))[3] == "- Exactly " + IntToString(panelCount) + " panels"
  {
    UserPromptLine(request, panelCount, 3);
    UserLinesSpelled(request, panelCount);
  }

  /** For a one-line idea the fifth line of the user message names the
      child's age again. */
  lemma UserPromptStatesAge(request: ComicRequest, panelCount: int)
    requires NoBreak(request.prompt)
    ensures |Lines(UserPrompt(request, panelCount))| == 10
    ensures Lines(UserPrompt(request, panelCount))[4] == "- Age-appropriate " + "for " + IntToString(request.childAge) + " years old"
  {
    UserPromptLine(request, panelCount, 4);
    UserLinesSpelled(request, panelCount);
  }

  /** The topic line of an idea with a break in it, split at that break. */
  lemma TopicLineBroken(a: string, b: string, childAge: int)
    requires NoBreak(a) && NoBreak(b)
    ensures var head := "Create a " + IntToString(childAge) + "-year-old " + "appropriate comic " + "story about: \"";
            && TopicLine(a + "\n" + b, childAge) == (head + a) + "\n" + (b + "\"")
            && NoBreak(head + a) && NoBreak(b + "\"")
  {
    var age := IntToString(childAge);
    var head := "Create a " + age + "-year-old " + "appropriate comic " + "story about: \"";
    IntTextNoBreak(childAge);
    TopicHeadNoBreak(age);
    NoBreakConcat(head, a);
    assert NoBreak("\"");
    NoBreakConcat(b, "\"");
    BreakRegroup(head, a, b, "\"");
  }

  /** An idea that breaks onto a line at column 0 keeps the whole user
      message indented: it starts with twelve spaces, so its first line is
      not the topic line as written. */
  lemma UserPromptOfBrokenIdea(request: ComicRequest, panelCount: int, a: string, b: string)
    requires request.prompt == a + "\n" + b
    requires NoBreak(a) && NoBreak(b) && |b| > 0 && !IsWhitespace(b[0])
    ensures Spaces(TemplateIndent)
            + ("Create a " + IntToString(request.childAge) + "-year-old " + "appropriate comic " + "story about: \"" + a)
            <= UserPrompt(request, panelCount)
    ensures !("Create a " <= UserPrompt(request, panelCount))
  {
    var head := "Create a " + IntToString(request.childAge) + "-year-old " + "appropriate comic " + "story about: \"";
    TopicLineBroken(a, b, request.childAge);
    var ls := UserPromptLines(request, panelCount);
    var x, y := head + a, b + "\"";
    assert ls == [x + "\n" + y] + ls[1..];
    UserTailNoBreak(request, panelCount);
    TrimIndentOfBrokenFirstLine(x, y, ls[1..], TemplateIndent, ClosingIndent);
    IndentedNotPrefix("Create a ", x, UserPrompt(request, panelCount));
  }
}
