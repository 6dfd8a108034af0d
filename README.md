# Comic-gen in Dafny

A model of the logic of the Comic-gen Android app. The app turns a comic idea, a
reading time and a child's age into a comic:

- `ComicRepository` plans how many panels the story gets.
- It writes the system and user prompts of a chat request and reads the story outline out of
  the JSON the chat model answers with.
- It writes one image prompt per panel and decides what each network reply means.
- `ComicViewModel` runs one attempt as a state machine. It validates the input, asks for the
  outline, fetches one image per panel in order, and assigns a `UiState` at every step.

Files, in dependency order:

| file | models |
|---|---|
| `Wrappers.dfy` | `Option` and `Result` (an error carries its message) |
| `JavaNumbers.dfy` | 32-bit `Int` wrap-around, `Int.toString()`, `Integer.parseInt`, `Long.parseLong`, `BigDecimal.toBigInteger()`, `(t / 2.0).toInt()` |
| `KotlinText.dfy` | `isWhitespace`, `isBlank`, `trim`, `replace(old, "")`, `lines()`, `joinToString("\n")`, `trimIndent()` and the text of a raw string template |
| `Json.dfy` | JSON values as Gson holds them, and Gson's `get`, `getAsString` and `getAsInt` |
| `Model.dfy` | `ComicPanel`, `ComicStory`, `ComicRequest` |
| `Api.dfy` | the request and response records of the two OpenAI endpoints |
| `PanelPlan.dfy` | `calculatePanelCount` |
| `Prompts.dfy` | the system prompt, the user prompt and `buildImagePrompt` |
| `StoryParser.dfy` | `parseStoryResponse` |
| `Repository.dfy` | the two requests, the HTTP calls that carry them with their `Authorization` header, and the result decisions of `generateStoryStructure`, `generateComic` and `generateImageForPanel` |
| `ViewModel.dfy` | `UiState`, and the class `ComicViewModel` with `generateComic`, `generateImagesForPanels` and `reset` |

The repository's functions are pure and are modelled as functions. The view model is
imperative and is modelled as a class:

- `state` is the current `UiState`.
- A ghost `trace` records every state assigned to `_uiState.value`.
- A ghost `calls` records every call made to the repository, with the state that was current
  while it ran. `Repository.HttpCall` gives the HTTP call each one sends.
- `generateImagesForPanels` is a loop that appends to `updated`.

Each method is proved against a specification function: `AttemptTrace` and `AttemptCalls` for
`generateComic`, and `ImagePhase` and `ImageCalls` for the image loop. Lemmas then state what
those functions promise.

Where the code and its description differ, the model follows the code:

- Gson's `getAsString` turns a number, a boolean or a one-element array into text. So a `title`
  of such a kind is accepted, and an empty title is accepted too (`StoryParser.TitleIsCoerced`).
  Only a missing title, `null`, an object, an array of another size, or a one-element array
  whose element fails (such as `[null]`, `[{}]` or `[[]]`) fails.
- Panel numbers are copied as written. Nothing checks that they run 1, 2, …, n.
- A parse failure's message is "Failed to parse story: " followed by the reason.
- The fence markers are removed before the text is trimmed.
- `generateComic` does not look at the current state. It can start from any state, not only
  from Idle.

## Model

| member | source | states |
|---|---|---|
| `PanelPlan.BasePanels` | app/src/main/java/com/comicgen/app/repository/ComicRepository.kt:155-160 | every age bracket's base is an even count between 4 and 10. `PanelPlan.ShortReadingUsesBase` states which base each age gets. |
| `PanelPlan.TimeFactor` | app/src/main/java/com/comicgen/app/repository/ComicRepository.kt:163 | the factor is never below 1. From 2 minutes on it is half the reading time rounded down. Below 4 minutes it is 1, so 1, 0 or a negative time gives 1. |
| `PanelPlan.CoerceIn` | app/src/main/java/com/comicgen/app/repository/ComicRepository.kt:165 | `coerceIn` lands in [lo, hi]. It keeps a value inside the range and maps a value below or above to the nearer bound. |
| `PanelPlan.PanelCount` | app/src/main/java/com/comicgen/app/repository/ComicRepository.kt:150-166 | every reading time and every age gets between 4 and 16 panels |
| `PanelPlan.PanelCountAsWritten` | app/src/main/java/com/comicgen/app/repository/ComicRepository.kt:165 | the count with the product wrapped at 32 bits, as the code computes it, is between 4 and 16 too |
| `PanelPlan.ShortReadingUsesBase` | app/src/main/java/com/comicgen/app/repository/ComicRepository.kt:155-160 | up to 3 minutes the count is the age bracket's base: 4 up to age 5, 6 up to 8, 8 up to 12, 10 beyond |
| `PanelPlan.LongReadingHitsCap` | app/src/main/java/com/comicgen/app/repository/ComicRepository.kt:163-165 | from 8 minutes on every age gets the cap of 16 panels |
| `PanelPlan.TimeFactorMonotone` | app/src/main/java/com/comicgen/app/repository/ComicRepository.kt:163 | a longer reading time never gets a smaller factor |
| `PanelPlan.PanelCountMonotone` | app/src/main/java/com/comicgen/app/repository/ComicRepository.kt:151-165 | an older child and a longer reading time never get fewer panels |
| `PanelPlan.PanelCountExamples` | app/src/main/java/com/comicgen/app/repository/ComicRepository.kt:155-165 | 5 minutes at age 8 gives 12; 1 minute at age 3 gives 4; 15 minutes at age 16 gives 16 |
| `PanelPlan.AsWrittenAgreesBelowOverflow` | app/src/main/java/com/comicgen/app/repository/ComicRepository.kt:165 | for `Int` inputs with a reading time up to 429496729 minutes, the code's count equals the overflow-free count |
| `PanelPlan.AsWrittenOverflows` | app/src/main/java/com/comicgen/app/repository/ComicRepository.kt:165 | at age 13, 429496729 minutes give 16 panels in the code, but 429496730 minutes give 4. The overflow-free count stays 16. |
| `JavaNumbers.HalfTowardZero` | app/src/main/java/com/comicgen/app/repository/ComicRepository.kt:163 | `(t / 2.0).toInt()` is t halved and rounded toward zero, for either sign |
| `JavaNumbers.Wrap32` | app/src/main/java/com/comicgen/app/repository/ComicRepository.kt:165 | a product of `Int`s is an `Int` congruent to the true product modulo 2^32, and equal to it when it fits |
| `JavaNumbers.NatToString` | app/src/main/java/com/comicgen/app/repository/ComicRepository.kt:59 | the decimal text of a count is non-empty and all digits, with no leading zero, and reads back as the number |
| `JavaNumbers.IntToString` | app/src/main/java/com/comicgen/app/repository/ComicRepository.kt:75 | the text "${n}" inserts is the digits of the magnitude, with a leading "-" for a negative n |
| `JavaNumbers.ParseInt` | app/src/main/java/com/comicgen/app/repository/ComicRepository.kt:123 | `Integer.parseInt` only returns values in the `Int` range |
| `JavaNumbers.ParseIntOfIntToString` | app/src/main/java/com/comicgen/app/repository/ComicRepository.kt:123 | `Integer.parseInt` reads back every `Int` that `toString()` writes |
| `Json.Get` | app/src/main/java/com/comicgen/app/repository/ComicRepository.kt:117 | `get(name)` finds a value exactly when the object has that member, and returns the member |
| `Json.NumberIntValue` | app/src/main/java/com/comicgen/app/repository/ComicRepository.kt:123 | a JSON number's `Int` value is always an `Int`. It is `Integer.parseInt`'s value whenever that succeeds. |
| `Json.AsString` | app/src/main/java/com/comicgen/app/repository/ComicRepository.kt:124-125 | `getAsString` returns a string's own text and fails on null, on an object and on an array of other than one element. A one-element array gives what its element gives. |
| `Json.AsInt` | app/src/main/java/com/comicgen/app/repository/ComicRepository.kt:123 | `getAsInt` returns an `Int` and fails on null, a boolean, an object and an array of other than one element. A one-element array gives what its element gives. |
| `Json.AsIntOfIntText` | app/src/main/java/com/comicgen/app/repository/ComicRepository.kt:123 | an `Int` written as a JSON number reads back as itself |
| `KotlinText.Trim` | app/src/main/java/com/comicgen/app/repository/ComicRepository.kt:114 | `trim()` is empty exactly for blank text. Otherwise it neither starts nor ends with whitespace, and it is the input with blank text removed on both sides. |
| `KotlinText.RemoveAll` | app/src/main/java/com/comicgen/app/repository/ComicRepository.kt:112-113 | `replace(pat, "")` never lengthens the text. `KotlinText.RemoveTripleLeavesNone` states that no "```" is left. |
| `KotlinText.RemoveTripleLeavesNone` | app/src/main/java/com/comicgen/app/repository/ComicRepository.kt:113 | after every "```" is removed, no "```" remains |
| `KotlinText.Lines` | app/src/main/java/com/comicgen/app/repository/ComicRepository.kt:72 | `lines()` gives at least one line, and no line holds a line break |
| `KotlinText.LinesOfJoinLines` | app/src/main/java/com/comicgen/app/repository/ComicRepository.kt:72 | lines without line breaks, joined with "\n", split back into the same lines |
| `KotlinText.JoinLinesOfLines` | app/src/main/java/com/comicgen/app/repository/ComicRepository.kt:72 | a "\n"-only text split into lines and joined again is the same text |
| `KotlinText.TrimIndent` | app/src/main/java/com/comicgen/app/repository/ComicRepository.kt:141-147 | `trimIndent()` drops a blank first and last line and cuts the smallest indent of the non-blank lines from every line. `KotlinText.TrimIndentOfRawBlock` and `KotlinText.TrimIndentOfBrokenFirstLine` state what it makes of the templates. |
| `KotlinText.TrimIndentOfRawBlock` | app/src/main/java/com/comicgen/app/repository/ComicRepository.kt:57-72 | `trimIndent()` of a raw string whose lines share an indent, with a blank first line and the closing quotes alone on the last line, is exactly the lines joined with "\n" |
| `KotlinText.TrimIndentAtColumnZero` | app/src/main/java/com/comicgen/app/repository/ComicRepository.kt:147 | when the first line is blank and the third starts at column 0, `trimIndent()` keeps the second line whole and puts it first |
| `KotlinText.TrimIndentOfBrokenFirstLine` | app/src/main/java/com/comicgen/app/repository/ComicRepository.kt:141-147 | when text inserted into a template's first line breaks onto a line at column 0, the common indent is zero, so the result still begins with the template's indent |
| `Prompts.TemplateText` | app/src/main/java/com/comicgen/app/repository/ComicRepository.kt:57-72 | each prompt template, after `trimIndent()`, is its lines joined and reads back as those lines, when no inserted text breaks a line |
| `Prompts.BuildImagePrompt` | app/src/main/java/com/comicgen/app/repository/ComicRepository.kt:140-148 | the image prompt template. `Prompts.ImagePromptText` and `Prompts.ImagePromptOfBrokenDescription` state its text. |
| `Prompts.ImagePromptText` | app/src/main/java/com/comicgen/app/repository/ComicRepository.kt:140-148 | for a one-line description, the image prompt is "Comic book style illustration: " and the description, then an empty line, then the three style lines. So it begins with the directive followed by the description. |
| `Prompts.ImagePromptOfBrokenDescription` | app/src/main/java/com/comicgen/app/repository/ComicRepository.kt:140-148 | a description that breaks onto a line at column 0 leaves the whole prompt indented: it begins with 12 spaces and then the directive, so it does not begin with "Comic book style illustration: " |
| `Prompts.SystemPrompt` | app/src/main/java/com/comicgen/app/repository/ComicRepository.kt:57-72 | the system message template for a panel count. `Prompts.SystemPromptStatesCount` states its lines. |
| `Prompts.UserPrompt` | app/src/main/java/com/comicgen/app/repository/ComicRepository.kt:74-85 | the user message template for an idea, an age and a panel count. `Prompts.UserPromptText`, `Prompts.UserPromptOfBrokenIdea` and the `Prompts.UserPromptStates…` lemmas state its lines. |
| `Prompts.SystemPromptStatesCount` | app/src/main/java/com/comicgen/app/repository/ComicRepository.kt:57-72 | the system message is its 14 lines joined, and its second line reads "Generate a comic story with exactly n panels." |
| `Prompts.UserPromptText` | app/src/main/java/com/comicgen/app/repository/ComicRepository.kt:74-85 | for a one-line idea, the user message is its 10 lines joined and reads back as those lines |
| `Prompts.UserPromptStatesTopic` | app/src/main/java/com/comicgen/app/repository/ComicRepository.kt:75 | for a one-line idea, the user message's first line names the age and quotes the idea |
| `Prompts.UserPromptStatesCount` | app/src/main/java/com/comicgen/app/repository/ComicRepository.kt:78 | for a one-line idea, the user message's fourth line asks for exactly n panels |
| `Prompts.UserPromptStatesAge` | app/src/main/java/com/comicgen/app/repository/ComicRepository.kt:79 | for a one-line idea, the user message's fifth line names the age again |
| `Prompts.UserPromptOfBrokenIdea` | app/src/main/java/com/comicgen/app/repository/ComicRepository.kt:74-85 | an idea that breaks onto a line at column 0 leaves the whole user message indented: it begins with 12 spaces and the topic line's first part, not with "Create a " |
| `StoryParser.CleanContent` | app/src/main/java/com/comicgen/app/repository/ComicRepository.kt:111-114 | the text handed to the JSON parser. `StoryParser.CleanContentHasNoFence` and `StoryParser.FencedPayload` state what it leaves. |
| `StoryParser.CleanContentHasNoFence` | app/src/main/java/com/comicgen/app/repository/ComicRepository.kt:111-114 | no "```" survives the cleaning of a reply |
| `StoryParser.FencedPayload` | app/src/main/java/com/comicgen/app/repository/ComicRepository.kt:111-114 | take a body with no backtick. Bare, it is just trimmed. Wrapped as "```json\n…\n```" or as "```\n…\n```", it cleans to the same text as the bare body. |
| `StoryParser.IntField` | app/src/main/java/com/comicgen/app/repository/ComicRepository.kt:123 | a missing member has no `Int` value, and a present one is an `Int` |
| `StoryParser.StringField` | app/src/main/java/com/comicgen/app/repository/ComicRepository.kt:124-125 | a missing member has no text, and a string member gives its own text |
| `StoryParser.ExtractPanel` | app/src/main/java/com/comicgen/app/repository/ComicRepository.kt:120-128 | a panel element is read exactly when it is an object with an `Int` `panelNumber` and text `description` and `dialogue`. The panel carries those values, no image, and is not generating. |
| `StoryParser.ExtractPanels` | app/src/main/java/com/comicgen/app/repository/ComicRepository.kt:120-128 | the array is read exactly when every element is. The panels are then one per element, in order. Otherwise the error is the first failing element's. |
| `StoryParser.ExtractStory` | app/src/main/java/com/comicgen/app/repository/ComicRepository.kt:116-134 | an outline is read exactly when it is an object with a title, a `panels` array and readable panels. The story has that title, those panels and `totalPanels` equal to their number. |
| `StoryParser.ParseStoryResponse` | app/src/main/java/com/comicgen/app/repository/ComicRepository.kt:108-138 | a reply is accepted exactly when its cleaned text parses and `ExtractStory` accepts the tree, and the story is then the one the tree describes. Every failure's message starts with "Failed to parse story: ". |
| `StoryParser.ParsedStoryFollowsArray` | app/src/main/java/com/comicgen/app/repository/ComicRepository.kt:120-134 | an accepted outline has `totalPanels` equal to the number of panels and of array elements. `panelNumber`, `description` and `dialogue` are copied per element, in order, and no panel has an image. |
| `StoryParser.ExtractedStoryFollowsArray` | app/src/main/java/com/comicgen/app/repository/ComicRepository.kt:116-134 | a tree `ExtractStory` accepts has the outline's shape, one panel per array element in order with its fields copied, `totalPanels` equal to their number, and no image |
| `StoryParser.ParseRejectsNonObject` | app/src/main/java/com/comicgen/app/repository/ComicRepository.kt:116 | text that does not parse, or parses to something other than an object, is rejected with the parse-failure prefix |
| `StoryParser.ParseRejectsIncomplete` | app/src/main/java/com/comicgen/app/repository/ComicRepository.kt:117-137 | an object with no usable title, with no `panels` array, or with any panel lacking a field is rejected with the parse-failure prefix |
| `StoryParser.TitleIsCoerced` | app/src/main/java/com/comicgen/app/repository/ComicRepository.kt:117 | a number, boolean or one-element-array title is accepted as its text |
| `StoryParser.ExtractPanelOfPanelJson` | app/src/main/java/com/comicgen/app/repository/ComicRepository.kt:120-128 | a panel written in the schema's JSON form reads back as itself without image |
| `StoryParser.ExtractStoryOfStoryJson` | app/src/main/java/com/comicgen/app/repository/ComicRepository.kt:116-134 | a story written in the schema's JSON form reads back with its title, its panels in order without images, and `totalPanels` equal to their number |
| `StoryParser.ParseOfStoryJson` | app/src/main/java/com/comicgen/app/repository/ComicRepository.kt:108-138 | whatever fences and whitespace surround it, a reply that parses to a story's JSON form yields that story |
| `Repository.ReplyContent` | app/src/main/java/com/comicgen/app/repository/ComicRepository.kt:102-103 | the reply text is the first choice's message content. It fails with "No response from AI" exactly when there is no choice, no message or no content. |
| `Repository.StoryFromReply` | app/src/main/java/com/comicgen/app/repository/ComicRepository.kt:96-105 | a transport error passes through and a reply without content fails with "No response from AI". Otherwise the result is the parse of the content. |
| `Repository.ImageFromReply` | app/src/main/java/com/comicgen/app/repository/ComicRepository.kt:43-47 | an image result succeeds exactly when the reply has data, and is then the first image's url. Empty data fails with "No image generated", and a transport error passes through. |
| `Repository.StoryFromReplyOutcomes` | app/src/main/java/com/comicgen/app/repository/ComicRepository.kt:16-25 | a received outline has `totalPanels` equal to its number of panels and no images. A failure is the transport's error, "No response from AI", or a parse failure. |
| `Repository.OutlineRequest` | app/src/main/java/com/comicgen/app/repository/ComicRepository.kt:87-94 | the chat request for an idea. `Repository.OutlineRequestStatesPlan` states its fields and messages. |
| `Repository.ImageRequest` | app/src/main/java/com/comicgen/app/repository/ComicRepository.kt:32-36 | the image request for a panel. `Repository.ImageRequestStatesPanel` states its fields and prompt. |
| `Repository.OutlineRequestStatesPlan` | app/src/main/java/com/comicgen/app/repository/ComicRepository.kt:55-94 | the outline request is "gpt-4" at temperature 0.8 with 2000 tokens, with a system and then a user message. The system message reads back as the system lines for the planned count, which is the count the code computes whenever the reading time is at most 429496729 minutes. For a one-line idea the user message reads back as the user lines. |
| `Repository.ImageRequestStatesPanel` | app/src/main/java/com/comicgen/app/repository/ComicRepository.kt:30-36 | the image request is one "1024x1024" "dall-e-3" image. For a one-line description its prompt begins with the directive followed by the description. |
| `Repository.Authorization` | app/src/main/java/com/comicgen/app/repository/ComicRepository.kt:39 | the header is "Bearer ", one space included, followed by the whole key, which reads back from it |
| `Repository.OutlineCall` | app/src/main/java/com/comicgen/app/repository/ComicRepository.kt:96-99 | the story call is a chat call whose header is "Bearer " and the key, and whose body is the outline request |
| `Repository.PanelImageCall` | app/src/main/java/com/comicgen/app/repository/ComicRepository.kt:38-41 | the image call is an image call whose header is "Bearer " and the key, and whose body is the panel's image request |
| `Repository.HttpCall` | app/src/main/java/com/comicgen/app/repository/ComicRepository.kt:16-47 | `generateComic` sends one chat call with the outline request, and `generateImageForPanel` one image call with the panel's image request. Each carries "Bearer " and the repository's key. |
| `ViewModel.ValidationError` | app/src/main/java/com/comicgen/app/viewmodel/ComicViewModel.kt:30-38 | a blank prompt is refused first. Then a blank or placeholder key is refused. Input passes exactly when neither holds. |
| `ViewModel.ImageUrls` | app/src/main/java/com/comicgen/app/viewmodel/ComicViewModel.kt:77-85 | each panel's url is present exactly when its image call succeeded, and is then that call's url |
| `ViewModel.WithImages` | app/src/main/java/com/comicgen/app/viewmodel/ComicViewModel.kt:77-84 | `panel.copy(imageUrl = url)` for each panel keeps the number of panels. `ViewModel.ImagePhaseSucceeds` states each panel. |
| `ViewModel.Snapshot` | app/src/main/java/com/comicgen/app/viewmodel/ComicViewModel.kt:69-73 | the `GeneratingImages` state before panel i. `ViewModel.ImagePhaseSnapshots` states its progress, total and panels. |
| `ViewModel.ImagePhase` | app/src/main/java/com/comicgen/app/viewmodel/ComicViewModel.kt:65-89 | the states `generateImagesForPanels` assigns. `ViewModel.ImagePhaseSnapshots` and `ViewModel.ImagePhaseSucceeds` state them. |
| `ViewModel.ImageCalls` | app/src/main/java/com/comicgen/app/viewmodel/ComicViewModel.kt:68-75 | one image call per panel. `ViewModel.ImageCallsFollowSnapshots` states their order and the state current during each. |
| `ViewModel.ImageCallsFollowSnapshots` | app/src/main/java/com/comicgen/app/viewmodel/ComicViewModel.kt:68-75 | image call k asks for panel k, and runs while the k-th state of the image phase is current: the snapshot with progress k |
| `ViewModel.AttemptTrace` | app/src/main/java/com/comicgen/app/viewmodel/ComicViewModel.kt:29-63 | the states one `generateComic` call assigns. The lemmas from `ViewModel.BlankPromptRefused` to `ViewModel.AttemptSettles` state them. |
| `ViewModel.AttemptCalls` | app/src/main/java/com/comicgen/app/viewmodel/ComicViewModel.kt:29-63 | the repository calls one `generateComic` call makes, each with the state current while it runs. `ViewModel.BlankPromptRefused`, `ViewModel.MissingKeyRefused`, `ViewModel.ValidInputLoadsFirst`, `ViewModel.OutlineFailureStops`, `ViewModel.OutlineSuccessRequestsImages` and `ViewModel.AttemptSendsKey` state them. |
| `ViewModel.BlankPromptRefused` | app/src/main/java/com/comicgen/app/viewmodel/ComicViewModel.kt:30-33 | a blank prompt assigns only Error("Please enter a comic idea") and makes no repository call, whatever the key |
| `ViewModel.MissingKeyRefused` | app/src/main/java/com/comicgen/app/viewmodel/ComicViewModel.kt:35-38 | with a prompt given, a blank key or "YOUR_API_KEY_HERE" assigns only the key error and makes no repository call |
| `ViewModel.ValidInputLoadsFirst` | app/src/main/java/com/comicgen/app/viewmodel/ComicViewModel.kt:40-46 | valid input assigns Loading first, and the first call asks for the outline while Loading is current |
| `ViewModel.OutlineFailureStops` | app/src/main/java/com/comicgen/app/viewmodel/ComicViewModel.kt:55-57 | a failed outline assigns Loading and then Error("Failed to generate story: " + message). The only call is the outline call, made during Loading. |
| `ViewModel.OutlineSuccessPublishes` | app/src/main/java/com/comicgen/app/viewmodel/ComicViewModel.kt:42-53 | a received outline assigns Loading, then StoryGenerated(story), then the image phase, n + 3 states in all |
| `ViewModel.OutlineSuccessRequestsImages` | app/src/main/java/com/comicgen/app/viewmodel/ComicViewModel.kt:68-75 | the outline call runs during Loading, the first state assigned. Exactly one image call follows per panel, in panel order, and the call for panel k runs while the state assigned k + 2nd is current, which is that panel's snapshot. |
| `ViewModel.AttemptSendsKey` | app/src/main/java/com/comicgen/app/viewmodel/ComicViewModel.kt:23-24 | the repository is built with the view model's key, so every HTTP call of an attempt carries "Bearer " and that key. With valid input the first is the outline's chat call. After a received outline, call k + 1 is the image call for panel k. |
| `ViewModel.ImagePhaseSnapshots` | app/src/main/java/com/comicgen/app/viewmodel/ComicViewModel.kt:68-73 | n panels give n GeneratingImages snapshots with progress 0..n-1 and total n. Snapshot i keeps the title and `totalPanels` and holds n panels. The first i carry their image results; the rest are as in the outline. No state of the phase is an Error. |
| `ViewModel.ImagePhaseSucceeds` | app/src/main/java/com/comicgen/app/viewmodel/ComicViewModel.kt:77-88 | the phase ends in Success with the same title, `totalPanels` and n panels in order. Each panel is the outline's panel with `imageUrl` set to its image result and nothing else changed. |
| `ViewModel.AttemptSettles` | app/src/main/java/com/comicgen/app/viewmodel/ComicViewModel.kt:29-88 | every attempt ends in Error or Success. Success only follows a received outline, and a panel then has an image exactly when its call succeeded. |
| `ViewModel.ComicViewModel.constructor` | app/src/main/java/com/comicgen/app/viewmodel/ComicViewModel.kt:23-27 | a new view model is Idle, with no call made |
| `ViewModel.ComicViewModel.Publish` | app/src/main/java/com/comicgen/app/viewmodel/ComicViewModel.kt:42 | assigning the state makes it the current state and appends it to the trace |
| `ViewModel.ComicViewModel.GenerateComic` | app/src/main/java/com/comicgen/app/viewmodel/ComicViewModel.kt:29-63 | the states assigned are `AttemptTrace`, the repository calls made are `AttemptCalls` with the state current during each, and the state is the last one assigned |
| `ViewModel.ComicViewModel.GenerateImagesForPanels` | app/src/main/java/com/comicgen/app/viewmodel/ComicViewModel.kt:65-89 | the loop assigns exactly `ImagePhase` (a snapshot before each panel, then Success) and makes exactly `ImageCalls`: one image call per panel in order, each while that panel's snapshot is current |
| `ViewModel.ComicViewModel.Reset` | app/src/main/java/com/comicgen/app/viewmodel/ComicViewModel.kt:91-93 | from any state, the state becomes Idle and no call is made |

## Left out

- Parsing text into JSON (`JsonParser.parseString`) is Gson's own code. It is a parameter
  `string -> Option<JsonValue>`, so the parser's rules are stated for whatever tree it returns.
- The network and the Retrofit/OkHttp set-up are not modelled (api/OpenAIService.kt:27-50).
  - A call's outcome is an input: the decoded response, or the message of the exception
    thrown.
  - The view model receives what the repository returned (`Replies`), not raw responses.
  - `Repository.StoryFromReply` and `Repository.ImageFromReply` state how those results arise.
- Coroutines (`withContext`, `viewModelScope.launch`, `suspend`) are not modelled. An attempt is
  one sequential method call, so a `reset` during an attempt in flight is not modelled.
- The `catch` at app/src/main/java/com/comicgen/app/viewmodel/ComicViewModel.kt:59-61 is not
  modelled. Nothing in the modelled code throws there, because the repository returns a
  `Result`.
- Exception messages from the JVM and Gson are replaced by this model's own reasons. A parse
  error keeps the exact prefix "Failed to parse story: ", but the text after it is not the
  JVM's. A `null` exception message printed as "null" is not modelled.
- A response list that Gson leaves `null` (`choices` or `data` absent from the JSON) is not
  modelled: the lists are sequences. A `null` url in the image data is not modelled either.
- A `null` element inside those lists is not modelled either: `seq<Choice>` and
  `seq<ImageData>` cannot hold one. In the code, `"choices":[null]` gives "No response from AI"
  through `firstOrNull()?.` (app/src/main/java/com/comicgen/app/repository/ComicRepository.kt:102),
  and `"data":[null]` throws a `NullPointerException` at
  app/src/main/java/com/comicgen/app/repository/ComicRepository.kt:44, which the `catch` turns
  into a failed image result.
- `Integer.parseInt` accepts non-ASCII Unicode digits. The model accepts only '0'..'9'.
- `BigDecimal`'s limits on exponent size are not modelled.
- Strings are sequences of characters, not UTF-16 code units.
- Prompts.ImagePromptText: stated only for a description without line breaks. `trimIndent()`
  runs after the description is inserted, so a break in it changes how the whole prompt is
  re-indented. `Prompts.ImagePromptOfBrokenDescription` states one such case: a continuation
  line at column 0 leaves every template line with its 12 leading spaces.
- Prompts.UserPromptText: stated only for an idea without line breaks, for the same reason.
  The idea field accepts several lines. `Prompts.UserPromptOfBrokenIdea` states what a
  continuation line at column 0 does.
- Prompts.UserPromptStatesTopic: stated only for an idea without line breaks, for the same reason.
- Prompts.UserPromptStatesCount: stated only for an idea without line breaks, for the same reason.
- Prompts.UserPromptStatesAge: stated only for an idea without line breaks, for the same reason.
- Repository.OutlineRequestStatesPlan: the request is built from the overflow-free
  `PanelPlan.PanelCount`, the corrected count of the finding below, not from the wrapping
  `PanelPlan.PanelCountAsWritten` that app/src/main/java/com/comicgen/app/repository/ComicRepository.kt:55 calls. The two agree for every `Int` input with
  a reading time up to 429496729 minutes. Above that the model asks for 16 panels where the
  code can ask for 4. The user message is stated only for an idea without line breaks, for the
  same reason as above.
- Repository.ImageRequestStatesPanel: stated only for a description without line breaks, for
  the same reason.
- The trace records every assignment to `_uiState.value`. A `MutableStateFlow` emits an
  assignment only when it differs from the current value, so `reset()` from Idle or a second
  blank prompt after the same error emits nothing. A slow collector may also see only the latest
  value. What an observer receives is not modelled.
- `temperature` is a `real`. The JSON serialisation of the requests is not modelled.
- The Compose screens and `MainActivity` hold no logic and are not part of this model. This
  includes the slider ranges: reading time 1–15, age 3–16.

## Findings

| source | as written | input that shows it | evidently intended | confidence | as-written member | corrected member |
|---|---|---|---|---|---|---|
| app/src/main/java/com/comicgen/app/repository/ComicRepository.kt:165 | `basePanels * timeFactor` is an `Int` product. It wraps around at 32 bits before `coerceIn(4, 16)`, so a huge reading time can wrap it negative and clamp it to 4. | reading time 429496730 minutes, age 13: the factor is 214748365, and 10 × 214748365 wraps to -2147483646, which gives 4 panels. At 429496729 minutes the count is 16. | the product taken without overflow, so a longer reading time never gives fewer panels (16 here) | not executed. The app's slider keeps the reading time within 1–15, so the app never passes such a value. | `PanelPlan.PanelCountAsWritten`, `PanelPlan.AsWrittenOverflows` | `PanelPlan.PanelCount`, `PanelPlan.PanelCountMonotone` |
