/** The screen's state machine (viewmodel/ComicViewModel.kt). A comic
    attempt validates its input, asks for an outline, then fetches one
    image per panel, assigning a `UiState` at each step. The coroutine runs
    to completion here, as one call; what the repository returns is given
    as a `Replies` value (`Repository.StoryFromReply` and
    `Repository.ImageFromReply` say what those results can be). The ghost
    `trace` is every state assigned to `_uiState.value` so far, and the
    ghost `calls` every call made to the repository, each with the state
    that was current while it ran. A `StateFlow` emits an
    assignment only when it differs from the current value, and a slow
    collector may see only the latest, so the trace is what is assigned,
    not what an observer receives. */
module ViewModel {
  import opened Wrappers
  import opened KotlinText
  import opened Model
  import opened Repository

  datatype UiState =
    | Idle
    | Loading
    | StoryGenerated(story: ComicStory)
    | GeneratingImages(story: ComicStory, progress: int, total: int)
    | Success(story: ComicStory)
    | Error(message: string)

  const PromptMissing: string := "Please enter a comic idea"
  const KeyMissing: string := "Please configure your OpenAI API key in MainActivity"
  const KeyPlaceholder: string := "YOUR_API_KEY_HERE"
  const StoryFailure: string := "Failed to generate story: "

  /** A call into the repository, which `ComicViewModel(apiKey)` builds
      with its own key, together with the state current while the call
      ran. */
  datatype LoggedCall = LoggedCall(call: RepositoryCall, during: UiState)

  /** What the repository returns during one attempt: the result of
      `generateComic(request)`, and the result of `generateImageForPanel`
      for the panel at each index. */
  datatype Replies = Replies(outline: Result<ComicStory>, image: nat -> Result<string>)

  /** The validation gate: the prompt is checked before the key. */
  function ValidationError(prompt: string, apiKey: string): (r: Option<string>)
    ensures IsBlank(prompt) ==> r == Some(PromptMissing)
    ensures !IsBlank(prompt) && (IsBlank(apiKey) || apiKey == KeyPlaceholder) ==> r == Some(KeyMissing)
    ensures r.None? <==> !IsBlank(prompt) && !IsBlank(apiKey) && apiKey != KeyPlaceholder
  {
    if IsBlank(prompt) then Some(PromptMissing)
    else if IsBlank(apiKey) || apiKey == KeyPlaceholder then Some(KeyMissing)
    else None
  }

  /** The url each panel ends up with: the image call's url, or none when
      that call failed. */
  function ImageUrls(panels: seq<ComicPanel>, image: nat -> Result<string>): (urls: seq<Option<string>>)
    ensures |urls| == |panels|
    ensures forall k :: 0 <= k < |panels| ==> (urls[k].Some? <==> image(k).Ok?)
    ensures forall k :: 0 <= k < |panels| && image(k).Ok? ==> urls[k] == Some(image(k).value)
  {
    seq(|panels|, k requires 0 <= k < |panels| => if image(k).Ok? then Some(image(k).value) else None)
  }

  /** `panel.copy(imageUrl = url)` for each panel. */
  function WithImages(panels: seq<ComicPanel>, urls: seq<Option<string>>): (r: seq<ComicPanel>)
    requires |urls| == |panels|
    ensures |r| == |panels|
  {
    seq(|panels|, k requires 0 <= k < |panels| => panels[k].(imageUrl := urls[k]))
  }

  /** The state assigned before the image call for panel i: the panels done
      so far followed by the original panels from i on. */
  function Snapshot(story: ComicStory, urls: seq<Option<string>>, i: nat): UiState
    requires |urls| == |story.panels| && i <= |story.panels|
  {
    GeneratingImages(
      story.(panels := WithImages(story.panels[..i], urls[..i]) + story.panels[i..]),
      i,
      |story.panels|)
  }

  /** The states `generateImagesForPanels` assigns. */
  function ImagePhase(story: ComicStory, urls: seq<Option<string>>): seq<UiState>
    requires |urls| == |story.panels|
  {
    seq(|story.panels|, i requires 0 <= i < |story.panels| => Snapshot(story, urls, i))
      + [Success(story.(panels := WithImages(story.panels, urls)))]
  }

  /** The repository calls `generateImagesForPanels` makes: one image call
      per panel in panel order, each while the snapshot assigned just
      before it is current. */
  function ImageCalls(story: ComicStory, urls: seq<Option<string>>): (r: seq<LoggedCall>)
    requires |urls| == |story.panels|
    ensures |r| == |story.panels|
  {
    seq(|story.panels|, k requires 0 <= k < |story.panels| =>
      LoggedCall(ImageRequested(story.panels[k]), Snapshot(story, urls, k)))
  }

  /** Image call k runs while the k-th state of the image phase is current,
      the snapshot with progress k. */
  lemma ImageCallsFollowSnapshots(story: ComicStory, urls: seq<Option<string>>)
    requires |urls| == |story.panels|
    ensures forall k :: 0 <= k < |story.panels| ==>
              && ImageCalls(story, urls)[k].call == ImageRequested(story.panels[k])
              && ImageCalls(story, urls)[k].during == ImagePhase(story, urls)[k]
              && ImagePhase(story, urls)[k].GeneratingImages?
              && ImagePhase(story, urls)[k].progress == k
  {
  }

  /** The states one `generateComic` call assigns. */
  function AttemptTrace(apiKey: string, request: ComicRequest, replies: Replies): seq<UiState>
  {
    match ValidationError(request.prompt, apiKey)
    case Some(message) => [Error(message)]
    case None =>
      match replies.outline
      case Err(message) => [Loading, Error(StoryFailure + message)]
      case Ok(story) =>
        [Loading, StoryGenerated(story)] + ImagePhase(story, ImageUrls(story.panels, replies.image))
  }

  /** The repository calls one `generateComic` call makes. */
  function AttemptCalls(apiKey: string, request: ComicRequest, replies: Replies): seq<LoggedCall>
  {
    if ValidationError(request.prompt, apiKey).Some? then []
    else
      [LoggedCall(OutlineRequested(request), Loading)]
        + match replies.outline
          case Err(_) => []
          case Ok(story) => ImageCalls(story, ImageUrls(story.panels, replies.image))
  }

  // ---------------------------------------------------------------- lemmas

  /** A blank prompt is refused before the key is looked at, and nothing is
      asked of the repository. */
  lemma BlankPromptRefused(apiKey: string, request: ComicRequest, replies: Replies)
    requires IsBlank(request.prompt)
    ensures AttemptTrace(apiKey, request, replies) == [Error(PromptMissing)]
    ensures AttemptCalls(apiKey, request, replies) == []
  {
  }

  /** A blank key or the placeholder key is refused without a repository
      call. */
  lemma MissingKeyRefused(apiKey: string, request: ComicRequest, replies: Replies)
    requires !IsBlank(request.prompt)
    requires IsBlank(apiKey) || apiKey == KeyPlaceholder
    ensures AttemptTrace(apiKey, request, replies) == [Error(KeyMissing)]
    ensures AttemptCalls(apiKey, request, replies) == []
  {
  }

  /** Valid input assigns Loading first and asks for the outline first,
      while Loading is current. */
  lemma ValidInputLoadsFirst(apiKey: string, request: ComicRequest, replies: Replies)
    requires ValidationError(request.prompt, apiKey).None?
    ensures |AttemptTrace(apiKey, request, replies)| >= 2 && AttemptTrace(apiKey, request, replies)[0] == Loading
    ensures |AttemptCalls(apiKey, request, replies)| >= 1
    ensures AttemptCalls(apiKey, request, replies)[0] == LoggedCall(OutlineRequested(request), Loading)
  {
  }

  /** A failed outline ends the attempt in an error carrying the failure's
      message, and no image is asked for. */
  lemma OutlineFailureStops(apiKey: string, request: ComicRequest, replies: Replies)
    requires ValidationError(request.prompt, apiKey).None? && replies.outline.Err?
    ensures AttemptTrace(apiKey, request, replies) == [Loading, Error(StoryFailure + replies.outline.message)]
    ensures AttemptCalls(apiKey, request, replies) == [LoggedCall(OutlineRequested(request), Loading)]
  {
  }

  /** A received outline is assigned and the image phase follows it. */
  lemma OutlineSuccessPublishes(apiKey: string, request: ComicRequest, replies: Replies)
    requires ValidationError(request.prompt, apiKey).None? && replies.outline.Ok?
    ensures var story := replies.outline.value;
            var trace := AttemptTrace(apiKey, request, replies);
            && |trace| == |story.panels| + 3
            && trace[0] == Loading
            && trace[1] == StoryGenerated(story)
            && trace[2..] == ImagePhase(story, ImageUrls(story.panels, replies.image))
  {
    var story := replies.outline.value;
    var trace := AttemptTrace(apiKey, request, replies);
    var phase := ImagePhase(story, ImageUrls(story.panels, replies.image));
    assert trace == [Loading, StoryGenerated(story)] + phase;
    assert trace[2..] == phase;
  }

  /** After a received outline one image is asked for per panel, in panel
      order, the image for panel k while the k-th snapshot (the state
      assigned k + 2nd) is current. */
  lemma OutlineSuccessRequestsImages(apiKey: string, request: ComicRequest, replies: Replies)
    requires ValidationError(request.prompt, apiKey).None? && replies.outline.Ok?
    ensures var story := replies.outline.value;
            var calls := AttemptCalls(apiKey, request, replies);
            var trace := AttemptTrace(apiKey, request, replies);
            && |calls| == |story.panels| + 1
            && |trace| == |story.panels| + 3
            && calls[0] == LoggedCall(OutlineRequested(request), trace[0])
            && forall k :: 0 <= k < |story.panels| ==>
                 calls[k + 1] == LoggedCall(ImageRequested(story.panels[k]), trace[k + 2])
  {
    var story := replies.outline.value;
    var urls := ImageUrls(story.panels, replies.image);
    var phase := ImagePhase(story, urls);
    var images := ImageCalls(story, urls);
    var calls := AttemptCalls(apiKey, request, replies);
    var trace := AttemptTrace(apiKey, request, replies);
    assert calls == [LoggedCall(OutlineRequested(request), Loading)] + images;
    assert trace == [Loading, StoryGenerated(story)] + phase;
    forall k | 0 <= k < |story.panels|
      ensures calls[k + 1] == LoggedCall(ImageRequested(story.panels[k]), trace[k + 2])
    {
      assert calls[k + 1] == images[k];
      assert trace[k + 2] == phase[k];
    }
  }

  /** Every HTTP call of an attempt carries the header "Bearer " and the
      view model's key: first the outline's chat call, then, once the
      outline arrived, the image call of each of its panels in order. */
  lemma AttemptSendsKey(apiKey: string, request: ComicRequest, replies: Replies)
    ensures var calls := AttemptCalls(apiKey, request, replies);
            forall c :: 0 <= c < |calls| ==> HttpCall(apiKey, calls[c].call).authorization == Authorization(apiKey)
    ensures var calls := AttemptCalls(apiKey, request, replies);
            ValidationError(request.prompt, apiKey).None? ==>
              |calls| >= 1 && HttpCall(apiKey, calls[0].call) == OutlineCall(apiKey, request)
    ensures var calls := AttemptCalls(apiKey, request, replies);
            ValidationError(request.prompt, apiKey).None? && replies.outline.Ok? ==>
              var story := replies.outline.value;
              && |calls| == |story.panels| + 1
              && forall k :: 0 <= k < |story.panels| ==>
                   HttpCall(apiKey, calls[k + 1].call) == PanelImageCall(apiKey, story.panels[k])
  {
    var calls := AttemptCalls(apiKey, request, replies);
    forall c | 0 <= c < |calls|
      ensures HttpCall(apiKey, calls[c].call).authorization == Authorization(apiKey)
    {
      var header := HttpCall(apiKey, calls[c].call).authorization;
      assert header == header[..7] + header[7..];
    }
    if ValidationError(request.prompt, apiKey).None? && replies.outline.Ok? {
      OutlineSuccessRequestsImages(apiKey, request, replies);
    }
  }

  /** For n panels the image phase assigns n snapshots with progress
      0, 1, ..., n - 1 and total n; snapshot i holds n panels, the first i
      with their image results and the rest as in the outline; no state of
      the phase is an error. */
  lemma ImagePhaseSnapshots(story: ComicStory, urls: seq<Option<string>>)
    requires |urls| == |story.panels|
    ensures |ImagePhase(story, urls)| == |story.panels| + 1
    ensures var phase := ImagePhase(story, urls);
            forall i :: 0 <= i < |story.panels| ==>
              && phase[i].GeneratingImages?
              && phase[i].progress == i
              && phase[i].total == |story.panels|
              && phase[i].story.title == story.title
              && phase[i].story.totalPanels == story.totalPanels
              && |phase[i].story.panels| == |story.panels|
    ensures var phase := ImagePhase(story, urls);
            forall i, k :: 0 <= k < i < |story.panels| ==>
              phase[i].story.panels[k] == story.panels[k].(imageUrl := urls[k])
    ensures var phase := ImagePhase(story, urls);
            forall i, k :: 0 <= i <= k < |story.panels| ==> phase[i].story.panels[k] == story.panels[k]
    ensures forall i :: 0 <= i < |ImagePhase(story, urls)| ==> !ImagePhase(story, urls)[i].Error?
  {
    var n := |story.panels|;
    var phase := ImagePhase(story, urls);
    forall i | 0 <= i < n
      ensures phase[i] == Snapshot(story, urls, i)
      ensures |phase[i].story.panels| == n
      ensures forall k :: 0 <= k < i ==> phase[i].story.panels[k] == story.panels[k].(imageUrl := urls[k])
      ensures forall k :: i <= k < n ==> phase[i].story.panels[k] == story.panels[k]
    {
      var done := WithImages(story.panels[..i], urls[..i]);
      assert phase[i].story.panels == done + story.panels[i..];
      forall k | 0 <= k < i ensures phase[i].story.panels[k] == story.panels[k].(imageUrl := urls[k]) {
        assert (done + story.panels[i..])[k] == done[k];
      }
      forall k | i <= k < n ensures phase[i].story.panels[k] == story.panels[k] {
        assert (done + story.panels[i..])[k] == story.panels[i..][k - i];
      }
    }
  }

  /** The image phase ends in Success with the outline's title and
      `totalPanels`, its n panels in order, and each panel as in the outline
      except that `imageUrl` is that panel's image result. */
  lemma ImagePhaseSucceeds(story: ComicStory, urls: seq<Option<string>>)
    requires |urls| == |story.panels|
    ensures var last := ImagePhase(story, urls)[|story.panels|];
            && last.Success?
            && last.story.title == story.title
            && last.story.totalPanels == story.totalPanels
            && |last.story.panels| == |story.panels|
            && forall k :: 0 <= k < |story.panels| ==>
                 && last.story.panels[k].imageUrl == urls[k]
                 && last.story.panels[k] == story.panels[k].(imageUrl := urls[k])
  {
  }

  /** Every attempt ends settled: in an error, or, only when the outline
      arrived, in Success where a panel has an image exactly when its image
      call succeeded. */
  lemma AttemptSettles(apiKey: string, request: ComicRequest, replies: Replies)
    ensures var trace := AttemptTrace(apiKey, request, replies);
            |trace| > 0 && (trace[|trace| - 1].Error? || trace[|trace| - 1].Success?)
    ensures var trace := AttemptTrace(apiKey, request, replies);
            trace[|trace| - 1].Success? ==>
              && replies.outline.Ok?
              && |trace[|trace| - 1].story.panels| == |replies.outline.value.panels|
              && forall k :: 0 <= k < |replies.outline.value.panels| ==>
                   (trace[|trace| - 1].story.panels[k].imageUrl.Some? <==> replies.image(k).Ok?)
  {
    var trace := AttemptTrace(apiKey, request, replies);
    if ValidationError(request.prompt, apiKey).None? && replies.outline.Ok? {
      var story := replies.outline.value;
      var urls := ImageUrls(story.panels, replies.image);
      var phase := ImagePhase(story, urls);
      ImagePhaseSucceeds(story, urls);
      assert trace == [Loading, StoryGenerated(story)] + phase;
      assert trace[|trace| - 1] == phase[|story.panels|];
    }
  }

  /** How a valid attempt goes on once the outline call has returned. */
  lemma AttemptAfterOutline(apiKey: string, request: ComicRequest, replies: Replies)
    requires ValidationError(request.prompt, apiKey).None?
    ensures replies.outline.Ok? ==>
              var story := replies.outline.value;
              var urls := ImageUrls(story.panels, replies.image);
              && AttemptTrace(apiKey, request, replies) == [Loading, StoryGenerated(story)] + ImagePhase(story, urls)
              && AttemptCalls(apiKey, request, replies) == [LoggedCall(OutlineRequested(request), Loading)] + ImageCalls(story, urls)
    ensures replies.outline.Err? ==>
              && AttemptTrace(apiKey, request, replies) == [Loading, Error(StoryFailure + replies.outline.message)]
              && AttemptCalls(apiKey, request, replies) == [LoggedCall(OutlineRequested(request), Loading)]
  {
  }

  class ComicViewModel {
    const apiKey: string
    var state: UiState
    ghost var trace: seq<UiState>
    ghost var calls: seq<LoggedCall>

    /** The current state is the last one assigned. */
    ghost predicate Valid()
      reads this
    {
      |trace| > 0 && state == trace[|trace| - 1]
    }

    constructor(apiKey: string)
      ensures Valid()
      ensures this.apiKey == apiKey && state == Idle && trace == [Idle] && calls == []
    {
      this.apiKey := apiKey;
      state := Idle;
      trace := [Idle];
      calls := [];
    }

    /** `_uiState.value = s`: the assignment is recorded even when s equals
        the current value, which the flow itself would not emit. */
    method Publish(s: UiState)
      modifies this
      ensures state == s && trace == old(trace) + [s] && calls == old(calls)
    {
      state := s;
      trace := trace + [s];
    }

    /** `generateComic(prompt, readingTime, age)`. */
    method GenerateComic(prompt: string, readingTime: int, age: int, replies: Replies)
      requires Valid()
      modifies this
      ensures Valid()
      ensures trace == old(trace) + AttemptTrace(apiKey, ComicRequest(prompt, readingTime, age), replies)
      ensures calls == old(calls) + AttemptCalls(apiKey, ComicRequest(prompt, readingTime, age), replies)
    {
      ghost var request := ComicRequest(prompt, readingTime, age);
      if IsBlank(prompt) {
        assert ValidationError(prompt, apiKey) == Some(PromptMissing);
        Publish(Error(PromptMissing));
        return;
      }
      if IsBlank(apiKey) || apiKey == KeyPlaceholder {
        assert ValidationError(prompt, apiKey) == Some(KeyMissing);
        Publish(Error(KeyMissing));
        return;
      }
      assert ValidationError(prompt, apiKey).None?;
      Publish(Loading);
      calls := calls + [LoggedCall(OutlineRequested(request), state)];
      AttemptAfterOutline(apiKey, request, replies);
      var result := replies.outline;
      match result {
        case Ok(story) =>
          Publish(StoryGenerated(story));
          GenerateImagesForPanels(story, replies.image);
        case Err(message) =>
          Publish(Error(StoryFailure + message));
      }
    }

    /** `generateImagesForPanels(story)`: one image call per panel in order,
        a snapshot assigned before each and current while it runs, a failed call leaving its panel
        without an image, and Success at the end. */
    method GenerateImagesForPanels(story: ComicStory, image: nat -> Result<string>)
      requires Valid()
      modifies this
      ensures Valid()
      ensures trace == old(trace) + ImagePhase(story, ImageUrls(story.panels, image))
      ensures calls == old(calls) + ImageCalls(story, ImageUrls(story.panels, image))
    {
      ghost var urls := ImageUrls(story.panels, image);
      var updated: seq<ComicPanel> := [];
      for index := 0 to |story.panels|
        invariant updated == WithImages(story.panels[..index], urls[..index])
        invariant trace == old(trace) + seq(index, i requires 0 <= i < index => Snapshot(story, urls, i))
        invariant calls == old(calls) + ImageCalls(story, urls)[..index]
      {
        Publish(GeneratingImages(story.(panels := updated + story.panels[index..]), index, |story.panels|));
        var panel := story.panels[index];
        calls := calls + [LoggedCall(ImageRequested(panel), state)];
        var result := image(index);
        match result {
          case Ok(url) =>
            updated := updated + [panel.(imageUrl := Some(url))];
          case Err(_) =>
            updated := updated + [panel.(imageUrl := None)];
        }
        assert story.panels[..index + 1] == story.panels[..index] + [panel];
        assert ImageCalls(story, urls)[..index + 1] == ImageCalls(story, urls)[..index] + [ImageCalls(story, urls)[index]];
        assert urls[..index + 1] == urls[..index] + [urls[index]];
      }
      assert story.panels[..|story.panels|] == story.panels;
      assert urls[..|story.panels|] == urls;
      assert ImageCalls(story, urls)[..|story.panels|] == ImageCalls(story, urls);
      Publish(Success(story.(panels := updated)));
    }

    /** `reset()`. */
    method Reset()
      modifies this
      ensures Valid()
      ensures state == Idle && trace == old(trace) + [Idle] && calls == old(calls)
    {
      Publish(Idle);
    }
  }
}
