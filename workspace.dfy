/** The story workspace: the story text, the storyboard of scenes with their per-scene image
    state, and the flags the asynchronous handlers set before their request and clear when it
    settles. Each handler is split at its `await` into a start method and a settle method that
    receives the request's outcome; interleavings of requests are orders of these calls. */
module Workspace {
  import opened Common

  /** A storyboard scene; `imageUrl` and `imageLoading` are optional fields. */
  datatype Scene = Scene(
    sceneNumber: int, cameraAngle: string, setting: string, action: string, dialogue: string,
    imageUrl: Option<string>, imageLoading: Option<bool>)

  /** The three updates the image handler applies to its scene. */
  datatype Patch =
    | StartLoading             // `{ ...s, imageLoading: true }`
    | ImageReady(url: string)  // `{ ...s, imageUrl, imageLoading: false }`
    | StopLoading              // `{ ...s, imageLoading: false }`

  function Apply(s: Scene, p: Patch): (r: Scene)
    ensures r.sceneNumber == s.sceneNumber && r.action == s.action && r.cameraAngle == s.cameraAngle
    ensures r.setting == s.setting && r.dialogue == s.dialogue
  {
    match p
    case StartLoading => s.(imageLoading := Some(true))
    case ImageReady(url) => s.(imageUrl := Some(url), imageLoading := Some(false))
    case StopLoading => s.(imageLoading := Some(false))
  }

  /** `scenes.map((s, i) => i === k ? patched : s)`: the scene at position k is patched, every
      other position is kept; a position outside the list patches nothing. */
  function Patched(scenes: seq<Scene>, k: int, p: Patch): (r: seq<Scene>)
    ensures |r| == |scenes|
    ensures forall i :: 0 <= i < |scenes| ==> r[i] == if i == k then Apply(scenes[i], p) else scenes[i]
  {
    if scenes == [] then []
    else [if k == 0 then Apply(scenes[0], p) else scenes[0]] + Patched(scenes[1..], k - 1, p)
  }

  /** What the viewer shows for a scene: a spinner while loading is truthy, else the picture when
      the url is truthy, else the empty frame. */
  datatype View = Spinner | Picture(url: string) | EmptyFrame

  function ViewOf(s: Scene): View
  {
    if s.imageLoading == Some(true) then Spinner
    else if s.imageUrl.Some? && s.imageUrl.value != "" then Picture(s.imageUrl.value)
    else EmptyFrame
  }

  /** The update that settles an image request with the given outcome. */
  function SettlePatch(outcome: Outcome<string>): Patch
  {
    if outcome.Succeeded? then ImageReady(outcome.value) else StopLoading
  }

  /** A position outside the storyboard (it may have been replaced meanwhile) patches nothing. */
  lemma {:induction false} PatchOutsideIsIdentity(scenes: seq<Scene>, k: int, p: Patch)
    requires k < 0 || k >= |scenes|
    ensures Patched(scenes, k, p) == scenes
  {
    if scenes != [] {
      PatchOutsideIsIdentity(scenes[1..], k - 1, p);
    }
  }

  /** Requests for different scenes do not interfere: their updates commute. */
  lemma PatchesCommute(scenes: seq<Scene>, j: int, p: Patch, k: int, q: Patch)
    requires j != k
    ensures Patched(Patched(scenes, j, p), k, q) == Patched(Patched(scenes, k, q), j, p)
  {
    var a, b := Patched(Patched(scenes, j, p), k, q), Patched(Patched(scenes, k, q), j, p);
    assert |a| == |b|;
    forall i | 0 <= i < |a| ensures a[i] == b[i] {
    }
  }

  /** Started loading shows the spinner; a settled scene never does. After success it shows the
      returned (non-empty) url; after failure it keeps whatever url it had before. */
  lemma ImageStates(scenes: seq<Scene>, k: int, url: string)
    requires 0 <= k < |scenes|
    ensures ViewOf(Patched(scenes, k, StartLoading)[k]) == Spinner
    ensures url != "" ==> ViewOf(Patched(scenes, k, ImageReady(url))[k]) == Picture(url)
    ensures Patched(scenes, k, StopLoading)[k].imageUrl == scenes[k].imageUrl
    ensures ViewOf(Patched(scenes, k, StopLoading)[k]) != Spinner
    ensures ViewOf(Patched(scenes, k, StopLoading)[k]) == ViewOf(scenes[k].(imageLoading := None))
  {
    ViewsOfPatches(scenes[k], url);
  }

  lemma ViewsOfPatches(s: Scene, url: string)
    ensures ViewOf(Apply(s, StartLoading)) == Spinner
    ensures url != "" ==> ViewOf(Apply(s, ImageReady(url))) == Picture(url)
    ensures Apply(s, StopLoading).imageUrl == s.imageUrl
    ensures ViewOf(Apply(s, StopLoading)) != Spinner
    ensures ViewOf(Apply(s, StopLoading)) == ViewOf(s.(imageLoading := None))
  {
  }

  /** Two settles of the same scene: the later one decides the url when it succeeded, and a
      later failure keeps the url of an earlier success. */
  lemma LastSettleWins(scenes: seq<Scene>, k: int, first: Outcome<string>, second: Outcome<string>)
    requires 0 <= k < |scenes|
    ensures second.Succeeded? ==>
      Patched(Patched(scenes, k, SettlePatch(first)), k, SettlePatch(second)) == Patched(scenes, k, SettlePatch(second))
    ensures second.Failed? ==>
      Patched(Patched(scenes, k, SettlePatch(first)), k, SettlePatch(second)) == Patched(scenes, k, SettlePatch(first))
  {
    var once1, once2 := Patched(scenes, k, SettlePatch(first)), Patched(scenes, k, SettlePatch(second));
    var both := Patched(once1, k, SettlePatch(second));
    if second.Succeeded? {
      assert both[k] == once2[k];
      assert both == once2;
    } else {
      assert both[k] == once1[k];
      assert both == once1;
    }
  }

  class Workspace {
    var story: string
    var storyboard: seq<Scene>
    var isGeneratingStory: bool
    var isProcessing: bool
    var processingMessage: string

    /** The workspace as it starts from the stored story and storyboard. */
    constructor (storedStory: string, storedBoard: seq<Scene>)
      ensures story == storedStory && storyboard == storedBoard
      ensures !isGeneratingStory && !isProcessing && processingMessage == ""
    {
      story := storedStory;
      storyboard := storedBoard;
      isGeneratingStory := false;
      isProcessing := false;
      processingMessage := "";
    }

    /** The format and storyboard buttons are enabled only with a story and no processing. */
    predicate ProcessingEnabled()
      reads this
    {
      story != "" && !isProcessing
    }

    /** Editing the story text. */
    method SetStory(text: string)
      modifies this`story
      ensures story == text
    {
      story := text;
    }

    /** Story generation, up to its request: the flag is raised and the prompt is sent out. */
    method StartGenerateStory(prompt: string) returns (request: Option<string>)
      modifies this`isGeneratingStory
      ensures isGeneratingStory && request == Some(prompt)
    {
      isGeneratingStory := true;
      request := Some(prompt);
    }

    /** Story generation settles: success replaces the story; the flag is lowered either way. */
    method SettleGenerateStory(outcome: Outcome<string>)
      modifies this`story, this`isGeneratingStory
      ensures !isGeneratingStory
      ensures story == if outcome.Succeeded? then outcome.value else old(story)
    {
      if outcome.Succeeded? {
        story := outcome.value;
      }
      isGeneratingStory := false;
    }

    /** Formatting, up to its request: without a story nothing happens; otherwise processing is
        marked with the given message and the story is sent out. */
    method StartAutoFormat(message: string) returns (request: Option<string>)
      modifies this`isProcessing, this`processingMessage
      ensures old(story) == "" ==>
        request == None && isProcessing == old(isProcessing) && processingMessage == old(processingMessage)
      ensures old(story) != "" ==>
        request == Some(story) && isProcessing && processingMessage == message && !ProcessingEnabled()
    {
      if story == "" {
        return None;
      }
      isProcessing := true;
      processingMessage := message;
      request := Some(story);
    }

    /** Formatting settles: success replaces the story; processing ends either way. */
    method SettleAutoFormat(outcome: Outcome<string>)
      modifies this`story, this`isProcessing, this`processingMessage
      ensures story == if outcome.Succeeded? then outcome.value else old(story)
      ensures !isProcessing && processingMessage == ""
      ensures ProcessingEnabled() <==> story != ""
    {
      if outcome.Succeeded? {
        story := outcome.value;
      }
      isProcessing := false;
      processingMessage := "";
    }

    /** Storyboard generation, up to its request: the same gate as formatting. */
    method StartGenerateStoryboard(message: string) returns (request: Option<string>)
      modifies this`isProcessing, this`processingMessage
      ensures old(story) == "" ==>
        request == None && isProcessing == old(isProcessing) && processingMessage == old(processingMessage)
      ensures old(story) != "" ==>
        request == Some(story) && isProcessing && processingMessage == message && !ProcessingEnabled()
    {
      if story == "" {
        return None;
      }
      isProcessing := true;
      processingMessage := message;
      request := Some(story);
    }

    /** Storyboard generation settles: success replaces the whole storyboard (a reply without a
        `scenes` list arrives as the empty list, a reply that is not JSON as a failure);
        processing ends either way. */
    method SettleGenerateStoryboard(outcome: Outcome<seq<Scene>>)
      modifies this`storyboard, this`isProcessing, this`processingMessage
      ensures storyboard == if outcome.Succeeded? then outcome.value else old(storyboard)
      ensures !isProcessing && processingMessage == ""
      ensures ProcessingEnabled() <==> story != ""
    {
      if outcome.Succeeded? {
        storyboard := outcome.value;
      }
      isProcessing := false;
      processingMessage := "";
    }

    /** A format or storyboard button: nothing happens while it is disabled. */
    method ClickAutoFormat(message: string) returns (request: Option<string>)
      modifies this`isProcessing, this`processingMessage
      ensures !old(ProcessingEnabled()) ==>
        request == None && isProcessing == old(isProcessing) && processingMessage == old(processingMessage)
      ensures old(ProcessingEnabled()) ==> request == Some(story) && isProcessing && processingMessage == message
    {
      if !ProcessingEnabled() {
        return None;
      }
      request := StartAutoFormat(message);
    }

    method ClickGenerateStoryboard(message: string) returns (request: Option<string>)
      modifies this`isProcessing, this`processingMessage
      ensures !old(ProcessingEnabled()) ==>
        request == None && isProcessing == old(isProcessing) && processingMessage == old(processingMessage)
      ensures old(ProcessingEnabled()) ==> request == Some(story) && isProcessing && processingMessage == message
    {
      if !ProcessingEnabled() {
        return None;
      }
      request := StartGenerateStoryboard(message);
    }

    /** An image request, up to its `await`: a position with no scene issues nothing; otherwise
        that scene is marked loading and its action text is sent out. */
    method StartImage(k: int) returns (request: Option<string>)
      modifies this`storyboard
      ensures !(0 <= k < |old(storyboard)|) ==> request == None && storyboard == old(storyboard)
      ensures 0 <= k < |old(storyboard)| ==>
        request == Some(old(storyboard)[k].action) && storyboard == Patched(old(storyboard), k, StartLoading)
    {
      if !(0 <= k < |storyboard|) {
        return None;
      }
      request := Some(storyboard[k].action);
      storyboard := Patched(storyboard, k, StartLoading);
    }

    /** An image request settles: the scene now at position k (of the current storyboard, which
        may have been replaced) gets the url on success, and loading is cleared either way. */
    method SettleImage(k: int, outcome: Outcome<string>)
      modifies this`storyboard
      ensures storyboard == Patched(old(storyboard), k, SettlePatch(outcome))
      ensures 0 <= k < |storyboard| ==> storyboard[k].imageLoading == Some(false)
    {
      storyboard := Patched(storyboard, k, SettlePatch(outcome));
    }

    /** A scene's image button: disabled while that scene is loading. */
    method ClickImage(k: int) returns (request: Option<string>)
      requires 0 <= k < |storyboard|
      modifies this`storyboard
      ensures old(storyboard)[k].imageLoading == Some(true) ==> request == None && storyboard == old(storyboard)
      ensures old(storyboard)[k].imageLoading != Some(true) ==>
        request == Some(old(storyboard)[k].action) && storyboard == Patched(old(storyboard), k, StartLoading)
    {
      if storyboard[k].imageLoading == Some(true) {
        return None;
      }
      request := StartImage(k);
    }
  }
}
