/** The story teller page: the session that ties the story flow, the image and audio
    controllers, the prompt box, the submit button and the prompt history together,
    and the handlers that drive them. A generation is split at its one `await`: the
    click handler runs up to the simulated request, and the rest runs when the
    request settles, so any other event may come in between. */
module App {
  import opened Js
  import Strings
  import Config
  import Ui
  import Images
  import Audio
  import StoryFlow

  /** One entry of the prompt history: the full prompt, the text shown for it and
      whether it is highlighted. */
  datatype HistoryItem = HistoryItem(prompt: string, caption: string, active: bool)

  /** What the story area shows: nothing, the rendering of a Markdown text, or the
      error notice. */
  datatype View = Blank | Rendered(markdown: string) | ErrorNotice

  /** The page state. `firstSubmission` is `isFirstSubmission`; `input` is the prompt
      box; `history` lists the history entries from top to bottom. */
  datatype Session = Session(
    flow: StoryFlow.Flow,
    gallery: Images.Gallery,
    player: Audio.Player,
    firstSubmission: bool,
    input: string,
    history: seq<HistoryItem>,
    submitDisabled: bool,
    view: View)

  /** The entries `populateHistoryItems` creates: each sample shown in full. */
  function SampleEntries(samples: seq<string>): (r: seq<HistoryItem>)
    ensures |r| == |samples|
    ensures forall i | 0 <= i < |r| :: r[i] == HistoryItem(samples[i], samples[i], false)
  {
    seq(|samples|, i requires 0 <= i < |samples| => HistoryItem(samples[i], samples[i], false))
  }

  /** The page after construction: fresh controllers, the sample history, the first
      submission still to come. The prompt box and the button's disabled state come
      from the page markup, so they are parameters. */
  function Start(input: string, submitDisabled: bool): (s: Session)
    ensures s.firstSubmission && s.view == Blank && s.input == input
    ensures s.flow == StoryFlow.Fresh && s.gallery == Images.Fresh && s.player == Audio.Fresh
    ensures |s.history| == |Config.SampleHistory|
    ensures forall i | 0 <= i < |s.history| :: s.history[i].prompt == Config.SampleHistory[i] && !s.history[i].active
    ensures Valid(s)
  {
    var s := Session(StoryFlow.Fresh, Images.Fresh, Audio.Fresh, true, input,
                     SampleEntries(Config.SampleHistory), submitDisabled, Blank);
    assert DistinctPrompts(s.history) by {
      forall i, j | 0 <= i < j < |s.history|
        ensures s.history[i].prompt != s.history[j].prompt
      {
        SamplesDistinct(i, j);
      }
    }
    s
  }

  lemma SamplesDistinct(i: nat, j: nat)
    requires i < j < |Config.SampleHistory|
    ensures Config.SampleHistory[i] != Config.SampleHistory[j]
  {
    var h := Config.SampleHistory;
    assert h[0][0] == 'A' && h[1][0] == 'L' && h[2][0] == 'T' && h[3][0] == 'S' && h[4][0] == 'A';
    assert h[0][2] == 'd' && h[4][2] == 'd' && h[0][3] == 'r' && h[4][3] == 'a';
  }

  // ---------------------------------------------------------------------------
  // Prompt history

  /** No two history entries have the same prompt. */
  ghost predicate DistinctPrompts(h: seq<HistoryItem>) {
    forall i, j | 0 <= i < j < |h| :: h[i].prompt != h[j].prompt
  }

  /** At most one history entry is highlighted. */
  ghost predicate AtMostOneActive(h: seq<HistoryItem>) {
    forall i, j | 0 <= i < |h| && 0 <= j < |h| && h[i].active && h[j].active :: i == j
  }

  predicate InHistory(h: seq<HistoryItem>, prompt: string) {
    exists i | 0 <= i < |h| :: h[i].prompt == prompt
  }

  /** `head` is what `prompt.substring(0, 27)` keeps: a proper prefix of 27 code
      units, or of 26 when the 27th unit would split a surrogate pair. */
  predicate CutAt27(prompt: string, head: string) {
    && |head| < |prompt| && head == prompt[..|head|]
    && 26 <= Strings.Utf16Length(head) <= 27
    && (Strings.Utf16Length(head) == 26 ==> Strings.Units(prompt[|head|]) == 2)
  }

  /** The text shown for an added prompt: the prompt itself up to 30 code units,
      otherwise its first 27 code units and an ellipsis. */
  function Caption(prompt: string): (c: string)
    ensures Strings.Utf16Length(c) <= 30
    ensures c == prompt <==> Strings.Utf16Length(prompt) <= 30
    ensures c != prompt ==> |c| >= 3 && c[|c| - 3..] == "..." && CutAt27(prompt, c[..|c| - 3])
  {
    if Strings.Utf16Length(prompt) > 30 then
      var head := Strings.Utf16Prefix(prompt, 27);
      CaptionCut(prompt);
      Strings.Utf16LengthAppend(head, "...");
      var c := head + "...";
      assert c[..|c| - 3] == head && c[|c| - 3..] == "...";
      c
    else prompt
  }

  lemma CaptionCut(prompt: string)
    requires Strings.Utf16Length(prompt) > 30
    ensures CutAt27(prompt, Strings.Utf16Prefix(prompt, 27))
  {
    var head := Strings.Utf16Prefix(prompt, 27);
    assert head != prompt;
  }

  /** `addToHistory(prompt)`: a blank prompt or one already listed is ignored;
      otherwise a new entry goes on top. */
  function AddToHistory(h: seq<HistoryItem>, prompt: string): (r: seq<HistoryItem>)
    ensures Strings.AllWhitespace(prompt) ==> r == h
    ensures InHistory(h, prompt) ==> r == h
    ensures !Strings.AllWhitespace(prompt) && !InHistory(h, prompt) ==>
      r == [HistoryItem(prompt, Caption(prompt), false)] + h
    ensures DistinctPrompts(h) ==> DistinctPrompts(r)
    ensures AtMostOneActive(h) ==> AtMostOneActive(r)
    ensures InHistory(r, prompt) <==> !Strings.AllWhitespace(prompt) || InHistory(h, prompt)
  {
    if Strings.Trim(prompt) == "" then h
    else if InHistory(h, prompt) then h
    else
      var r := [HistoryItem(prompt, Caption(prompt), false)] + h;
      assert r[0].prompt == prompt;
      assert forall i | 0 <= i < |h| :: r[i + 1] == h[i];
      r
  }

  /** The entries with only the one at `index` highlighted (none for an index
      outside the list). */
  function Highlighted(h: seq<HistoryItem>, index: int): (r: seq<HistoryItem>)
    ensures |r| == |h|
    ensures forall i | 0 <= i < |r| :: r[i] == h[i].(active := i == index)
  {
    if |h| == 0 then [] else Highlighted(h[..|h| - 1], index) + [h[|h| - 1].(active := |h| - 1 == index)]
  }

  /** A click on history entry `index`: it alone is highlighted and its prompt fills
      the prompt box. The button's disabled state is left as it was. */
  function SelectHistory(s: Session, index: int): (r: Session)
    ensures 0 <= index < |s.history| ==>
      && r.input == s.history[index].prompt
      && r.history == Highlighted(s.history, index)
      && r == s.(input := r.input, history := r.history)
    ensures !(0 <= index < |s.history|) ==> r == s
  {
    if 0 <= index < |s.history| then
      s.(input := s.history[index].prompt, history := Highlighted(s.history, index))
    else s
  }

  // ---------------------------------------------------------------------------
  // Prompt box and submit button

  /** `handleInput()` after the prompt box changed to `value`: the button is disabled
      exactly for an empty prompt or one over the length limit, counted in UTF-16
      code units as `value.length` counts. */
  function HandleInput(s: Session, value: string): (r: Session)
    ensures r.input == value
    ensures r.submitDisabled <==> value == "" || Strings.Utf16Length(value) > Config.MaxInputLength
    ensures r == s.(input := value, submitDisabled := r.submitDisabled)
  {
    var length := Strings.Utf16Length(value);
    s.(input := value, submitDisabled := length == 0 || length > Config.MaxInputLength)
  }

  /** Beyond an empty prompt, the button is disabled exactly when the counter is red. */
  lemma SubmitMatchesCounter(s: Session, value: string)
    ensures var r := HandleInput(s, value);
      r.submitDisabled <==> value == "" || Ui.CharCounter(Strings.Utf16Length(r.input)).color == Ui.Red
  {
  }

  /** 260 characters beyond the Basic Multilingual Plane are 520 code units, so the
      button is disabled although the prompt has fewer than 500 characters. */
  lemma AstralPromptDisabled(s: Session)
    ensures var value := seq(260, i => '\U{1F600}');
      && |value| < Config.MaxInputLength
      && HandleInput(s, value).submitDisabled
  {
    var value := seq(260, i => '\U{1F600}');
    Strings.Utf16LengthAstral(value);
  }

  // ---------------------------------------------------------------------------
  // Generation

  /** The values `Math.random()` returns during one generation: the keyword pick,
      the clip count, the first and second clip durations and the image colour. */
  datatype Draws = Draws(keyword: real, count: real, duration0: real, duration1: real, color: real)

  predicate DrawsOk(d: Draws) {
    IsRandom(d.keyword) && IsRandom(d.count) && IsRandom(d.duration0) && IsRandom(d.duration1) && IsRandom(d.color)
  }

  /** What the simulated request resolves with. */
  datatype Response = Response(text: string, imageDescription: string)

  /** The session after the simulated request and the response it produced. */
  datatype Generated = Generated(session: Session, response: Response)

  /** The story used when the prompt is blank. */
  const DefaultStory: string := "Once upon a time in a digital realm, stories came alive with just a few words..."

  /** `charAt(0).toUpperCase() + slice(1)`, for the letters a to z. */
  function Capitalize(word: string): (r: string)
    ensures |r| == |word|
    ensures |word| > 0 ==> r[1..] == word[1..]
    ensures |word| > 0 && 'a' <= word[0] <= 'z' ==> r[0] == (word[0] as int - 32) as char
    ensures |word| > 0 && !('a' <= word[0] <= 'z') ==> r[0] == word[0]
  {
    if |word| == 0 then ""
    else if 'a' <= word[0] <= 'z' then [(word[0] as int - 32) as char] + word[1..]
    else word
  }

  /** The fixed passages of the opening story, between which the keyword appears. */
  const OpeningPassages: seq<string> := [
    "\n                \nOnce upon a time in a world where imagination rules, there existed a remarkable entity known as **",
    "**. \n\nThe ",
    " was unlike anything seen before. It shimmered with possibility and whispered tales of adventure to those who would listen.\n\n> \"Nothing is impossible,\" the ",
    " would say, \"when you believe in the power of stories.\"\n\n## The Journey Begins\n\nAnd so began an epic journey that would transform everything..."
  ]

  /** The opening story for `keyword`: a title naming it capitalised, then the
      passages with the keyword between each two. */
  function OpeningStory(keyword: string): (r: string)
    ensures var title := "# The Tale of " + Capitalize(keyword);
      && |r| >= |title| + |OpeningPassages[0]| + |keyword|
      && r[..|title|] == title
      && r[|title|..][..|OpeningPassages[0]| + |keyword|] == OpeningPassages[0] + keyword
  {
    var title := "# The Tale of " + Capitalize(keyword);
    var r := title + Strings.Join(OpeningPassages, keyword);
    assert r[|title|..] == Strings.Join(OpeningPassages, keyword);
    Strings.JoinPrefix(OpeningPassages, keyword);
    r
  }

  /** The fixed passages of a continuation, between which the keyword appears. */
  const ContinuationPassages: seq<string> := [
    "As the tale unfolded, the **",
    "** revealed its true nature. \n\nThe world around trembled with anticipation as ",
    " stepped forward, ready to face the challenge ahead.\n\n\"This is only the beginning,\" whispered the ",
    ", eyes gleaming with determination.\n\nThe path ahead was uncertain, filled with shadows and light intertwined, but the journey would continue regardless."
  ]

  /** The continuation text for `keyword`: the passages with the keyword between
      each two, so it opens with "As the tale unfolded, the **" and the keyword. */
  function ContinuationText(keyword: string): (r: string)
    ensures |r| >= |ContinuationPassages[0]| + |keyword|
    ensures r[..|ContinuationPassages[0]| + |keyword|] == ContinuationPassages[0] + keyword
  {
    Strings.JoinPrefix(ContinuationPassages, keyword);
    Strings.Join(ContinuationPassages, keyword)
  }

  /** The word of the trimmed prompt that the story is about. */
  function Keyword(prompt: string, roll: real): (kw: string)
    requires IsRandom(roll)
    ensures kw in Strings.SplitOn(prompt, ' ') && ' ' !in kw
  {
    var words := Strings.SplitOn(prompt, ' ');
    words[Pick(roll, |words|)]
  }

  /** The clips of a continuation: one or two, "Continuation" and "Ambient Sound 1",
      lasting from 60 to 239 seconds. */
  function ContinuationClips(d: Draws): (clips: seq<StoryFlow.AudioSpec>)
    requires DrawsOk(d)
    ensures 1 <= |clips| <= 2
    ensures clips[0].title == Some("Continuation")
    ensures |clips| == 2 ==> clips[1].title == Some("Ambient Sound 1")
    ensures forall k | 0 <= k < |clips| :: clips[k].duration.Some? && 60 <= clips[k].duration.value < 240
  {
    var count := 1 + Pick(d.count, 2);
    var first := StoryFlow.AudioSpec(Some("Continuation"), Some(60 + Pick(d.duration0, 180)));
    var second := StoryFlow.AudioSpec(Some("Ambient Sound 1"), Some(60 + Pick(d.duration1, 180)));
    if count == 1 then [first] else [first, second]
  }

  /** The first real prompt: the opening story about `keyword`, its picture and one
      introduction clip of 180 to 299 seconds. */
  function OpeningStep(s: Session, keyword: string, d: Draws): (r: StoryFlow.Step)
    requires DrawsOk(d)
    ensures r.text == r.flow.story && r.flow.parts == [OpeningStory(keyword)] && |r.flow.scenes| == 1
    ensures r.flow.scenes[0].audio == [|s.player.clips|] && r.flow.scenes[0].image.Rec?
    ensures |r.gallery.images| == |s.gallery.images| + 1
    ensures r.gallery.images[|s.gallery.images|].description == "The magical " + keyword
    ensures StoryFlow.Valid(r.flow)
    ensures Images.Valid(s.gallery) ==> Images.Valid(r.gallery)
    ensures Audio.Valid(s.player) ==> Audio.Valid(r.player)
    ensures r.player.volume == s.player.volume
  {
    var spec := StoryFlow.AudioSpec(Some("Introduction"), Some(180 + Pick(d.duration0, 120)));
    StoryFlow.InitializeStory(s.flow, s.gallery, s.player, OpeningStory(keyword),
      Some(StoryFlow.ImageData("The magical " + keyword, None)), StoryFlow.Single(spec), d.color)
  }

  /** A later prompt: the continuation about `keyword`, its picture and its clips. */
  function ContinuationStep(s: Session, keyword: string, d: Draws): (r: StoryFlow.Step)
    requires DrawsOk(d)
    ensures r.text == r.flow.story && r.flow.parts == s.flow.parts + [ContinuationText(keyword)]
    ensures |r.flow.scenes| == |s.flow.scenes| + 1 && r.flow.scenes[..|s.flow.scenes|] == s.flow.scenes
    ensures 1 <= |r.flow.scenes[|s.flow.scenes|].audio| <= 2
    ensures r.flow.scenes[|s.flow.scenes|].image == StoryFlow.Idx(|s.gallery.images|)
    ensures |r.gallery.images| == |s.gallery.images| + 1
    ensures r.gallery.images[|s.gallery.images|].description == keyword + " facing challenges"
    ensures StoryFlow.Valid(s.flow) ==> StoryFlow.Valid(r.flow)
    ensures Images.Valid(s.gallery) ==> Images.Valid(r.gallery)
    ensures Audio.Valid(s.player) ==> Audio.Valid(r.player)
    ensures r.player.volume == s.player.volume
  {
    StoryFlow.ContinueStory(s.flow, s.gallery, s.player, ContinuationText(keyword),
      Some(StoryFlow.ImageData(keyword + " facing challenges", None)), StoryFlow.Many(ContinuationClips(d)), d.color)
  }

  /** A blank prompt: the default story, a generic picture and a 120-second clip. */
  function DefaultStep(s: Session, d: Draws): (r: StoryFlow.Step)
    requires DrawsOk(d)
    ensures r.text == r.flow.story && r.flow.parts == [DefaultStory] && |r.flow.scenes| == 1
    ensures r.flow.scenes[0].audio == [|s.player.clips|] && r.flow.scenes[0].image.Rec?
    ensures |r.gallery.images| == |s.gallery.images| + 1
    ensures r.gallery.images[|s.gallery.images|].description == "A magical story scene"
    ensures StoryFlow.Valid(r.flow)
    ensures Images.Valid(s.gallery) ==> Images.Valid(r.gallery)
    ensures Audio.Valid(s.player) ==> Audio.Valid(r.player)
    ensures r.player.volume == s.player.volume
  {
    StoryFlow.InitializeStory(s.flow, s.gallery, s.player, DefaultStory,
      Some(StoryFlow.ImageData("A magical story scene", None)),
      StoryFlow.Single(StoryFlow.AudioSpec(Some("Introduction"), Some(120))), d.color)
  }

  /** The first real prompt registers one clip for scene 0, titled "Introduction" and
      lasting 180 to 299 seconds, after the clips already there. */
  lemma OpeningClip(s: Session, keyword: string, d: Draws)
    requires DrawsOk(d)
    ensures var r := OpeningStep(s, keyword, d); var n := |s.player.clips|;
      && |r.player.clips| == n + 1 && r.player.clips[..n] == s.player.clips
      && r.player.clips[n].title == "Introduction" && 180 <= r.player.clips[n].duration < 300
      && r.player.clips[n].currentTime == 0.0 && r.player.clips[n].sceneIndex == 0
  {
    var r := OpeningStep(s, keyword, d);
    assert r.player.clips == s.player.clips + [r.player.clips[|s.player.clips|]];
  }

  /** A blank prompt registers one 120-second clip for scene 0, titled "Introduction",
      after the clips already there. */
  lemma DefaultClip(s: Session, d: Draws)
    requires DrawsOk(d)
    ensures var r := DefaultStep(s, d); var n := |s.player.clips|;
      && |r.player.clips| == n + 1 && r.player.clips[..n] == s.player.clips
      && r.player.clips[n] == Audio.Clip("Introduction", 120, 0.0, 0)
  {
    var r := DefaultStep(s, d);
    assert r.player.clips == s.player.clips + [r.player.clips[|s.player.clips|]];
  }

  /** The story step the prompt in `s` leads to. */
  function StoryStep(s: Session, d: Draws): (r: StoryFlow.Step)
    requires DrawsOk(d)
    ensures r.text == r.flow.story
    ensures |r.flow.scenes| > 0 && |r.flow.scenes[|r.flow.scenes| - 1].audio| > 0
    ensures r.player.volume == s.player.volume
  {
    var prompt := Strings.Trim(s.input);
    if |prompt| == 0 then DefaultStep(s, d)
    else if s.firstSubmission then OpeningStep(s, Keyword(prompt, d.keyword), d)
    else ContinuationStep(s, Keyword(prompt, d.keyword), d)
  }

  /** The image description the response carries: the description of the picture
      the story step adds. */
  function ResponseDescription(s: Session, d: Draws): (r: string)
    requires DrawsOk(d)
    ensures var step := StoryStep(s, d);
      |step.gallery.images| == |s.gallery.images| + 1 && step.gallery.images[|s.gallery.images|].description == r
  {
    var prompt := Strings.Trim(s.input);
    if |prompt| == 0 then "A magical story scene"
    else if s.firstSubmission then "The magical " + Keyword(prompt, d.keyword)
    else Keyword(prompt, d.keyword) + " facing challenges"
  }

  /** `mockApiCall()` after its delay: a blank prompt opens the default story; the
      first real prompt opens a story about one of its words; later prompts continue
      the story. The prompt box is cleared and the response carries the whole story. */
  function MockApiCall(s: Session, d: Draws): (r: Generated)
    requires DrawsOk(d)
    ensures r.session.input == ""
    ensures r.session == s.(flow := r.session.flow, gallery := r.session.gallery,
                            player := r.session.player, input := "")
    ensures r.response.text == StoryFlow.CurrentStory(r.session.flow)
    ensures var scenes := r.session.flow.scenes; |scenes| > 0 && |scenes[|scenes| - 1].audio| > 0
    ensures r.session.player.volume == s.player.volume
  {
    var step := StoryStep(s, d);
    Generated(s.(flow := step.flow, gallery := step.gallery, player := step.player, input := ""),
              Response(step.text, ResponseDescription(s, d)))
  }

  /** `showImage` called with a scene's image reference. A record is not a number, so
      the bounds check `index >= 0` fails on it and nothing changes. */
  function ShowRef(g: Images.Gallery, ref: StoryFlow.ImageRef): (r: Images.Gallery)
    ensures ref.Idx? ==> r == Images.ShowImage(g, ref.index)
    ensures !ref.Idx? ==> r == g
  {
    match ref
    case Idx(i) => Images.ShowImage(g, i)
    case _ => g
  }

  /** `updateUI(response)`: render the text; show the last scene's picture; if that
      scene has clips, reset the audio controller and then ask it to play the
      scene's first clip index. */
  function UpdateUI(s: Session, response: Response): (r: Session)
    ensures r.view == Rendered(response.text)
    ensures r.flow == s.flow && r.input == s.input && r.history == s.history
    ensures r.firstSubmission == s.firstSubmission && r.submitDisabled == s.submitDisabled
    ensures |s.flow.scenes| == 0 ==> r.gallery == s.gallery && r.player == s.player
    ensures |s.flow.scenes| > 0 ==>
      var last := s.flow.scenes[|s.flow.scenes| - 1];
      && r.gallery == ShowRef(s.gallery, last.image)
      && (|last.audio| == 0 ==> r.player == s.player)
      && (|last.audio| > 0 ==> r.player == Audio.Reset(s.player))
  {
    var scene := StoryFlow.GetCurrentScene(s.flow);
    var g := if scene.Some? && scene.value.image != StoryFlow.NoImage then ShowRef(s.gallery, scene.value.image) else s.gallery;
    var p := if scene.Some? && |scene.value.audio| > 0 then Audio.PlayAt(Audio.Reset(s.player), scene.value.audio[0]) else s.player;
    s.(gallery := g, player := p, view := Rendered(response.text))
  }

  /** The click handler up to the `await`: the button is disabled and the prompt goes
      into the history. */
  function BeginGeneration(s: Session): (r: Session)
    ensures r.submitDisabled
    ensures r.history == AddToHistory(s.history, s.input)
    ensures r == s.(submitDisabled := true, history := r.history)
  {
    s.(submitDisabled := true, history := AddToHistory(s.history, s.input))
  }

  /** The rest of `generateStory` once the request settles. A request that fails
      (`failed`) leaves the error notice and the first-submission flag as they were;
      a successful one applies the response, updates the page and marks the first
      submission done. Either way the button is enabled again. */
  function CompleteGeneration(s: Session, d: Draws, failed: bool): (r: Session)
    requires DrawsOk(d)
    ensures !r.submitDisabled
    ensures failed ==> r == s.(view := ErrorNotice, submitDisabled := false)
    ensures !failed ==> !r.firstSubmission && r.input == "" && r.history == s.history
  {
    if failed then s.(view := ErrorNotice, submitDisabled := false)
    else
      var g := MockApiCall(s, d);
      UpdateUI(g.session, g.response).(firstSubmission := false, submitDisabled := false)
  }

  /** A generation with no other event in between. */
  function GenerateStory(s: Session, d: Draws, failed: bool): (r: Session)
    requires DrawsOk(d)
    ensures !r.submitDisabled
    ensures r.history == AddToHistory(s.history, s.input)
    ensures r.firstSubmission == (s.firstSubmission && failed)
  {
    CompleteGeneration(BeginGeneration(s), d, failed)
  }

  // ---------------------------------------------------------------------------
  // Scene navigation and reset

  /** `showScene(index)`: a click in the scene navigation. Nothing happens for an
      index without a scene. Otherwise the scene is focused and rendered, its picture
      shown, and its first clip played with the player marked playing; a scene
      without clips resets the audio instead. */
  function ShowScene(s: Session, index: int): (r: Session)
    ensures !(0 <= index < |s.flow.scenes|) ==> r == s
    ensures 0 <= index < |s.flow.scenes| ==>
      var scene := s.flow.scenes[index];
      && r.flow == s.flow.(focus := index)
      && r.view == Rendered(scene.text)
      && r.gallery == ShowRef(s.gallery, scene.image)
      && (|scene.audio| > 0 ==> r.player == Audio.PlayAt(s.player, scene.audio[0]).(isPlaying := true))
      && (|scene.audio| == 0 ==> r.player == Audio.Reset(s.player))
      && r == s.(flow := r.flow, gallery := r.gallery, player := r.player, view := r.view)
  {
    var (f, found) := StoryFlow.SetCurrentScene(s.flow, index);
    if found.None? then s
    else
      var scene := found.value;
      var g := if scene.image != StoryFlow.NoImage then ShowRef(s.gallery, scene.image) else s.gallery;
      var p := if |scene.audio| > 0 then Audio.PlayAt(s.player, scene.audio[0]).(isPlaying := true) else Audio.Reset(s.player);
      s.(flow := f, gallery := g, player := p, view := Rendered(scene.text))
  }

  /** `resetAll()`: back to the first submission with an empty prompt box and story
      area, all three controllers reset and no history entry highlighted. The history
      itself and the button's disabled state are kept. */
  function ResetAll(s: Session): (r: Session)
    ensures r.firstSubmission && r.input == "" && r.view == Blank
    ensures r.player == Audio.Reset(s.player) && r.gallery == Images.Reset(s.gallery)
    ensures r.flow == StoryFlow.Reset(s.flow)
    ensures r.history == Highlighted(s.history, -1)
    ensures r.submitDisabled == s.submitDisabled
  {
    Session(StoryFlow.Reset(s.flow), Images.Reset(s.gallery), Audio.Reset(s.player), true, "",
            Highlighted(s.history, -1),
            s.submitDisabled, Blank)
  }

  // ---------------------------------------------------------------------------
  // The session invariant

  /** Every picture a scene refers to by index is in the image list. */
  ghost predicate ImagesResolve(f: StoryFlow.Flow, g: Images.Gallery) {
    forall i | 0 <= i < |f.scenes| :: f.scenes[i].image.Idx? ==> f.scenes[i].image.index < |g.images|
  }

  /** The invariant of the page: each controller's own invariant, scene pictures that
      resolve, a history without repeated prompts and with at most one highlighted
      entry, and a story with at least one scene once the first submission is done. */
  ghost predicate Valid(s: Session) {
    && StoryFlow.Valid(s.flow)
    && Images.Valid(s.gallery)
    && Audio.Valid(s.player)
    && ImagesResolve(s.flow, s.gallery)
    && DistinctPrompts(s.history)
    && AtMostOneActive(s.history)
    && (!s.firstSubmission ==> |s.flow.scenes| > 0)
  }

  /** Putting the prompt into the history keeps the invariant. */
  lemma BeginKeepsValid(s: Session)
    requires Valid(s)
    ensures Valid(BeginGeneration(s))
  {
  }

  /** Settling the request keeps the invariant, whatever happened in between. */
  lemma CompleteKeepsValid(s: Session, d: Draws, failed: bool)
    requires Valid(s) && DrawsOk(d)
    ensures Valid(CompleteGeneration(s, d, failed))
  {
    if !failed {
      var g := MockApiCall(s, d);
      StepKeepsValid(s, d);
      UpdateKeepsValid(g.session, g.response);
    }
  }

  /** The story step keeps each controller valid and every scene picture resolving. */
  lemma StepKeepsValid(s: Session, d: Draws)
    requires Valid(s) && DrawsOk(d)
    ensures var r := StoryStep(s, d);
      && StoryFlow.Valid(r.flow) && Images.Valid(r.gallery) && Audio.Valid(r.player)
      && ImagesResolve(r.flow, r.gallery)
  {
    var prompt := Strings.Trim(s.input);
    if |prompt| == 0 {
      SingleSceneResolves(DefaultStep(s, d));
    } else if s.firstSubmission {
      SingleSceneResolves(OpeningStep(s, Keyword(prompt, d.keyword), d));
    } else {
      ContinuationResolves(s, Keyword(prompt, d.keyword), d);
    }
  }

  /** A story whose one scene holds its picture as a record has nothing to resolve. */
  lemma SingleSceneResolves(r: StoryFlow.Step)
    requires |r.flow.scenes| == 1 && r.flow.scenes[0].image.Rec?
    ensures ImagesResolve(r.flow, r.gallery)
  {
  }

  /** A continuation keeps the earlier scenes' pictures and points the new scene at
      the picture it adds. */
  lemma ContinuationResolves(s: Session, keyword: string, d: Draws)
    requires Valid(s) && DrawsOk(d)
    ensures var r := ContinuationStep(s, keyword, d);
      ImagesResolve(r.flow, r.gallery)
  {
    var r := ContinuationStep(s, keyword, d);
    var n := |s.flow.scenes|;
    assert |r.gallery.images| == |s.gallery.images| + 1;
    forall i | 0 <= i < |r.flow.scenes| && r.flow.scenes[i].image.Idx?
      ensures r.flow.scenes[i].image.index < |r.gallery.images|
    {
      if i < n {
        assert r.flow.scenes[i] == r.flow.scenes[..n][i] == s.flow.scenes[i];
      }
    }
  }

  /** Updating the page keeps the controllers valid and leaves the images in place. */
  lemma UpdateKeepsValid(s: Session, response: Response)
    requires Images.Valid(s.gallery) && Audio.Valid(s.player) && ImagesResolve(s.flow, s.gallery)
    ensures var r := UpdateUI(s, response);
      && Images.Valid(r.gallery) && Audio.Valid(r.player) && ImagesResolve(r.flow, r.gallery)
  {
  }

  /** A whole generation keeps the invariant. */
  lemma GenerationKeepsValid(s: Session, d: Draws, failed: bool)
    requires Valid(s) && DrawsOk(d)
    ensures Valid(GenerateStory(s, d, failed))
  {
    BeginKeepsValid(s);
    CompleteKeepsValid(BeginGeneration(s), d, failed);
  }

  /** Choosing a history entry keeps the invariant. */
  lemma SelectKeepsValid(s: Session, index: int)
    requires Valid(s)
    ensures Valid(SelectHistory(s, index))
  {
  }

  /** Typing keeps the invariant. */
  lemma InputKeepsValid(s: Session, value: string)
    requires Valid(s)
    ensures Valid(HandleInput(s, value))
  {
  }

  /** Showing a scene keeps the invariant. */
  lemma ShowSceneKeepsValid(s: Session, index: int)
    requires Valid(s)
    ensures Valid(ShowScene(s, index))
  {
  }

  /** Resetting keeps the invariant. */
  lemma ResetKeepsValid(s: Session)
    requires Valid(s)
    ensures Valid(ResetAll(s))
  {
  }

  // ---------------------------------------------------------------------------
  // What a generation does

  /** A failed request changes neither the story nor the controllers nor the
      first-submission flag; the prompt stays in the box. */
  lemma FailedGenerationKeepsStory(s: Session, d: Draws)
    requires DrawsOk(d)
    ensures var r := GenerateStory(s, d, true);
      && r.flow == s.flow && r.gallery == s.gallery && r.player == s.player
      && r.firstSubmission == s.firstSubmission && r.input == s.input && r.view == ErrorNotice
  {
  }

  /** A blank prompt restarts the story with the default text as its only scene, even
      after earlier scenes. */
  lemma BlankPromptRestarts(s: Session, d: Draws)
    requires DrawsOk(d) && Strings.AllWhitespace(s.input)
    ensures var r := GenerateStory(s, d, false);
      && r.flow.parts == [DefaultStory] && |r.flow.scenes| == 1
      && r.view == Rendered(DefaultStory)
  {
  }

  /** The first real prompt opens a story about one of its words, as the only scene. */
  lemma FirstPromptOpens(s: Session, d: Draws)
    requires DrawsOk(d) && !Strings.AllWhitespace(s.input) && s.firstSubmission
    ensures var r := GenerateStory(s, d, false);
      var keyword := Keyword(Strings.Trim(s.input), d.keyword);
      && keyword in Strings.SplitOn(Strings.Trim(s.input), ' ')
      && r.flow.parts == [OpeningStory(keyword)] && |r.flow.scenes| == 1
      && r.view == Rendered(OpeningStory(keyword))
  {
  }

  /** A later real prompt appends one continuation scene with one or two clips and a
      new picture, keeps the earlier scenes, and renders the whole story. */
  lemma LaterPromptContinues(s: Session, d: Draws)
    requires DrawsOk(d) && !Strings.AllWhitespace(s.input) && !s.firstSubmission
    requires StoryFlow.Valid(s.flow)
    ensures var r := GenerateStory(s, d, false);
      var keyword := Keyword(Strings.Trim(s.input), d.keyword);
      var n := |s.flow.scenes|;
      && r.flow.parts == s.flow.parts + [ContinuationText(keyword)]
      && |r.flow.scenes| == n + 1 && r.flow.scenes[..n] == s.flow.scenes
      && 1 <= |r.flow.scenes[n].audio| <= 2
      && r.flow.scenes[n].image == StoryFlow.Idx(|s.gallery.images|)
      && r.view == Rendered(Strings.Join(r.flow.parts, StoryFlow.Separator))
  {
  }

  /** After a successful generation no clip is left: the page empties the player
      before asking it to play the new scene's first clip, whose index then points
      past the empty list. */
  lemma GenerationSilencesAudio(s: Session, d: Draws)
    requires DrawsOk(d)
    ensures var r := GenerateStory(s, d, false);
      && r.player.clips == [] && !r.player.isPlaying && r.player.device == Audio.NoDevice
      && r.player.volume == s.player.volume
      && |r.flow.scenes| > 0 && |r.flow.scenes[|r.flow.scenes| - 1].audio| > 0
  {
    CompletionSilencesAudio(BeginGeneration(s), d);
  }

  lemma CompletionSilencesAudio(s: Session, d: Draws)
    requires DrawsOk(d)
    ensures var r := CompleteGeneration(s, d, false);
      && r.player.clips == [] && !r.player.isPlaying && r.player.device == Audio.NoDevice
      && r.player.volume == s.player.volume
      && |r.flow.scenes| > 0 && |r.flow.scenes[|r.flow.scenes| - 1].audio| > 0
  {
    var g := MockApiCall(s, d);
    var u := UpdateUI(g.session, g.response);
    assert u.player == Audio.Reset(g.session.player);
  }

  /** A successful generation empties the prompt box but enables the button, so an
      immediate second click submits the blank prompt and restarts the story. */
  lemma ResubmitRestarts(s: Session, d1: Draws, d2: Draws)
    requires DrawsOk(d1) && DrawsOk(d2)
    ensures var r1 := GenerateStory(s, d1, false);
      && r1.input == "" && !r1.submitDisabled
      && GenerateStory(r1, d2, false).flow.parts == [DefaultStory]
  {
    var r1 := GenerateStory(s, d1, false);
    assert Strings.AllWhitespace(r1.input);
    BlankPromptRestarts(r1, d2);
  }

  /** After showing an existing scene, exactly its entry is active in the scene
      navigation. */
  lemma ShownSceneIsActive(s: Session, index: int)
    requires 0 <= index < |s.flow.scenes|
    ensures var nav := Ui.TextNavigation(ShowScene(s, index).flow);
      && nav[index].active
      && forall i | 0 <= i < |nav| && nav[i].active :: i == index
  {
  }

  /** Showing a scene that holds an image record (an opening or default scene)
      leaves the gallery as it was: its picture is not shown. */
  lemma RecordSceneShowsNothing(s: Session, index: int)
    requires 0 <= index < |s.flow.scenes| && s.flow.scenes[index].image.Rec?
    ensures ShowScene(s, index).gallery == s.gallery
  {
  }

  /** After the first real prompt the only scene holds an image record, so the
      gallery's shown index does not move to the new picture: the thumbnail at the
      old index stays active while the placeholder remains on display. */
  lemma OpeningPictureNotShown(s: Session, d: Draws)
    requires DrawsOk(d) && !Strings.AllWhitespace(s.input) && s.firstSubmission
    ensures var r := GenerateStory(s, d, false);
      && |r.flow.scenes| == 1 && r.flow.scenes[0].image.Rec?
      && r.gallery.current == s.gallery.current
  {
  }
}
