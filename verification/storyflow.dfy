/** The story flow: the ordered scenes of a story, the story parts and the narrative
    they join into, and the scene the reader has focused. Opening and continuing a
    story also register the scene's picture with the image controller and its
    narration with the audio controller, so those operations act on all three. */
module StoryFlow {
  import opened Js
  import Strings
  import Images
  import Audio

  /** What `continueStory` puts between two story parts. */
  const Separator: string := "\n\n## Continuation\n\n"

  /** The title a clip of the opening scene gets when the audio data has none. */
  const OpeningTitle: string := "Opening Scene"

  /** A scene's `imageIndex`: `null`, a position in the image list, or (as
      `initializeStory` stores it) the image record `addImage` returned. */
  datatype ImageRef = NoImage | Idx(index: nat) | Rec(image: Images.Image)

  /** One scene: its text, its picture and the indices its clips were given. */
  datatype Scene = Scene(text: string, image: ImageRef, audio: seq<nat>)

  /** The flow state: `storyParts`, `currentStory`, `scenes`, `currentSceneIndex`. */
  datatype Flow = Flow(parts: seq<string>, story: string, scenes: seq<Scene>, focus: nat)

  /** The state after construction. */
  const Fresh: Flow := Flow([], "", [], 0)

  /** The image data handed in: a description and an optional colour. */
  datatype ImageData = ImageData(description: string, color: Option<string>)

  /** One audio description: an optional title and an optional duration. */
  datatype AudioSpec = AudioSpec(title: Option<string>, duration: Option<int>)

  /** The audio argument: absent, a single object, or an array of objects. */
  datatype AudioArg = NoAudio | Single(spec: AudioSpec) | Many(specs: seq<AudioSpec>)

  /** The three controllers after a flow operation, and the text it returned. */
  datatype Step = Step(flow: Flow, gallery: Images.Gallery, player: Audio.Player, text: string)

  /** The parts are the scene texts, and the narrative is the parts joined by the separator. */
  predicate Valid(f: Flow) {
    && |f.parts| == |f.scenes|
    && (forall i | 0 <= i < |f.parts| :: f.parts[i] == f.scenes[i].text)
    && f.story == Strings.Join(f.parts, Separator)
  }

  /** The clip a scene's audio description becomes, once its default title is known. */
  function SceneClip(spec: AudioSpec, defaultTitle: string, sceneIndex: nat): Audio.Clip {
    Audio.Clip(OrString(spec.title, defaultTitle), OrInt(spec.duration, Audio.DefaultDuration), 0.0, sceneIndex)
  }

  /** The default title of clip `k` (from 0) of scene `sceneIndex` (from 0) in an audio array. */
  function ArrayClipTitle(sceneIndex: nat, k: nat): string {
    "Scene " + Strings.NatToString(sceneIndex + 1) + " - Clip " + Strings.NatToString(k + 1)
  }

  /** The default title of the single clip of scene `sceneIndex`. */
  function SingleClipTitle(sceneIndex: nat): string {
    "Scene " + Strings.NatToString(sceneIndex + 1)
  }

  /** The player after registering some clips, and the indices they were given. */
  datatype Registered = Registered(player: Audio.Player, indices: seq<nat>)

  /** The `forEach` over an audio array in `continueStory`: clip `k` of `specs` is
      registered for scene `sceneIndex` with the default title for position `done + k`,
      where `done` clips of the array came before. */
  function AddArrayClips(p: Audio.Player, specs: seq<AudioSpec>, sceneIndex: nat, done: nat): (r: Registered)
    ensures |r.indices| == |specs| && |r.player.clips| == |p.clips| + |specs|
    ensures r.player.clips[..|p.clips|] == p.clips
    ensures forall k | 0 <= k < |specs| ::
      && r.indices[k] == |p.clips| + k
      && r.player.clips[|p.clips| + k] == SceneClip(specs[k], ArrayClipTitle(sceneIndex, done + k), sceneIndex)
    ensures r.player == p.(clips := r.player.clips)
    ensures Audio.Valid(p) ==> Audio.Valid(r.player)
    decreases |specs|
  {
    if |specs| == 0 then Registered(p, [])
    else
      var spec := specs[0];
      var added := Audio.AddClip(p, Audio.ClipData(
        Some(OrString(spec.title, ArrayClipTitle(sceneIndex, done))), spec.duration, Some(sceneIndex)));
      var clip := SceneClip(spec, ArrayClipTitle(sceneIndex, done), sceneIndex);
      assert added.player.clips[|p.clips|] == clip;
      assert added.player.clips == p.clips + [clip];
      var rest := AddArrayClips(added.player, specs[1..], sceneIndex, done + 1);
      ArrayStep(p, added.player, rest.player, clip);
      ArrayRest(p, rest, specs, sceneIndex, done);
      Registered(rest.player, [added.index] + rest.indices)
  }

  /** One step of the array loop: registering one clip and then the rest keeps the
      clips before them and puts that clip first. */
  lemma ArrayStep(p: Audio.Player, mid: Audio.Player, last: Audio.Player, clip: Audio.Clip)
    requires mid.clips == p.clips + [clip]
    requires |last.clips| >= |mid.clips| && last.clips[..|mid.clips|] == mid.clips
    ensures last.clips[..|p.clips|] == p.clips && last.clips[|p.clips|] == clip
  {
    assert last.clips[..|p.clips|] == last.clips[..|mid.clips|][..|p.clips|];
  }

  /** The clips registered after the first one sit one place further on. */
  lemma ArrayRest(p: Audio.Player, rest: Registered, specs: seq<AudioSpec>, sceneIndex: nat, done: nat)
    requires |specs| > 0 && |rest.player.clips| == |p.clips| + |specs| && |rest.indices| == |specs| - 1
    requires forall k | 0 <= k < |specs| - 1 ::
      && rest.indices[k] == |p.clips| + 1 + k
      && rest.player.clips[|p.clips| + 1 + k] == SceneClip(specs[1..][k], ArrayClipTitle(sceneIndex, done + 1 + k), sceneIndex)
    ensures forall k | 1 <= k < |specs| ::
      && ([|p.clips|] + rest.indices)[k] == |p.clips| + k
      && rest.player.clips[|p.clips| + k] == SceneClip(specs[k], ArrayClipTitle(sceneIndex, done + k), sceneIndex)
  {
    forall k | 1 <= k < |specs|
      ensures ([|p.clips|] + rest.indices)[k] == |p.clips| + k
      ensures rest.player.clips[|p.clips| + k] == SceneClip(specs[k], ArrayClipTitle(sceneIndex, done + k), sceneIndex)
    {
      assert specs[1..][k - 1] == specs[k];
      assert done + 1 + (k - 1) == done + k;
    }
  }

  /** `initializeStory(text, imageData, audioData)`: the story restarts with `text` as
      its only part and its only scene; the picture and the one opening clip are
      registered. An audio array is an object too, but without title or duration. */
  function InitializeStory(f: Flow, g: Images.Gallery, p: Audio.Player, text: string,
                           image: Option<ImageData>, audio: AudioArg, roll: real): (r: Step)
    requires IsRandom(roll)
    ensures r.text == text && r.flow.parts == [text] && r.flow.story == text
    ensures |r.flow.scenes| == 1 && r.flow.scenes[0].text == text
    ensures r.flow.focus == f.focus
    ensures image.None? <==> r.flow.scenes[0].image == NoImage
    ensures image.Some? ==>
      && r.flow.scenes[0].image.Rec?
      && r.gallery.images == g.images + [r.flow.scenes[0].image.image]
      && r.flow.scenes[0].image.image.description == image.value.description
    ensures image.None? ==> r.gallery == g
    ensures r.gallery.current == g.current
    ensures audio.NoAudio? ==> r.flow.scenes[0].audio == [] && r.player == p
    ensures !audio.NoAudio? ==>
      var spec := if audio.Single? then audio.spec else AudioSpec(None, None);
      && r.flow.scenes[0].audio == [|p.clips|]
      && r.player == p.(clips := p.clips + [SceneClip(spec, OpeningTitle, 0)])
    ensures Valid(r.flow)
    ensures Images.Valid(g) ==> Images.Valid(r.gallery)
    ensures Audio.Valid(p) ==> Audio.Valid(r.player)
  {
    var (g', imageRef) :=
      if image.Some? then
        var added := Images.AddImage(g, image.value.description, image.value.color, roll);
        (added.gallery, Rec(added.image))
      else (g, NoImage);
    var (p', indices) :=
      if audio.NoAudio? then (p, [])
      else
        var spec := if audio.Single? then audio.spec else AudioSpec(None, None);
        var added := Audio.AddClip(p, Audio.ClipData(Some(OrString(spec.title, OpeningTitle)), spec.duration, Some(0)));
        (added.player, [added.index]);
    Step(Flow([text], text, [Scene(text, imageRef, indices)], f.focus), g', p', text)
  }

  /** `continueStory(newContent, imageData, audioData)`: appends one part and one scene,
      joins the narrative anew and returns it. The picture gets the next image index;
      each clip is registered for the new scene. */
  function ContinueStory(f: Flow, g: Images.Gallery, p: Audio.Player, content: string,
                         image: Option<ImageData>, audio: AudioArg, roll: real): (r: Step)
    requires IsRandom(roll)
    ensures r.flow.parts == f.parts + [content]
    ensures r.flow.story == Strings.Join(f.parts + [content], Separator) && r.text == r.flow.story
    ensures |r.flow.scenes| == |f.scenes| + 1 && r.flow.scenes[..|f.scenes|] == f.scenes
    ensures r.flow.scenes[|f.scenes|].text == content
    ensures r.flow.focus == f.focus
    ensures image.Some? ==>
      && r.flow.scenes[|f.scenes|].image == Idx(|g.images|)
      && |r.gallery.images| == |g.images| + 1
      && r.gallery.images[..|g.images|] == g.images
      && r.gallery.images[|g.images|].description == image.value.description
    ensures image.None? ==> r.flow.scenes[|f.scenes|].image == NoImage && r.gallery == g
    ensures r.gallery.current == g.current
    ensures var scene := |f.scenes|; var indices := r.flow.scenes[scene].audio;
      match audio
      case NoAudio => indices == [] && r.player == p
      case Single(spec) =>
        && indices == [|p.clips|]
        && r.player == p.(clips := p.clips + [SceneClip(spec, SingleClipTitle(scene), scene)])
      case Many(specs) =>
        && |indices| == |specs| && |r.player.clips| == |p.clips| + |specs|
        && r.player.clips[..|p.clips|] == p.clips
        && r.player == p.(clips := r.player.clips)
        && forall k | 0 <= k < |specs| ::
          && indices[k] == |p.clips| + k
          && r.player.clips[|p.clips| + k] == SceneClip(specs[k], ArrayClipTitle(scene, k), scene)
    ensures Valid(f) ==> Valid(r.flow)
    ensures Images.Valid(g) ==> Images.Valid(r.gallery)
    ensures Audio.Valid(p) ==> Audio.Valid(r.player)
  {
    var parts := f.parts + [content];
    var story := Strings.Join(parts, Separator);
    var scene := |f.scenes|;
    var pictured := ContinuationPicture(g, image, roll);
    var reg := ContinuationAudio(p, audio, scene);
    Step(Flow(parts, story, f.scenes + [Scene(content, pictured.1, reg.indices)], f.focus), pictured.0, reg.player, story)
  }

  /** The picture part of `continueStory`: with image data the image is added and the
      scene refers to it by its index, the last one in the list. */
  function ContinuationPicture(g: Images.Gallery, image: Option<ImageData>, roll: real): (r: (Images.Gallery, ImageRef))
    requires IsRandom(roll)
    ensures image.Some? ==>
      && r.1 == Idx(|g.images|)
      && |r.0.images| == |g.images| + 1
      && r.0.images[..|g.images|] == g.images
      && r.0.images[|g.images|].description == image.value.description
    ensures image.None? ==> r.1 == NoImage && r.0 == g
    ensures r.0.current == g.current
    ensures Images.Valid(g) ==> Images.Valid(r.0)
  {
    if image.Some? then
      var added := Images.AddImage(g, image.value.description, image.value.color, roll);
      (added.gallery, Idx(|added.gallery.images| - 1))
    else (g, NoImage)
  }

  /** The audio part of `continueStory` for scene `scene`: nothing, one clip titled
      after the scene, or one clip per array element titled after its position. */
  function ContinuationAudio(p: Audio.Player, audio: AudioArg, scene: nat): (r: Registered)
    ensures match audio
      case NoAudio => r.indices == [] && r.player == p
      case Single(spec) =>
        && r.indices == [|p.clips|]
        && r.player == p.(clips := p.clips + [SceneClip(spec, SingleClipTitle(scene), scene)])
      case Many(specs) =>
        && |r.indices| == |specs| && |r.player.clips| == |p.clips| + |specs|
        && r.player.clips[..|p.clips|] == p.clips
        && r.player == p.(clips := r.player.clips)
        && forall k | 0 <= k < |specs| ::
          && r.indices[k] == |p.clips| + k
          && r.player.clips[|p.clips| + k] == SceneClip(specs[k], ArrayClipTitle(scene, k), scene)
    ensures Audio.Valid(p) ==> Audio.Valid(r.player)
  {
    match audio
    case NoAudio => Registered(p, [])
    case Single(spec) =>
      var added := Audio.AddClip(p, Audio.ClipData(Some(OrString(spec.title, SingleClipTitle(scene))), spec.duration, Some(scene)));
      assert added.player.clips[|p.clips|] == SceneClip(spec, SingleClipTitle(scene), scene);
      assert added.player.clips == p.clips + [SceneClip(spec, SingleClipTitle(scene), scene)];
      Registered(added.player, [added.index])
    case Many(specs) => AddArrayClips(p, specs, scene, 0)
  }

  /** `getCurrentStory()`: the narrative so far. */
  function CurrentStory(f: Flow): (s: string)
    ensures Valid(f) ==> s == Strings.Join(f.parts, Separator)
  {
    f.story
  }

  /** `setCurrentScene(index)`: focuses and returns an existing scene; any other index
      returns `null` and changes nothing. */
  function SetCurrentScene(f: Flow, index: int): (r: (Flow, Option<Scene>))
    ensures 0 <= index < |f.scenes| ==> r.0 == f.(focus := index) && r.1 == Some(f.scenes[index])
    ensures !(0 <= index < |f.scenes|) ==> r.0 == f && r.1 == None
  {
    if 0 <= index < |f.scenes| then (f.(focus := index), Some(f.scenes[index])) else (f, None)
  }

  /** `getScene(index)`: an existing scene, or `null`. */
  function GetScene(f: Flow, index: int): (r: Option<Scene>)
    ensures r.Some? <==> 0 <= index < |f.scenes|
    ensures r.Some? ==> r.value == f.scenes[index]
  {
    if 0 <= index < |f.scenes| then Some(f.scenes[index]) else None
  }

  /** `getCurrentScene()`: the last scene, whatever the focus; `undefined` when there
      are none. */
  function GetCurrentScene(f: Flow): (r: Option<Scene>)
    ensures r.Some? <==> |f.scenes| > 0
    ensures r.Some? ==> r.value == f.scenes[|f.scenes| - 1]
  {
    if |f.scenes| > 0 then Some(f.scenes[|f.scenes| - 1]) else None
  }

  /** `getTotalScenes()`. */
  function TotalScenes(f: Flow): (n: nat)
    ensures n == |f.scenes| && (Valid(f) ==> n == |f.parts|)
  {
    |f.scenes|
  }

  /** `reset()`: no parts, no narrative, no scenes; the focus is left where it was. */
  function Reset(f: Flow): (r: Flow)
    ensures r.parts == [] && r.story == "" && r.scenes == []
    ensures r.focus == f.focus
    ensures Valid(r)
  {
    f.(parts := [], story := "", scenes := [])
  }

  /** `getScene` and `setCurrentScene` agree: both find a scene exactly for the same
      indices, and it is the same scene. */
  lemma GetAndSetAgree(f: Flow, index: int)
    ensures SetCurrentScene(f, index).1 == GetScene(f, index)
    ensures GetScene(f, index).Some? ==> SetCurrentScene(f, index).0.focus == index
    ensures GetScene(f, index).None? ==> SetCurrentScene(f, index).0 == f
  {
  }

  /** Opening a story forgets everything the flow held before except the focus. */
  lemma InitializeForgetsHistory(f1: Flow, f2: Flow, g: Images.Gallery, p: Audio.Player, text: string,
                                 image: Option<ImageData>, audio: AudioArg, roll: real)
    requires IsRandom(roll) && f1.focus == f2.focus
    ensures InitializeStory(f1, g, p, text, image, audio, roll) == InitializeStory(f2, g, p, text, image, audio, roll)
  {
  }

  /** The arguments of one `continueStory` call, with the `Math.random()` value its
      picture's colour draw would use. */
  datatype Continuation = Continuation(content: string, image: Option<ImageData>, audio: AudioArg, roll: real)

  predicate RollsOk(cs: seq<Continuation>) {
    forall k | 0 <= k < |cs| :: IsRandom(cs[k].roll)
  }

  /** The contents of a sequence of continuations. */
  function Contents(cs: seq<Continuation>): (r: seq<string>)
    ensures |r| == |cs| && forall k | 0 <= k < |cs| :: r[k] == cs[k].content
    decreases |cs|
  {
    if |cs| == 0 then [] else [cs[0].content] + Contents(cs[1..])
  }

  /** The continuations applied one after another, each to the flow, gallery and
      player the previous one left. */
  function ContinueAll(st: Step, cs: seq<Continuation>): Step
    requires RollsOk(cs)
    decreases |cs|
  {
    if |cs| == 0 then st
    else
      var c := cs[0];
      ContinueAll(ContinueStory(st.flow, st.gallery, st.player, c.content, c.image, c.audio, c.roll), cs[1..])
  }

  /** Opening a story and continuing it with further parts, each with or without a
      picture and clips, yields one scene per part, in order; the narrative is all of
      them joined by the separator; the focus stays; the image and audio controllers
      stay valid. */
  lemma {:induction false} OpenThenContinue(f: Flow, g: Images.Gallery, p: Audio.Player, first: string,
                                            image: Option<ImageData>, audio: AudioArg, roll: real,
                                            cs: seq<Continuation>)
    requires IsRandom(roll) && RollsOk(cs)
    ensures var r := ContinueAll(InitializeStory(f, g, p, first, image, audio, roll), cs);
      && Valid(r.flow)
      && r.flow.parts == [first] + Contents(cs)
      && |r.flow.scenes| == 1 + |cs|
      && r.flow.story == Strings.Join([first] + Contents(cs), Separator)
      && r.flow.focus == f.focus
      && (Images.Valid(g) ==> Images.Valid(r.gallery))
      && (Audio.Valid(p) ==> Audio.Valid(r.player))
  {
    var started := InitializeStory(f, g, p, first, image, audio, roll);
    ContinueAllAppends(started, cs);
    ContinueAllKeepsControllers(started, cs);
  }

  /** Continuing with several parts appends them to the parts and keeps the earlier
      scenes, the focus and the flow's validity. */
  lemma {:induction false} ContinueAllAppends(st: Step, cs: seq<Continuation>)
    requires RollsOk(cs) && Valid(st.flow)
    ensures var r := ContinueAll(st, cs);
      && Valid(r.flow) && r.flow.parts == st.flow.parts + Contents(cs)
      && |r.flow.scenes| == |st.flow.scenes| + |cs|
      && r.flow.scenes[..|st.flow.scenes|] == st.flow.scenes
      && r.flow.focus == st.flow.focus
    decreases |cs|
  {
    if |cs| > 0 {
      var c := cs[0];
      var next := ContinueStory(st.flow, st.gallery, st.player, c.content, c.image, c.audio, c.roll);
      RollsOkRest(cs);
      ContinueAllAppends(next, cs[1..]);
      var r := ContinueAll(next, cs[1..]);
      AppendsStep(st.flow, next.flow, r.flow, Contents(cs), c.content);
    } else {
      assert st.flow.parts + Contents(cs) == st.flow.parts;
    }
  }

  /** One continuation followed by the rest appends all contents. */
  lemma AppendsStep(f: Flow, next: Flow, r: Flow, contents: seq<string>, content: string)
    requires |contents| > 0 && contents[0] == content
    requires next.parts == f.parts + [content]
    requires |next.scenes| == |f.scenes| + 1 && next.scenes[..|f.scenes|] == f.scenes
    requires r.parts == next.parts + contents[1..]
    requires |r.scenes| == |next.scenes| + |contents| - 1 && r.scenes[..|next.scenes|] == next.scenes
    ensures r.parts == f.parts + contents
    ensures |r.scenes| == |f.scenes| + |contents| && r.scenes[..|f.scenes|] == f.scenes
  {
    assert f.parts + [content] + contents[1..] == f.parts + contents;
    assert r.scenes[..|f.scenes|] == r.scenes[..|next.scenes|][..|f.scenes|];
  }

  /** Continuing with several parts keeps the image and audio controllers valid. */
  lemma {:induction false} ContinueAllKeepsControllers(st: Step, cs: seq<Continuation>)
    requires RollsOk(cs)
    ensures var r := ContinueAll(st, cs);
      && (Images.Valid(st.gallery) ==> Images.Valid(r.gallery))
      && (Audio.Valid(st.player) ==> Audio.Valid(r.player))
    decreases |cs|
  {
    if |cs| > 0 {
      var c := cs[0];
      RollsOkRest(cs);
      ContinueAllKeepsControllers(ContinueStory(st.flow, st.gallery, st.player, c.content, c.image, c.audio, c.roll), cs[1..]);
    }
  }

  lemma RollsOkRest(cs: seq<Continuation>)
    requires RollsOk(cs) && |cs| > 0
    ensures RollsOk(cs[1..])
  {
    forall k | 0 <= k < |cs| - 1
      ensures IsRandom(cs[1..][k].roll)
    {
      assert cs[1..][k] == cs[k + 1];
    }
  }
}
