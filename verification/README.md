# Story teller session, modelled in Dafny

This project models the browser side of the story teller in `templates/static/`.
The page asks a (simulated) generator for a story. It then keeps three pieces of
bookkeeping in step:

- the **story flow**: the scenes, the accumulated narrative and the focused scene;
- the **image controller**: the generated pictures and the one on display;
- the **audio controller**: the clips, the current clip, the playing flag and the playback device.

The model also covers the page that drives them: the first-submission and
continuation branching, the submit button, the prompt history, the character
counter, the scene navigation, and the handlers `updateUI`, `showScene` and
`resetAll`.

The model is a functional state machine. Every entity is an immutable datatype,
and every handler is a pure function from the old state to the new one. Each
controller has an invariant predicate, and lemmas show that every handler keeps
it. The page's own state is `App.Session`, and its invariant is `App.Valid`.

Files and modules:

| file | module | contents |
|---|---|---|
| `js.dfy` | `Js` | `undefined`, NaN, the `x \|\| fallback` idiom, `Math.floor(Math.random() * n)`, `%` on numbers |
| `strings.dfy` | `Strings` | decimal rendering of numbers and parsing it back, `join`, `trim` with the JavaScript whitespace set, `split`, and `length` and `substring` counted in UTF-16 code units |
| `images.dfy` | `Images` | `imageController.js` |
| `audio.dfy` | `Audio` | `audioController.js` |
| `storyflow.dfy` | `StoryFlow` | `storyFlow.js` |
| `ui.dfy` | `Config`, `Ui` | the constants of `config.js`; the counter and the scene navigation of `uiController.js` |
| `app.dfy` | `App` | the `StoryTeller` class of `app.js` |

Things outside the page's control are parameters:

- Every value `Math.random()` returns is a parameter `roll` in `[0, 1)`, or a field of `App.Draws`.
- Click positions arrive as the already computed fraction of the bar's width.
- The page markup supplies the prompt box's initial text and the button's initial disabled state, so `App.Start` takes both as arguments.

A generation awaits the simulated request, so it is split in two:
`App.BeginGeneration` runs up to the `await`, and `App.CompleteGeneration` runs
after it. Any other handler may run in between, and every invariant lemma is
stated for each half separately.

The request itself cannot fail in the source. The `catch` branch of
`generateStory` exists for a real generator, so `App.CompleteGeneration` takes a
`failed` flag. A failure is taken to happen before the response is applied.

### Where the code and its description differ

The model follows the code:

- `initializeStory` stores the image record that `addImage` returns, not an index. `showImage` then compares that record with 0, the check fails, and nothing is shown (`StoryFlow.ImageRef.Rec`, `App.ShowRef`).
- `StoryFlow.reset` keeps the focused scene index instead of setting it to 0.
- `getCurrentScene` on an empty story yields `undefined` (`None`) rather than failing.
- Scene audio indices do dangle. After each successful generation, `updateUI` empties the clip list and then asks to play an index into the empty list (`App.GenerationSilencesAudio`).
- A blank prompt re-initialises the story even after earlier scenes. The button is enabled again after every generation, even though the prompt box was just cleared, so a second click discards the story (`App.ResubmitRestarts`).
- A continuation carries one or two clips, although the source comment says one to three.

## Model

| member | source | states |
|---|---|---|
| Js.OrString | templates/static/audioController.js:14 | `s \|\| fallback` yields the string itself when it is defined and non-empty, and the fallback when it is undefined or empty |
| Js.OrInt | templates/static/audioController.js:15-17 | `n \|\| fallback` yields the number itself when it is defined and non-zero, and the fallback when it is undefined or 0 |
| Js.Pick | templates/static/imageController.js:42 | `Math.floor(roll * n)` is a valid index below `n`, and it is the floor of `roll * n` |
| Js.Rem60 | templates/static/audioController.js:118 | `a % 60` differs from `a` by a whole multiple of 60, keeps the sign of `a` and stays strictly within 60 of zero, which fixes it as the remainder of truncating division |
| Strings.NatToString | templates/static/uiController.js:19 | the decimal text of a number is non-empty, all digits, has a leading zero only for 0, and is one digit exactly below 10 |
| Strings.ParseNatToString | templates/static/uiController.js:19 | reading the decimal text back gives the number (round trip) |
| Strings.ParseLeadingZero | templates/static/audioController.js:119 | a leading `0` does not change the value the digits read as |
| Strings.IntToString | templates/static/audioController.js:119 | `${i}` starts with a minus sign exactly for a negative `i`, its digits read back as the magnitude of `i`, and it has no leading zero except in the text of 0 |
| Strings.IntToStringInjective | templates/static/audioController.js:208 | different integers print differently |
| Strings.JoinSnoc | templates/static/storyFlow.js:33-34 | joining one more part appends the separator and that part to the previous join |
| Strings.JoinPrefix | templates/static/storyFlow.js:34 | a join of two or more parts starts with the first part followed by the separator |
| Strings.TrimStart | templates/static/app.js:139 | the result is a suffix; what it drops is all whitespace; it does not start with whitespace |
| Strings.TrimEnd | templates/static/app.js:139 | the result is a prefix; what it drops is all whitespace; it does not end with whitespace |
| Strings.Trim | templates/static/app.js:262 | `trim()` is a stretch of `s` with only whitespace before and after it; it is empty exactly for an all-whitespace string, and otherwise neither starts nor ends with whitespace |
| Strings.TrimMiddle | templates/static/app.js:262 | trimming both ends leaves the part of `s` that follows its leading whitespace, with only whitespace after it |
| Strings.SplitOn | templates/static/app.js:145 | `split(c)` gives at least one piece, no piece contains `c`, and joining the pieces with `c` gives the input back |
| Strings.SplitWithoutSeparator | templates/static/app.js:145 | a string without the separator splits into itself alone |
| Strings.SplitAtOnlySeparator | templates/static/uiController.js:19 | `a + c + b`, where neither part contains `c`, splits into exactly `[a, b]` |
| Strings.Utf16Length | templates/static/app.js:257 | `length` counts UTF-16 code units: at least one and at most two per character |
| Strings.Utf16LengthAppend | templates/static/app.js:257 | the code units of a concatenation are the sum of those of its parts |
| Strings.Utf16LengthAstral | templates/static/app.js:257 | characters beyond the Basic Multilingual Plane take two code units each |
| Strings.Utf16Prefix | templates/static/app.js:277 | the whole-character approximation of `substring(0, n)`: the longest prefix of whole characters that fits in `n` code units |
| Images.RandomColor | templates/static/imageController.js:40-43 | the drawn colour is one of the five palette colours |
| Images.AddImage | templates/static/imageController.js:8-19 | one record is appended with the given description; earlier records and the shown index are unchanged; the colour is the supplied truthy one or else a palette colour; validity is kept |
| Images.ShowImage | templates/static/imageController.js:21-38 | the shown index moves exactly for an index inside the list; any other index changes nothing; validity is kept |
| Images.Reset | templates/static/imageController.js:119-133 | no images and shown index 0, which is valid |
| Images.Thumbnails | templates/static/imageController.js:92-117 | one thumbnail per image, in order, in the image's colour, active exactly at `currentImageIndex` |
| Images.ExactlyOneActiveThumbnail | templates/static/imageController.js:96-101 | in a valid, non-empty gallery exactly the thumbnail at `currentImageIndex` is active; since only `showImage` moves that index, it can be active while the placeholder is still displayed |
| Audio.AddClip | templates/static/audioController.js:9-22 | one clip is appended at index old length with time 0; earlier clips and the rest of the player are unchanged; defaults are "Clip n", 222 and scene 0 for falsy values; validity is kept |
| Audio.PlayCurrent | templates/static/audioController.js:34-43 | a new device at the page volume, at position 0 and without a source, replaces the old one; nothing else changes and validity is kept |
| Audio.PlayAt | templates/static/audioController.js:24-32 | an index inside the list selects that clip and loads a device; any other index changes nothing; the playing flag is never touched |
| Audio.ClickNavClip | templates/static/audioController.js:229-233 | a click in the audio navigation plays the clip when it exists, and always marks the player playing |
| Audio.Toggle | templates/static/audioController.js:81-106 | nothing happens without clips; otherwise the playing flag flips, and a device exists afterwards exactly when one existed or playback started |
| Audio.EndOfClip | templates/static/audioController.js:54-65 | with a next clip, playback advances to it and keeps playing; otherwise it stops on the same clip |
| Audio.Seek | templates/static/audioController.js:155-168 | a device with a finite duration is positioned at fraction × duration; otherwise only the current clip's stored time becomes fraction × its duration; validity is kept |
| Audio.ChangeVolume | templates/static/audioController.js:170-182 | the volume becomes the fraction clamped to [0, 1], and an existing device follows it |
| Audio.Reset | templates/static/audioController.js:243-257 | no clips, index 0, not playing, no device; the volume is kept |
| Audio.SilentDevicePreserved | templates/static/audioController.js:34-43 | no operation gives the device a duration, so a seek always takes the stored-time branch |
| Audio.FormatTime | templates/static/audioController.js:115-120 | a NaN time reads `0:00`; a time of at least 0 reads as digits, a colon and two digits |
| Audio.ClockParts | templates/static/audioController.js:117-118 | for a non-negative time, the minutes and seconds are the quotient and remainder of its whole seconds by 60 |
| Audio.ClockText | templates/static/audioController.js:117-119 | for a time of at least 0 the text has the `m:ss` shape, and 0 seconds read `0:00` |
| Audio.PaddedSeconds | templates/static/audioController.js:119 | the seconds part is exactly two digits and reads back as the seconds |
| Audio.FormatTimeClock | templates/static/audioController.js:115-120 | the time text is `m:ss`, the two parts read back as `floor(s) / 60` and `floor(s) % 60`, and the minutes have no leading zero (a leading `0` means the minutes are just `0`) |
| Audio.MinSecParts | templates/static/audioController.js:117-119 | the text of whole minutes and seconds below 60 is `m:ss`, with no leading zero in the minutes, and both parts read back |
| Audio.FindGroup | templates/static/audioController.js:198-201 | the lookup in the scene map finds a group with the key, or reports that none exists |
| Audio.GroupHeading | templates/static/audioController.js:208 | a group's title is "Scene " and digits that read back as the scene index plus 1 |
| Audio.GroupHeadingInjective | templates/static/audioController.js:208 | different scenes get different group titles |
| Audio.FindGroupFirst | templates/static/audioController.js:198-201 | no group before the one found has the key |
| Audio.SceneKeysExact | templates/static/audioController.js:196-202 | the map's keys are exactly the scene indices present, each once |
| Audio.SceneItemsSound | templates/static/audioController.js:197-202 | every entry in a scene's group comes from a clip of that scene |
| Audio.SceneItemsComplete | templates/static/audioController.js:197-202 | every clip of a scene is in that scene's group |
| Audio.SceneItemsOrdered | templates/static/audioController.js:197-202 | within a group the clips keep their list order |
| Audio.SceneItemsOfAbsentKey | templates/static/audioController.js:197-202 | a scene without clips has an empty group |
| Audio.ReferenceExistingKey | templates/static/audioController.js:198-201 | a clip whose scene already has a group extends that group in place |
| Audio.ReferenceNewKey | templates/static/audioController.js:198-201 | a clip of a new scene opens a group at the end |
| Audio.ReferenceStep | templates/static/audioController.js:197-202 | the reference grouping grows exactly as one loop step of the map does |
| Audio.GroupMatchesReference | templates/static/audioController.js:196-205 | the map-building loop yields, in first-appearance order, one group per scene holding exactly that scene's clips |
| Audio.AudioNavigation | templates/static/audioController.js:184-241 | the "no audio" message appears exactly when there are no clips; otherwise the groups are the reference grouping of the clips |
| Audio.GroupHeadingsDistinct | templates/static/audioController.js:196-208 | no two groups of the audio navigation carry the same title |
| StoryFlow.AddArrayClips | templates/static/storyFlow.js:52-61 | an audio array registers one clip per element, in order, tagged with the scene; default titles are "Scene n - Clip k" |
| StoryFlow.InitializeStory | templates/static/storyFlow.js:11-30 | one scene with the text; parts `[text]`; narrative and result are the text; with image data the scene holds the image record; with audio, exactly one clip of scene 0 whose title defaults to "Opening Scene", else no indices |
| StoryFlow.ContinueStory | templates/static/storyFlow.js:32-81 | one scene appended at the old length, earlier scenes unchanged; the narrative and the result are the parts joined by the separator; the image index is the old image count, or none; audio follows the absent, single or array rule |
| StoryFlow.ContinuationPicture | templates/static/storyFlow.js:39-47 | with image data the new scene points at the image just appended, which is the old image count |
| StoryFlow.ContinuationAudio | templates/static/storyFlow.js:49-71 | absent audio gives no indices; a single object gives one clip titled "Scene n" by default; an array gives one clip per element |
| StoryFlow.CurrentStory | templates/static/storyFlow.js:83-85 | in a valid flow, the narrative is the parts joined by the separator |
| StoryFlow.SetCurrentScene | templates/static/storyFlow.js:87-93 | an index inside the list focuses and returns that scene; any other index returns nothing and leaves the focus |
| StoryFlow.GetScene | templates/static/storyFlow.js:95-100 | a scene is returned exactly for indices inside the list, and it is the scene at that index |
| StoryFlow.GetCurrentScene | templates/static/storyFlow.js:102-104 | the last scene, and nothing for an empty story |
| StoryFlow.TotalScenes | templates/static/storyFlow.js:106-108 | the number of scenes, which is also the number of parts in a valid flow |
| StoryFlow.Reset | templates/static/storyFlow.js:110-114 | parts, narrative and scenes are emptied; the focus is left as it was |
| StoryFlow.GetAndSetAgree | templates/static/storyFlow.js:87-100 | `getScene` and `setCurrentScene` find the same scene for the same indices; only a successful set moves the focus |
| StoryFlow.InitializeForgetsHistory | templates/static/storyFlow.js:11-30 | initialising gives the same result whatever scenes existed before; only the focus carries over |
| StoryFlow.OpenThenContinue | templates/static/storyFlow.js:11-81 | opening and then continuing, each step with or without a picture and clips and each on the controllers the previous step left, gives one scene per part in order; the narrative is all parts joined; the focus stays; the image and audio controllers stay valid |
| StoryFlow.ContinueAllAppends | templates/static/storyFlow.js:32-81 | repeated continuations, with or without pictures and clips, append their texts as parts, keep earlier scenes and the focus, and keep the flow valid |
| StoryFlow.ContinueAllKeepsControllers | templates/static/storyFlow.js:32-81 | repeated continuations keep the image and audio controllers valid |
| Ui.CharCounter | templates/static/uiController.js:16-27 | for a prompt of a given length in UTF-16 code units, the text is "length/500"; no colour up to 400, orange above 400 up to 500, red above 500 |
| Ui.CounterTextParses | templates/static/uiController.js:19 | the counter text splits at its slash into two numerals that read back as the length and the maximum |
| Ui.TextNavigation | templates/static/uiController.js:49-76 | one entry per scene labelled "Scene i+1"; an entry is active exactly when it is the focused scene |
| Ui.ActiveSceneEntries | templates/static/uiController.js:53-58 | exactly one entry is active when the focus names a scene, and none when the focus is at or past the end |
| Ui.SceneLabelsDistinct | templates/static/uiController.js:67 | different scenes get different labels |
| App.Start | templates/static/app.js:29-80 | a fresh page: controllers empty, first submission pending, the sample history with nothing highlighted, and the invariant holds |
| App.SampleEntries | templates/static/app.js:299-315 | one entry per sample prompt, in order, showing the whole prompt, none highlighted |
| App.SamplesDistinct | templates/static/config.js:26-32 | the sample prompts are pairwise different |
| App.Caption | templates/static/app.js:277 | the shown text is the prompt when it has at most 30 UTF-16 code units; otherwise it is the prompt cut after 27 code units (26 when the 27th would split a surrogate pair) followed by "...", at most 30 code units in all |
| App.CaptionCut | templates/static/app.js:277 | the cut of a prompt longer than 30 code units is a proper prefix of 26 or 27 code units, 26 only before a two-unit character |
| App.AddToHistory | templates/static/app.js:261-297 | blank and already-listed prompts are ignored; any other prompt goes on top; distinct prompts and at most one highlight are kept; afterwards the prompt is listed exactly when it is not blank or was listed already |
| App.Highlighted | templates/static/app.js:287-288 | the entries are unchanged except that only the one at the index is highlighted |
| App.SelectHistory | templates/static/app.js:68-75 | a click on an entry highlights it alone and copies its prompt into the box; the button state is not updated |
| App.HandleInput | templates/static/app.js:255-259 | the button is disabled exactly for an empty prompt or one longer than 500 UTF-16 code units |
| App.SubmitMatchesCounter | templates/static/app.js:255-259 | apart from an empty prompt, the button is disabled exactly when the counter is red |
| App.AstralPromptDisabled | templates/static/app.js:257-258 | 260 characters beyond the Basic Multilingual Plane count as 520 code units and disable the button |
| App.Capitalize | templates/static/app.js:149 | only the first character changes, and only when it is a lower-case ASCII letter |
| App.Keyword | templates/static/app.js:145-146 | the story's keyword is one of the space-separated words of the trimmed prompt |
| App.ContinuationClips | templates/static/app.js:185-193 | one or two clip descriptions, "Continuation" then "Ambient Sound 1", each lasting 60 to 239 seconds |
| App.OpeningStory | templates/static/app.js:149-159 | the opening text starts with "# The Tale of " and the capitalised keyword, and its first passage is followed by the keyword |
| App.ContinuationText | templates/static/app.js:173-179 | the continuation text opens with "As the tale unfolded, the **" followed by the keyword |
| App.OpeningStep | templates/static/app.js:148-170 | the first real prompt opens a story whose only part is the opening text, with one scene that holds its picture as a record and one clip index; the picture is "The magical" and the keyword; the controllers stay valid |
| App.OpeningClip | templates/static/app.js:163-170 | the first real prompt registers exactly one clip for scene 0, titled "Introduction", lasting 180 to 299 seconds, after the clips already there |
| App.ContinuationStep | templates/static/app.js:171-201 | a later prompt appends the continuation text with one or two clips and a picture at the next image index, described as the keyword "facing challenges"; the controllers stay valid |
| App.DefaultStep | templates/static/app.js:202-211 | a blank prompt opens the default story with one scene that holds its picture as a record, described as "A magical story scene", and one clip index; the controllers stay valid |
| App.DefaultClip | templates/static/app.js:205-210 | a blank prompt registers exactly one clip for scene 0, titled "Introduction" and lasting 120 seconds, after the clips already there |
| App.StoryStep | templates/static/app.js:139-211 | whatever the branch, the returned text is the narrative, and the newest scene has at least one clip index |
| App.ResponseDescription | templates/static/app.js:161-219 | the image description in the response is the description of the picture the story step adds |
| App.MockApiCall | templates/static/app.js:133-220 | the prompt box is cleared, nothing else outside the controllers changes, the response is the whole narrative, and the volume is kept |
| App.ShowRef | templates/static/app.js:237-240 | an index shows that image; a picture record shows nothing |
| App.UpdateUI | templates/static/app.js:222-253 | the response is rendered; the newest scene's picture is shown when the scene refers to it by index (a continuation), while an opening's image record shows nothing; if the scene has clips, the player ends up reset |
| App.BeginGeneration | templates/static/app.js:82-106 | before the request the button is disabled and the prompt enters the history |
| App.CompleteGeneration | templates/static/app.js:109-119 | the button is enabled again; a failure shows the error notice and changes nothing else; a success clears the prompt and ends the first submission |
| App.GenerateStory | templates/static/app.js:82-119 | the first-submission flag stays set only when a first submission fails; the prompt enters the history; the button ends enabled |
| App.ShowScene | templates/static/app.js:347-377 | an index without a scene changes nothing; otherwise the scene is focused and rendered, and its picture is shown when the scene refers to it by index (a continuation), while an opening's image record shows nothing; its first clip plays with the player forced to playing, or the audio is reset when it has none |
| App.ResetAll | templates/static/app.js:379-398 | first submission again, empty prompt and story area, all three controllers reset, no history highlight; the history and the button state are kept |
| App.BeginKeepsValid | templates/static/app.js:82-106 | the first half of a generation keeps the page invariant |
| App.CompleteKeepsValid | templates/static/app.js:109-119 | the second half keeps the page invariant, whatever ran in between |
| App.StepKeepsValid | templates/static/app.js:144-211 | every branch of the simulated request keeps each controller valid and every scene's image index inside the image list |
| App.ContinuationResolves | templates/static/storyFlow.js:40-47 | after a continuation, the earlier scenes' image indices still resolve, and so does the new one |
| App.UpdateKeepsValid | templates/static/app.js:222-253 | updating the page keeps the controllers valid and the image indices resolving |
| App.GenerationKeepsValid | templates/static/app.js:82-119 | a whole generation keeps the page invariant |
| App.SelectKeepsValid | templates/static/app.js:68-75 | choosing a history entry keeps the page invariant |
| App.InputKeepsValid | templates/static/app.js:255-259 | typing keeps the page invariant |
| App.ShowSceneKeepsValid | templates/static/app.js:347-377 | showing a scene keeps the page invariant |
| App.ResetKeepsValid | templates/static/app.js:379-398 | resetting keeps the page invariant |
| App.FailedGenerationKeepsStory | templates/static/app.js:115-119 | a failed request leaves the story, the controllers, the first-submission flag and the prompt as they were, and shows the error |
| App.BlankPromptRestarts | templates/static/app.js:202-211 | a blank prompt always restarts the story with the default text as its only scene, even after a first submission |
| App.FirstPromptOpens | templates/static/app.js:144-170 | the first real prompt opens a one-scene story about one of its words |
| App.LaterPromptContinues | templates/static/app.js:171-201 | a later real prompt appends exactly one scene, with one or two clips and a new picture, keeps the earlier scenes, and renders the whole narrative |
| App.GenerationSilencesAudio | templates/static/app.js:241-248 | after a successful generation the clip list is empty and nothing plays, although the newest scene holds clip indices |
| App.CompletionSilencesAudio | templates/static/app.js:241-248 | the same, for the second half of a generation on its own |
| App.ResubmitRestarts | templates/static/app.js:213-219 | a successful generation leaves an empty prompt with the button enabled, and clicking again restarts the story with the default text |
| App.ShownSceneIsActive | templates/static/uiController.js:53-58 | after showing an existing scene, exactly its navigation entry is active |
| App.RecordSceneShowsNothing | templates/static/app.js:361-363 | showing a scene that holds an image record leaves the gallery unchanged, because `showImage` ignores anything that is not an index in range |
| App.OpeningPictureNotShown | templates/static/app.js:161-170 | after the first real prompt the single scene holds an image record and the gallery's shown index stays where it was, so the new picture is not displayed |

## Left out

- The DOM is left out: markup, class toggles, opacity and fade animations, the loading messages, the spinner and the button labels. Only the state they reflect is modelled.
- Timers are left out. The 200 ms delay before `updateUI` and `showScene` render the text is not modelled; the text is taken to be rendered at once.
- The request's artificial delay (`Math.random()` at app.js:135) is left out, because it only affects timing.
- Markdown rendering (`marked`) is left out. The view holds the Markdown source it would render.
- HTML audio playback is left out: the `play()` promise, the `timeupdate` progress bar, and the per-tick advance of `simulateAudio`. Only the end-of-clip transition is modelled.
- The playback device is modelled by its volume, duration and position. A device created by `new Audio()` has no source, so its duration is NaN.
- The SVG artwork of `generateStoryImage` and the second colour draw made for it are left out. Only the recorded colour is modelled.
- The ids built from `Date.now()` are left out.
- The theme, the sidebar, the tooltips and `localStorage` do not affect the story state, so they are left out.
- Pixel geometry in `seekAudio` and `changeVolume` is left out: both take the click's fraction of the bar directly.
- App.Capitalize: `toUpperCase` is modelled only for the letters a to z. Other characters are left as they are, whereas the source also upper-cases non-ASCII letters.
- App.CompleteGeneration: the `failed` flag stands for an exception from a real generator. The simulated request in the source never throws.
- Numbers are modelled as exact reals, not IEEE doubles. Rounding in the volume, in `pos * duration` in the seek, and in the divisions of `formatTime` is not modelled.
- Audio.AddClip: clip durations are whole seconds (`int`), whereas `addAudioClip` accepts any number. Every duration the page produces is a whole number (app.js:166, 191, 207), so no reachable behaviour is lost. A fractional duration cannot be expressed.
- Strings.Utf16Prefix: `substring(0, n)` keeps exactly `min(n, length)` code units, even when that splits a surrogate pair. A Dafny string cannot hold a lone surrogate, so this member stops one code unit short in that case.
- App.Caption: when the 27th code unit is the first half of a surrogate pair, the source keeps that lone half. A Dafny string cannot hold half a character, so the caption stops one code unit earlier.
- `App.Session` has no field for the `isDarkMode` or `currentAudio` fields of `StoryTeller`. `currentAudio` is the device inside `Audio.Player`.
