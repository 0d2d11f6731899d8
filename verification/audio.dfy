/** The audio controller: an append-only list of clip records and the playback
    state machine around it (the clip index, the `isPlaying` flag, the playback
    device and the volume). Media playback itself, progress ticks and the UI are
    not part of the model; only the state they leave behind is. */
module Audio {
  import opened Js
  import Strings

  /** Seconds given to a clip whose duration is missing or 0. */
  const DefaultDuration: int := 222

  /** The volume the page starts with. */
  const InitialVolume: real := 0.7

  /** One clip record. The clock-based id is not modelled. */
  datatype Clip = Clip(title: string, duration: int, currentTime: real, sceneIndex: int)

  /** The object handed to `addAudioClip`; `None` stands for an undefined field. */
  datatype ClipData = ClipData(title: Option<string>, duration: Option<int>, sceneIndex: Option<int>)

  /** The page's `currentAudio` element. It is always created without a source,
      so its duration starts out NaN. */
  datatype Device = NoDevice | Device(volume: real, duration: JsNumber, position: real)

  /** The controller state, together with the page's `currentAudio` and `audioVolume`. */
  datatype Player = Player(clips: seq<Clip>, current: nat, isPlaying: bool, device: Device, volume: real)

  /** The state after construction. */
  const Fresh: Player := Player([], 0, false, NoDevice, InitialVolume)

  /** The clip index is the initial 0 or names a clip in the list. */
  predicate IndexOk(p: Player) {
    p.current == 0 || p.current < |p.clips|
  }

  /** The controller invariant: the index is in range, the volume lies in [0, 1]
      and a device plays at that volume. */
  predicate Valid(p: Player) {
    && IndexOk(p)
    && 0.0 <= p.volume <= 1.0
    && (p.device.Device? ==> p.device.volume == p.volume)
  }

  /** A device that is absent or was never given a source, as every device created here is. */
  predicate SilentDevice(p: Player) {
    p.device.Device? ==> p.device.duration == NaN
  }

  /** The controller after `addAudioClip` and the index it returned. */
  datatype AddedClip = AddedClip(player: Player, index: nat)

  /** `addAudioClip(data)`: appends one clip with its position at 0 and returns its index. */
  function AddClip(p: Player, d: ClipData): (r: AddedClip)
    ensures r.index == |p.clips| && |r.player.clips| == |p.clips| + 1
    ensures r.player.clips[..|p.clips|] == p.clips
    ensures r.player == p.(clips := r.player.clips)
    ensures var c := r.player.clips[r.index];
      && c.currentTime == 0.0
      && (d.title.Some? && d.title.value != "" ==> c.title == d.title.value)
      && (d.title.None? || d.title.value == "" ==> c.title == "Clip " + Strings.NatToString(|p.clips| + 1))
      && (d.duration.Some? && d.duration.value != 0 ==> c.duration == d.duration.value)
      && (d.duration.None? || d.duration.value == 0 ==> c.duration == DefaultDuration)
      && c.sceneIndex == d.sceneIndex.GetOr(0)
    ensures Valid(p) ==> Valid(r.player)
  {
    var clip := Clip(
      OrString(d.title, "Clip " + Strings.NatToString(|p.clips| + 1)),
      OrInt(d.duration, DefaultDuration),
      0.0,
      OrInt(d.sceneIndex, 0));
    AddedClip(p.(clips := p.clips + [clip]), |p.clips|)
  }

  /** `playCurrentAudio()`: a fresh device at the current volume replaces the old
      one. It does not touch `isPlaying`. */
  function PlayCurrent(p: Player): (r: Player)
    ensures r.device.Device? && r.device.volume == p.volume && r.device.position == 0.0
    ensures SilentDevice(r)
    ensures r == p.(device := r.device)
    ensures Valid(p) ==> Valid(r)
  {
    p.(device := Device(p.volume, NaN, 0.0))
  }

  /** `playAudioAtIndex(index)`: selects and loads an existing clip; any other index
      changes nothing. The playing flag is left as it was. */
  function PlayAt(p: Player, index: int): (r: Player)
    ensures r.clips == p.clips && r.isPlaying == p.isPlaying && r.volume == p.volume
    ensures 0 <= index < |p.clips| ==> r.current == index && r.device.Device?
    ensures !(0 <= index < |p.clips|) ==> r == p
    ensures Valid(p) ==> Valid(r)
  {
    if 0 <= index < |p.clips| then PlayCurrent(p.(current := index)) else p
  }

  /** A click on a clip in the audio navigation: play it and mark the player playing. */
  function ClickNavClip(p: Player, index: int): (r: Player)
    ensures r.isPlaying && r.clips == p.clips
    ensures 0 <= index < |p.clips| ==> r.current == index
    ensures !(0 <= index < |p.clips|) ==> r.current == p.current && r.device == p.device
    ensures Valid(p) ==> Valid(r)
  {
    PlayAt(p, index).(isPlaying := true)
  }

  /** `toggleAudio()`: nothing without clips; otherwise the playing flag flips, and
      starting with no device loads the current clip on a new one. */
  function Toggle(p: Player): (r: Player)
    ensures |p.clips| == 0 ==> r == p
    ensures |p.clips| > 0 ==>
      && r.isPlaying == !p.isPlaying
      && r.clips == p.clips && r.current == p.current && r.volume == p.volume
      && (r.device.Device? <==> p.device.Device? || !p.isPlaying)
    ensures Valid(p) ==> Valid(r)
  {
    if |p.clips| == 0 then p
    else if p.isPlaying then p.(isPlaying := false)
    else if p.device.NoDevice? then PlayCurrent(p).(isPlaying := true)
    else p.(isPlaying := true)
  }

  /** The end of a clip, reported by the device's `ended` event or by the simulated
      progress timer reaching 100%: advance to and play the next clip if there is
      one, otherwise stop on the same clip. */
  function EndOfClip(p: Player): (r: Player)
    ensures r.clips == p.clips && r.volume == p.volume
    ensures p.current < |p.clips| - 1 ==> r.current == p.current + 1 && r.isPlaying && r.device.Device?
    ensures p.current >= |p.clips| - 1 ==> r.current == p.current && !r.isPlaying && r.device == p.device
    ensures Valid(p) ==> Valid(r)
  {
    var stopped := p.(isPlaying := false);
    if stopped.current < |stopped.clips| - 1 then
      PlayCurrent(stopped.(current := stopped.current + 1)).(isPlaying := true)
    else
      stopped
  }

  /** `seekAudio` given the click position as a fraction of the bar: a device that
      knows its duration is moved; otherwise the current clip's stored position is set. */
  function Seek(p: Player, fraction: real): (r: Player)
    requires IndexOk(p)
    ensures p.device.Device? && p.device.duration.Finite? ==>
      r == p.(device := p.device.(position := fraction * p.device.duration.value))
    ensures !(p.device.Device? && p.device.duration.Finite?) && |p.clips| > 0 ==>
      && |r.clips| == |p.clips|
      && r.clips[p.current].currentTime == fraction * p.clips[p.current].duration as real
      && r.clips[p.current].(currentTime := p.clips[p.current].currentTime) == p.clips[p.current]
      && (forall i | 0 <= i < |p.clips| && i != p.current :: r.clips[i] == p.clips[i])
      && r.(clips := p.clips) == p
    ensures !(p.device.Device? && p.device.duration.Finite?) && |p.clips| == 0 ==> r == p
    ensures Valid(p) ==> Valid(r)
  {
    if p.device.Device? && p.device.duration.Finite? then
      p.(device := p.device.(position := fraction * p.device.duration.value))
    else if |p.clips| > 0 then
      var c := p.clips[p.current];
      p.(clips := p.clips[p.current := c.(currentTime := fraction * c.duration as real)])
    else
      p
  }

  /** `changeVolume` given the click position as a fraction of the slider: the
      volume is clamped into [0, 1] and applied to the device if there is one. */
  function ChangeVolume(p: Player, fraction: real): (r: Player)
    ensures 0.0 <= r.volume <= 1.0
    ensures 0.0 <= fraction <= 1.0 ==> r.volume == fraction
    ensures fraction < 0.0 ==> r.volume == 0.0
    ensures fraction > 1.0 ==> r.volume == 1.0
    ensures r.device.Device? <==> p.device.Device?
    ensures r.device.Device? ==> r.device == p.device.(volume := r.volume)
    ensures r.(volume := p.volume, device := p.device) == p
    ensures IndexOk(p) ==> Valid(r)
  {
    var low := if 1.0 < fraction then 1.0 else fraction;
    var v := if 0.0 > low then 0.0 else low;
    if p.device.Device? then p.(volume := v, device := p.device.(volume := v)) else p.(volume := v)
  }

  /** `reset()`: no clips, index 0, not playing, no device; the volume is kept. */
  function Reset(p: Player): (r: Player)
    ensures r.clips == [] && r.current == 0 && !r.isPlaying && r.device == NoDevice
    ensures r.volume == p.volume
    ensures Valid(p) ==> Valid(r)
  {
    Player([], 0, false, NoDevice, p.volume)
  }

  /** Every operation keeps a device without a source, so a seek always falls back
      to the stored clip position. */
  lemma SilentDevicePreserved(p: Player, d: ClipData, index: int, fraction: real)
    requires SilentDevice(p)
    ensures SilentDevice(AddClip(p, d).player)
    ensures SilentDevice(PlayAt(p, index)) && SilentDevice(ClickNavClip(p, index))
    ensures SilentDevice(Toggle(p)) && SilentDevice(EndOfClip(p))
    ensures IndexOk(p) ==> SilentDevice(Seek(p, fraction))
    ensures SilentDevice(ChangeVolume(p, fraction)) && SilentDevice(Reset(p))
    ensures IndexOk(p) && |p.clips| > 0 ==> Seek(p, fraction).device == p.device
  {
  }

  /** `formatTime(seconds)`: whole minutes, a colon and the seconds, padded to two
      places when below 10. NaN reads as 0. */
  function FormatTime(t: JsNumber): (r: string)
    ensures t.NaN? ==> r == "0:00"
    ensures t.NaN? || t.value >= 0.0 ==>
      var k := |r| - 3;
      && k >= 1 && r[k] == ':' && Strings.AllDigits(r[..k]) && Strings.AllDigits(r[k + 1..])
  {
    var s := if t.NaN? then 0.0 else t.value;
    if s >= 0.0 then ClockText(s); ClockString(s) else ClockString(s)
  }

  /** The text `formatTime` builds from a number of seconds. */
  function ClockString(s: real): string {
    MinSec((s / 60.0).Floor, Rem60(s).Floor)
  }

  /** The minutes, a colon, and the seconds padded with a zero below 10. */
  function MinSec(mins: int, secs: int): string {
    Strings.IntToString(mins) + ":"
      + (if secs < 10 then "0" + Strings.IntToString(secs) else Strings.IntToString(secs))
  }

  /** For `s >= 0` the text is digits, a colon and two digits; for 0 it is `0:00`. */
  lemma ClockText(s: real)
    requires s >= 0.0
    ensures var r := ClockString(s); var k := |r| - 3;
      && k >= 1 && r[k] == ':' && Strings.AllDigits(r[..k]) && Strings.AllDigits(r[k + 1..])
      && (s == 0.0 ==> r == "0:00")
  {
    ClockParts(s);
    assert ClockString(s) == MinSec(s.Floor / 60, s.Floor % 60);
    MinSecParts(s.Floor / 60, s.Floor % 60);
    if s == 0.0 {
      assert Strings.IntToString(0) == "0";
    }
  }

  /** For `s >= 0` the minutes and seconds `formatTime` computes are the quotient and
      remainder of the whole seconds by 60. */
  lemma ClockParts(s: real)
    requires s >= 0.0
    ensures (s / 60.0).Floor == s.Floor / 60 && Rem60(s).Floor == s.Floor % 60
  {
    var f := s.Floor;
    var m := f / 60;
    var sec := f % 60;
    assert f == 60 * m + sec;
    assert (s / 60.0).Floor == m by {
      assert m as real <= s / 60.0 < m as real + 1.0;
    }
    assert Trunc(s / 60.0) == m;
    assert Rem60(s) == s - 60.0 * m as real;
    assert sec as real <= Rem60(s) < sec as real + 1.0;
  }

  /** Seconds below 60, padded to two digits as `formatTime` does. */
  lemma PaddedSeconds(sec: nat)
    requires sec < 60
    ensures var right := if sec < 10 then "0" + Strings.IntToString(sec) else Strings.IntToString(sec);
      && |right| == 2 && Strings.AllDigits(right) && Strings.ParseDigits(right) == sec
  {
    Strings.ParseNatToString(sec);
    if sec < 10 {
      Strings.ParseLeadingZero(Strings.NatToString(sec));
    } else {
      assert Strings.NatToString(sec) == Strings.NatToString(sec / 10) + [Strings.DigitChar(sec % 10)];
    }
  }

  /** For a time of `s >= 0` seconds the text is `m:ss`: the digits before the colon
      read back as the whole minutes and the two digits after it as the remaining
      whole seconds, so together they give `floor(s)`. The minutes carry no
      leading zero. */
  lemma FormatTimeClock(s: real)
    requires s >= 0.0
    ensures ClockShape(FormatTime(Finite(s)), s.Floor / 60, s.Floor % 60)
  {
    ClockParts(s);
    assert FormatTime(Finite(s)) == MinSec(s.Floor / 60, s.Floor % 60);
    MinSecParts(s.Floor / 60, s.Floor % 60);
  }

  /** `text` is `m:ss`: digits with no leading zero (unless the minutes are 0)
      reading back as `m`, a colon, and two digits reading back as `sec`. */
  predicate ClockShape(text: string, m: int, sec: int) {
    var k := |text| - 3;
    && k >= 1 && text[k] == ':'
    && Strings.AllDigits(text[..k]) && Strings.AllDigits(text[k + 1..])
    && Strings.ParseDigits(text[..k]) == m && Strings.ParseDigits(text[k + 1..]) == sec
    && (text[0] == '0' ==> k == 1)
  }

  /** The `m:ss` text of whole minutes and seconds, read back part by part. */
  lemma MinSecParts(m: nat, sec: nat)
    requires sec < 60
    ensures ClockShape(MinSec(m, sec), m, sec)
  {
    PaddedSeconds(sec);
    var right := if sec < 10 then "0" + Strings.IntToString(sec) else Strings.IntToString(sec);
    ColonSplit(Strings.IntToString(m), right, m, sec);
  }

  /** `left:right` for a numeral `left` without leading zeros and a two-digit
      numeral `right`. */
  lemma ColonSplit(left: string, right: string, m: nat, sec: nat)
    requires |left| >= 1 && Strings.AllDigits(left) && Strings.ParseDigits(left) == m
    requires left[0] == '0' ==> |left| == 1
    requires |right| == 2 && Strings.AllDigits(right) && Strings.ParseDigits(right) == sec
    ensures ClockShape(left + ":" + right, m, sec)
  {
    var text := left + ":" + right;
    assert text[..|left|] == left;
    assert text[|left| + 1..] == right;
    assert text[0] == left[0];
  }



  /** One clip entry of the audio navigation. */
  datatype NavClip = NavClip(index: nat, title: string, durationText: string, active: bool)

  /** The clips of one scene; the group is shown under `GroupHeading(sceneIndex)`. */
  datatype SceneGroup = SceneGroup(sceneIndex: int, items: seq<NavClip>)

  /** What `updateAudioNavigationUI` shows: a message when there are no clips,
      otherwise the clips grouped by scene. */
  datatype AudioNav = NoClipsMessage | SceneGroups(groups: seq<SceneGroup>)

  /** The entry for clip `k`: its index, title and formatted duration, marked active
      when it is the current clip. */
  function NavItem(clips: seq<Clip>, k: nat, current: nat): NavClip
    requires k < |clips|
  {
    NavClip(k, clips[k].title, FormatTime(Finite(clips[k].duration as real)), k == current)
  }

  /** The title of a scene's group: scene indices count from 0, titles from 1. */
  function GroupHeading(sceneIndex: int): (r: string)
    ensures |r| > 6 && r[..6] == "Scene "
    ensures sceneIndex >= -1 ==> Strings.AllDigits(r[6..]) && Strings.ParseDigits(r[6..]) == sceneIndex + 1
  {
    var r := "Scene " + Strings.IntToString(sceneIndex + 1);
    assert r[6..] == Strings.IntToString(sceneIndex + 1);
    r
  }

  /** Different scenes get different group titles. */
  lemma GroupHeadingInjective(a: int, b: int)
    requires GroupHeading(a) == GroupHeading(b)
    ensures a == b
  {
    assert GroupHeading(a)[6..] == Strings.IntToString(a + 1);
    assert GroupHeading(b)[6..] == Strings.IntToString(b + 1);
    Strings.IntToStringInjective(a + 1, b + 1);
  }

  /** The position of the group for `key`, or `|groups|` when there is none
      (the `Map` lookup by scene index). */
  function FindGroup(groups: seq<SceneGroup>, key: int): (j: nat)
    ensures j <= |groups|
    ensures j < |groups| ==> groups[j].sceneIndex == key
    decreases |groups|
  {
    if |groups| == 0 then 0
    else if groups[0].sceneIndex == key then 0
    else 1 + FindGroup(groups[1..], key)
  }

  /** The lookup finds the first group of `key`: no group before it has that scene. */
  lemma {:induction false} FindGroupFirst(groups: seq<SceneGroup>, key: int)
    ensures forall i | 0 <= i < FindGroup(groups, key) :: groups[i].sceneIndex != key
    decreases |groups|
  {
    if |groups| > 0 && groups[0].sceneIndex != key {
      FindGroupFirst(groups[1..], key);
      forall i | 0 < i < FindGroup(groups, key)
        ensures groups[i].sceneIndex != key
      {
        assert groups[i] == groups[1..][i - 1];
      }
    }
  }

  /** One step of the grouping: the entry joins the group of its scene, or opens a
      new group at the end when the scene has none yet. */
  function AddToGroups(groups: seq<SceneGroup>, key: int, item: NavClip): seq<SceneGroup> {
    var j := FindGroup(groups, key);
    if j < |groups| then groups[j := groups[j].(items := groups[j].items + [item])]
    else groups + [SceneGroup(key, [item])]
  }

  /** The grouping of the first `n` entries, where entry `k` belongs to scene `keys[k]`,
      built one entry at a time as the `Map` is. */
  function Group(keys: seq<int>, items: seq<NavClip>, n: nat): seq<SceneGroup>
    requires |keys| == |items| && n <= |keys|
  {
    if n == 0 then []
    else AddToGroups(Group(keys, items, n - 1), keys[n - 1], items[n - 1])
  }

  /** The distinct scene indices among the first `n` keys, in order of first
      appearance: the key order of the `Map` the navigation builds. */
  function SceneKeys(keys: seq<int>, n: nat): seq<int>
    requires n <= |keys|
  {
    if n == 0 then []
    else
      var ks := SceneKeys(keys, n - 1);
      if keys[n - 1] in ks then ks else ks + [keys[n - 1]]
  }

  /** Those of the first `n` entries that belong to scene `key`, in order. */
  function SceneItems(keys: seq<int>, items: seq<NavClip>, n: nat, key: int): seq<NavClip>
    requires |keys| == |items| && n <= |keys|
  {
    if n == 0 then []
    else SceneItems(keys, items, n - 1, key) + (if keys[n - 1] == key then [items[n - 1]] else [])
  }

  /** The navigation described without the incremental `Map`: one group per distinct
      scene, in order of first appearance, holding exactly that scene's entries. */
  function ReferenceGroups(keys: seq<int>, items: seq<NavClip>, n: nat): seq<SceneGroup>
    requires |keys| == |items| && n <= |keys|
  {
    var ks := SceneKeys(keys, n);
    seq(|ks|, i requires 0 <= i < |ks| => SceneGroup(ks[i], SceneItems(keys, items, n, ks[i])))
  }

  /** A scene index is a key exactly when one of the first `n` entries carries it,
      and no key occurs twice. */
  lemma {:induction false} SceneKeysExact(keys: seq<int>, n: nat)
    requires n <= |keys|
    ensures forall key :: key in SceneKeys(keys, n) <==> exists k | 0 <= k < n :: keys[k] == key
    ensures forall a, b | 0 <= a < b < |SceneKeys(keys, n)| :: SceneKeys(keys, n)[a] != SceneKeys(keys, n)[b]
  {
    if n > 0 {
      SceneKeysExact(keys, n - 1);
      forall key | (exists k | 0 <= k < n :: keys[k] == key)
        ensures key in SceneKeys(keys, n)
      {
        var k :| 0 <= k < n && keys[k] == key;
        if k < n - 1 {
          assert key in SceneKeys(keys, n - 1);
        }
      }
    }
  }

  /** Every entry in the group of `key` is one of the first `n` entries of that scene. */
  lemma {:induction false} SceneItemsSound(keys: seq<int>, items: seq<NavClip>, n: nat, key: int)
    requires |keys| == |items| && n <= |keys|
    ensures forall item | item in SceneItems(keys, items, n, key) ::
      exists k | 0 <= k < n && keys[k] == key :: items[k] == item
  {
    if n > 0 {
      SceneItemsSound(keys, items, n - 1, key);
    }
  }

  /** Every one of the first `n` entries of scene `key` is in its group. */
  lemma {:induction false} SceneItemsComplete(keys: seq<int>, items: seq<NavClip>, n: nat, key: int)
    requires |keys| == |items| && n <= |keys|
    ensures forall k | 0 <= k < n && keys[k] == key :: items[k] in SceneItems(keys, items, n, key)
  {
    if n > 0 {
      SceneItemsComplete(keys, items, n - 1, key);
      var prev := SceneItems(keys, items, n - 1, key);
      forall k | 0 <= k < n - 1 && keys[k] == key
        ensures items[k] in SceneItems(keys, items, n, key)
      {
        assert items[k] in prev;
      }
    }
  }

  /** When entry `k` carries index `k`, the entries of a group appear in increasing
      index order, each below `n`. */
  lemma {:induction false} SceneItemsOrdered(keys: seq<int>, items: seq<NavClip>, n: nat, key: int)
    requires |keys| == |items| && n <= |keys|
    requires forall k | 0 <= k < |items| :: items[k].index == k
    ensures forall item | item in SceneItems(keys, items, n, key) :: item.index < n
    ensures forall a, b | 0 <= a < b < |SceneItems(keys, items, n, key)| ::
      SceneItems(keys, items, n, key)[a].index < SceneItems(keys, items, n, key)[b].index
  {
    if n > 0 {
      SceneItemsOrdered(keys, items, n - 1, key);
      var prev := SceneItems(keys, items, n - 1, key);
      forall a | 0 <= a < |prev|
        ensures prev[a].index < n - 1
      {
        assert prev[a] in prev;
      }
    }
  }

  /** A scene that is not a key has no entries. */
  lemma {:induction false} SceneItemsOfAbsentKey(keys: seq<int>, items: seq<NavClip>, n: nat, key: int)
    requires |keys| == |items| && n <= |keys| && key !in SceneKeys(keys, n)
    ensures SceneItems(keys, items, n, key) == []
  {
    if n > 0 {
      SceneItemsOfAbsentKey(keys, items, n - 1, key);
    }
  }

  /** In the reference grouping, an entry of a scene already seen joins that scene's
      group and leaves the other groups as they were. */
  lemma ReferenceExistingKey(keys: seq<int>, items: seq<NavClip>, n: nat, j: nat)
    requires |keys| == |items| && 0 < n <= |keys|
    requires j < |SceneKeys(keys, n - 1)| && SceneKeys(keys, n - 1)[j] == keys[n - 1]
    ensures var before := ReferenceGroups(keys, items, n - 1);
      ReferenceGroups(keys, items, n) == before[j := before[j].(items := before[j].items + [items[n - 1]])]
  {
    SceneKeysExact(keys, n - 1);
    var ks := SceneKeys(keys, n - 1);
    assert SceneKeys(keys, n) == ks;
    forall i | 0 <= i < |ks| && i != j
      ensures SceneItems(keys, items, n, ks[i]) == SceneItems(keys, items, n - 1, ks[i])
    {
      if i < j {
        assert ks[i] != ks[j];
      } else {
        assert ks[j] != ks[i];
      }
    }
  }

  /** In the reference grouping, an entry of a scene not seen before opens a new
      group at the end. */
  lemma ReferenceNewKey(keys: seq<int>, items: seq<NavClip>, n: nat)
    requires |keys| == |items| && 0 < n <= |keys| && keys[n - 1] !in SceneKeys(keys, n - 1)
    ensures ReferenceGroups(keys, items, n) ==
      ReferenceGroups(keys, items, n - 1) + [SceneGroup(keys[n - 1], [items[n - 1]])]
  {
    var ks := SceneKeys(keys, n - 1);
    var key := keys[n - 1];
    SceneItemsOfAbsentKey(keys, items, n - 1, key);
    assert SceneKeys(keys, n) == ks + [key];
    var after := ReferenceGroups(keys, items, n);
    var expected := ReferenceGroups(keys, items, n - 1) + [SceneGroup(key, [items[n - 1]])];
    assert |after| == |expected|;
    forall i | 0 <= i < |after|
      ensures after[i] == expected[i]
    {
      if i < |ks| {
        assert ks[i] in ks;
        assert SceneItems(keys, items, n, ks[i]) == SceneItems(keys, items, n - 1, ks[i]);
      }
    }
  }

  /** The reference grouping grows by the same step as the `Map`. */
  lemma ReferenceStep(keys: seq<int>, items: seq<NavClip>, n: nat)
    requires |keys| == |items| && 0 < n <= |keys|
    ensures ReferenceGroups(keys, items, n) == AddToGroups(ReferenceGroups(keys, items, n - 1), keys[n - 1], items[n - 1])
  {
    var before := ReferenceGroups(keys, items, n - 1);
    var ks := SceneKeys(keys, n - 1);
    var j := FindGroup(before, keys[n - 1]);
    FindGroupFirst(before, keys[n - 1]);
    assert |before| == |ks| && forall i | 0 <= i < |ks| :: before[i].sceneIndex == ks[i];
    if j < |before| {
      ReferenceExistingKey(keys, items, n, j);
    } else {
      ReferenceNewKey(keys, items, n);
    }
  }

  /** The `Map`-based grouping of `updateAudioNavigationUI` yields exactly the reference groups. */
  lemma {:induction false} GroupMatchesReference(keys: seq<int>, items: seq<NavClip>, n: nat)
    requires |keys| == |items| && n <= |keys|
    ensures Group(keys, items, n) == ReferenceGroups(keys, items, n)
  {
    if n > 0 {
      GroupMatchesReference(keys, items, n - 1);
      ReferenceStep(keys, items, n);

    }
  }

  /** The scene index of every clip. */
  function ClipScenes(clips: seq<Clip>): (keys: seq<int>)
    ensures |keys| == |clips| && forall k | 0 <= k < |clips| :: keys[k] == clips[k].sceneIndex
  {
    seq(|clips|, k requires 0 <= k < |clips| => clips[k].sceneIndex)
  }

  /** The entry of every clip. */
  function NavItems(clips: seq<Clip>, current: nat): (items: seq<NavClip>)
    ensures |items| == |clips| && forall k | 0 <= k < |clips| :: items[k] == NavItem(clips, k, current)
  {
    seq(|clips|, k requires 0 <= k < |clips| => NavItem(clips, k, current))
  }

  /** What `updateAudioNavigationUI` shows: the message exactly when there are no
      clips, otherwise the reference grouping of all clips. */
  function AudioNavigation(p: Player): (r: AudioNav)
    ensures r.NoClipsMessage? <==> |p.clips| == 0
    ensures r.SceneGroups? ==>
      r.groups == ReferenceGroups(ClipScenes(p.clips), NavItems(p.clips, p.current), |p.clips|)
  {
    if |p.clips| == 0 then NoClipsMessage
    else
      var keys := ClipScenes(p.clips);
      var items := NavItems(p.clips, p.current);
      GroupMatchesReference(keys, items, |p.clips|);
      SceneGroups(Group(keys, items, |p.clips|))
  }

  /** The group titles of the audio navigation: one per group, and no title twice,
      since each scene has one group. */
  lemma GroupHeadingsDistinct(p: Player, a: nat, b: nat)
    requires AudioNavigation(p).SceneGroups?
    requires a < b < |AudioNavigation(p).groups|
    ensures var groups := AudioNavigation(p).groups;
      GroupHeading(groups[a].sceneIndex) != GroupHeading(groups[b].sceneIndex)
  {
    var keys := ClipScenes(p.clips);
    var groups := AudioNavigation(p).groups;
    SceneKeysExact(keys, |p.clips|);
    var ks := SceneKeys(keys, |p.clips|);
    assert groups[a].sceneIndex == ks[a] && groups[b].sceneIndex == ks[b];
    if GroupHeading(ks[a]) == GroupHeading(ks[b]) {
      GroupHeadingInjective(ks[a], ks[b]);
    }
  }
}
