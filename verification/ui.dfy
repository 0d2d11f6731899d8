/** The configuration values the story session reads. */
module Config {
  /** The longest prompt the submit button accepts. */
  const MaxInputLength: nat := 500

  /** The prompts the history list starts with, top to bottom. */
  const SampleHistory: seq<string> := [
    "A dragon's unexpected friendship",
    "Lost in the enchanted forest",
    "The detective and the impossible case",
    "Space explorers find a new planet",
    "A day when all technology stopped working"
  ]
}

/** The two pure derivations of the UI controller: the character counter under the
    prompt box and the scene navigation list. */
module Ui {
  import Strings
  import Config
  import StoryFlow

  /** The counter's colour: none, orange when approaching the limit, red beyond it. */
  datatype CounterColor = Plain | Orange | Red

  /** The counter as shown: its text and its colour. */
  datatype Counter = Counter(text: string, color: CounterColor)

  /** `updateCharCounter()` for a prompt of `current` UTF-16 code units, the count
      `value.length` gives. The threshold is the number `max * 0.8`; for the
      configured maximum of 500 that product is exactly 400. */
  function CharCounter(current: nat): (r: Counter)
    ensures r.text == Strings.NatToString(current) + "/" + Strings.NatToString(Config.MaxInputLength)
    ensures r.color == Plain <==> current <= 400
    ensures r.color == Orange <==> 400 < current <= Config.MaxInputLength
    ensures r.color == Red <==> current > Config.MaxInputLength
  {
    var max := Config.MaxInputLength;
    var text := Strings.NatToString(current) + "/" + Strings.NatToString(max);
    if current as real > max as real * 0.8 then
      Counter(text, if current > max then Red else Orange)
    else
      Counter(text, Plain)
  }

  /** The counter text reads back as the length, a slash and the maximum. */
  lemma CounterTextParses(current: nat)
    ensures var text := CharCounter(current).text;
      var pieces := Strings.SplitOn(text, '/');
      && |pieces| == 2
      && Strings.AllDigits(pieces[0]) && Strings.ParseDigits(pieces[0]) == current
      && Strings.AllDigits(pieces[1]) && Strings.ParseDigits(pieces[1]) == Config.MaxInputLength
  {
    var left := Strings.NatToString(current);
    var right := Strings.NatToString(Config.MaxInputLength);
    Strings.ParseNatToString(current);
    Strings.ParseNatToString(Config.MaxInputLength);
    NoSlashInDigits(left);
    NoSlashInDigits(right);
    Strings.SplitAtOnlySeparator(left, right, '/');
  }

  lemma NoSlashInDigits(s: string)
    requires Strings.AllDigits(s)
    ensures '/' !in s
  {
  }

  /** One entry of the scene navigation. */
  datatype TextNavItem = TextNavItem(caption: string, active: bool)

  /** `updateTextNavigationUI()`: one entry per scene, labelled from 1, marked active
      when it is the focused scene. */
  function TextNavigation(f: StoryFlow.Flow): (r: seq<TextNavItem>)
    ensures |r| == |f.scenes|
    ensures forall i | 0 <= i < |r| ::
      && r[i].caption == "Scene " + Strings.NatToString(i + 1)
      && (r[i].active <==> i == f.focus)
  {
    seq(|f.scenes|, i requires 0 <= i < |f.scenes| => TextNavItem("Scene " + Strings.NatToString(i + 1), i == f.focus))
  }

  /** Exactly one entry is active when the focus names a scene, and none when it is at
      or past the end (as after a reset, which keeps the focus). */
  lemma ActiveSceneEntries(f: StoryFlow.Flow)
    ensures var nav := TextNavigation(f);
      && (f.focus < |nav| ==> nav[f.focus].active && forall i | 0 <= i < |nav| && nav[i].active :: i == f.focus)
      && (f.focus >= |nav| ==> forall i | 0 <= i < |nav| :: !nav[i].active)
  {
  }

  /** Distinct scenes get distinct labels. */
  lemma SceneLabelsDistinct(f: StoryFlow.Flow, i: nat, j: nat)
    requires i < j < |f.scenes|
    ensures TextNavigation(f)[i].caption != TextNavigation(f)[j].caption
  {
    var nav := TextNavigation(f);
    var a := Strings.NatToString(i + 1);
    var b := Strings.NatToString(j + 1);
    Strings.ParseNatToString(i + 1);
    Strings.ParseNatToString(j + 1);
    assert a != b;
    assert nav[i].caption[6..] == a && nav[j].caption[6..] == b;
  }
}
