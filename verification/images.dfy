/** The image controller: an append-only list of generated pictures and the index
    of the one on display. The SVG artwork, the clock-based ids and the display
    animation are not part of the model. */
module Images {
  import opened Js

  /** The colours `getRandomColor` chooses from. */
  const Palette: seq<string> := ["#10a37f", "#FF5722", "#2196F3", "#9C27B0", "#FFEB3B"]

  /** One generated picture: what it depicts and its display colour. */
  datatype Image = Image(description: string, color: string)

  /** The controller state: `storyImages` and `currentImageIndex`. */
  datatype Gallery = Gallery(images: seq<Image>, current: nat)

  /** The state after construction. */
  const Fresh: Gallery := Gallery([], 0)

  /** The shown index is either the initial 0 or names an image in the list. */
  predicate Valid(g: Gallery) {
    g.current == 0 || g.current < |g.images|
  }

  /** `getRandomColor()` given the value `Math.random()` returned. */
  function RandomColor(roll: real): (c: string)
    requires IsRandom(roll)
    ensures c in Palette
  {
    Palette[Pick(roll, |Palette|)]
  }

  /** The gallery after `addImage` and the record it returns. */
  datatype Added = Added(gallery: Gallery, image: Image)

  /** `addImage(description, color)`; `roll` is what `Math.random()` would return
      if a colour has to be drawn. */
  function AddImage(g: Gallery, description: string, color: Option<string>, roll: real): (r: Added)
    requires IsRandom(roll)
    ensures r.gallery.images == g.images + [r.image]
    ensures r.gallery.current == g.current
    ensures r.image.description == description
    ensures color.Some? && color.value != "" ==> r.image.color == color.value
    ensures color.None? || color.value == "" ==> r.image.color in Palette
    ensures Valid(g) ==> Valid(r.gallery)
  {
    var image := Image(description, OrString(color, RandomColor(roll)));
    Added(Gallery(g.images + [image], g.current), image)
  }

  /** `showImage(index)`: moves the shown index only to an existing image. */
  function ShowImage(g: Gallery, index: int): (r: Gallery)
    ensures r.images == g.images
    ensures 0 <= index < |g.images| ==> r.current == index
    ensures !(0 <= index < |g.images|) ==> r == g
    ensures Valid(g) ==> Valid(r)
  {
    if 0 <= index < |g.images| then g.(current := index) else g
  }

  /** `reset()`: no images, shown index back to 0. */
  function Reset(g: Gallery): (r: Gallery)
    ensures r.images == [] && r.current == 0
    ensures Valid(r)
  {
    Fresh
  }

  /** One entry of the image navigation strip. */
  datatype Thumbnail = Thumbnail(color: string, active: bool)

  /** The thumbnails `updateImageNavigationUI` builds: one per image, in order. */
  function Thumbnails(g: Gallery): (r: seq<Thumbnail>)
    ensures |r| == |g.images|
    ensures forall i | 0 <= i < |r| :: r[i].color == g.images[i].color
    ensures forall i | 0 <= i < |r| :: r[i].active == (i == g.current)
  {
    seq(|g.images|, i requires 0 <= i < |g.images| => Thumbnail(g.images[i].color, i == g.current))
  }

  /** In a valid gallery with at least one image exactly one thumbnail is active:
      the one at the shown index `currentImageIndex`. That index only moves through
      `showImage`, so the thumbnail can be active while the picture itself was never
      displayed (the opening scene's picture is an image record, which `showImage`
      ignores). */
  lemma ExactlyOneActiveThumbnail(g: Gallery)
    requires Valid(g) && |g.images| > 0
    ensures var t := Thumbnails(g);
      && g.current < |t| && t[g.current].active
      && forall i | 0 <= i < |t| && t[i].active :: i == g.current
  {
  }
}
