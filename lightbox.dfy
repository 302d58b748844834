/**
 * The album viewer of the portfolio page: a lightbox that shows one image of
 * the open album at a time, with a "k / n" position counter, previous/next
 * controls that wrap around, and Escape/ArrowLeft/ArrowRight keys.
 *
 * The page keeps this state in four closure variables (the image list, the
 * album title, the current index and the `open` class on the lightbox
 * element); the model keeps them, and the `src` attribute of the lightbox
 * image, as the fields of one `Viewer` object.
 */
module Lightbox {
  import opened Wrappers
  import opened Navigation
  import opened Decimal

  /**
   * A grid tile as the viewer reads it: its `data-album` and `data-images`
   * attributes, `None` when the attribute is absent.  An absent or empty
   * attribute falls back to the default (`""` and `[]`).  `data-images` is taken
   * already decoded into its list of image paths.
   */
  datatype Tile = Tile(album: Option<string>, images: Option<seq<string>>)

  /** The `src` attribute of the lightbox image. */
  datatype ImageSource =
    | Cleared              // attribute removed
    | Missing              // an index past the album's end was rendered (written as "undefined")
    | Shown(path: string)  // an image path of the album

  /** The album title a tile opens with: an absent or empty `data-album` reads as empty. */
  function TitleOf(tile: Tile): string {
    tile.album.GetOr("")
  }

  /** The image list a tile opens with: an absent `data-images` reads as `[]`. */
  function ImagesOf(tile: Tile): seq<string> {
    tile.images.GetOr([])
  }

  /** What indexing `images` at `i` yields: the path, or nothing past the end. */
  function ImageAt(images: seq<string>, i: int): (src: ImageSource)
    ensures src != Cleared
    ensures src.Shown? <==> 0 <= i < |images|
    ensures src.Shown? ==> src.path == images[i]
  {
    if 0 <= i < |images| then Shown(images[i]) else Missing
  }

  /** What a key press asks of the viewer. */
  datatype Command = Ignore | CloseViewer | ShowPrevious | ShowNext

  /**
   * The keyboard map: while the viewer is closed every key is ignored; while
   * it is open, Escape closes it and the left and right arrows step through
   * the album.  Any other key is ignored.
   */
  function KeyCommand(isOpen: bool, key: string): (c: Command)
    ensures !isOpen ==> c == Ignore
    ensures c == CloseViewer <==> isOpen && key == "Escape"
    ensures c == ShowPrevious <==> isOpen && key == "ArrowLeft"
    ensures c == ShowNext <==> isOpen && key == "ArrowRight"
  {
    if !isOpen then Ignore
    else if key == "Escape" then CloseViewer
    else if key == "ArrowLeft" then ShowPrevious
    else if key == "ArrowRight" then ShowNext
    else Ignore
  }

  class Viewer {
    var albumImages: seq<string>
    var albumTitle: string
    var currentIndex: int
    var isOpen: bool
    var shown: ImageSource

    /**
     * The index is a position in the album (0 for an empty one); an open
     * viewer shows the image at the index; a closed one shows that image or,
     * once closed, nothing.
     */
    ghost predicate Valid()
      reads this
    {
      && 0 <= currentIndex
      && (|albumImages| == 0 ==> currentIndex == 0)
      && (|albumImages| > 0 ==> currentIndex < |albumImages|)
      && (isOpen ==> shown == ImageAt(albumImages, currentIndex))
      && (shown == Cleared || shown == ImageAt(albumImages, currentIndex))
    }

    /** The page before any tile is opened: empty album, closed, no image. */
    constructor ()
      ensures Valid()
      ensures albumImages == [] && albumTitle == "" && currentIndex == 0
      ensures !isOpen && shown == Cleared
    {
      albumImages := [];
      albumTitle := "";
      currentIndex := 0;
      isOpen := false;
      shown := Cleared;
    }

    /** The image the viewer displays for its current index. */
    function CurrentImage(): (src: ImageSource)
      reads this
      requires Valid()
      ensures |albumImages| > 0 ==> src == Shown(albumImages[currentIndex])
      ensures |albumImages| > 0 ==> src.path in albumImages
      ensures |albumImages| == 0 ==> src == Missing
    {
      ImageAt(albumImages, currentIndex)
    }

    /** The position counter: the 1-based position, a slash, the album length. */
    function CounterText(): (text: string)
      reads this
      requires Valid()
      ensures ParseCounterLabel(text) == Some(CounterView(currentIndex + 1, |albumImages|))
      ensures |albumImages| > 0 ==>
        var v := ParseCounterLabel(text).value; 1 <= v.position <= v.total
    {
      CounterLabelRoundTrip(currentIndex + 1, |albumImages|);
      CounterLabel(currentIndex + 1, |albumImages|)
    }

    /** Writes the current image into the lightbox. */
    method RenderCurrent()
      modifies this`shown
      ensures shown == ImageAt(albumImages, currentIndex)
      ensures old(Valid()) ==> Valid()
    {
      shown := ImageAt(albumImages, currentIndex);
    }

    /** Opens a tile's album at its first image. */
    method OpenAlbum(tile: Tile)
      requires Valid()
      modifies this
      ensures Valid()
      ensures albumTitle == TitleOf(tile) && albumImages == ImagesOf(tile)
      ensures currentIndex == 0 && isOpen
      ensures shown == ImageAt(albumImages, 0)
    {
      albumTitle := TitleOf(tile);
      albumImages := ImagesOf(tile);
      currentIndex := 0;
      RenderCurrent();
      isOpen := true;
    }

    /** Closes the lightbox and removes its image; the album and index stay. */
    method Close()
      requires Valid()
      modifies this
      ensures Valid()
      ensures !isOpen && shown == Cleared
      ensures albumImages == old(albumImages) && albumTitle == old(albumTitle)
      ensures currentIndex == old(currentIndex)
    {
      isOpen := false;
      shown := Cleared;
    }

    /** Steps back one image, from the first to the last. */
    method Prev()
      requires Valid() && |albumImages| > 0
      modifies this
      ensures Valid()
      ensures albumImages == old(albumImages) && albumTitle == old(albumTitle)
      ensures isOpen == old(isOpen)
      ensures currentIndex == PrevIndex(old(currentIndex), |albumImages|)
      ensures shown == Shown(albumImages[currentIndex])
    {
      currentIndex := JsRemainder(currentIndex - 1 + |albumImages|, |albumImages|);
      RenderCurrent();
    }

    /** Steps forward one image, from the last to the first. */
    method Next()
      requires Valid() && |albumImages| > 0
      modifies this
      ensures Valid()
      ensures albumImages == old(albumImages) && albumTitle == old(albumTitle)
      ensures isOpen == old(isOpen)
      ensures currentIndex == NextIndex(old(currentIndex), |albumImages|)
      ensures shown == Shown(albumImages[currentIndex])
    {
      currentIndex := JsRemainder(currentIndex + 1, |albumImages|);
      RenderCurrent();
    }

    /** The document's keydown handler. */
    method HandleKey(key: string)
      requires Valid()
      requires isOpen && (key == "ArrowLeft" || key == "ArrowRight") ==> |albumImages| > 0
      modifies this
      ensures Valid()
      ensures albumImages == old(albumImages) && albumTitle == old(albumTitle)
      ensures KeyCommand(old(isOpen), key) == Ignore ==>
        currentIndex == old(currentIndex) && isOpen == old(isOpen) && shown == old(shown)
      ensures KeyCommand(old(isOpen), key) == CloseViewer ==>
        currentIndex == old(currentIndex) && !isOpen && shown == Cleared
      ensures KeyCommand(old(isOpen), key) == ShowPrevious ==>
        currentIndex == PrevIndex(old(currentIndex), |albumImages|) && isOpen
        && shown == Shown(albumImages[currentIndex])
      ensures KeyCommand(old(isOpen), key) == ShowNext ==>
        currentIndex == NextIndex(old(currentIndex), |albumImages|) && isOpen
        && shown == Shown(albumImages[currentIndex])
    {
      if !isOpen {
        return;
      }
      if key == "Escape" {
        Close();
      }
      if key == "ArrowLeft" {
        Prev();
      }
      if key == "ArrowRight" {
        Next();
      }
    }
  }
}
