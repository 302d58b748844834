# Portfolio lightbox viewer, modelled in Dafny

The portfolio page (`script.js`) opens a grid tile into a full-screen
lightbox. The lightbox shows one image of the tile's album at a time, with
the album title and a "k / n" position counter. Previous and next controls
wrap around at both ends of the album. While the lightbox is open, Escape
closes it and the left and right arrow keys step through the album.

The page keeps the viewer's state in closure variables: `albumImages`,
`albumTitle`, `currentIndex`, and the `open` class on the lightbox element.
The model keeps these, plus the `src` attribute of the lightbox image, as the
fields of one object, `Lightbox.Viewer`. Its invariant `Valid()` says:

- the index is a position in the album, or 0 for an empty album;
- an open viewer shows the image at the index;
- a closed viewer shows that image or, once closed, nothing.

Every transition (`OpenAlbum`, `Close`, `Prev`, `Next`, `HandleKey`) keeps
this invariant, and `RenderCurrent` keeps it whenever it held before.

Modules:

- `Navigation`: JavaScript's truncating `%`, and the wrap-around index steps
  `NextIndex` and `PrevIndex`. Also the lemmas that the steps undo each other,
  that `k` steps shift the index by `k` modulo the album length, and that a
  full cycle returns to the start.
- `Decimal`: how a whole number renders as text, and the counter text
  `"k / n"`. `Value` and `ParseCounterLabel` are the inverses used to prove
  that the counter names exactly the current position and the album length.
- `Lightbox`: tiles, the image source, the keyboard map `KeyCommand`, and the
  `Viewer` class with `OpenAlbum`, `RenderCurrent`, `Close`, `Prev`, `Next`
  and the keydown handler `HandleKey`.
- `Wrappers`: `Option`.

The code wraps around at both ends of the album (`script.js:53`,
`script.js:58`), and the model follows it.

## Model

| member | source | states |
|---|---|---|
| `Lightbox.Viewer.constructor` | script.js:21-23 | Starts with an empty album, an empty title and index 0, closed and showing no image. |
| `Lightbox.Viewer.OpenAlbum` | script.js:26-33 | Replaces the title and image list with the tile's (absent or empty attributes read as `""` and `[]`), resets the index to 0, renders the first image (or `undefined` for an empty album), and leaves the viewer open. |
| `Lightbox.ImageAt` | script.js:36 | Indexing the album yields the path exactly when the index is in range, and `undefined` otherwise. |
| `Lightbox.Viewer.CurrentImage` | script.js:36-37 | For a non-empty album the displayed image is `albumImages[currentIndex]`, which is one of the album's paths; for an empty album it is `undefined`. |
| `Lightbox.Viewer.CounterText` | script.js:42 | The counter text reads back as exactly (`currentIndex + 1`, album length). For a non-empty album the position lies in `[1, n]`. |
| `Lightbox.Viewer.RenderCurrent` | script.js:35-43 | Writes the image at the current index into the lightbox, changes nothing else, and keeps the invariant. |
| `Lightbox.Viewer.Close` | script.js:45-50 | Clears the open flag and the image source. Keeps the album, title and index. |
| `Lightbox.Viewer.Prev` | script.js:52-55 | For a non-empty album, moves the index to `PrevIndex` (back one, from 0 to n-1) and shows that image. Keeps the album, title and open flag. |
| `Lightbox.Viewer.Next` | script.js:57-60 | For a non-empty album, moves the index to `NextIndex` (forward one, from n-1 to 0) and shows that image. Keeps the album, title and open flag. |
| `Lightbox.KeyCommand` | script.js:84-89 | While closed, every key is ignored. While open, Escape and only Escape closes, ArrowLeft and only ArrowLeft steps back, ArrowRight and only ArrowRight steps forward. |
| `Lightbox.Viewer.HandleKey` | script.js:84-89 | The handler's three sequential tests do what `KeyCommand` says: an ignored key changes nothing; Escape closes; the arrows act as `Prev` and `Next`. |
| `Navigation.JsRemainder` | script.js:53 | JavaScript `%`: a non-negative dividend gives the ordinary remainder in `[0, n)`; a negative one gives the remainder truncated toward zero: 0 when `n` divides it, and otherwise the Euclidean remainder minus `n`, in `(-n, 0)`. |
| `Navigation.NextIndex` | script.js:58 | `(i + 1) % n` stays in `[0, n)`. It is `i + 1`, except that it wraps from `n - 1` to 0. |
| `Navigation.PrevIndex` | script.js:53 | `(i - 1 + n) % n` stays in `[0, n)`. It is `i - 1`, except that it wraps from 0 to `n - 1`. |
| `Navigation.PrevUndoesNext` | script.js:52-60 | `prev` after `next` returns to the same index. |
| `Navigation.NextUndoesPrev` | script.js:52-60 | `next` after `prev` returns to the same index. |
| `Navigation.NextTimes` | script.js:57-60 | Any number of `next` steps keeps the index in `[0, n)`. |
| `Navigation.PrevTimes` | script.js:52-55 | Any number of `prev` steps keeps the index in `[0, n)`. |
| `Navigation.NextTimesShift` | script.js:57-60 | `k` `next` steps from `i` land on `(i + k) mod n`. |
| `Navigation.PrevTimesShift` | script.js:52-55 | `k` `prev` steps from `i` land on `(i - k) mod n`. |
| `Navigation.NextFullCycle` | script.js:57-60 | `n` `next` steps in an album of `n` images return to the starting index. |
| `Navigation.PrevFullCycle` | script.js:52-55 | `n` `prev` steps in an album of `n` images return to the starting index. |
| `Navigation.PrevTimesUndoesNextTimes` | script.js:52-60 | `k` `prev` steps undo `k` `next` steps. |
| `Decimal.Show` | script.js:42 | A number renders as a non-empty string of digits that starts with `0` only for zero. |
| `Decimal.ValueOfShow` | script.js:42 | The rendered digits denote the number rendered. |
| `Decimal.ShowInjective` | script.js:42 | Different numbers render differently. |
| `Decimal.CounterLabelRoundTrip` | script.js:42 | The text `"k / n"` parses back to exactly `k` and `n`. |

## Left out

- `Lightbox.Viewer.Prev`: requires a non-empty album. On an empty album the code computes `% 0` at `script.js:53`, which makes `currentIndex` NaN. The code does not guard against this. The counter then reads "NaN / 0" until another album is opened.
- `Lightbox.Viewer.Next`: requires a non-empty album, for the same reason (`script.js:58`).
- `Lightbox.Viewer.HandleKey`: requires a non-empty album when the viewer is open and the key is an arrow. That key reaches `prev` or `next`, with the NaN outcome described above.
- Decoding `data-images` with `JSON.parse` (`script.js:28`, `script.js:68`) is a library call. A tile carries its image list already decoded. Malformed JSON makes `openAlbum` throw after `albumTitle` has already been replaced. The model does not capture that partial update.
- The per-tile count label (`script.js:64-71`) is the length of the decoded list. The model does not include it.
- Event wiring (`script.js:63-82`) is not modelled as its own operation: tile click, Enter or space on a tile, and the three control buttons. Each of these only calls `OpenAlbum`, `Prev`, `Next` or `Close`. `Prev` and `Next` may therefore run while the viewer is closed, as they can in the code. Whether the buttons can be clicked while the lightbox is hidden depends on the page's stylesheet, which is not part of this model.
- DOM lookups (`script.js:7-19`) are left out. If the grid is missing, the handler is never installed; that case is not modelled.
- The `srcset`, `sizes` and `aria-hidden` attributes (`script.js:32`, `script.js:39-40`, `script.js:47-49`) are presentational and are not modelled. The album-title label (`script.js:41`) is not modelled as a separate field; it always equals `albumTitle`, because only `openAlbum` changes the title and it re-renders.
- The title and counter elements are never cleared, so after the first render they always match the state. Their content before the first render comes from the page markup, which is not part of this model. The constructor assumes that the lightbox starts closed with no image source.
- The footer year (`script.js:4-5`) reads the clock and is unrelated to the viewer.
- JavaScript numbers are doubles. The model's indices are unbounded integers, which agree with doubles for any realistic album size (below 2^53 images).
