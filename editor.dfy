/** The editor screen: the crop / rotate / adjust / text modes and their
    enter and exit transitions, ownership of the backup bitmaps those modes
    keep for cancelling, the brightness/contrast controls and the per-pixel
    adjustment they drive, the text mode's snapshot, and the watermark
    placement used when saving. Bitmaps are handles into a store that remembers each
    one's pixels and which ones were recycled; the platform's rotate, flip
    and crop results arrive as parameters. */
module Editor {
  import opened Geometry
  import opened Strings
  import TextOverlay

  // ---------------------------------------------------------------------
  // Pixels

  /** A pixel as the 32-bit pattern of an ARGB colour int. */
  type Word = x: int | 0 <= x < 0x1_0000_0000

  /** The channels as the code extracts them: a logical shift right
      followed by masking with 0xFF. */
  function Alpha(c: Word): int { c / 0x100_0000 % 0x100 }
  function Red(c: Word): int { c / 0x1_0000 % 0x100 }
  function Green(c: Word): int { c / 0x100 % 0x100 }
  function Blue(c: Word): int { c % 0x100 }

  /** Reassembles a colour from four 8-bit channels, the way shifting each
      into place and or-ing the results does. */
  function Pack(a: int, r: int, g: int, b: int): (c: Word)
    requires 0 <= a < 0x100 && 0 <= r < 0x100 && 0 <= g < 0x100 && 0 <= b < 0x100
    ensures Alpha(c) == a && Red(c) == r && Green(c) == g && Blue(c) == b
  {
    var c := a * 0x100_0000 + r * 0x1_0000 + g * 0x100 + b;
    DivModOf(c, 0x100, a * 0x1_0000 + r * 0x100 + g, b);
    DivModOf(c, 0x1_0000, a * 0x100 + r, g * 0x100 + b);
    DivModOf(c, 0x100_0000, a, r * 0x1_0000 + g * 0x100 + b);
    DivModOf(a * 0x1_0000 + r * 0x100 + g, 0x100, a * 0x100 + r, g);
    DivModOf(a * 0x100 + r, 0x100, a, r);
    DivModOf(a, 0x100, 0, a);
    c
  }

  /** Quotient and remainder by a channel shift are determined by any
      decomposition with the remainder in range. */
  lemma DivModOf(x: int, d: int, q: int, m: int)
    requires d == 0x100 || d == 0x1_0000 || d == 0x100_0000
    requires 0 <= m < d && x == q * d + m
    ensures x / d == q && x % d == m
  {
    if d == 0x100 {
      assert x == q * 0x100 + m;
    } else if d == 0x1_0000 {
      assert x == q * 0x1_0000 + m;
    } else {
      assert x == q * 0x100_0000 + m;
    }
  }

  /** Splitting a colour into channels and packing them again gives it back. */
  lemma PackOfChannels(c: Word)
    ensures Pack(Alpha(c), Red(c), Green(c), Blue(c)) == c
  {
    var q1, b := c / 0x100, c % 0x100;
    var q2, g := q1 / 0x100, q1 % 0x100;
    var q3, r := q2 / 0x100, q2 % 0x100;
    assert c == q1 * 0x100 + b && q1 == q2 * 0x100 + g && q2 == q3 * 0x100 + r;
    assert c == q2 * 0x1_0000 + (g * 0x100 + b);
    DivModOf(c, 0x1_0000, q2, g * 0x100 + b);
    assert c == q3 * 0x100_0000 + (r * 0x1_0000 + g * 0x100 + b);
    DivModOf(c, 0x100_0000, q3, r * 0x1_0000 + g * 0x100 + b);
    assert q3 < 0x100;
    DivModOf(q3, 0x100, 0, q3);
    assert c == q3 * 0x100_0000 + r * 0x1_0000 + g * 0x100 + b;
  }

  /** One colour channel under the adjustment: the distance from mid-grey 128
      is scaled by (100 + contrast) / 100, a brightness offset of
      brightness / 100 * 255 is added, the sum is truncated toward zero and
      clamped into [0, 255]. */
  function AdjustChannel(c: int, brightness: int, contrast: int): (r: int)
    ensures 0 <= r <= 255
    ensures brightness == 0 && contrast == 0 && 0 <= c <= 255 ==> r == c
  {
    var brightnessOffset := brightness as real / 100.0 * 255.0;
    var contrastFactor := (100.0 + contrast as real) / 100.0;
    ClampInt(Trunc((c - 128) as real * contrastFactor + 128.0 + brightnessOffset), 0, 255)
  }

  /** More brightness never darkens a channel. */
  lemma AdjustChannelMonotoneInBrightness(c: int, b1: int, b2: int, contrast: int)
    requires b1 <= b2
    ensures AdjustChannel(c, b1, contrast) <= AdjustChannel(c, b2, contrast)
  {
    var f := (100.0 + contrast as real) / 100.0;
    var base := (c - 128) as real * f + 128.0;
    TruncMonotone(base + b1 as real / 100.0 * 255.0, base + b2 as real / 100.0 * 255.0);
  }

  lemma TruncMonotone(x: real, y: real)
    requires x <= y
    ensures Trunc(x) <= Trunc(y)
  {
  }

  /** Full brightness with neutral contrast saturates mid-grey to white. */
  lemma FullBrightnessSaturatesGrey()
    ensures AdjustChannel(128, 100, 0) == 255
  {
    assert (128 - 128) as real * ((100.0 + 0 as real) / 100.0) + 128.0 + 100 as real / 100.0 * 255.0 == 383.0;
    assert Trunc(383.0) == 383;
  }

  /** A whole pixel: alpha is copied and each colour channel is adjusted. */
  function AdjustColor(c: Word, brightness: int, contrast: int): (r: Word)
    ensures Alpha(r) == Alpha(c)
    ensures Red(r) == AdjustChannel(Red(c), brightness, contrast)
    ensures Green(r) == AdjustChannel(Green(c), brightness, contrast)
    ensures Blue(r) == AdjustChannel(Blue(c), brightness, contrast)
  {
    Pack(Alpha(c),
         AdjustChannel(Red(c), brightness, contrast),
         AdjustChannel(Green(c), brightness, contrast),
         AdjustChannel(Blue(c), brightness, contrast))
  }

  /** Neutral settings leave every pixel as it was. */
  lemma AdjustColorNeutral(c: Word)
    ensures AdjustColor(c, 0, 0) == c
  {
    PackOfChannels(c);
  }

  /** The adjustment of a whole pixel buffer. */
  function AdjustAll(ps: seq<Word>, brightness: int, contrast: int): (r: seq<Word>)
    ensures |r| == |ps|
    ensures forall i :: 0 <= i < |ps| ==> r[i] == AdjustColor(ps[i], brightness, contrast)
  {
    seq(|ps|, i requires 0 <= i < |ps| => AdjustColor(ps[i], brightness, contrast))
  }

  /** Neutral settings leave the buffer as it was. */
  lemma AdjustAllNeutral(ps: seq<Word>)
    ensures AdjustAll(ps, 0, 0) == ps
  {
    forall i | 0 <= i < |ps| ensures AdjustAll(ps, 0, 0)[i] == ps[i] {
      AdjustColorNeutral(ps[i]);
    }
  }

  /** The pixel loop of the preview: rewrites every pixel of the buffer in
      place with its adjusted colour. */
  method AdjustPixels(pixels: array<Word>, brightness: int, contrast: int)
    modifies pixels
    ensures pixels[..] == AdjustAll(old(pixels[..]), brightness, contrast)
  {
    var i := 0;
    while i < pixels.Length
      invariant 0 <= i <= pixels.Length
      invariant forall k :: 0 <= k < i ==> pixels[k] == AdjustColor(old(pixels[k]), brightness, contrast)
      invariant forall k :: i <= k < pixels.Length ==> pixels[k] == old(pixels[k])
    {
      pixels[i] := AdjustColor(pixels[i], brightness, contrast);
      i := i + 1;
    }
  }

  // ---------------------------------------------------------------------
  // Bitmaps

  /** A bitmap's size and its pixels, row by row. */
  datatype Image = Image(width: int, height: int, pixels: seq<Word>)

  /** Every bitmap the screen has allocated, by handle, with the handles that
      were recycled and the next unused handle. */
  datatype BitmapStore = BitmapStore(images: map<nat, Image>, recycled: set<nat>, next: nat)

  /** Every handle given out so far is below the next one. */
  predicate StoreOk(st: BitmapStore) {
    (forall h :: h in st.images ==> h < st.next) && (forall h :: h in st.recycled ==> h < st.next)
  }

  /** A fresh bitmap holding the image; nothing already allocated is touched. */
  function Allocate(st: BitmapStore, img: Image): (r: (BitmapStore, nat))
    requires StoreOk(st)
    ensures r.1 == st.next && r.1 !in st.images
    ensures r.0.images == st.images[r.1 := img] && r.0.recycled == st.recycled && r.0.next > r.1
    ensures StoreOk(r.0)
  {
    (BitmapStore(st.images[st.next := img], st.recycled, st.next + 1), st.next)
  }

  /** `recycle()` on a bitmap (a no-op when it already is recycled). */
  function Recycle(st: BitmapStore, h: nat): (r: BitmapStore)
    ensures r.images == st.images && r.next == st.next
    ensures r.recycled == st.recycled + {h}
  {
    if h in st.recycled then st else st.(recycled := st.recycled + {h})
  }

  /** Recycles the bitmap held, if any. */
  function RecycleHeld(st: BitmapStore, b: Option<nat>): (r: BitmapStore)
    ensures r.images == st.images && r.next == st.next
    ensures r.recycled == st.recycled + (if b.Some? then {b.value} else {})
  {
    if b.Some? then Recycle(st, b.value) else st
  }

  /** Recycles the bitmap held unless it is the one to keep. */
  function RecycleUnless(st: BitmapStore, b: Option<nat>, keep: Option<nat>): (r: BitmapStore)
    ensures r.images == st.images && r.next == st.next
    ensures r.recycled == st.recycled + (if b.Some? && b != keep then {b.value} else {})
  {
    if b.Some? && b != keep then Recycle(st, b.value) else st
  }

  /** The store only grows: no allocated bitmap changes, no recycled one
      comes back. */
  predicate StoreGrows(a: BitmapStore, b: BitmapStore) {
    a.next <= b.next && a.recycled <= b.recycled
    && forall h :: h in a.images ==> h in b.images && b.images[h] == a.images[h]
  }

  /** A held handle names an allocated bitmap that was not recycled. */
  predicate Live(st: BitmapStore, b: Option<nat>) {
    b.Some? ==> b.value in st.images && b.value !in st.recycled
  }

  predicate Differ(x: Option<nat>, y: Option<nat>) {
    x.Some? && y.Some? ==> x.value != y.value
  }

  /** Who owns which bitmap: a backup exists exactly while its mode is on;
      the bitmap on show and the backups are live; a backup is never the
      bitmap on show. */
  predicate BitmapsOk(st: BitmapStore, canvas: Option<nat>, rotateBackup: Option<nat>, adjustBackup: Option<nat>,
                      inRotate: bool, inAdjust: bool) {
    StoreOk(st)
    && (rotateBackup.Some? <==> inRotate) && (adjustBackup.Some? <==> inAdjust)
    && Live(st, canvas) && Live(st, rotateBackup) && Live(st, adjustBackup)
    && Differ(canvas, rotateBackup) && Differ(canvas, adjustBackup) && Differ(rotateBackup, adjustBackup)
  }

  /** Leaving a backed-up mode without keeping the edits: the backup goes
      back on show and the bitmap shown until then is recycled (unless it is
      the backup itself). */
  function CancelTo(st: BitmapStore, canvas: Option<nat>, backup: Option<nat>): (r: (BitmapStore, Option<nat>))
    ensures r.0 == RecycleUnless(st, canvas, backup)
    ensures backup.Some? ==> r.1 == backup
    ensures backup.None? ==> r.1 == canvas
  {
    (RecycleUnless(st, canvas, backup), if backup.Some? then backup else canvas)
  }

  /** Cancelling shows the picture the backup holds, and that bitmap stays
      live. */
  lemma CancelShowsBackup(st: BitmapStore, canvas: Option<nat>, backup: Option<nat>)
    requires Live(st, backup) && backup.Some? && Differ(canvas, backup)
    ensures var r := CancelTo(st, canvas, backup);
            r.1 == backup && Live(r.0, r.1) && r.0.images[r.1.value] == st.images[backup.value]
            && StoreGrows(st, r.0)
  {
  }

  /** Putting a new bitmap on show in place of the current one, which is
      recycled unless it is the one to keep. */
  function Replace(st: BitmapStore, canvas: Option<nat>, img: Image, keep: Option<nat>): (r: (BitmapStore, nat))
    requires StoreOk(st)
    ensures r.1 == st.next && r.1 !in st.images
    ensures r.0.images == st.images[r.1 := img] && r.0.next > r.1
    ensures r.0.recycled == st.recycled + (if canvas.Some? && canvas != keep then {canvas.value} else {})
  {
    var a := Allocate(st, img);
    (RecycleUnless(a.0, canvas, keep), a.1)
  }

  /** A replacement keeps the store's invariant, shows a live bitmap holding
      the new image, and keeps alive any live bitmap other than the one
      replaced. */
  lemma ReplaceKeepsOthers(st: BitmapStore, canvas: Option<nat>, img: Image, keep: Option<nat>, other: Option<nat>)
    requires StoreOk(st) && Live(st, canvas) && Live(st, other) && (other == keep || Differ(canvas, other))
    ensures var r := Replace(st, canvas, img, keep);
            StoreOk(r.0) && StoreGrows(st, r.0) && Live(r.0, Some(r.1)) && r.0.images[r.1] == img
            && Live(r.0, other) && Differ(Some(r.1), other)
  {
  }

  // ---------------------------------------------------------------------
  // Modes and controls

  datatype EditorMode = Normal | Crop | Rotate | Adjust | Text

  /** At most one of the crop, rotate and adjust flags is on, and the one
      that is on matches the mode shown. */
  predicate ModesOk(mode: EditorMode, inCrop: bool, inRotate: bool, inAdjust: bool) {
    !(inCrop && inRotate) && !(inCrop && inAdjust) && !(inRotate && inAdjust)
    && (inCrop ==> mode == Crop) && (inRotate ==> mode == Rotate) && (inAdjust ==> mode == Adjust)
  }

  /** Brightness in [-100, 100] and contrast in [-50, 150]; in adjust mode
      each slider sits at its value plus its offset (100 and 50). */
  predicate SlidersOk(inAdjust: bool, brightness: int, contrast: int, brightnessProgress: int, contrastProgress: int) {
    -100 <= brightness <= 100 && -50 <= contrast <= 150
    && (inAdjust ==> brightnessProgress == brightness + 100 && contrastProgress == contrast + 50)
  }

  /** A step of the brightness, kept in [-100, 100]. */
  function StepBrightness(b: int, delta: int): (r: int)
    ensures -100 <= r <= 100
    ensures -100 <= b + delta <= 100 ==> r == b + delta
    ensures -100 <= b <= 100 ==> (delta >= 0 ==> b <= r) && (delta <= 0 ==> r <= b)
  {
    ClampInt(b + delta, -100, 100)
  }

  /** A step of the contrast, kept in [-50, 150]. */
  function StepContrast(c: int, delta: int): (r: int)
    ensures -50 <= r <= 150
    ensures -50 <= c + delta <= 150 ==> r == c + delta
    ensures -50 <= c <= 150 ==> (delta >= 0 ==> c <= r) && (delta <= 0 ==> r <= c)
  {
    ClampInt(c + delta, -50, 150)
  }

  /** The preview of an adjustment: the backup's size, every pixel adjusted. */
  function AdjustedImage(src: Image, brightness: int, contrast: int): (r: Image)
    ensures r.width == src.width && r.height == src.height && |r.pixels| == |src.pixels|
    ensures forall i :: 0 <= i < |src.pixels| ==> r.pixels[i] == AdjustColor(src.pixels[i], brightness, contrast)
  {
    Image(src.width, src.height, AdjustAll(src.pixels, brightness, contrast))
  }

  /** The compare button's zero adjustment shows the backup unchanged. */
  lemma NeutralPreviewIsOriginal(src: Image)
    ensures AdjustedImage(src, 0, 0) == src
  {
    AdjustAllNeutral(src.pixels);
  }

  /** The store and the bitmap on show after `applyAdjustPreview` with the
      given values, the adjust backup being `backup` (none outside adjust
      mode): a backup with area is adjusted into a fresh bitmap that goes
      on show, the one shown before being recycled unless it is the
      backup; otherwise nothing changes. */
  function Preview(st: BitmapStore, canvas: Option<nat>, backup: Option<nat>, brightness: int, contrast: int)
    : (r: (BitmapStore, Option<nat>))
    requires StoreOk(st) && Live(st, backup)
    ensures r.1.Some? || r.1 == canvas
  {
    if backup.Some? && st.images[backup.value].width > 0 && st.images[backup.value].height > 0
    then var x := Replace(st, canvas, AdjustedImage(st.images[backup.value], brightness, contrast), backup);
         (x.0, Some(x.1))
    else (st, canvas)
  }

  /** What a preview shows: the backup adjusted by the two values, in a
      fresh live bitmap that is not the backup, the previous one recycled
      unless it was the backup, and the backup itself untouched; a missing
      backup or one without area leaves everything as it was. */
  lemma PreviewShowsAdjustedBackup(st: BitmapStore, canvas: Option<nat>, backup: Option<nat>, brightness: int, contrast: int)
    requires StoreOk(st) && Live(st, canvas) && Live(st, backup) && Differ(canvas, backup)
    ensures var r := Preview(st, canvas, backup, brightness, contrast);
            StoreOk(r.0) && StoreGrows(st, r.0) && Live(r.0, r.1) && Live(r.0, backup) && Differ(r.1, backup)
    ensures var r := Preview(st, canvas, backup, brightness, contrast);
            if backup.Some? && st.images[backup.value].width > 0 && st.images[backup.value].height > 0
            then r.1.Some? && r.1.value !in st.images
                 && r.0.images[r.1.value] == AdjustedImage(st.images[backup.value], brightness, contrast)
                 && (canvas.Some? ==> canvas.value in r.0.recycled)
            else r == (st, canvas)
  {
    if backup.Some? && st.images[backup.value].width > 0 && st.images[backup.value].height > 0 {
      var img := AdjustedImage(st.images[backup.value], brightness, contrast);
      ReplaceKeepsOthers(st, canvas, img, backup, backup);
    }
  }

  /** The compare button's zero preview shows the backup's own picture. */
  lemma ZeroPreviewShowsBackup(st: BitmapStore, canvas: Option<nat>, backup: Option<nat>)
    requires StoreOk(st) && Live(st, canvas) && Live(st, backup) && Differ(canvas, backup)
    requires backup.Some? && st.images[backup.value].width > 0 && st.images[backup.value].height > 0
    ensures var r := Preview(st, canvas, backup, 0, 0);
            r.1.Some? && r.0.images[r.1.value] == st.images[backup.value]
  {
    PreviewShowsAdjustedBackup(st, canvas, backup, 0, 0);
    NeutralPreviewIsOriginal(st.images[backup.value]);
  }

  /** A preview depends only on the backup and its own two values: after
      two previews the picture shown is the backup adjusted by the second
      pair, whatever the first was, and the first preview was recycled. */
  lemma PreviewsDoNotAccumulate(st: BitmapStore, canvas: Option<nat>, backup: Option<nat>,
                                b1: int, c1: int, b2: int, c2: int)
    requires StoreOk(st) && Live(st, canvas) && Live(st, backup) && Differ(canvas, backup)
    requires backup.Some? && st.images[backup.value].width > 0 && st.images[backup.value].height > 0
    ensures var p1 := Preview(st, canvas, backup, b1, c1);
            StoreOk(p1.0) && Live(p1.0, backup)
            && var p2 := Preview(p1.0, p1.1, backup, b2, c2);
               p1.1.Some? && p2.1.Some? && p2.1 != p1.1 && p1.1.value in p2.0.recycled
               && p2.0.images[p2.1.value] == AdjustedImage(st.images[backup.value], b2, c2)
  {
    PreviewShowsAdjustedBackup(st, canvas, backup, b1, c1);
    var p1 := Preview(st, canvas, backup, b1, c1);
    PreviewShowsAdjustedBackup(p1.0, p1.1, backup, b2, c2);
  }

  // ---------------------------------------------------------------------
  // Text and watermark

  /** Where the watermark is drawn: its right edge one padding (16 dp) in
      from the right border and its baseline one padding up from the bottom;
      nothing is composed for a container without area. */
  function WatermarkOrigin(w: int, h: int, density: real, textWidth: int): (r: Option<(real, real)>)
    ensures r.None? <==> w <= 0 || h <= 0
    ensures r.Some? ==> r.value.0 + textWidth as real + 16.0 * density == w as real
                        && r.value.1 + 16.0 * density == h as real
  {
    if w <= 0 || h <= 0 then None
    else
      var padding := 16.0 * density;
      Some((w as real - padding - textWidth as real, h as real - padding))
  }

  // ---------------------------------------------------------------------
  // The screen

  class EditorFragment {
    const density: real
    const textOverlay: TextOverlay.TextOverlayView

    var currentMode: EditorMode
    var inCropMode: bool
    var inRotateMode: bool
    var inAdjustMode: bool
    /** The canvas's crop switch (touches then go to the crop frame). */
    var canvasCropModeEnabled: bool

    var store: BitmapStore
    /** The bitmap the canvas shows. */
    var canvasBitmap: Option<nat>
    var rotateBackupBitmap: Option<nat>
    var adjustBackupBitmap: Option<nat>

    var currentBrightness: int
    var currentContrast: int
    /** The two sliders' positions. */
    var brightnessProgress: int
    var contrastProgress: int

    var textBackupState: Option<TextOverlay.TextStateSnapshot>

    ghost predicate Valid()
      reads this, textOverlay`isTextToolActive, textOverlay`elements, textOverlay`selectedIndex
    {
      ModesOk(currentMode, inCropMode, inRotateMode, inAdjustMode)
      && (textOverlay.isTextToolActive <==> currentMode == Text)
      && BitmapsOk(store, canvasBitmap, rotateBackupBitmap, adjustBackupBitmap, inRotateMode, inAdjustMode)
      && SlidersOk(inAdjustMode, currentBrightness, currentContrast, brightnessProgress, contrastProgress)
      && textOverlay.Valid()
      && (textBackupState.Some? ==> TextOverlay.AllOk(textBackupState.value.elementsCopy))
    }

    /** The screen once the photo was decoded (or failed to decode) and the
        normal mode was shown. */
    constructor(density: real, textOverlay: TextOverlay.TextOverlayView, photo: Option<Image>)
      requires textOverlay.Valid()
      modifies textOverlay`isTextToolActive
      ensures Valid()
      ensures this.density == density && this.textOverlay == textOverlay
      ensures currentMode == Normal && !inCropMode && !inRotateMode && !inAdjustMode
      ensures photo.Some? ==> canvasBitmap.Some? && store.images[canvasBitmap.value] == photo.value
      ensures photo.None? ==> canvasBitmap.None?
    {
      this.density := density;
      this.textOverlay := textOverlay;
      inCropMode := false;
      inRotateMode := false;
      inAdjustMode := false;
      canvasCropModeEnabled := false;
      rotateBackupBitmap := None;
      adjustBackupBitmap := None;
      currentBrightness := 0;
      currentContrast := 0;
      brightnessProgress := 100;
      contrastProgress := 50;
      textBackupState := None;
      var empty := BitmapStore(map[], {}, 0);
      if photo.Some? {
        var a := Allocate(empty, photo.value);
        store := a.0;
        canvasBitmap := Some(a.1);
      } else {
        store := empty;
        canvasBitmap := None;
      }
      new;
      textOverlay.isTextToolActive := false;
      currentMode := Normal;
    }

    /** Shows a mode: records it, and the text tool is on only in text mode. */
    method UpdateUiForMode(mode: EditorMode)
      modifies this`currentMode, textOverlay`isTextToolActive
      ensures currentMode == mode && (textOverlay.isTextToolActive <==> mode == Text)
    {
      currentMode := mode;
      textOverlay.isTextToolActive := mode == Text;
    }

    // ---- crop ----

    method EnterCropMode()
      requires Valid()
      modifies this`inCropMode, this`canvasCropModeEnabled, this`inRotateMode, this`rotateBackupBitmap,
               this`inAdjustMode, this`adjustBackupBitmap, this`store, this`currentMode, textOverlay`isTextToolActive
      ensures Valid()
      ensures old(inCropMode) ==> inCropMode && store == old(store) && currentMode == old(currentMode)
                                  && canvasCropModeEnabled == old(canvasCropModeEnabled)
      ensures !old(inCropMode) ==>
                inCropMode && canvasCropModeEnabled && currentMode == Crop && !inRotateMode && !inAdjustMode
                && store == RecycleHeld(RecycleHeld(old(store), old(rotateBackupBitmap)), old(adjustBackupBitmap))
      ensures canvasBitmap == old(canvasBitmap)
    {
      if inCropMode {
        return;
      }
      inCropMode := true;
      if inRotateMode {
        ExitRotateApplied();
      }
      if inAdjustMode {
        ExitAdjustApplied();
      }
      canvasCropModeEnabled := true;
      UpdateUiForMode(Crop);
    }

    method ExitCropMode()
      modifies this`inCropMode, this`canvasCropModeEnabled, this`currentMode, textOverlay`isTextToolActive
      ensures !inCropMode
      ensures old(inCropMode) ==> !canvasCropModeEnabled && currentMode == Normal && !textOverlay.isTextToolActive
      ensures !old(inCropMode) ==> canvasCropModeEnabled == old(canvasCropModeEnabled) && currentMode == old(currentMode)
                                   && textOverlay.isTextToolActive == old(textOverlay.isTextToolActive)
      ensures old(Valid()) ==> Valid()
    {
      if !inCropMode {
        return;
      }
      inCropMode := false;
      canvasCropModeEnabled := false;
      UpdateUiForMode(Normal);
    }

    /** The crop panel's confirm: the cropped bitmap (from the canvas, absent
        when the crop failed) goes on show and crop mode ends; on failure
        nothing changes. The bitmap shown before is not recycled. */
    method OnCropConfirm(cropped: Option<Image>)
      requires Valid()
      modifies this`store, this`canvasBitmap, this`inCropMode, this`canvasCropModeEnabled, this`currentMode,
               textOverlay`isTextToolActive
      ensures Valid() && StoreGrows(old(store), store)
      ensures cropped.None? ==> store == old(store) && canvasBitmap == old(canvasBitmap) && inCropMode == old(inCropMode)
      ensures cropped.Some? ==>
                !inCropMode && canvasBitmap == Some(old(store).next) && store.images[canvasBitmap.value] == cropped.value
                && store.recycled == old(store).recycled
    {
      if cropped.Some? {
        var a := Allocate(store, cropped.value);
        store := a.0;
        canvasBitmap := Some(a.1);
        ExitCropMode();
      }
    }

    // ---- rotate ----

    /** Starts rotate mode on a copy of the bitmap on show (after closing the
        other modes, keeping their edits); without a bitmap only the other
        modes are closed. */
    method EnterRotateMode()
      requires Valid()
      modifies this`inCropMode, this`canvasCropModeEnabled, this`inRotateMode, this`rotateBackupBitmap,
               this`inAdjustMode, this`adjustBackupBitmap, this`store, this`currentMode, textOverlay`isTextToolActive
      ensures Valid() && StoreGrows(old(store), store)
      ensures canvasBitmap == old(canvasBitmap)
      ensures old(inRotateMode) ==> store == old(store) && rotateBackupBitmap == old(rotateBackupBitmap)
                                    && currentMode == old(currentMode)
      ensures !old(inRotateMode) ==> !inCropMode && !inAdjustMode
      ensures !old(inRotateMode) && canvasBitmap.Some? ==>
                inRotateMode && currentMode == Rotate
                && rotateBackupBitmap.Some? && store.images[rotateBackupBitmap.value] == store.images[canvasBitmap.value]
      ensures !old(inRotateMode) && canvasBitmap.None? ==> !inRotateMode
    {
      if inRotateMode {
        return;
      }
      CloseEditingModes();
      if canvasBitmap.None? {
        return;
      }
      var a := Allocate(store, store.images[canvasBitmap.value]);
      store := a.0;
      rotateBackupBitmap := Some(a.1);
      inRotateMode := true;
      UpdateUiForMode(Rotate);
    }

    /** `applyRotate` and `applyFlip`: in rotate mode, a non-empty bitmap on
        show is replaced by the transformed one (absent when creating it
        threw), and the old one is recycled unless it is the backup. */
    method ApplyTransform(transformed: Option<Image>)
      requires Valid()
      modifies this`store, this`canvasBitmap
      ensures Valid() && StoreGrows(old(store), store)
      ensures var src := old(canvasBitmap);
              if inRotateMode && src.Some? && old(store).images[src.value].width > 0
                 && old(store).images[src.value].height > 0 && transformed.Some?
              then canvasBitmap.Some?
                   && (store, canvasBitmap.value) == Replace(old(store), src, transformed.value, rotateBackupBitmap)
              else store == old(store) && canvasBitmap == old(canvasBitmap)
      ensures rotateBackupBitmap.Some? ==> store.images[rotateBackupBitmap.value] == old(store).images[rotateBackupBitmap.value]
    {
      if !inRotateMode || canvasBitmap.None? {
        return;
      }
      var src := store.images[canvasBitmap.value];
      if src.width <= 0 || src.height <= 0 || transformed.None? {
        return;
      }
      ReplaceKeepsOthers(store, canvasBitmap, transformed.value, rotateBackupBitmap, rotateBackupBitmap);
      ReplaceKeepsOthers(store, canvasBitmap, transformed.value, rotateBackupBitmap, adjustBackupBitmap);
      var r := Replace(store, canvasBitmap, transformed.value, rotateBackupBitmap);
      store := r.0;
      canvasBitmap := Some(r.1);
    }

    /** Leaves rotate mode keeping the edits: the backup is recycled. */
    method ExitRotateApplied()
      requires inRotateMode && BitmapsOk(store, canvasBitmap, rotateBackupBitmap, adjustBackupBitmap, inRotateMode, inAdjustMode)
      modifies this`inRotateMode, this`rotateBackupBitmap, this`store, this`currentMode, textOverlay`isTextToolActive
      ensures !inRotateMode && rotateBackupBitmap.None? && currentMode == Normal && !textOverlay.isTextToolActive
      ensures store == RecycleHeld(old(store), old(rotateBackupBitmap))
      ensures BitmapsOk(store, canvasBitmap, rotateBackupBitmap, adjustBackupBitmap, inRotateMode, inAdjustMode)
    {
      inRotateMode := false;
      store := RecycleHeld(store, rotateBackupBitmap);
      rotateBackupBitmap := None;
      UpdateUiForMode(Normal);
    }

    /** `exitRotateMode`: keeping the edits recycles the backup; cancelling
        puts the backup back on show and recycles the edited bitmap. */
    method ExitRotateMode(applyChanges: bool)
      requires Valid()
      modifies this`inRotateMode, this`rotateBackupBitmap, this`store, this`canvasBitmap, this`currentMode,
               textOverlay`isTextToolActive
      ensures Valid() && StoreGrows(old(store), store)
      ensures !inRotateMode && rotateBackupBitmap.None?
      ensures !old(inRotateMode) ==> store == old(store) && canvasBitmap == old(canvasBitmap) && currentMode == old(currentMode)
      ensures old(inRotateMode) && applyChanges ==>
                currentMode == Normal && canvasBitmap == old(canvasBitmap) && store == RecycleHeld(old(store), old(rotateBackupBitmap))
      ensures old(inRotateMode) && !applyChanges ==>
                currentMode == Normal && (store, canvasBitmap) == CancelTo(old(store), old(canvasBitmap), old(rotateBackupBitmap))
                && store.images[canvasBitmap.value] == old(store).images[old(rotateBackupBitmap).value]
    {
      if !inRotateMode {
        return;
      }
      if applyChanges {
        ExitRotateApplied();
      } else {
        CancelShowsBackup(store, canvasBitmap, rotateBackupBitmap);
        var r := CancelTo(store, canvasBitmap, rotateBackupBitmap);
        store := r.0;
        canvasBitmap := r.1;
        inRotateMode := false;
        rotateBackupBitmap := None;
        UpdateUiForMode(Normal);
      }
    }

    // ---- adjust ----

    /** Starts adjust mode on a copy of the bitmap on show, with both values
        at 0 (after closing the other modes, keeping their edits); without a
        bitmap only the other modes are closed. */
    method EnterAdjustMode()
      requires Valid()
      modifies this`inCropMode, this`canvasCropModeEnabled, this`inRotateMode, this`rotateBackupBitmap,
               this`inAdjustMode, this`adjustBackupBitmap, this`store, this`currentMode, textOverlay`isTextToolActive,
               this`currentBrightness, this`currentContrast, this`brightnessProgress, this`contrastProgress
      ensures Valid() && StoreGrows(old(store), store)
      ensures canvasBitmap == old(canvasBitmap)
      ensures old(inAdjustMode) ==> store == old(store) && adjustBackupBitmap == old(adjustBackupBitmap)
                                    && currentMode == old(currentMode) && currentBrightness == old(currentBrightness)
                                    && currentContrast == old(currentContrast)
      ensures !old(inAdjustMode) ==> !inCropMode && !inRotateMode
      ensures !old(inAdjustMode) && canvasBitmap.Some? ==>
                inAdjustMode && currentMode == Adjust && currentBrightness == 0 && currentContrast == 0
                && brightnessProgress == 100 && contrastProgress == 50
                && adjustBackupBitmap.Some? && store.images[adjustBackupBitmap.value] == store.images[canvasBitmap.value]
      ensures !old(inAdjustMode) && canvasBitmap.None? ==> !inAdjustMode
    {
      if inAdjustMode {
        return;
      }
      CloseEditingModes();
      if canvasBitmap.None? {
        return;
      }
      StartAdjust();
    }

    /** Backs up the bitmap on show, zeroes both values and shows adjust
        mode. */
    method StartAdjust()
      requires Valid() && !inCropMode && !inRotateMode && !inAdjustMode && canvasBitmap.Some?
      modifies this`inAdjustMode, this`adjustBackupBitmap, this`store, this`currentMode, textOverlay`isTextToolActive,
               this`currentBrightness, this`currentContrast, this`brightnessProgress, this`contrastProgress
      ensures Valid() && StoreGrows(old(store), store)
      ensures inAdjustMode && currentMode == Adjust && currentBrightness == 0 && currentContrast == 0
              && brightnessProgress == 100 && contrastProgress == 50
              && adjustBackupBitmap.Some? && store.images[adjustBackupBitmap.value] == store.images[canvasBitmap.value]
    {
      var a := Allocate(store, store.images[canvasBitmap.value]);
      store := a.0;
      adjustBackupBitmap := Some(a.1);
      currentBrightness := 0;
      currentContrast := 0;
      brightnessProgress := 100;
      contrastProgress := 50;
      inAdjustMode := true;
      UpdateUiForMode(Adjust);
    }

    /** `applyAdjustPreview`: in adjust mode, shows the backup adjusted by
        the given values (the current ones where none is given) and recycles
        the previous preview; a backup without area shows nothing new. */
    method ApplyAdjustPreview(brightnessOverride: Option<int>, contrastOverride: Option<int>)
      requires Valid()
      modifies this`store, this`canvasBitmap
      ensures Valid() && StoreGrows(old(store), store)
      ensures var b := if brightnessOverride.Some? then brightnessOverride.value else currentBrightness;
              var c := if contrastOverride.Some? then contrastOverride.value else currentContrast;
              if inAdjustMode && old(store).images[adjustBackupBitmap.value].width > 0
                 && old(store).images[adjustBackupBitmap.value].height > 0
              then var src := old(store).images[adjustBackupBitmap.value];
                   canvasBitmap.Some?
                   && (store, canvasBitmap.value) == Replace(old(store), old(canvasBitmap), AdjustedImage(src, b, c), adjustBackupBitmap)
              else store == old(store) && canvasBitmap == old(canvasBitmap)
    ensures (store, canvasBitmap)
              == Preview(old(store), old(canvasBitmap), adjustBackupBitmap,
                         if brightnessOverride.Some? then brightnessOverride.value else currentBrightness,
                         if contrastOverride.Some? then contrastOverride.value else currentContrast)
    {
      if !inAdjustMode {
        return;
      }
      var source := store.images[adjustBackupBitmap.value];
      if source.width <= 0 || source.height <= 0 {
        return;
      }
      var brightness := if brightnessOverride.Some? then brightnessOverride.value else currentBrightness;
      var contrast := if contrastOverride.Some? then contrastOverride.value else currentContrast;
      var pixels := new Word[|source.pixels|](i requires 0 <= i < |source.pixels| => source.pixels[i]);
      assert pixels[..] == source.pixels;
      AdjustPixels(pixels, brightness, contrast);
      var adjusted := Image(source.width, source.height, pixels[..]);
      assert adjusted == AdjustedImage(source, brightness, contrast);
      ReplaceKeepsOthers(store, canvasBitmap, adjusted, adjustBackupBitmap, adjustBackupBitmap);
      ReplaceKeepsOthers(store, canvasBitmap, adjusted, adjustBackupBitmap, rotateBackupBitmap);
      var r := Replace(store, canvasBitmap, adjusted, adjustBackupBitmap);
      store := r.0;
      canvasBitmap := Some(r.1);
    }

    /** Leaves adjust mode keeping the edits: the backup is recycled. */
    method ExitAdjustApplied()
      requires inAdjustMode && BitmapsOk(store, canvasBitmap, rotateBackupBitmap, adjustBackupBitmap, inRotateMode, inAdjustMode)
      modifies this`inAdjustMode, this`adjustBackupBitmap, this`store, this`currentMode, textOverlay`isTextToolActive
      ensures !inAdjustMode && adjustBackupBitmap.None? && currentMode == Normal && !textOverlay.isTextToolActive
      ensures store == RecycleHeld(old(store), old(adjustBackupBitmap))
      ensures BitmapsOk(store, canvasBitmap, rotateBackupBitmap, adjustBackupBitmap, inRotateMode, inAdjustMode)
    {
      inAdjustMode := false;
      store := RecycleHeld(store, adjustBackupBitmap);
      adjustBackupBitmap := None;
      UpdateUiForMode(Normal);
    }

    /** `exitAdjustMode`: keeping the edits recycles the backup; cancelling
        puts the backup back on show and recycles the preview. */
    method ExitAdjustMode(applyChanges: bool)
      requires Valid()
      modifies this`inAdjustMode, this`adjustBackupBitmap, this`store, this`canvasBitmap, this`currentMode,
               textOverlay`isTextToolActive
      ensures Valid() && StoreGrows(old(store), store)
      ensures !inAdjustMode && adjustBackupBitmap.None?
      ensures !old(inAdjustMode) ==> store == old(store) && canvasBitmap == old(canvasBitmap) && currentMode == old(currentMode)
      ensures old(inAdjustMode) && applyChanges ==>
                currentMode == Normal && canvasBitmap == old(canvasBitmap) && store == RecycleHeld(old(store), old(adjustBackupBitmap))
      ensures old(inAdjustMode) && !applyChanges ==>
                currentMode == Normal && (store, canvasBitmap) == CancelTo(old(store), old(canvasBitmap), old(adjustBackupBitmap))
                && store.images[canvasBitmap.value] == old(store).images[old(adjustBackupBitmap).value]
    {
      if !inAdjustMode {
        return;
      }
      if applyChanges {
        ExitAdjustApplied();
      } else {
        CancelShowsBackup(store, canvasBitmap, adjustBackupBitmap);
        var r := CancelTo(store, canvasBitmap, adjustBackupBitmap);
        store := r.0;
        canvasBitmap := r.1;
        inAdjustMode := false;
        adjustBackupBitmap := None;
        UpdateUiForMode(Normal);
      }
    }

    /** The brightness slider moved to `progress` (0..200): a move by the
        user in adjust mode sets the brightness to progress - 100 and
        previews it; any other change is ignored. */
    method OnBrightnessProgressChanged(progress: int, fromUser: bool)
      requires Valid() && 0 <= progress <= 200
      modifies this`brightnessProgress, this`currentBrightness, this`store, this`canvasBitmap
      ensures Valid() && StoreGrows(old(store), store)
      ensures !old(inAdjustMode) || !fromUser ==> currentBrightness == old(currentBrightness) && store == old(store)
                                                  && canvasBitmap == old(canvasBitmap)
      ensures old(inAdjustMode) && fromUser ==> currentBrightness == progress - 100 && brightnessProgress == progress
      ensures old(inAdjustMode) && fromUser ==>
                (store, canvasBitmap) == Preview(old(store), old(canvasBitmap), adjustBackupBitmap, progress - 100, currentContrast)
    {
      if !inAdjustMode || !fromUser {
        return;
      }
      brightnessProgress := progress;
      currentBrightness := progress - 100;
      ApplyAdjustPreview(None, None);
    }

    /** The contrast slider moved to `progress` (0..200): a move by the user
        in adjust mode sets the contrast to progress - 50 and previews it. */
    method OnContrastProgressChanged(progress: int, fromUser: bool)
      requires Valid() && 0 <= progress <= 200
      modifies this`contrastProgress, this`currentContrast, this`store, this`canvasBitmap
      ensures Valid() && StoreGrows(old(store), store)
      ensures !old(inAdjustMode) || !fromUser ==> currentContrast == old(currentContrast) && store == old(store)
                                                  && canvasBitmap == old(canvasBitmap)
      ensures old(inAdjustMode) && fromUser ==> currentContrast == progress - 50 && contrastProgress == progress
      ensures old(inAdjustMode) && fromUser ==>
                (store, canvasBitmap) == Preview(old(store), old(canvasBitmap), adjustBackupBitmap, currentBrightness, progress - 50)
    {
      if !inAdjustMode || !fromUser {
        return;
      }
      contrastProgress := progress;
      currentContrast := progress - 50;
      ApplyAdjustPreview(None, None);
    }

    /** The reset button: both values back to 0 and previewed. */
    method ResetAdjust()
      requires Valid()
      modifies this`brightnessProgress, this`currentBrightness, this`contrastProgress, this`currentContrast,
               this`store, this`canvasBitmap
      ensures Valid() && StoreGrows(old(store), store)
      ensures !inAdjustMode ==> currentBrightness == old(currentBrightness) && currentContrast == old(currentContrast)
                                && store == old(store) && canvasBitmap == old(canvasBitmap)
      ensures inAdjustMode ==> currentBrightness == 0 && currentContrast == 0 && brightnessProgress == 100 && contrastProgress == 50
      ensures inAdjustMode ==> (store, canvasBitmap) == Preview(old(store), old(canvasBitmap), adjustBackupBitmap, 0, 0)
      ensures inAdjustMode && canvasBitmap != old(canvasBitmap) ==>
                canvasBitmap.Some? && store.images[canvasBitmap.value] == old(store).images[adjustBackupBitmap.value]
    {
      if !inAdjustMode {
        return;
      }
      currentBrightness := 0;
      currentContrast := 0;
      brightnessProgress := 100;
      contrastProgress := 50;
      NeutralPreviewIsOriginal(store.images[adjustBackupBitmap.value]);
      ApplyAdjustPreview(None, None);
    }

    /** The -20/+20 brightness buttons: a step kept in [-100, 100], the
        slider moved to match, and the result previewed. */
    method StepBrightnessBy(delta: int)
      requires Valid()
      modifies this`brightnessProgress, this`currentBrightness, this`store, this`canvasBitmap
      ensures Valid() && StoreGrows(old(store), store)
      ensures !inAdjustMode ==> currentBrightness == old(currentBrightness) && store == old(store)
                                && canvasBitmap == old(canvasBitmap)
      ensures inAdjustMode ==> currentBrightness == StepBrightness(old(currentBrightness), delta)
                               && brightnessProgress == currentBrightness + 100
      ensures inAdjustMode ==>
                (store, canvasBitmap) == Preview(old(store), old(canvasBitmap), adjustBackupBitmap, currentBrightness, currentContrast)
    {
      if !inAdjustMode {
        return;
      }
      currentBrightness := StepBrightness(currentBrightness, delta);
      brightnessProgress := currentBrightness + 100;
      ApplyAdjustPreview(None, None);
    }

    /** The -20/+20 contrast buttons: a step kept in [-50, 150]. */
    method StepContrastBy(delta: int)
      requires Valid()
      modifies this`contrastProgress, this`currentContrast, this`store, this`canvasBitmap
      ensures Valid() && StoreGrows(old(store), store)
      ensures !inAdjustMode ==> currentContrast == old(currentContrast) && store == old(store)
                                && canvasBitmap == old(canvasBitmap)
      ensures inAdjustMode ==> currentContrast == StepContrast(old(currentContrast), delta)
                               && contrastProgress == currentContrast + 50
      ensures inAdjustMode ==>
                (store, canvasBitmap) == Preview(old(store), old(canvasBitmap), adjustBackupBitmap, currentBrightness, currentContrast)
    {
      if !inAdjustMode {
        return;
      }
      currentContrast := StepContrast(currentContrast, delta);
      contrastProgress := currentContrast + 50;
      ApplyAdjustPreview(None, None);
    }

    /** The compare button: pressing it shows the backup unadjusted,
        releasing or cancelling shows the current adjustment again; other
        actions, and any action outside adjust mode, are not handled. */
    method OnCompareTouch(action: Action) returns (handled: bool)
      requires Valid()
      modifies this`store, this`canvasBitmap
      ensures Valid() && StoreGrows(old(store), store)
      ensures handled <==> inAdjustMode && (action == Down || action == Up || action == Cancel)
      ensures !handled ==> store == old(store) && canvasBitmap == old(canvasBitmap)
      ensures handled && canvasBitmap != old(canvasBitmap) ==>
                canvasBitmap.Some? &&
                var src := old(store).images[adjustBackupBitmap.value];
                store.images[canvasBitmap.value]
                  == (if action == Down then src else AdjustedImage(src, currentBrightness, currentContrast))
      ensures handled && action == Down ==>
                (store, canvasBitmap) == Preview(old(store), old(canvasBitmap), adjustBackupBitmap, 0, 0)
      ensures handled && action != Down ==>
                (store, canvasBitmap) == Preview(old(store), old(canvasBitmap), adjustBackupBitmap, currentBrightness, currentContrast)
    {
      if !inAdjustMode || adjustBackupBitmap.None? {
        return false;
      }
      if action == Down {
        NeutralPreviewIsOriginal(store.images[adjustBackupBitmap.value]);
        ApplyAdjustPreview(Some(0), Some(0));
        return true;
      } else if action == Up || action == Cancel {
        ApplyAdjustPreview(None, None);
        return true;
      }
      return false;
    }

    // ---- text ----

    /** The text tool: closes the other modes (keeping their edits), backs
        up the text boxes, shows text mode and makes sure a box is selected,
        creating the default one when there is none. */
    method OnTextToolClicked() returns (deferred: bool)
      requires Valid()
      modifies this`inCropMode, this`canvasCropModeEnabled, this`inRotateMode, this`rotateBackupBitmap,
               this`inAdjustMode, this`adjustBackupBitmap, this`store, this`currentMode, textOverlay`isTextToolActive,
               this`textBackupState, textOverlay`elements, textOverlay`selectedIndex
      ensures Valid() && StoreGrows(old(store), store)
      ensures currentMode == Text && !inCropMode && !inRotateMode && !inAdjustMode
      ensures canvasBitmap == old(canvasBitmap)
      ensures textBackupState == Some(TextOverlay.Snapshot(old(textOverlay.elements), old(textOverlay.selectedIndex)))
      ensures |old(textOverlay.elements)| == 0 ==>
                (deferred <==> textOverlay.width == 0 || textOverlay.height == 0)
                && (!deferred ==> |textOverlay.elements| == 1 && textOverlay.elements[0].text == TextOverlay.DefaultText
                                  && textOverlay.selectedIndex == 0)
      ensures |old(textOverlay.elements)| > 0 ==>
                !deferred && textOverlay.elements == old(textOverlay.elements)
                && 0 <= textOverlay.selectedIndex < |textOverlay.elements|
      ensures |old(textOverlay.elements)| > 0 && 0 <= old(textOverlay.selectedIndex) < |old(textOverlay.elements)| ==>
                textOverlay.selectedIndex == old(textOverlay.selectedIndex)
      ensures |old(textOverlay.elements)| > 0 && !(0 <= old(textOverlay.selectedIndex) < |old(textOverlay.elements)|) ==>
                textOverlay.selectedIndex == |old(textOverlay.elements)| - 1
    {
      CloseEditingModes();
      textBackupState := Some(textOverlay.SnapshotState());
      TextOverlay.SnapshotRestoreRoundTrip(textOverlay.elements, textOverlay.selectedIndex);
      UpdateUiForMode(Text);
      if |textOverlay.elements| == 0 {
        deferred := textOverlay.CreateNewTextElement(TextOverlay.DefaultText);
      } else {
        var _ := textOverlay.EnsureOneSelected();
        deferred := false;
      }
    }

    /** Closes crop, rotate and adjust mode, keeping their edits: any backup
        is recycled and the bitmap on show stays. */
    method CloseEditingModes()
      requires Valid()
      modifies this`inCropMode, this`canvasCropModeEnabled, this`inRotateMode, this`rotateBackupBitmap,
               this`inAdjustMode, this`adjustBackupBitmap, this`store, this`currentMode, textOverlay`isTextToolActive
      ensures Valid() && !inCropMode && !inRotateMode && !inAdjustMode
      ensures canvasBitmap == old(canvasBitmap)
      ensures store == RecycleHeld(RecycleHeld(old(store), old(rotateBackupBitmap)), old(adjustBackupBitmap))
      ensures !old(inCropMode) && !old(inRotateMode) && !old(inAdjustMode) ==>
                currentMode == old(currentMode) && textOverlay.isTextToolActive == old(textOverlay.isTextToolActive)
    {
      if inCropMode {
        ExitCropMode();
      }
      if inRotateMode {
        ExitRotateApplied();
      }
      if inAdjustMode {
        ExitAdjustApplied();
      }
    }

    /** Leaves text mode: the text tool goes off, no box stays selected and
        the normal mode is shown. */
    method ExitTextMode()
      requires Valid() && currentMode == Text
      modifies this`currentMode, textOverlay`isTextToolActive, textOverlay`selectedIndex
      ensures Valid()
      ensures currentMode == Normal && !textOverlay.isTextToolActive && textOverlay.selectedIndex == -1
    {
      textOverlay.isTextToolActive := false;
      textOverlay.ClearSelection();
      UpdateUiForMode(Normal);
    }

    /** The text panel's cancel (the panel is shown only in text mode): the
        boxes go back to the backup taken when text mode began. */
    method OnTextModeCancel()
      requires Valid() && currentMode == Text
      modifies this`currentMode, this`textBackupState, textOverlay`isTextToolActive, textOverlay`elements,
               textOverlay`selectedIndex
      ensures Valid()
      ensures currentMode == Normal && textBackupState.None? && textOverlay.selectedIndex == -1
      ensures old(textBackupState).Some? ==> textOverlay.elements == TextOverlay.RestoredElements(old(textBackupState).value)
      ensures old(textBackupState).None? ==> textOverlay.elements == old(textOverlay.elements)
    {
      if textBackupState.Some? {
        textOverlay.RestoreState(textBackupState.value);
      }
      textBackupState := None;
      ExitTextMode();
    }

    /** The text panel's confirm: the boxes are kept as they are. */
    method OnTextModeConfirm()
      requires Valid() && currentMode == Text
      modifies this`currentMode, this`textBackupState, textOverlay`isTextToolActive, textOverlay`selectedIndex
      ensures Valid()
      ensures currentMode == Normal && textBackupState.None? && textOverlay.selectedIndex == -1
      ensures textOverlay.elements == old(textOverlay.elements)
    {
      textBackupState := None;
      ExitTextMode();
    }

    /** A double tap on a box (reported only while the text tool is on) opens
        the input bar on the selected box's text. */
    method EnterTextEditModeForSelected() returns (inputText: Option<string>)
      requires Valid() && textOverlay.isTextToolActive
      modifies textOverlay`isTextToolActive
      ensures Valid() && textOverlay.isTextToolActive
      ensures var sel := TextOverlay.SelectedOf(textOverlay.elements, textOverlay.selectedIndex);
              inputText == (if sel.Some? then Some(sel.value.text) else None)
    {
      var selected := textOverlay.GetSelectedElement();
      if selected.None? {
        return None;
      }
      textOverlay.isTextToolActive := true;
      return Some(selected.value.text);
    }

    /** The input bar's confirm: the trimmed text replaces the selected box's
        text unless it is empty. */
    method OnTextContentConfirm(text: string)
      requires Valid()
      modifies textOverlay`elements
      ensures Valid()
      ensures var t := Trim(text);
              var sel := textOverlay.selectedIndex;
              if |t| > 0 && 0 <= sel < |old(textOverlay.elements)|
              then textOverlay.elements == old(textOverlay.elements)[sel := old(textOverlay.elements)[sel].(text := t)]
              else textOverlay.elements == old(textOverlay.elements)
    {
      var trimmed := Trim(text);
      if |trimmed| > 0 {
        textOverlay.UpdateSelectedTextContent(trimmed);
      }
    }

    // ---- cancelling ----

    /** Entering rotate mode, applying any transform and cancelling puts the
        picture shown on entry back on show. */
    method RotateThenCancelRestoresPhoto(transformed: Option<Image>)
      requires Valid() && !inRotateMode && canvasBitmap.Some?
      modifies this`inCropMode, this`canvasCropModeEnabled, this`inRotateMode, this`rotateBackupBitmap,
               this`inAdjustMode, this`adjustBackupBitmap, this`store, this`canvasBitmap, this`currentMode,
               textOverlay`isTextToolActive
      ensures Valid() && !inRotateMode && currentMode == Normal
      ensures canvasBitmap.Some? && store.images[canvasBitmap.value] == old(store).images[old(canvasBitmap).value]
    {
      ghost var photo := store.images[canvasBitmap.value];
      EnterRotateMode();
      ApplyTransform(transformed);
      ExitRotateMode(false);
      assert store.images[canvasBitmap.value] == photo;
    }

    /** Entering adjust mode, moving the brightness and cancelling puts the
        picture shown on entry back on show. */
    method AdjustThenCancelRestoresPhoto(delta: int)
      requires Valid() && !inAdjustMode && canvasBitmap.Some?
      modifies this`inCropMode, this`canvasCropModeEnabled, this`inRotateMode, this`rotateBackupBitmap,
               this`inAdjustMode, this`adjustBackupBitmap, this`store, this`canvasBitmap, this`currentMode,
               textOverlay`isTextToolActive, this`currentBrightness, this`currentContrast, this`brightnessProgress,
               this`contrastProgress
      ensures Valid() && !inAdjustMode && currentMode == Normal
      ensures canvasBitmap.Some? && store.images[canvasBitmap.value] == old(store).images[old(canvasBitmap).value]
    {
      ghost var photo := store.images[canvasBitmap.value];
      EnterAdjustMode();
      StepBrightnessBy(delta);
      ExitAdjustMode(false);
      assert store.images[canvasBitmap.value] == photo;
    }

    /** Opening the text tool, editing the selected box's text and
        cancelling gives back every box's values as they were. */
    method TextThenCancelRestoresBoxes(text: string)
      requires Valid()
      modifies this`inCropMode, this`canvasCropModeEnabled, this`inRotateMode, this`rotateBackupBitmap,
               this`inAdjustMode, this`adjustBackupBitmap, this`store, this`currentMode, textOverlay`isTextToolActive,
               this`textBackupState, textOverlay`elements, textOverlay`selectedIndex
      ensures Valid() && currentMode == Normal
      ensures |textOverlay.elements| == |old(textOverlay.elements)|
      ensures forall i :: 0 <= i < |textOverlay.elements| ==>
                TextOverlay.SameValues(textOverlay.elements[i], old(textOverlay.elements)[i])
    {
      ghost var es := textOverlay.elements;
      ghost var sel := textOverlay.selectedIndex;
      var _ := OnTextToolClicked();
      OnTextContentConfirm(text);
      OnTextModeCancel();
      TextOverlay.SnapshotRestoreRoundTrip(es, sel);
    }

    // ---- export and teardown ----

    /** Composes the container into a bitmap with the watermark: the text
        overlay draws no selection while it is drawn, and its switch is
        restored afterwards. The result is where the watermark text goes. */
    method ComposeWithWatermark(w: int, h: int, textWidth: int) returns (origin: Option<(real, real)>)
      modifies textOverlay`suppressSelectionDrawing
      ensures textOverlay.suppressSelectionDrawing == old(textOverlay.suppressSelectionDrawing)
      ensures origin == WatermarkOrigin(w, h, density, textWidth)
    {
      if w <= 0 || h <= 0 {
        return None;
      }
      var oldSuppress := textOverlay.suppressSelectionDrawing;
      textOverlay.suppressSelectionDrawing := true;
      textOverlay.suppressSelectionDrawing := oldSuppress;
      var padding := 16.0 * density;
      origin := Some((w as real - padding - textWidth as real, h as real - padding));
    }

    /** Teardown: both backups are recycled unless on show, then dropped. */
    method OnDestroyView()
      requires Valid()
      modifies this`rotateBackupBitmap, this`adjustBackupBitmap, this`store
      ensures rotateBackupBitmap.None? && adjustBackupBitmap.None?
      ensures store == RecycleUnless(RecycleUnless(old(store), old(rotateBackupBitmap), canvasBitmap),
                                     old(adjustBackupBitmap), canvasBitmap)
      ensures Live(store, canvasBitmap) && StoreGrows(old(store), store)
    {
      store := RecycleUnless(store, rotateBackupBitmap, canvasBitmap);
      store := RecycleUnless(store, adjustBackupBitmap, canvasBitmap);
      rotateBackupBitmap := None;
      adjustBackupBitmap := None;
    }
  }
}
