/** The program's global state and the operations that change it: the
    setters called from the page, reset_calculation, step_calculation and
    main_loop (main.cpp). */
module App {
  import opened CMath
  import opened Vectors
  import opened Physics
  import opened RayMarch
  import opened Scheduler
  import opened Camera
  import opened Background
  import opened Compositor

  /** Entries of the distortion map and bytes of the RGBA buffer. */
  const PixelCount: int := ImageWidth * ImageHeight
  const ByteCount: int := PixelCount * 4

  /** Map entry p belongs to pixel (p % 500, p / 500). */
  lemma PixelIndexSplits(i: int, j: int)
    requires 0 <= i < ImageWidth && 0 <= j < ImageHeight
    ensures 0 <= j * ImageWidth + i < PixelCount
    ensures (j * ImageWidth + i) % ImageWidth == i
    ensures (j * ImageWidth + i) / ImageWidth == j
  {
  }

  /** Bytes 4 p .. 4 p + 3 belong to pixel p, one channel each. */
  lemma QuadOf(p: int, k: int)
    requires p * 4 <= k < p * 4 + 4
    ensures k / 4 == p && k % 4 == k - p * 4
  {
  }

  /** The march of pixel (i, j) and the entry it leaves over prev: the
      photon leaves the camera through the pixel and is stepped with the
      equations for hole size rs; the hit flag is always written, the escape
      direction only when the ray escaped. */
  method MarchEntry(m: Libm, rs: real, dist: real, i: int, j: int, prev: PrecomputedPixel)
    returns (entry: PrecomputedPixel)
    ensures entry == Recorded(m, prev, rs, dist, i, j)
  {
    var start := PixelStart(m, dist, i, j);
    var hit, state := MarchRay(Stepper(m, rs), start, rs);
    entry := prev.(hit := hit);
    if !hit {
      entry := entry.(localDir := state.mom.Normalized(m));
    }
  }

  class Lensing {
    /** The maths library and the procedural starfield the program calls. */
    const libm: Libm
    const starfield: Vec3 -> Vec3

    /** distortion_map: one entry per pixel, row by row. */
    const distortionMap: array<PrecomputedPixel>
    /** pixels: the RGBA picture handed to the texture. */
    const pixels: array<byte>

    /** g_rs and camera_dist: the Schwarzschild radius and the camera's distance. */
    var rs: real
    var cameraDist: real
    /** calc_row, is_calculating, distortion_map_ready. */
    var calcRow: int
    var isCalculating: bool
    var mapReady: bool
    /** main_loop's static first-call flag. */
    var first: bool
    /** camera_yaw and camera_pitch. */
    var yaw: real
    var pitch: real
    /** bg_image_data, bg_width, bg_height. */
    var image: Image

    function State(): CalcState
      reads this
    {
      CalcState(calcRow, isCalculating, mapReady)
    }

    /** The buffers have their sizes, the image its bytes, and the pitch is
        inside its limits. */
    predicate WellFormed()
      reads this
    {
      && distortionMap.Length == PixelCount
      && pixels.Length == ByteCount
      && image.Valid()
      && -PitchLimit <= pitch <= PitchLimit
    }

    /** On top of that the scheduler state is consistent and every row above
        the cursor holds the march of its pixels for the current hole size
        and camera distance: a ready map describes the whole picture. */
    predicate Valid()
      reads this, distortionMap
    {
      && WellFormed()
      && State().Consistent()
      && (forall p :: 0 <= p < calcRow * ImageWidth ==>
            Agrees(libm, distortionMap[p], rs, cameraDist, p % ImageWidth, p / ImageWidth))
    }

    /** The entries of rows [fromRow, toRow) are what the march of their
        pixels records over their old contents; all others are unchanged. */
    twostate predicate RowsRecorded(fromRow: int, toRow: int)
      reads this, distortionMap
    {
      forall p :: 0 <= p < distortionMap.Length ==>
        distortionMap[p] == (if fromRow * ImageWidth <= p < toRow * ImageWidth
                             then Recorded(libm, old(distortionMap[p]), rs, cameraDist,
                                           p % ImageWidth, p / ImageWidth)
                             else old(distortionMap[p]))
    }

    /** The program's start: a heavy hole (rs = 4) seen from 150 away, no
        image, nothing computed yet. */
    constructor (m: Libm, starfield: Vec3 -> Vec3)
      ensures Valid() && fresh(distortionMap) && fresh(pixels)
      ensures libm == m && this.starfield == starfield
      ensures State() == Initial() && first
      ensures rs == 4.0 && cameraDist == 150.0 && yaw == 0.0 && pitch == 0.0
      ensures image == NoImage()
    {
      libm := m;
      this.starfield := starfield;
      distortionMap := new PrecomputedPixel[PixelCount](_ => PrecomputedPixel(false, Zero()));
      pixels := new byte[ByteCount](_ => 0);
      rs := 4.0;
      cameraDist := 150.0;
      calcRow := 0;
      isCalculating := false;
      mapReady := false;
      first := true;
      yaw := 0.0;
      pitch := 0.0;
      image := NoImage();
    }

    /** reset_calculation: start a new pass from the top row. */
    method ResetCalculation()
      requires WellFormed()
      modifies this`calcRow, this`isCalculating, this`mapReady
      ensures Valid()
      ensures State() == Restarted()
    {
      calcRow := 0;
      isCalculating := true;
      mapReady := false;
    }

    /** set_mass: a new hole size restarts the pass; the same one changes nothing. */
    method SetMass(val: real)
      requires Valid()
      modifies this`rs, this`calcRow, this`isCalculating, this`mapReady
      ensures Valid()
      ensures val == old(rs) ==> rs == old(rs) && State() == old(State())
      ensures val != old(rs) ==> rs == val && State() == Restarted()
    {
      if rs != val {
        rs := val;
        ResetCalculation();
      }
    }

    /** set_dist: a new camera distance restarts the pass; the same one
        changes nothing. */
    method SetDist(val: real)
      requires Valid()
      modifies this`cameraDist, this`calcRow, this`isCalculating, this`mapReady
      ensures Valid()
      ensures val == old(cameraDist) ==> cameraDist == old(cameraDist) && State() == old(State())
      ensures val != old(cameraDist) ==> cameraDist == val && State() == Restarted()
    {
      if cameraDist != val {
        cameraDist := val;
        ResetCalculation();
      }
    }

    /** set_background_image: the source must hold width * height * 4 bytes.
        The scheduler is not touched. */
    method SetBackgroundImage(width: int, height: int, src: seq<byte>)
      requires Valid()
      requires 0 <= width * height * 4 <= |src|
      modifies this`image
      ensures Valid()
      ensures image == ReceivedImage(src, width, height)
    {
      image := ReceivedImage(src, width, height);
    }

    /** step_calculation: when a pass is running, march the rays of the next
        (at most) five rows, record them in the map, and move the cursor. */
    method StepCalculation()
      requires Valid()
      modifies this`calcRow, this`isCalculating, this`mapReady, distortionMap
      ensures Valid()
      ensures State() == Advanced(old(State()))
      ensures RowsRecorded(old(calcRow), calcRow)
    {
      if !isCalculating {
        return;
      }
      var endRow := Min(calcRow + RowsPerStep, ImageHeight);
      var j := calcRow;
      while j < endRow
        invariant calcRow <= j <= endRow
        invariant RowsRecorded(calcRow, j)
        modifies distortionMap
      {
        label before:
        MarchRow(j);
        forall p | 0 <= p < distortionMap.Length
          ensures distortionMap[p] == (if calcRow * ImageWidth <= p < (j + 1) * ImageWidth
                                       then Recorded(libm, old(distortionMap[p]), rs, cameraDist,
                                                     p % ImageWidth, p / ImageWidth)
                                       else old(distortionMap[p]))
        {
          if j * ImageWidth <= p < (j + 1) * ImageWidth {
            assert old@before(distortionMap[p]) == old(distortionMap[p]);
          }
        }
        j := j + 1;
      }
      calcRow := endRow;
      if calcRow >= ImageHeight {
        isCalculating := false;
        mapReady := true;
      }
    }

    /** The rays of one row: the inner loop over the pixels of row j. */
    method MarchRow(j: int)
      requires distortionMap.Length == PixelCount && 0 <= j < ImageHeight
      modifies distortionMap
      ensures forall p :: 0 <= p < distortionMap.Length ==>
        distortionMap[p] == (if j * ImageWidth <= p < (j + 1) * ImageWidth
                             then Recorded(libm, old(distortionMap[p]), rs, cameraDist,
                                           p % ImageWidth, p / ImageWidth)
                             else old(distortionMap[p]))
    {
      var i := 0;
      while i < ImageWidth
        invariant 0 <= i <= ImageWidth
        invariant forall p :: 0 <= p < distortionMap.Length ==>
          distortionMap[p] == (if j * ImageWidth <= p < j * ImageWidth + i
                               then Recorded(libm, old(distortionMap[p]), rs, cameraDist,
                                             p % ImageWidth, p / ImageWidth)
                               else old(distortionMap[p]))
      {
        var idx := j * ImageWidth + i;
        PixelIndexSplits(i, j);
        var entry := MarchEntry(libm, rs, cameraDist, i, j, distortionMap[idx]);
        distortionMap[idx] := entry;
        i := i + 1;
      }
    }

    /** main_loop, one frame. The first call starts the pass. While a pass
        runs, a frame only advances it: the camera and the picture are left
        alone. Otherwise the frame's pointer events turn the camera and, once
        the map is ready, the picture is drawn: the lensed view from the map
        with the inset on top. */
    method MainLoop(events: seq<MouseMotion>)
      requires Valid()
      modifies this`first, this`calcRow, this`isCalculating, this`mapReady, this`yaw, this`pitch
      modifies distortionMap, pixels
      ensures Valid() && !first
      ensures old(first) || old(isCalculating) ==>
                && State() == Advanced(if old(first) then Restarted() else old(State()))
                && RowsRecorded(if old(first) then 0 else old(calcRow), calcRow)
                && yaw == old(yaw) && pitch == old(pitch) && unchanged(pixels)
      ensures !old(first) && !old(isCalculating) ==>
                && State() == old(State()) && unchanged(distortionMap)
                && Angles(yaw, pitch) == Drag(Angles(old(yaw), old(pitch)), events)
      ensures !old(first) && !old(isCalculating) && !mapReady ==> unchanged(pixels)
      ensures !old(first) && !old(isCalculating) && mapReady ==>
                forall k :: 0 <= k < ByteCount ==>
                  pixels[k] == FrameByte(libm, image, starfield, cameraDist, yaw, pitch, distortionMap[..], k)
    {
      if first {
        ResetCalculation();
        first := false;
      }
      if isCalculating {
        StepCalculation();
        return;
      }
      var e := 0;
      while e < |events|
        invariant 0 <= e <= |events|
        invariant -PitchLimit <= pitch <= PitchLimit
        invariant Drag(Angles(yaw, pitch), events[e..]) == Drag(Angles(old(yaw), old(pitch)), events)
        modifies this`yaw, this`pitch
      {
        var ev := events[e];
        if ev.leftHeld {
          yaw := yaw - (ev.xrel as real) * 0.005;
          pitch := pitch + (ev.yrel as real) * 0.005;
          pitch := MaxReal(-1.5, MinReal(1.5, pitch));
        }
        assert events[e..][1..] == events[e + 1..];
        e := e + 1;
      }
      if !mapReady {
        return;
      }
      RenderMain();
      RenderInset();
      forall k | 0 <= k < ByteCount
        ensures pixels[k] == FrameByte(libm, image, starfield, cameraDist, yaw, pitch, distortionMap[..], k)
      {
      }
    }

    /** The byte the main view puts at offset k. */
    function MainByte(k: int): byte
      requires WellFormed() && 0 <= k < ByteCount
      reads this, distortionMap
    {
      ColorByte(MainColor(libm, image, starfield, distortionMap[k / 4], yaw, pitch), k % 4)
    }

    /** The rendering loop over the whole picture: each pixel black where
        its ray fell in, otherwise the background in its escape direction
        turned by the camera; always opaque. */
    method RenderMain()
      requires WellFormed()
      modifies pixels
      ensures forall k :: 0 <= k < ByteCount ==> pixels[k] == MainByte(k)
    {
      var j := 0;
      while j < ImageHeight
        invariant 0 <= j <= ImageHeight
        invariant forall k :: 0 <= k < j * ImageWidth * 4 ==> pixels[k] == MainByte(k)
      {
        var i := 0;
        while i < ImageWidth
          invariant 0 <= i <= ImageWidth
          invariant forall k :: 0 <= k < (j * ImageWidth + i) * 4 ==> pixels[k] == MainByte(k)
        {
          var idx := j * ImageWidth + i;
          WriteMainPixel(idx);
          forall k | 0 <= k < (idx + 1) * 4
            ensures pixels[k] == MainByte(k)
          {
            if idx * 4 <= k {
              QuadOf(idx, k);
            }
          }
          i := i + 1;
        }
        j := j + 1;
      }
    }

    /** One pixel of the rendering loop: its colour from its map entry, and
        its four bytes. */
    method WriteMainPixel(idx: int)
      requires WellFormed() && 0 <= idx < PixelCount
      modifies pixels
      ensures forall k :: 0 <= k < ByteCount ==>
                pixels[k] == (if idx * 4 <= k < idx * 4 + 4
                              then ColorByte(MainColor(libm, image, starfield, distortionMap[idx], yaw, pitch), k - idx * 4)
                              else old(pixels[k]))
    {
      var p := distortionMap[idx];
      var color := Zero();
      if !p.hit {
        var worldDir := RotateVector(libm, p.localDir, yaw, pitch);
        color := BackgroundColor(image, starfield, worldDir);
      }
      var pIdx := idx * 4;
      pixels[pIdx + 0] := ChannelByte(color.x);
      pixels[pIdx + 1] := ChannelByte(color.y);
      pixels[pIdx + 2] := ChannelByte(color.z);
      pixels[pIdx + 3] := 255;
    }

    /** The byte the inset puts at offset k, which it covers. */
    function InsetByteAt(k: int): byte
      requires WellFormed()
      reads this
    {
      InsetByte(libm, image, starfield, cameraDist, yaw, pitch,
                ByteCol(k) - InsetLeft, ByteRow(k) - InsetTop, ByteChannel(k))
    }

    /** Whether the inset loop has written offset k once it has done the
        cells of rows above y and the first x cells of row y. */
    predicate InsetDone(k: int, y: int, x: int)
    {
      var col, row := ByteCol(k) - InsetLeft, ByteRow(k) - InsetTop;
      InInset(ByteCol(k), ByteRow(k)) && (row < y || (row == y && col < x))
    }

    /** The inset loop: the cells it covers get the view without the hole,
        with a white border; every other byte is left alone. */
    method RenderInset()
      requires WellFormed()
      modifies pixels
      ensures forall k :: 0 <= k < ByteCount ==>
                pixels[k] == (if InInset(ByteCol(k), ByteRow(k)) then InsetByteAt(k) else old(pixels[k]))
    {
      var y := 0;
      while y < InsetHeight
        invariant 0 <= y <= InsetHeight
        invariant forall k :: 0 <= k < ByteCount ==>
                    pixels[k] == (if InsetDone(k, y, 0) then InsetByteAt(k) else old(pixels[k]))
      {
        var x := 0;
        while x < InsetWidth
          invariant 0 <= x <= InsetWidth
          invariant forall k :: 0 <= k < ByteCount ==>
                      pixels[k] == (if InsetDone(k, y, x) then InsetByteAt(k) else old(pixels[k]))
        {
          label before:
          WriteInsetCell(x, y);
          InsetStep(x, y);
          forall k | 0 <= k < ByteCount
            ensures pixels[k] == (if InsetDone(k, y, x + 1) then InsetByteAt(k) else old(pixels[k]))
          {
            CellBytes(x, y, k);
          }
          x := x + 1;
        }
        y := y + 1;
      }
    }

    /** One cell of the inset loop: its ray, its colour, and its four bytes
        (white on the border, opaque always). */
    method WriteInsetCell(x: int, y: int)
      requires WellFormed()
      requires 0 <= x < InsetWidth && 0 <= y < InsetHeight
      modifies pixels
      ensures var idx := ByteIndex(InsetLeft + x, InsetTop + y, 0);
              forall k :: 0 <= k < ByteCount ==>
                pixels[k] == (if idx <= k < idx + 4
                              then InsetByte(libm, image, starfield, cameraDist, yaw, pitch, x, y, k - idx)
                              else old(pixels[k]))
    {
      var localDir := ScreenOffset(cameraDist, InsetWidth, InsetHeight, x, y).Normalized(libm);
      var worldDir := RotateVector(libm, localDir, yaw, pitch);
      var color := BackgroundColor(image, starfield, worldDir);
      var destX := InsetLeft + x;
      var destY := InsetTop + y;
      var idx := (destY * ImageWidth + destX) * 4;
      InsetInsidePicture(x, y, 3);
      if x == 0 || x == InsetWidth - 1 || y == 0 || y == InsetHeight - 1 {
        pixels[idx + 0] := 255;
        pixels[idx + 1] := 255;
        pixels[idx + 2] := 255;
      } else {
        pixels[idx + 0] := ChannelByte(color.x);
        pixels[idx + 1] := ChannelByte(color.y);
        pixels[idx + 2] := ChannelByte(color.z);
      }
      pixels[idx + 3] := 255;
      assert color == InsetColor(libm, image, starfield, cameraDist, yaw, pitch, x, y);
    }

    /** Doing cell (x, y) adds exactly the bytes of that cell to those done. */
    lemma InsetStep(x: int, y: int)
      requires 0 <= x < InsetWidth && 0 <= y < InsetHeight
      ensures forall k :: InsetDone(k, y, x + 1) <==>
                InsetDone(k, y, x) || (ByteCol(k) == InsetLeft + x && ByteRow(k) == InsetTop + y)
    {
    }
  }
}
