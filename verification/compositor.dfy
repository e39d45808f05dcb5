/** The picture main_loop writes into its 500 x 300 RGBA buffer: the lensed
    main view from the distortion map, and the "no gravity" inset in the
    upper right corner (main.cpp). The functions here say, byte by byte,
    what the buffer holds after a frame. */
module Compositor {
  import opened CMath
  import opened Vectors
  import opened RayMarch
  import opened Camera
  import opened Background

  /** static_cast<int>(255.99 * min(c, 1.0)) stored into a uint8_t: truncated
      toward zero, then reduced modulo 256. */
  function ChannelByte(c: real): byte
  {
    (TruncToInt(255.99 * MinReal(c, 1.0)) % 256) as byte
  }

  /** For a non-negative channel there is no wrap-around: the byte is the
      truncated value itself, and a channel of 1 or more saturates at 255. */
  lemma ChannelNoWrap(c: real)
    requires 0.0 <= c
    ensures ChannelByte(c) as int == TruncToInt(255.99 * MinReal(c, 1.0))
    ensures 1.0 <= c ==> ChannelByte(c) == 255
  {
    var t := 255.99 * MinReal(c, 1.0);
    assert 0.0 <= t <= 255.99;
  }

  /** A byte read from the image as b / 255 is written back as b. */
  lemma ChannelRoundTrip(b: byte)
    ensures ChannelByte(Channel(b)) == b
  {
    var c := Channel(b);
    var x := b as real;
    assert c == x / 255.0;
    var t := 255.99 * c;
    assert t == x + 0.99 * x / 255.0;
    assert 0.0 <= 0.99 * x / 255.0 < 1.0;
    assert t.Floor == b as int;
  }

  /** Byte c (0 red, 1 green, 2 blue, 3 alpha) of an opaque pixel of the given
      colour. */
  function ColorByte(color: Vec3, c: int): (b: byte)
    ensures c == 3 ==> b == 255
  {
    if c == 0 then ChannelByte(color.x)
    else if c == 1 then ChannelByte(color.y)
    else if c == 2 then ChannelByte(color.z)
    else 255
  }

  /** The offset of channel c of pixel (col, row) in the buffer. */
  function ByteIndex(col: int, row: int, c: int): int
  {
    (row * ImageWidth + col) * 4 + c
  }

  /** The column, row and channel a buffer offset belongs to. */
  function ByteCol(k: int): int { (k / 4) % ImageWidth }
  function ByteRow(k: int): int { (k / 4) / ImageWidth }
  function ByteChannel(k: int): int { k % 4 }

  /** Every channel of every pixel lies inside the buffer, and the offset
      gives back its column, row and channel: no two are written to the same
      byte. */
  lemma ByteIndexDecodes(col: int, row: int, c: int)
    requires 0 <= col < ImageWidth && 0 <= row < ImageHeight && 0 <= c < 4
    ensures 0 <= ByteIndex(col, row, c) < ImageWidth * ImageHeight * 4
    ensures ByteCol(ByteIndex(col, row, c)) == col
    ensures ByteRow(ByteIndex(col, row, c)) == row
    ensures ByteChannel(ByteIndex(col, row, c)) == c
  {
    var p := row * ImageWidth + col;
    assert 0 <= p < ImageWidth * ImageHeight;
    var k := p * 4 + c;
    assert k / 4 == p && k % 4 == c;
    assert p / ImageWidth == row && p % ImageWidth == col;
  }

  /** Every offset of the buffer is the offset of its column, row and channel. */
  lemma ByteIndexCovers(k: int)
    requires 0 <= k < ImageWidth * ImageHeight * 4
    ensures 0 <= ByteCol(k) < ImageWidth && 0 <= ByteRow(k) < ImageHeight && 0 <= ByteChannel(k) < 4
    ensures ByteIndex(ByteCol(k), ByteRow(k), ByteChannel(k)) == k
  {
    var p := k / 4;
    assert k == p * 4 + k % 4;
    assert p == (p / ImageWidth) * ImageWidth + p % ImageWidth;
  }

  /** What a pixel of the main view shows: black where the ray fell in,
      otherwise the background in the escape direction turned by the camera. */
  function MainColor(m: Libm, img: Image, starfield: Vec3 -> Vec3, p: PrecomputedPixel,
                     yaw: real, pitch: real): Vec3
    requires img.Valid()
  {
    if p.hit then Zero() else BackgroundColor(img, starfield, RotateVector(m, p.localDir, yaw, pitch))
  }

  /** The inset: a quarter-size view (125 x 75) of the background without
      the hole, 20 pixels from the top and right edges. */
  const InsetScale: int := 4
  const InsetWidth: int := ImageWidth / InsetScale
  const InsetHeight: int := ImageHeight / InsetScale
  const InsetLeft: int := ImageWidth - InsetWidth - 20
  const InsetTop: int := 20

  /** The inset's cells lie inside the picture, so every byte it writes lies
      inside the buffer. */
  lemma InsetInsidePicture(x: int, y: int, c: int)
    requires 0 <= x < InsetWidth && 0 <= y < InsetHeight && 0 <= c < 4
    ensures 0 <= InsetLeft + x < ImageWidth && 0 <= InsetTop + y < ImageHeight
    ensures 0 <= ByteIndex(InsetLeft + x, InsetTop + y, c) < ImageWidth * ImageHeight * 4
  {
    assert InsetWidth == 125 && InsetHeight == 75 && InsetLeft == 355;
    ByteIndexDecodes(InsetLeft + x, InsetTop + y, c);
  }

  /** The bytes of the picture that decode to inset cell (x, y) are exactly
      the four starting at the cell's offset, one per channel. */
  lemma CellBytes(x: int, y: int, k: int)
    requires 0 <= x < InsetWidth && 0 <= y < InsetHeight && 0 <= k < ImageWidth * ImageHeight * 4
    ensures var idx := ByteIndex(InsetLeft + x, InsetTop + y, 0);
            (ByteCol(k) == InsetLeft + x && ByteRow(k) == InsetTop + y <==> idx <= k < idx + 4)
            && (idx <= k < idx + 4 ==> ByteChannel(k) == k - idx)
  {
    var idx := ByteIndex(InsetLeft + x, InsetTop + y, 0);
    InsetInsidePicture(x, y, 0);
    ByteIndexCovers(k);
    if idx <= k < idx + 4 {
      ByteIndexDecodes(InsetLeft + x, InsetTop + y, k - idx);
    }
  }

  /** Cell (x, y) lies on the one-cell frame of the inset. */
  predicate OnBorder(x: int, y: int)
  {
    x == 0 || x == InsetWidth - 1 || y == 0 || y == InsetHeight - 1
  }

  /** The inset's view: the straight, unbent ray through cell (x, y) of a
      125 x 75 grid over the same screen, turned by the camera. */
  function InsetColor(m: Libm, img: Image, starfield: Vec3 -> Vec3, dist: real,
                      yaw: real, pitch: real, x: int, y: int): Vec3
    requires img.Valid()
  {
    var localDir := ScreenOffset(dist, InsetWidth, InsetHeight, x, y).Normalized(m);
    BackgroundColor(img, starfield, RotateVector(m, localDir, yaw, pitch))
  }

  /** Byte c of inset cell (x, y): white on the one-cell border, the view
      inside it, and always opaque. */
  function InsetByte(m: Libm, img: Image, starfield: Vec3 -> Vec3, dist: real,
                     yaw: real, pitch: real, x: int, y: int, c: int): (b: byte)
    requires img.Valid()
    ensures OnBorder(x, y) || c == 3 ==> b == 255
  {
    if c == 3 || OnBorder(x, y) then 255
    else ColorByte(InsetColor(m, img, starfield, dist, yaw, pitch, x, y), c)
  }

  /** Whether pixel (col, row) of the picture is covered by the inset. */
  predicate InInset(col: int, row: int)
  {
    InsetLeft <= col < InsetLeft + InsetWidth && InsetTop <= row < InsetTop + InsetHeight
  }

  /** Byte k of a finished frame: the inset where it covers the picture, the
      main view everywhere else. */
  function FrameByte(m: Libm, img: Image, starfield: Vec3 -> Vec3, dist: real,
                     yaw: real, pitch: real, entries: seq<PrecomputedPixel>, k: int): byte
    requires img.Valid() && 0 <= k < |entries| * 4
  {
    var col, row, c := ByteCol(k), ByteRow(k), ByteChannel(k);
    if InInset(col, row) then InsetByte(m, img, starfield, dist, yaw, pitch, col - InsetLeft, row - InsetTop, c)
    else ColorByte(MainColor(m, img, starfield, entries[k / 4], yaw, pitch), c)
  }

  /** Every pixel of a finished frame is opaque. */
  lemma FrameOpaque(m: Libm, img: Image, starfield: Vec3 -> Vec3, dist: real,
                    yaw: real, pitch: real, entries: seq<PrecomputedPixel>, k: int)
    requires img.Valid() && 0 <= k < |entries| * 4 && ByteChannel(k) == 3
    ensures FrameByte(m, img, starfield, dist, yaw, pitch, entries, k) == 255
  {
  }

  /** A captured pixel outside the inset is black. */
  lemma CapturedIsBlack(m: Libm, img: Image, starfield: Vec3 -> Vec3, dist: real,
                        yaw: real, pitch: real, entries: seq<PrecomputedPixel>, k: int)
    requires img.Valid() && 0 <= k < |entries| * 4 && ByteChannel(k) < 3
    requires entries[k / 4].hit && !InInset(ByteCol(k), ByteRow(k))
    ensures FrameByte(m, img, starfield, dist, yaw, pitch, entries, k) == 0
  {
    ChannelNoWrap(0.0);
  }
}
