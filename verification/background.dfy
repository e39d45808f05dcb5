/** The background a ray sees once it has escaped: get_background_color and
    the image handed over by set_background_image (main.cpp). */
module Background {
  import opened CMath
  import opened Vectors

  /** uint8_t */
  newtype byte = x: int | 0 <= x < 256

  datatype Option<T> = None | Some(value: T)

  /** bg_image_data, bg_width and bg_height: width * height RGBA texels, row
      by row from the top. */
  datatype Image = Image(data: seq<byte>, width: int, height: int)
  {
    /** What set_background_image establishes: four bytes per texel. */
    predicate Valid() { |data| == width * height * 4 }

    /** The test get_background_color uses to choose the image over the
        starfield. */
    predicate Loaded() { |data| > 0 && width > 0 && height > 0 }
  }

  /** The program starts without an image. */
  function NoImage(): (img: Image)
    ensures img.Valid() && !img.Loaded()
  {
    Image([], 0, 0)
  }

  /** set_background_image: the first width * height * 4 bytes of the source
      become the image. */
  function ReceivedImage(src: seq<byte>, width: int, height: int): (img: Image)
    requires 0 <= width * height * 4 <= |src|
    ensures img.Valid()
    ensures img.width == width && img.height == height
    ensures forall k :: 0 <= k < |img.data| ==> img.data[k] == src[k]
  {
    Image(src[..width * height * 4], width, height)
  }

  /** The image's field of view: the projection is scaled by 0.15. */
  const ProjectionScale: real := 0.15

  /** The horizontal texture coordinate of the planar projection of dir. */
  function TexU(img: Image, dir: Vec3): real
    requires img.width > 0 && dir.z > 0.0
  {
    var aspect := (img.height as real) / (img.width as real);
    0.5 + (dir.x / dir.z) * ProjectionScale * aspect
  }

  /** The vertical texture coordinate; screen y grows downwards. */
  function TexV(dir: Vec3): real
    requires dir.z > 0.0
  {
    0.5 - (dir.y / dir.z) * ProjectionScale
  }

  predicate InUnit(a: real) { 0.0 <= a <= 1.0 }

  datatype TexelCoord = TexelCoord(tx: int, ty: int)

  /** static_cast<int>(a * (n - 1)), clamped "just in case" into [0, n - 1]. */
  function ClampedCoord(a: real, n: int): (c: int)
    requires 0 < n
    ensures 0 <= c < n
  {
    var t := TruncToInt(a * ((n - 1) as real));
    Max(0, Min(t, n - 1))
  }

  /** The clamp never changes anything for a coordinate in [0, 1]: scaled by
      n - 1 and truncated, it already lies in [0, n - 1]. */
  lemma ClampNeverBinds(a: real, n: int)
    requires InUnit(a) && 0 < n
    ensures ClampedCoord(a, n) == TruncToInt(a * ((n - 1) as real))
    ensures 0 <= TruncToInt(a * ((n - 1) as real)) <= n - 1
  {
    var m := (n - 1) as real;
    NonNegativeProduct(a, m, a * m);
    NonNegativeProduct(1.0 - a, m, (1.0 - a) * m);
    assert a * m <= m;
  }

  /** The texel of a loaded image that direction dir looks at, or None when
      the image shows black there: behind the camera (dir.z <= 0) or outside
      the image (u or v outside [0, 1]). */
  function Texel(img: Image, dir: Vec3): (t: Option<TexelCoord>)
    requires img.Loaded()
    ensures t.Some? ==> 0 <= t.value.tx < img.width && 0 <= t.value.ty < img.height
    ensures t.None? <==> dir.z <= 0.0 || !(InUnit(TexU(img, dir)) && InUnit(TexV(dir)))
  {
    if dir.z <= 0.0 then None
    else
      var v := TexV(dir);
      var u := TexU(img, dir);
      if u >= 0.0 && u <= 1.0 && v >= 0.0 && v <= 1.0 then
        Some(TexelCoord(ClampedCoord(u, img.width), ClampedCoord(v, img.height)))
      else None
  }

  /** The byte offset of texel (tx, ty) in an image of the given width. */
  function TexelIndex(t: TexelCoord, width: int): int
  {
    (t.ty * width + t.tx) * 4
  }

  /** The red, green and blue bytes of a texel inside a w x h image lie inside
      its w * h * 4 bytes. */
  lemma TexelIndexInRange(t: TexelCoord, w: int, h: int)
    requires 0 <= t.tx < w && 0 <= t.ty < h
    ensures 0 <= TexelIndex(t, w)
    ensures TexelIndex(t, w) + 2 < w * h * 4
  {
    MulMonotone(0, t.ty, w);
    MulMonotone(t.ty + 1, h, w);
    assert (t.ty + 1) * w == t.ty * w + w;
  }

  /** Multiplying by a non-negative w keeps the order. */
  lemma MulMonotone(a: int, b: int, w: int)
    requires a <= b && 0 <= w
    ensures a * w <= b * w
  {
    var d := b - a;
    assert b * w == a * w + d * w;
    assert 0 <= d * w;
  }

  /** A byte as a colour channel in [0, 1]. */
  function Channel(b: byte): (c: real)
    ensures 0.0 <= c <= 1.0
  {
    (b as real) / 255.0
  }

  /** The image branch of get_background_color: the texel's red, green and
      blue bytes divided by 255, or black. Every channel lies in [0, 1]. */
  function ImageColor(img: Image, dir: Vec3): (c: Vec3)
    requires img.Valid() && img.Loaded()
    ensures 0.0 <= c.x <= 1.0 && 0.0 <= c.y <= 1.0 && 0.0 <= c.z <= 1.0
    ensures Texel(img, dir).None? ==> c == Zero()
  {
    match Texel(img, dir)
    case None => Zero()
    case Some(t) =>
      TexelIndexInRange(t, img.width, img.height);
      var idx := TexelIndex(t, img.width);
      Vec3(Channel(img.data[idx]), Channel(img.data[idx + 1]), Channel(img.data[idx + 2]))
  }

  /** get_background_color: the image when one is loaded, otherwise the
      procedural starfield, which is passed in. */
  function BackgroundColor(img: Image, starfield: Vec3 -> Vec3, dir: Vec3): (c: Vec3)
    requires img.Valid()
    ensures img.Loaded() ==> 0.0 <= c.x <= 1.0 && 0.0 <= c.y <= 1.0 && 0.0 <= c.z <= 1.0
    ensures img.Loaded() && dir.z <= 0.0 ==> c == Zero()
    ensures !img.Loaded() ==> c == starfield(dir)
  {
    if img.Loaded() then ImageColor(img, dir) else starfield(dir)
  }
}
