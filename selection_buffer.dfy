/** The off-screen picking buffer: a framebuffer with an RGB colour
    attachment and a depth attachment, into which objects are drawn in
    colours that encode their IDs, and from which the ID under a pixel is
    read back. */
module SelectionBuffers {
  import opened Gl
  import opened Ppm
  import opened Wrappers
  import opened Arith

  /** The red, green and blue bytes of an ID: bits 16-23, 8-15 and 0-7, so
      that r·2^16 + g·2^8 + b is the ID's low 24 bits. */
  function ObjectIDToColor(id: uint32): (c: Rgb)
    ensures c.r * 0x1_0000 + c.g * 0x100 + c.b == id % 0x100_0000
  {
    LowBytes(id);
    Rgb((id / 0x1_0000) % 0x100, (id / 0x100) % 0x100, id % 0x100)
  }

  /** Bits 16-23, 8-15 and 0-7 of `id`, put back together, are its low 24 bits. */
  lemma LowBytes(id: nat)
    ensures ((id / 0x1_0000) % 0x100) * 0x1_0000 + ((id / 0x100) % 0x100) * 0x100 + id % 0x100 == id % 0x100_0000
  {
  }

  /** The ID a colour encodes: r << 16 | g << 8 | b (the three fields do not
      overlap, so the bitwise or is a sum). */
  function ColorToObjectID(c: Rgb): (id: uint32)
    ensures id < 0x100_0000
  {
    c.r * 0x1_0000 + c.g * 0x100 + c.b
  }

  /** Decoding an encoded ID keeps its low 24 bits: the identity below 2^24. */
  lemma IdColorRoundTrip(id: uint32)
    ensures ColorToObjectID(ObjectIDToColor(id)) == id % 0x100_0000
    ensures id < 0x100_0000 ==> ColorToObjectID(ObjectIDToColor(id)) == id
  {
  }

  /** Every colour is the encoding of exactly the ID it decodes to. */
  lemma ColorIdRoundTrip(c: Rgb)
    ensures ObjectIDToColor(ColorToObjectID(c)) == c
  {
    var id := ColorToObjectID(c);
    DivModUnique(id, 0x1_0000, c.r, c.g * 0x100 + c.b);
    DivModUnique(id, 0x100, c.r * 0x100 + c.g, c.b);
    DivModUnique(c.r * 0x100 + c.g, 0x100, c.r, c.g);
    DivModUnique(c.r, 0x100, 0, c.r);
  }

  /** Below 2^24 distinct objects get distinct colours. */
  lemma ColorsDistinguishIds(a: uint32, b: uint32)
    requires a < 0x100_0000 && b < 0x100_0000
    ensures ObjectIDToColor(a) == ObjectIDToColor(b) <==> a == b
  {
    if ObjectIDToColor(a) == ObjectIDToColor(b) {
      var c := ObjectIDToColor(a);
      IdColorRoundTrip(a);
      IdColorRoundTrip(b);
      assert ColorToObjectID(c) == a;
    }
  }

  /** Only ID 0 is drawn black, the colour the buffer is cleared to. */
  lemma OnlyZeroIsBlack(a: uint32)
    requires a < 0x100_0000
    ensures ObjectIDToColor(a) == Rgb(0, 0, 0) <==> a == 0
  {
    if ObjectIDToColor(a) == Rgb(0, 0, 0) {
      IdColorRoundTrip(a);
      assert ColorToObjectID(Rgb(0, 0, 0)) == 0;
    }
  }

  /** The row readObjectID passes to glReadPixels: always `height`. */
  function ReadRow(height: int, y: int): int
  {
    height
  }

  /** The row of screen coordinate `y` in storage whose origin is the bottom-left corner. */
  function FlippedRow(height: int, y: int): int
  {
    height - y - 1
  }

  /** The row read as written does not depend on `y` and lies just above the
      top of the attachment. */
  lemma ReadRowIgnoresY(height: int, y1: int, y2: int)
    requires 0 <= y1 < height && 0 <= y2 < height
    ensures ReadRow(height, y1) == ReadRow(height, y2)
    ensures !(0 <= ReadRow(height, y1) < height)
  {
  }

  /** The flipped row stays inside the attachment, maps different screen rows
      to different storage rows and undoes itself. */
  lemma FlippedRowInside(height: int, y1: int, y2: int)
    requires 0 <= y1 < height && 0 <= y2 < height
    ensures 0 <= FlippedRow(height, y1) < height
    ensures FlippedRow(height, y1) == FlippedRow(height, y2) ==> y1 == y2
    ensures FlippedRow(height, FlippedRow(height, y1)) == y1
  {
  }

  /** Channel `ch` (0 red, 1 green, 2 blue) of a colour. */
  function Channel(px: Rgb, ch: nat): byte
    requires ch < 3
  {
    if ch == 0 then px.r else if ch == 1 then px.g else px.b
  }

  /** Byte `k` of a tightly packed RGB read-back `width` pixels wide. */
  function PixelByte(attachment: (int, int) -> Rgb, width: nat, k: nat): byte
    requires 0 < width
  {
    Channel(attachment((k / 3) % width, (k / 3) / width), k % 3)
  }

  /** The bytes glReadPixels(0, 0, width, height, GL_RGB, GL_UNSIGNED_BYTE)
      returns from an attachment whose rows are counted from the bottom,
      with rows tightly packed as a pack alignment of 1 gives them (see
      TightPackMatches; DefaultPackOverruns shows the default alignment). */
  function ReadPixels(attachment: (int, int) -> Rgb, width: nat, height: nat): (p: seq<byte>)
    ensures |p| == width * 3 * height
  {
    if width == 0 then []
    else seq(width * 3 * height, k requires 0 <= k < width * 3 * height => PixelByte(attachment, width, k))
  }

  lemma PixelIndex(width: nat, height: nat, x: nat, y: nat, ch: nat)
    requires x < width && y < height && ch < 3
    ensures ByteOffset(width, y, x, ch) < width * 3 * height
    ensures ByteOffset(width, y, x, ch) / 3 == y * width + x
    ensures ByteOffset(width, y, x, ch) % 3 == ch
    ensures (y * width + x) % width == x && (y * width + x) / width == y
  {
    MulMono(y + 1, height, width * 3);
    var k := ByteOffset(width, y, x, ch);
    assert k == (y * width + x) * 3 + ch;
    DivModUnique(k, 3, y * width + x, ch);
    DivModUnique(y * width + x, width, y, x);
  }

  /** The read-back holds channel `ch` of pixel (x, y) at byte (y * width + x) * 3 + ch. */
  lemma ReadPixelsAt(attachment: (int, int) -> Rgb, width: nat, height: nat, x: nat, y: nat, ch: nat)
    requires x < width && y < height && ch < 3
    ensures ByteOffset(width, y, x, ch) < |ReadPixels(attachment, width, height)|
    ensures ReadPixels(attachment, width, height)[ByteOffset(width, y, x, ch)] == Channel(attachment(x, y), ch)
  {
    PixelIndex(width, height, x, y, ch);
  }

  /** GL_PACK_ALIGNMENT as the driver starts with it; no code of the
      program changes it. */
  const DefaultPackAlignment: nat := 4

  /** The distance between the starts of two rows glReadPixels stores for
      GL_RGB bytes when every row starts on a multiple of `align`. */
  function RowStride(width: nat, align: nat): (s: nat)
    requires 0 < align
    ensures 3 * width <= s < 3 * width + align && s % align == 0
  {
    var n := 3 * width + align - 1;
    DivModUnique(n / align * align, align, n / align, 0);
    n / align * align
  }

  /** How many bytes glReadPixels(0, 0, width, height, GL_RGB,
      GL_UNSIGNED_BYTE) stores with pack alignment `align`: every row but
      the last is padded to the stride. */
  function PackedBytes(width: nat, height: nat, align: nat): nat
    requires 0 < align
  {
    if width == 0 || height == 0 then 0 else (height - 1) * RowStride(width, align) + 3 * width
  }

  /** Where glReadPixels stores channel `ch` of pixel (x, y) with pack
      alignment `align`. */
  function PackedOffset(width: nat, align: nat, x: nat, y: nat, ch: nat): nat
    requires 0 < align
  {
    y * RowStride(width, align) + 3 * x + ch
  }

  /** With the default alignment a row is padded exactly when its pixels do
      not already fill a multiple of four bytes. */
  lemma DefaultStride(width: nat)
    ensures RowStride(width, DefaultPackAlignment) == 3 * width <==> width % 4 == 0
  {
    var s := RowStride(width, 4);
    var q, r := width / 4, width % 4;
    assert s == 4 * (s / 4);
    if r == 0 {
      assert s - 3 * width == 4 * (s / 4 - 3 * q);
    } else {
      DivModUnique(3 * width, 4, 3 * q + (3 * r) / 4, (3 * r) % 4);
    }
  }

  /** saveToFile as written reads into a buffer of width * 3 * height bytes
      with the default alignment: for two rows or more, glReadPixels stores
      past the end of that buffer exactly when the width is not a multiple
      of 4. */
  lemma DefaultPackOverruns(width: nat, height: nat)
    requires 2 <= height
    ensures PackedBytes(width, height, DefaultPackAlignment) > width * 3 * height <==> width % 4 != 0
  {
    DefaultStride(width);
    if width > 0 {
      var s := RowStride(width, 4);
      assert PackedBytes(width, height, 4) - width * 3 * height == (height - 1) * (s - 3 * width);
      if s != 3 * width {
        MulLe(1, height - 1, s - 3 * width);
      }
    }
  }

  /** ... and from the second row on, every pixel byte lies somewhere other
      than where the file writer takes it from, exactly when the width is
      not a multiple of 4. */
  lemma DefaultPackSkews(width: nat, x: nat, y: nat, ch: nat)
    requires x < width && 1 <= y && ch < 3
    ensures PackedOffset(width, DefaultPackAlignment, x, y, ch) == ByteOffset(width, y, x, ch) <==> width % 4 == 0
  {
    DefaultStride(width);
    var s := RowStride(width, 4);
    assert PackedOffset(width, 4, x, y, ch) - ByteOffset(width, y, x, ch) == y * (s - 3 * width);
    if s != 3 * width {
      MulLe(1, y, s - 3 * width);
    }
  }

  /** The 2 x 2 buffer: glReadPixels stores 14 bytes into a 12-byte buffer. */
  lemma SmallBufferOverrun()
    ensures PackedBytes(2, 2, DefaultPackAlignment) == 14 && 2 * 3 * 2 == 12
  {
  }

  /** With a pack alignment of 1 the rows are tightly packed: the read fills
      the buffer exactly, and every pixel byte lies where ReadPixels, and so
      the file writer, has it. */
  lemma TightPackMatches(attachment: (int, int) -> Rgb, width: nat, height: nat, x: nat, y: nat, ch: nat)
    requires x < width && y < height && ch < 3
    ensures PackedBytes(width, height, 1) == width * 3 * height == |ReadPixels(attachment, width, height)|
    ensures PackedOffset(width, 1, x, y, ch) == ByteOffset(width, y, x, ch)
    ensures ReadPixels(attachment, width, height)[PackedOffset(width, 1, x, y, ch)] == Channel(attachment(x, y), ch)
  {
    ReadPixelsAt(attachment, width, height, x, y, ch);
  }

  /** In the saved file, after the header, row `r` from the top holds
      attachment row height - 1 - r: the picture is stored upright. */
  lemma SavedFileAt(attachment: (int, int) -> Rgb, width: nat, height: nat, x: nat, r: nat, ch: nat)
    requires x < width && r < height && ch < 3
    ensures |Header(width, height)| + ByteOffset(width, r, x, ch) < |Image(width, height, ReadPixels(attachment, width, height))|
    ensures Image(width, height, ReadPixels(attachment, width, height))[|Header(width, height)| + ByteOffset(width, r, x, ch)]
      == Channel(attachment(x, height - 1 - r), ch)
  {
    ImageAt(width, height, ReadPixels(attachment, width, height), x, r, ch);
    ReadPixelsAt(attachment, width, height, x, height - 1 - r, ch);
  }

  class SelectionBuffer {
    var fbo: nat
    /** The framebuffer bound before the last bind(); never initialised by the constructor. */
    var prefbo: nat
    var colorTexture: nat
    var depthRenderbuffer: nat
    var width: int
    var height: int

    /** Either no storage at all, or all three attachments at a positive size. */
    ghost predicate Consistent()
      reads this
    {
      if fbo == 0 then colorTexture == 0 && depthRenderbuffer == 0 && width == 0 && height == 0
      else 0 < colorTexture && 0 < depthRenderbuffer && 0 < width && 0 < height
    }

    /** The buffer's handles are live handles of `gpu`. */
    ghost predicate OwnedBy(gpu: Gpu)
      reads this, gpu
    {
      gpu.Valid() && Consistent() &&
      (fbo != 0 ==> fbo in gpu.live && colorTexture in gpu.live && depthRenderbuffer in gpu.live)
    }

    /** isValid(): a buffer in a consistent state is valid exactly when it
        holds its two attachments and has a positive size. */
    predicate IsValid(): (v: bool)
      reads this
      ensures Consistent() ==> (v <==> 0 < colorTexture && 0 < depthRenderbuffer && 0 < width && 0 < height)
    {
      fbo != 0
    }

    /** getWidth(): the stored width, positive exactly when the buffer is valid. */
    function GetWidth(): (w: int)
      reads this
      ensures Consistent() ==> (0 < w <==> IsValid()) && (!IsValid() ==> w == 0)
    {
      width
    }

    /** getHeight(): the stored height, positive exactly when the buffer is valid. */
    function GetHeight(): (h: int)
      reads this
      ensures Consistent() ==> (0 < h <==> IsValid()) && (!IsValid() ==> h == 0)
    {
      height
    }

    /** isValid() holds exactly when the buffer has a positive size. */
    lemma ValidIffSized()
      requires Consistent()
      ensures IsValid() <==> 0 < width && 0 < height
      ensures !IsValid() ==> width == 0 && height == 0
    {
    }

    constructor ()
      ensures Consistent() && !IsValid()
      ensures fbo == 0 && colorTexture == 0 && depthRenderbuffer == 0 && width == 0 && height == 0
    {
      fbo := 0;
      colorTexture := 0;
      depthRenderbuffer := 0;
      width := 0;
      height := 0;
    }

    /** cleanup(): deletes what exists and forgets the size. */
    method Cleanup(gpu: Gpu)
      requires OwnedBy(gpu)
      modifies this`fbo, this`colorTexture, this`depthRenderbuffer, this`width, this`height, gpu`live
      ensures OwnedBy(gpu) && !IsValid()
      ensures fbo == 0 && colorTexture == 0 && depthRenderbuffer == 0 && width == 0 && height == 0
      ensures gpu.live == old(gpu.live) - {old(fbo), old(colorTexture), old(depthRenderbuffer)}
    {
      if fbo != 0 {
        gpu.Delete(fbo);
        fbo := 0;
      }
      if colorTexture != 0 {
        gpu.Delete(colorTexture);
        colorTexture := 0;
      }
      if depthRenderbuffer != 0 {
        gpu.Delete(depthRenderbuffer);
        depthRenderbuffer := 0;
      }
      width := 0;
      height := 0;
    }

    /** What init(w, h) does, given whether the driver reports the new framebuffer complete. */
    twostate predicate InitOutcome(w: int, h: int, gpu: Gpu, complete: bool, ok: bool)
      reads this, gpu
    {
      if w <= 0 || h <= 0 then
        !ok && unchanged(this) && unchanged(gpu)
      else
        var released := old(gpu.live) - {old(fbo), old(colorTexture), old(depthRenderbuffer)};
        ok == complete && gpu.drawFramebuffer == 0 &&
        gpu.nextHandle == old(gpu.nextHandle) + 3 &&
        (ok ==>
          width == w && height == h &&
          fbo == old(gpu.nextHandle) && colorTexture == fbo + 1 && depthRenderbuffer == fbo + 2 &&
          fbo !in old(gpu.live) && colorTexture !in old(gpu.live) && depthRenderbuffer !in old(gpu.live) &&
          gpu.live == released + {fbo, colorTexture, depthRenderbuffer}) &&
        (!ok ==>
          fbo == 0 && colorTexture == 0 && depthRenderbuffer == 0 && width == 0 && height == 0 &&
          gpu.live == released)
    }

    /** init(width, height). */
    method Init(w: int, h: int, gpu: Gpu, complete: bool) returns (ok: bool)
      requires OwnedBy(gpu)
      modifies this`fbo, this`colorTexture, this`depthRenderbuffer, this`width, this`height
      modifies gpu`nextHandle, gpu`live, gpu`drawFramebuffer
      ensures OwnedBy(gpu) && prefbo == old(prefbo)
      ensures ok <==> 0 < w && 0 < h && complete
      ensures 0 < w && 0 < h ==> (ok <==> IsValid())
      ensures InitOutcome(w, h, gpu, complete, ok)
    {
      if w <= 0 || h <= 0 {
        return false;
      }
      Cleanup(gpu);
      CreateAttachments(w, h, gpu);
      if !complete {
        Cleanup(gpu);
        gpu.BindFramebuffer(0);
        return false;
      }
      gpu.BindFramebuffer(0);
      return true;
    }

    /** The allocations of init: the size, then a framebuffer (left bound),
        a colour texture and a depth renderbuffer, all fresh. */
    method CreateAttachments(w: int, h: int, gpu: Gpu)
      requires gpu.Valid() && 0 < w && 0 < h
      modifies this`fbo, this`colorTexture, this`depthRenderbuffer, this`width, this`height
      modifies gpu`nextHandle, gpu`live, gpu`drawFramebuffer
      ensures OwnedBy(gpu) && width == w && height == h
      ensures fbo == old(gpu.nextHandle) && colorTexture == fbo + 1 && depthRenderbuffer == fbo + 2
      ensures gpu.nextHandle == old(gpu.nextHandle) + 3 && gpu.drawFramebuffer == fbo
      ensures gpu.live == old(gpu.live) + {fbo, colorTexture, depthRenderbuffer}
    {
      width := w;
      height := h;
      fbo := gpu.Gen();
      gpu.BindFramebuffer(fbo);
      colorTexture := gpu.Gen();
      depthRenderbuffer := gpu.Gen();
    }

    /** resize(width, height): nothing when the size is unchanged, otherwise init. */
    method Resize(w: int, h: int, gpu: Gpu, complete: bool)
      requires OwnedBy(gpu)
      modifies this`fbo, this`colorTexture, this`depthRenderbuffer, this`width, this`height
      modifies gpu`nextHandle, gpu`live, gpu`drawFramebuffer
      ensures OwnedBy(gpu) && prefbo == old(prefbo)
      ensures w == old(width) && h == old(height) ==> unchanged(this) && unchanged(gpu)
      ensures !(w == old(width) && h == old(height)) ==>
        InitOutcome(w, h, gpu, complete, 0 < w && 0 < h && complete)
    {
      if w == width && h == height {
        return;
      }
      var ok := Init(w, h, gpu, complete);
    }

    /** bind(): remembers the current binding, binds the buffer and sets the viewport to its size. */
    method Bind(gpu: Gpu)
      modifies this`prefbo, gpu`drawFramebuffer, gpu`viewport
      ensures !IsValid() ==> unchanged(this) && unchanged(gpu)
      ensures IsValid() ==>
        prefbo == old(gpu.drawFramebuffer) && gpu.drawFramebuffer == fbo && gpu.viewport == (width, height)
    {
      if fbo == 0 {
        return;
      }
      prefbo := gpu.drawFramebuffer;
      gpu.BindFramebuffer(fbo);
      gpu.SetViewport(width, height);
    }

    /** unbind(): binds the remembered framebuffer, whether or not bind() ran. */
    method Unbind(gpu: Gpu)
      modifies gpu`drawFramebuffer
      ensures gpu.drawFramebuffer == prefbo
    {
      gpu.BindFramebuffer(prefbo);
    }

    /** clear(): clears the buffer to black (ID 0) and restores the binding it found. */
    method Clear(gpu: Gpu)
      modifies this`prefbo, gpu`drawFramebuffer, gpu`viewport, gpu`commands
      ensures !IsValid() ==> unchanged(this) && unchanged(gpu)
      ensures IsValid() ==>
        gpu.drawFramebuffer == old(gpu.drawFramebuffer) && prefbo == old(gpu.drawFramebuffer) &&
        gpu.viewport == (width, height) &&
        gpu.commands == old(gpu.commands) + [(fbo, ClearColor(0.0, 0.0, 0.0, 1.0)), (fbo, ClearBuffers)]
    {
      if fbo == 0 {
        return;
      }
      Bind(gpu);
      gpu.Issue(ClearColor(0.0, 0.0, 0.0, 1.0));
      gpu.Issue(ClearBuffers);
      Unbind(gpu);
    }

    /** readObjectID(x, y) as written: reads the pixel in column `x` of row
        ReadRow(height, y), that is row `height` whatever `y` is. */
    method ReadObjectID(x: int, y: int, gpu: Gpu, attachment: (int, int) -> Rgb) returns (id: uint32)
      modifies this`prefbo, gpu`drawFramebuffer, gpu`viewport
      ensures id < 0x100_0000
      ensures !IsValid() || !(0 <= x < width && 0 <= y < height) ==>
        id == 0 && unchanged(this) && unchanged(gpu)
      ensures IsValid() && 0 <= x < width && 0 <= y < height ==>
        id == ColorToObjectID(attachment(x, ReadRow(height, y))) &&
        prefbo == old(gpu.drawFramebuffer) &&
        gpu.drawFramebuffer == old(gpu.drawFramebuffer) && gpu.viewport == (width, height)
    {
      if fbo == 0 {
        return 0;
      }
      if x < 0 || x >= width || y < 0 || y >= height {
        return 0;
      }
      Bind(gpu);
      var pixel := attachment(x, ReadRow(height, y));
      Unbind(gpu);
      id := ColorToObjectID(pixel);
    }

    /** readObjectID(x, y) with the y-flip the source leaves commented out:
        the pixel read is the one under screen point (x, y). */
    method ReadObjectIDFlipped(x: int, y: int, gpu: Gpu, attachment: (int, int) -> Rgb) returns (id: uint32)
      modifies this`prefbo, gpu`drawFramebuffer, gpu`viewport
      ensures id < 0x100_0000
      ensures !IsValid() || !(0 <= x < width && 0 <= y < height) ==>
        id == 0 && unchanged(this) && unchanged(gpu)
      ensures IsValid() && 0 <= x < width && 0 <= y < height ==>
        0 <= FlippedRow(height, y) < height &&
        id == ColorToObjectID(attachment(x, FlippedRow(height, y))) &&
        prefbo == old(gpu.drawFramebuffer) &&
        gpu.drawFramebuffer == old(gpu.drawFramebuffer) && gpu.viewport == (width, height)
    {
      if fbo == 0 {
        return 0;
      }
      if x < 0 || x >= width || y < 0 || y >= height {
        return 0;
      }
      Bind(gpu);
      var pixel := attachment(x, FlippedRow(height, y));
      Unbind(gpu);
      id := ColorToObjectID(pixel);
    }

    /** saveToFile(filename) with PNG support not compiled in. `filename` is
        None for a null pointer; `glError` is the driver's glGetError answer
        after the read-back and `canOpen` whether the file could be opened.
        Returns the path written and the bytes written to it. The read-back
        is the tightly packed ReadPixels, the layout the buffer size and the
        file writer assume. */
    method SaveToFile(filename: Option<string>, gpu: Gpu, attachment: (int, int) -> Rgb, glError: bool, canOpen: bool)
      returns (ok: bool, path: string, file: seq<byte>)
      requires Consistent()
      modifies gpu`drawFramebuffer
      ensures gpu.drawFramebuffer == old(gpu.drawFramebuffer)
      ensures ok <==> IsValid() && filename.Some? && !glError && canOpen
      ensures ok ==>
        path == PpmFileName(filename.value) && file == Image(width, height, ReadPixels(attachment, width, height))
      ensures !ok ==> file == []
    {
      if fbo == 0 || filename.None? {
        return false, "", [];
      }
      var pixels := ReadPixels(attachment, width, height);
      var previous := gpu.drawFramebuffer;
      gpu.BindFramebuffer(fbo);
      gpu.BindFramebuffer(previous);
      if glError {
        return false, "", [];
      }
      var name := filename.value;
      path := PpmFileName(name);
      if !canOpen {
        return false, path, [];
      }
      file := WriteImage(width, height, pixels);
      ok := true;
    }
  }

  /** The PPM writer's loop: the header, then rows height - 1 down to 0, each width * 3 bytes. */
  method WriteImage(width: nat, height: nat, pixels: seq<byte>) returns (out: seq<byte>)
    requires |pixels| == width * 3 * height
    ensures out == Image(width, height, pixels)
  {
    var rowLen := width * 3;
    var head := AsciiBytes(Header(width, height));
    out := head;
    var y := height - 1;
    while y >= 0
      invariant -1 <= y < height
      invariant out == head + RowsDownTo(pixels, rowLen, height, y + 1)
    {
      MulMono(y + 1, height, rowLen);
      out := out + Row(pixels, rowLen, y);
      y := y - 1;
    }
  }
}
