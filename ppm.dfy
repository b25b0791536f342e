/** The binary PPM ("P6") image the picking buffer is dumped to, and the
    rewrite of a ".png" file name to ".ppm" used when PNG output is not
    compiled in. */
module Ppm {
  import opened Gl
  import opened Arith

  /** The character of a decimal digit. */
  function Digit(d: nat): (c: char)
    requires d < 10
    ensures '0' <= c <= '9' && c as int - '0' as int == d
  {
    ('0' as int + d) as char
  }

  /** True when every character is a decimal digit. */
  predicate AllDigits(s: string)
  {
    forall i :: 0 <= i < |s| ==> '0' <= s[i] <= '9'
  }

  /** How `std::ostream << int` prints a non-negative int: decimal digits,
      most significant first, no leading zero. */
  function Decimal(n: nat): (s: string)
    ensures 1 <= |s| && AllDigits(s)
    ensures s[0] == '0' ==> n == 0
    decreases n
  {
    if n < 10 then [Digit(n)] else Decimal(n / 10) + [Digit(n % 10)]
  }

  /** The number a string of decimal digits denotes. */
  function DecimalValue(s: string): nat
    requires AllDigits(s)
    decreases |s|
  {
    if s == [] then 0 else DecimalValue(s[..|s| - 1]) * 10 + (s[|s| - 1] as int - '0' as int)
  }

  /** Reading back the printed width or height gives the number printed. */
  lemma {:induction false} DecimalRoundTrip(n: nat)
    ensures DecimalValue(Decimal(n)) == n
    decreases n
  {
    if n >= 10 {
      DecimalRoundTrip(n / 10);
      var s := Decimal(n);
      assert s[..|s| - 1] == Decimal(n / 10);
    }
  }

  /** The bytes of an ASCII string. */
  function AsciiBytes(s: string): (b: seq<byte>)
    requires forall i :: 0 <= i < |s| ==> s[i] as int < 0x80
    ensures |b| == |s| && forall i :: 0 <= i < |b| ==> b[i] == s[i] as int
  {
    seq(|s|, i requires 0 <= i < |s| => s[i] as int)
  }

  /** "P6\n<width> <height>\n255\n". */
  function Header(width: nat, height: nat): (s: string)
    ensures forall i :: 0 <= i < |s| ==> s[i] as int < 0x80
  {
    "P6\n" + Decimal(width) + " " + Decimal(height) + "\n255\n"
  }

  /** Row `y` (counted from the first row in memory) of an image whose rows are `rowLen` bytes. */
  function Row(pixels: seq<byte>, rowLen: nat, y: nat): (r: seq<byte>)
    requires (y + 1) * rowLen <= |pixels|
    ensures |r| == rowLen
  {
    pixels[y * rowLen .. (y + 1) * rowLen]
  }

  lemma RowAt(pixels: seq<byte>, rowLen: nat, y: nat, c: nat)
    requires (y + 1) * rowLen <= |pixels| && c < rowLen
    ensures y * rowLen + c < |pixels| && Row(pixels, rowLen, y)[c] == pixels[y * rowLen + c]
  {
    assert (y + 1) * rowLen == y * rowLen + rowLen;
  }

  /** Rows `rows - 1` down to `lo`, in that order. */
  function RowsDownTo(pixels: seq<byte>, rowLen: nat, rows: nat, lo: nat): seq<byte>
    requires |pixels| == rowLen * rows && lo <= rows
    decreases rows - lo
  {
    if lo == rows then []
    else
      MulMono(lo + 1, rows, rowLen);
      RowsDownTo(pixels, rowLen, rows, lo + 1) + Row(pixels, rowLen, lo)
  }

  /** The pixel rows in the order the file holds them: last row in memory first. */
  function FlippedRows(pixels: seq<byte>, rowLen: nat, rows: nat): seq<byte>
    requires |pixels| == rowLen * rows
  {
    RowsDownTo(pixels, rowLen, rows, 0)
  }

  /** The whole file for a `width` x `height` RGB image read bottom row first. */
  function Image(width: nat, height: nat, pixels: seq<byte>): seq<byte>
    requires |pixels| == width * 3 * height
  {
    AsciiBytes(Header(width, height)) + FlippedRows(pixels, width * 3, height)
  }

  lemma RowIndex(r: nat, c: nat, rowLen: nat, n: nat)
    requires r < n && c < rowLen
    ensures r * rowLen + c < n * rowLen
  {
    MulMono(r + 1, n, rowLen);
  }

  lemma {:induction false} RowsDownToAt(pixels: seq<byte>, rowLen: nat, rows: nat, lo: nat, r: nat, c: nat)
    requires |pixels| == rowLen * rows && lo <= rows
    requires r < rows - lo && c < rowLen
    ensures r * rowLen + c < |RowsDownTo(pixels, rowLen, rows, lo)|
    ensures (rows - 1 - r) * rowLen + c < |pixels|
    ensures RowsDownTo(pixels, rowLen, rows, lo)[r * rowLen + c] == pixels[(rows - 1 - r) * rowLen + c]
    decreases rows - lo
  {
    MulMono(lo + 1, rows, rowLen);
    var rest := RowsDownTo(pixels, rowLen, rows, lo + 1);
    RowsDownToLength(pixels, rowLen, rows, lo + 1);
    if r < rows - lo - 1 {
      RowIndex(r, c, rowLen, rows - lo - 1);
      RowsDownToAt(pixels, rowLen, rows, lo + 1, r, c);
    } else {
      assert rows - 1 - r == lo && |rest| == r * rowLen;
      RowAt(pixels, rowLen, lo, c);
    }
  }

  lemma {:induction false} RowsDownToLength(pixels: seq<byte>, rowLen: nat, rows: nat, lo: nat)
    requires |pixels| == rowLen * rows && lo <= rows
    ensures |RowsDownTo(pixels, rowLen, rows, lo)| == (rows - lo) * rowLen
    ensures lo == 0 ==> |RowsDownTo(pixels, rowLen, rows, lo)| == |pixels|
    decreases rows - lo
  {
    if lo < rows {
      RowsDownToLength(pixels, rowLen, rows, lo + 1);
      assert (rows - lo) * rowLen == (rows - (lo + 1)) * rowLen + rowLen;
    }
  }

  /** Byte `c` of file row `r` is byte `c` of memory row `rows - 1 - r`: the
      image is written top row first although memory holds it bottom row first. */
  lemma FlippedRowsAt(pixels: seq<byte>, rowLen: nat, rows: nat, r: nat, m: nat, c: nat)
    requires |pixels| == rowLen * rows && r + m + 1 == rows && c < rowLen
    ensures |FlippedRows(pixels, rowLen, rows)| == |pixels|
    ensures r * rowLen + c < |pixels| && m * rowLen + c < |pixels|
    ensures FlippedRows(pixels, rowLen, rows)[r * rowLen + c] == pixels[m * rowLen + c]
  {
    RowsDownToLength(pixels, rowLen, rows, 0);
    RowsDownToAt(pixels, rowLen, rows, 0, r, c);
    assert m == rows - 1 - r;
  }

  /** The file is the header followed by exactly width * height * 3 pixel bytes. */
  lemma ImageLayout(width: nat, height: nat, pixels: seq<byte>)
    requires |pixels| == width * 3 * height
    ensures |Image(width, height, pixels)| == |Header(width, height)| + |pixels|
    ensures Image(width, height, pixels)[..|Header(width, height)|] == AsciiBytes(Header(width, height))
  {
    var rowLen := width * 3;
    RowsDownToLength(pixels, rowLen, height, 0);
    var head := AsciiBytes(Header(width, height));
    var body := FlippedRows(pixels, rowLen, height);
    assert |body| == |pixels|;
    assert Image(width, height, pixels) == head + body;
    assert (head + body)[..|head|] == head;
  }

  /** Offset of channel `ch` of pixel `x` in row `row` of a packed RGB image `width` pixels wide. */
  function ByteOffset(width: nat, row: nat, x: nat, ch: nat): nat
  {
    row * (width * 3) + (x * 3 + ch)
  }

  /** Channel `ch` of pixel `x` in file row `r` is that channel of pixel `x`
      in memory row height - 1 - r. */
  lemma ImageAt(width: nat, height: nat, pixels: seq<byte>, x: nat, r: nat, ch: nat)
    requires |pixels| == width * 3 * height && x < width && r < height && ch < 3
    ensures |Header(width, height)| + ByteOffset(width, r, x, ch) < |Image(width, height, pixels)|
    ensures ByteOffset(width, height - 1 - r, x, ch) < |pixels|
    ensures Image(width, height, pixels)[|Header(width, height)| + ByteOffset(width, r, x, ch)]
      == pixels[ByteOffset(width, height - 1 - r, x, ch)]
  {
    var head := AsciiBytes(Header(width, height));
    var body := FlippedRows(pixels, width * 3, height);
    FlippedRowsAt(pixels, width * 3, height, r, height - 1 - r, x * 3 + ch);
    assert body[ByteOffset(width, r, x, ch)] == pixels[ByteOffset(width, height - 1 - r, x, ch)];
    assert Image(width, height, pixels) == head + body;
  }

  /** A 2 x 2 black picture is "P6\n2 2\n255\n" followed by twelve zero bytes. */
  lemma SmallBlackImage()
    ensures Image(2, 2, seq(12, _ => 0)) == AsciiBytes("P6\n2 2\n255\n") + seq(12, _ => 0)
  {
    var pixels: seq<byte> := seq(12, _ => 0);
    assert Header(2, 2) == "P6\n2 2\n255\n";
    RowsDownToLength(pixels, 6, 2, 0);
    var body := FlippedRows(pixels, 6, 2);
    forall k | 0 <= k < 12
      ensures body[k] == 0
    {
      FlippedRowsAt(pixels, 6, 2, k / 6, 1 - k / 6, k % 6);
    }
  }

  /** True for a name longer than four characters that ends in ".png". */
  predicate IsPngName(name: string)
  {
    |name| > 4 && name[|name| - 4..] == ".png"
  }

  /** The name the PPM fallback writes to: ".png" becomes ".ppm", anything else is kept. */
  function PpmFileName(name: string): (r: string)
    ensures |r| == |name|
    ensures IsPngName(name) ==> r[..|name| - 4] == name[..|name| - 4] && r[|name| - 4..] == ".ppm"
    ensures !IsPngName(name) ==> r == name
  {
    if IsPngName(name) then name[..|name| - 4] + ".ppm" else name
  }

  /** The rewritten name never ends in ".png" again, so rewriting twice changes
      nothing more. */
  lemma PpmFileNameIdempotent(name: string)
    ensures !IsPngName(PpmFileName(name))
    ensures PpmFileName(PpmFileName(name)) == PpmFileName(name)
  {
    var r := PpmFileName(name);
    if IsPngName(name) {
      assert r[|r| - 4..] == ".ppm";
      assert r[|r| - 4..] != ".png" by { assert r[|r| - 4..][2] == 'p' && ".png"[2] == 'n'; }
    }
  }
}
