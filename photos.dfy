/** Photo helpers of the web client (`web/src/lib/photos.ts`): which stored
    photo URLs are shown, how an upload is scaled down to fit a square box,
    and the name the re-encoded JPEG gets. */
module Photos {
  import opened Wrappers

  // ---------------------------------------------------------------- resolvePhotoUrl

  predicate StartsWith(s: string, prefix: string) {
    prefix <= s
  }

  /** `resolvePhotoUrl(url)`: `null`, `undefined` and the empty text give
      `undefined`; a `data:` URI or a text starting with `http` is kept as
      it is; anything else gives `undefined`. */
  function ResolvePhotoUrl(url: Option<string>): (r: Option<string>)
    ensures r.Some? ==> r == url
    ensures r.Some? <==> url.Some? && url.value != "" && (StartsWith(url.value, "data:") || StartsWith(url.value, "http"))
  {
    if url.None? || url.value == "" then None
    else if StartsWith(url.value, "data:") || StartsWith(url.value, "http") then url
    else None
  }

  /** Relative paths are never shown (the avatar fallback is used). */
  lemma RelativePathHidden(path: string)
    requires path != [] && path[0] == '/'
    ensures ResolvePhotoUrl(Some(path)) == None
  {
    assert !StartsWith(path, "data:") by { assert path[0] != "data:"[0]; }
    assert !StartsWith(path, "http") by { assert path[0] != "http"[0]; }
  }

  // ---------------------------------------------------------------- capping

  /** `Math.round(a / b)` for `a >= 0`, `b > 0`: the nearest integer, halves
      rounded up. */
  function RoundDiv(a: nat, b: nat): (r: nat)
    requires b > 0
    ensures 2 * b * r <= 2 * a + b < 2 * b * (r + 1)
  {
    (2 * a + b) / (2 * b)
  }

  /** Rounding a quotient of at most `m` stays at most `m`. */
  lemma RoundDivAtMost(a: nat, b: nat, m: nat)
    requires b > 0 && a <= m * b
    ensures RoundDiv(a, b) <= m
  {
    var r := RoundDiv(a, b);
    if r > m {
      assert 2 * b * r >= 2 * b * (m + 1) by {
        MulMonotone(2 * b, m + 1, r);
      }
    }
  }

  lemma MulMonotone(k: nat, x: nat, y: nat)
    requires x <= y
    ensures k * x <= k * y
  {
  }

  /** The dimension capping of `compressImage`: an image larger than
      `maxSize` on either side is scaled so that its longer side (the width
      on a tie goes to the `else` branch, so a square is capped by its
      height) becomes `maxSize` and the other side keeps the aspect ratio up
      to rounding. */
  method CapDimensions(imgWidth: nat, imgHeight: nat, maxSize: nat) returns (width: nat, height: nat)
    ensures imgWidth <= maxSize && imgHeight <= maxSize ==> width == imgWidth && height == imgHeight
    ensures (imgWidth > maxSize || imgHeight > maxSize) ==>
              && width <= maxSize && height <= maxSize
              && (if imgWidth > imgHeight then width == maxSize else height == maxSize)
    ensures imgWidth > imgHeight && imgWidth > maxSize ==>
              2 * height * imgWidth <= 2 * imgHeight * maxSize + imgWidth < 2 * (height + 1) * imgWidth
    ensures imgWidth <= imgHeight && imgHeight > maxSize ==>
              2 * width * imgHeight <= 2 * imgWidth * maxSize + imgHeight < 2 * (width + 1) * imgHeight
    ensures imgWidth == imgHeight > maxSize ==> width == maxSize && height == maxSize
  {
    width, height := imgWidth, imgHeight;
    if width > maxSize || height > maxSize {
      if width > height {
        ScaledSide(height, width, maxSize);
        height := RoundDiv(height * maxSize, width);
        width := maxSize;
      } else {
        ScaledSide(width, height, maxSize);
        if width == height {
          RoundDivSquare(height, maxSize, RoundDiv(width * maxSize, height));
        }
        width := RoundDiv(width * maxSize, height);
        height := maxSize;
      }
    }
  }

  /** `compressImage`'s default box side. */
  const DefaultMaxSize: nat := 512

  /** `compressImage(file)` without a `maxSize`: the capping into the default
      512-pixel box. */
  method CapDefault(imgWidth: nat, imgHeight: nat) returns (width: nat, height: nat)
    ensures width <= DefaultMaxSize && height <= DefaultMaxSize
    ensures imgWidth <= DefaultMaxSize && imgHeight <= DefaultMaxSize ==> width == imgWidth && height == imgHeight
    ensures (imgWidth > DefaultMaxSize || imgHeight > DefaultMaxSize) ==>
              (if imgWidth > imgHeight then width == DefaultMaxSize else height == DefaultMaxSize)
  {
    width, height := CapDimensions(imgWidth, imgHeight, DefaultMaxSize);
  }

  /** The shorter side scaled by `m / longer` and rounded: at most `m`, and
      the nearest integer to `other * m / longer`. */
  lemma ScaledSide(other: nat, longer: nat, m: nat)
    requires longer > 0 && other <= longer
    ensures RoundDiv(other * m, longer) <= m
    ensures 2 * RoundDiv(other * m, longer) * longer <= 2 * other * m + longer
    ensures 2 * other * m + longer < 2 * (RoundDiv(other * m, longer) + 1) * longer
  {
    MulMonotone(m, other, longer);
    assert other * m <= m * longer;
    RoundDivAtMost(other * m, longer, m);
    var r := RoundDiv(other * m, longer);
    assert 2 * longer * r <= 2 * (other * m) + longer < 2 * longer * (r + 1);
  }

  /** The rounded side of a square is the box side itself. */
  lemma RoundDivSquare(side: nat, maxSize: nat, w: nat)
    requires side > 0
    requires 2 * w * side <= 2 * side * maxSize + side < 2 * (w + 1) * side
    ensures w == maxSize
  {
    assert side * (2 * w) <= side * (2 * maxSize + 1);
    assert side * (2 * maxSize + 1) < side * (2 * w + 2);
    if w > maxSize {
      MulMonotone(side, 2 * maxSize + 2, 2 * w);
    }
    if w < maxSize {
      MulMonotone(side, 2 * w + 2, 2 * maxSize + 1);
    }
  }

  // ---------------------------------------------------------------- file name

  /** `\w` without the `u` flag: ASCII letters, digits and `_`. */
  predicate IsWordChar(c: char) {
    ('a' <= c <= 'z') || ('A' <= c <= 'Z') || ('0' <= c <= '9') || c == '_'
  }

  /** `/\.\w+$/` matches at `i`: a dot, then one or more word characters up
      to the end of the name. */
  predicate MatchesAt(s: string, i: nat) {
    i + 1 < |s| && s[i] == '.' && forall k :: i < k < |s| ==> IsWordChar(s[k])
  }

  /** The number of word characters the name ends with. */
  function TrailingWordChars(s: string): (n: nat)
    ensures n <= |s|
    ensures forall k :: |s| - n <= k < |s| ==> IsWordChar(s[k])
    ensures n < |s| ==> !IsWordChar(s[|s| - 1 - n])
    decreases |s|
  {
    if s == [] || !IsWordChar(s[|s| - 1]) then 0
    else TrailingWordChars(s[..|s| - 1]) + 1
  }

  /** The pattern matches at one place at most (a dot is not a word
      character), so the leftmost match is the only one. */
  lemma MatchUnique(s: string, i: nat, j: nat)
    requires MatchesAt(s, i) && MatchesAt(s, j)
    ensures i == j
  {
  }

  /** `file.name.replace(/\.\w+$/, '.jpg')`. */
  function RenameToJpg(name: string): (r: string)
    ensures forall i: nat :: MatchesAt(name, i) ==> r == name[..i] + ".jpg"
    ensures (forall i: nat :: !MatchesAt(name, i)) ==> r == name
  {
    var n := TrailingWordChars(name);
    if 1 <= n < |name| && name[|name| - 1 - n] == '.' then
      assert MatchesAt(name, |name| - 1 - n);
      MatchAtTrailing(name, n);
      name[..|name| - 1 - n] + ".jpg"
    else
      MatchAtTrailing(name, n);
      name
  }

  /** Any match starts right before the trailing word characters. */
  lemma MatchAtTrailing(s: string, n: nat)
    requires n == TrailingWordChars(s)
    ensures forall i: nat :: MatchesAt(s, i) ==> i == |s| - 1 - n
  {
  }

  /** The name keeps everything up to the extension and always ends in
      `.jpg` when it had one. */
  lemma RenameExamples()
    ensures RenameToJpg("cat.png") == "cat.jpg"
    ensures RenameToJpg("scan.tar.gz") == "scan.tar.jpg"
    ensures RenameToJpg("notes") == "notes"
    ensures RenameToJpg("shot.") == "shot."
  {
    assert MatchesAt("cat.png", 3);
    assert MatchesAt("scan.tar.gz", 8);
    assert forall i: nat :: !MatchesAt("notes", i);
    assert forall i: nat :: !MatchesAt("shot.", i);
  }
}
