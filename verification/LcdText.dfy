/**
 * Text layout of the LCD driver (pylcdsysinfo.py): truncation and alignment in a proportional font.
 */
module LcdText {
  datatype Alignment = NoAlignment | Centre | Left | Right

  /** Pixel widths of the characters from code 32 to 125. Padding relies on a space of 17 pixels and a brace of 1. */
  type Font = f: seq<nat> | |f| == 94 && f[0] == 17 && f[91] == 1 witness FontTable()

  function FontTable(): (f: seq<nat>)
    ensures |f| == 94 && f[0] == 17 && f[91] == 1
  {
    [17, 6, 8, 21, 14, 25, 21, 3, 8, 8, 15, 13, 5, 8, 6, 11] +
    [17, 17, 17, 17, 17, 17, 17, 17, 17, 17, 6, 6, 19, 16, 19, 12] +
    [26, 20, 16, 18, 19, 15, 13, 19, 17, 4, 7, 17, 14, 20, 17, 21] +
    [15, 21, 18, 16, 19, 17, 20, 28, 19, 19, 18, 7, 11, 7, 11, 2] +
    [8, 14, 15, 14, 15, 16, 11, 15, 14, 4, 7, 15, 4, 24, 14, 16] +
    [15, 15, 10, 13, 11, 14, 16, 22, 16, 16, 14, 1, 17, 2]
  }

  function CharWidth(font: Font, c: char): nat {
    var code := c as int;
    if 32 <= code <= 125 then font[code - 32] else 0
  }

  function Width(font: Font, s: string): int {
    if s == "" then 0 else Width(font, s[..|s| - 1]) + CharWidth(font, s[|s| - 1])
  }

  function Repeat(c: char, n: int): string {
    if n <= 0 then "" else Repeat(c, n - 1) + [c]
  }

  /** How much of a margin str.center puts on the left. */
  function LeftShare(margin: nat, width: nat): (left: nat)
    ensures left <= margin
  {
    margin / 2 + (if margin % 2 == 1 && width % 2 == 1 then 1 else 0)
  }

  /** Python's str.center. */
  function Center(s: string, width: int, fill: char): string {
    if width <= |s| then s
    else
      var left := LeftShare(width - |s|, width);
      Repeat(fill, left) + s + Repeat(fill, width - |s| - left)
  }

  predicate IsSpace(c: char) {
    c in {' ', '\t', '\n', '\r', 11 as char, 12 as char}
  }

  /** Python's str.strip. */
  function Strip(s: string): string
    decreases |s|
  {
    if s == "" then ""
    else if IsSpace(s[0]) then Strip(s[1..])
    else if IsSpace(s[|s| - 1]) then Strip(s[..|s| - 1])
    else s
  }

  function ReplaceSpaces(s: string): string {
    if s == "" then "" else (if s[0] == ' ' then "___" else [s[0]]) + ReplaceSpaces(s[1..])
  }

  /**
   * The text with so many spaces and braces around it, on the side that the alignment asks for. Both
   * centrings take the length of the text as it was before the first one.
   */
  function Pad(mm: string, alignment: Alignment, spaces: int, pixels: int): string {
    match alignment
    case Centre => Center(Center(mm, |mm| + spaces, ' '), |mm| + pixels, '{')
    case Left => mm + Repeat(' ', spaces) + Repeat('{', pixels)
    case Right => Repeat(' ', spaces) + Repeat('{', pixels) + mm
    case NoAlignment => mm
  }

  function AlignText(mm: string, alignment: Alignment, screenPx: int, stringLengthPx: int): string {
    Pad(mm, alignment, (screenPx - stringLengthPx) / 17, (screenPx - stringLengthPx) % 17)
  }

  /** k characters of mm are the longest prefix that fits. */
  ghost predicate LongestFit(font: Font, mm: string, px: int, k: nat) {
    k <= |mm| && Width(font, mm[..k]) <= px && forall j :: k < j <= |mm| ==> Width(font, mm[..j]) > px
  }

  /** The part of mm that fits. */
  function Kept(font: Font, mm: string, px: nat): (kept: string)
    ensures Width(font, kept) <= px
  {
    if Width(font, mm) <= px then mm else Kept(font, mm[..|mm| - 1], px)
  }

  /** It is the longest prefix that fits. */
  lemma {:induction false} KeptIsLongestFit(font: Font, mm: string, px: nat)
    ensures Kept(font, mm, px) <= mm && LongestFit(font, mm, px, |Kept(font, mm, px)|)
  {
    assert mm[..|mm|] == mm;
    if Width(font, mm) > px {
      var front := mm[..|mm| - 1];
      KeptIsLongestFit(font, front, px);
      assert forall j :: 0 <= j < |mm| ==> front[..j] == mm[..j];
    }
  }

  lemma FitIsKept(font: Font, mm: string, px: nat, k: nat)
    requires LongestFit(font, mm, px, k)
    ensures mm[..k] == Kept(font, mm, px)
  {
    KeptIsLongestFit(font, mm, px);
    var kept := Kept(font, mm, px);
    assert kept == mm[..|kept|];
  }

  /** What a gap of so many pixels is left short by. */
  function Missing(alignment: Alignment, gap: nat): (short: nat)
    ensures short <= gap
  {
    match alignment
    case Centre => Min(gap / 17, gap % 17)
    case NoAlignment => gap
    case _ => 0
  }

  /** What a text of the given width takes up of px pixels once it is aligned. */
  function Taken(px: int, width: int, alignment: Alignment): (w: int)
    requires width <= px
    ensures w <= px
  {
    px - Missing(alignment, px - width)
  }

  /** The pixels that a field has, and those that its converted text takes up. */
  function FieldPx(fieldSize: int): int {
    40 * fieldSize - 1
  }

  /** The part of the text that a field shows. */
  function Shown(font: Font, text: string, fieldSize: int): (kept: string)
    requires fieldSize >= 1
    ensures Width(font, kept) <= FieldPx(fieldSize)
  {
    Kept(font, ReplaceSpaces(Strip(text)), FieldPx(fieldSize))
  }

  function FieldWidth(font: Font, text: string, fieldSize: int, alignment: Alignment): (w: int)
    requires fieldSize >= 1
    ensures w <= 40 * fieldSize - 1
  {
    Taken(FieldPx(fieldSize), Width(font, Shown(font, text, fieldSize)), alignment)
  }

  /** The loop that finds the longest prefix within the width, and its own width. */
  method Truncate(font: Font, mm: string, screenPx: int) returns (k: nat, stringLengthPx: int)
    ensures k <= |mm| && stringLengthPx == Width(font, mm[..k])
    ensures screenPx >= 0 ==> LongestFit(font, mm, screenPx, k)
  {
    stringLengthPx := 0;
    k := 0;
    while k < |mm|
      invariant 0 <= k <= |mm| && stringLengthPx == Width(font, mm[..k])
      invariant screenPx >= 0 ==> stringLengthPx <= screenPx
    {
      var charLengthPx := CharWidth(font, mm[k]);
      assert mm[..k + 1][..k] == mm[..k];
      if stringLengthPx + charLengthPx > screenPx {
        WidthGrows(font, mm, k + 1);
        break;
      }
      stringLengthPx := stringLengthPx + charLengthPx;
      k := k + 1;
    }
  }

  /** Pad, truncate and align the text. */
  method TextConversion(font: Font, text: string, fieldSize: int, alignment: Alignment) returns (r: string)
    ensures fieldSize >= 1 ==> r == Converted(font, text, fieldSize, alignment)
    ensures fieldSize >= 1 ==> Width(font, r) == FieldWidth(font, text, fieldSize, alignment)
  {
    var screenPx := 40 * fieldSize - 1;
    var mm := ReplaceSpaces(Strip(text));
    var k, stringLengthPx := Truncate(font, mm, screenPx);
    r := AlignText(mm[..k], alignment, screenPx, stringLengthPx);
    if fieldSize >= 1 {
      FitIsKept(font, mm, screenPx, k);
      assert mm[..k] == Shown(font, text, fieldSize);
      ConvertedWidth(font, text, fieldSize, alignment);
    }
  }

  /** What fits, aligned. */
  function Converted(font: Font, text: string, fieldSize: int, alignment: Alignment): string
    requires fieldSize >= 1
  {
    AlignText(Shown(font, text, fieldSize), alignment, FieldPx(fieldSize), Width(font, Shown(font, text, fieldSize)))
  }

  lemma ConvertedWidth(font: Font, text: string, fieldSize: int, alignment: Alignment)
    requires fieldSize >= 1
    ensures Width(font, Converted(font, text, fieldSize, alignment)) == FieldWidth(font, text, fieldSize, alignment)
  {
    var (kept, px) := (Shown(font, text, fieldSize), FieldPx(fieldSize));
    AlignedWidth(font, kept, alignment, px);
    assert Converted(font, text, fieldSize, alignment) == AlignText(kept, alignment, px, Width(font, kept));
  }

  // ---------- Widths ----------

  lemma {:induction false} WidthOfConcat(font: Font, a: string, b: string)
    ensures Width(font, a + b) == Width(font, a) + Width(font, b)
    decreases |b|
  {
    if b == "" {
      assert a + b == a;
    } else {
      assert (a + b)[..|a + b| - 1] == a + b[..|b| - 1];
      WidthOfConcat(font, a, b[..|b| - 1]);
    }
  }

  // The two characters used for padding.
  lemma PaddingWidths(font: Font)
    ensures CharWidth(font, ' ') == 17 && CharWidth(font, '{') == 1
  {
  }

  lemma {:induction false} WidthOfRepeat(font: Font, c: char, n: nat, w: nat)
    requires CharWidth(font, c) == w
    ensures Width(font, Repeat(c, n)) == n * w
    decreases n
  {
    if n > 0 {
      WidthOfRepeat(font, c, n - 1, w);
      var r := Repeat(c, n);
      assert r[..|r| - 1] == Repeat(c, n - 1) && r[|r| - 1] == c;
      assert (n - 1) * w + w == n * w;
    }
  }

  lemma {:induction false} WidthGrows(font: Font, s: string, k: nat)
    requires k <= |s|
    ensures forall j :: k <= j <= |s| ==> Width(font, s[..j]) >= Width(font, s[..k])
    decreases |s| - k
  {
    if k < |s| {
      WidthGrows(font, s, k + 1);
      assert s[..k + 1][..k] == s[..k];
    }
  }

  lemma {:induction false} RepeatJoins(c: char, l: nat, r: nat)
    ensures Repeat(c, l) + Repeat(c, r) == Repeat(c, l + r)
    decreases r
  {
    if r > 0 {
      RepeatJoins(c, l, r - 1);
      assert Repeat(c, l) + Repeat(c, r) == Repeat(c, l) + Repeat(c, r - 1) + [c];
    } else {
      assert Repeat(c, l) + "" == Repeat(c, l);
    }
  }

  /** Text between two margins that make up one. */
  lemma BothSides(font: Font, before: string, s: string, after: string, margin: string)
    requires before + after == margin
    ensures Width(font, before + s + after) == Width(font, s) + Width(font, margin)
  {
    WidthOfConcat(font, before, s);
    WidthOfConcat(font, before + s, after);
    WidthOfConcat(font, before, after);
  }

  lemma CenterIs(s: string, n: nat, fill: char)
    ensures var left := LeftShare(n, |s| + n);
            Center(s, |s| + n, fill) == Repeat(fill, left) + s + Repeat(fill, n - left)
  {
    if n == 0 {
      assert Repeat(fill, 0) + s + Repeat(fill, 0) == s;
    }
  }

  lemma CenterSplits(s: string, n: nat, fill: char) returns (l: nat)
    ensures l <= n && Center(s, |s| + n, fill) == Repeat(fill, l) + s + Repeat(fill, n - l)
  {
    l := LeftShare(n, |s| + n);
    CenterIs(s, n, fill);
  }

  lemma CenterLength(s: string, n: nat, fill: char)
    ensures |Center(s, |s| + n, fill)| == |s| + n
  {
    var l := CenterSplits(s, n, fill);
    RepeatLength(fill, l);
    RepeatLength(fill, n - l);
  }

  lemma CenterAdds(font: Font, s: string, n: nat, fill: char)
    ensures Width(font, Center(s, |s| + n, fill)) == Width(font, s) + Width(font, Repeat(fill, n))
  {
    var l := CenterSplits(s, n, fill);
    RepeatJoins(fill, l, n - l);
    BothSides(font, Repeat(fill, l), s, Repeat(fill, n - l), Repeat(fill, n));
  }

  lemma {:induction false} RepeatLength(c: char, n: nat)
    ensures |Repeat(c, n)| == n
  {
    if n > 0 {
      RepeatLength(c, n - 1);
    }
  }

  lemma PaddingWidth(font: Font, spaces: nat, pixels: nat)
    ensures Width(font, Repeat(' ', spaces)) == 17 * spaces && Width(font, Repeat('{', pixels)) == pixels
  {
    PaddingWidths(font);
    WidthOfRepeat(font, ' ', spaces, 17);
    WidthOfRepeat(font, '{', pixels, 1);
  }

  /** The second centring, of a text that the first one has made longer. */
  lemma SecondCentring(font: Font, c: string, length: nat, pixels: nat)
    requires length <= |c|
    ensures Width(font, Center(c, length + pixels, '{'))
            == Width(font, c) + if length + pixels > |c| then length + pixels - |c| else 0
  {
    if length + pixels > |c| {
      var n := length + pixels - |c|;
      CenterAdds(font, c, n, '{');
      PaddingWidth(font, 0, n);
    }
  }

  lemma CentreAdds(font: Font, mm: string, spaces: nat, pixels: nat)
    ensures Width(font, Pad(mm, Centre, spaces, pixels)) == Width(font, mm) + 17 * spaces + pixels - Min(spaces, pixels)
  {
    var c := Center(mm, |mm| + spaces, ' ');
    CenterAdds(font, mm, spaces, ' ');
    CenterLength(mm, spaces, ' ');
    PaddingWidth(font, spaces, 0);
    SecondCentring(font, c, |mm|, pixels);
  }

  /**
   * Each space adds 17 pixels and each brace one; but when the text is centred only the braces beyond the
   * number of spaces are added.
   */
  lemma PadAdds(font: Font, mm: string, alignment: Alignment, spaces: nat, pixels: nat)
    requires alignment != NoAlignment
    ensures Width(font, Pad(mm, alignment, spaces, pixels))
            == Width(font, mm) + 17 * spaces + pixels - if alignment == Centre then Min(spaces, pixels) else 0
  {
    PaddingWidth(font, spaces, pixels);
    match alignment
    case Centre => CentreAdds(font, mm, spaces, pixels);
    case Left =>
      WidthOfConcat(font, mm, Repeat(' ', spaces));
      WidthOfConcat(font, mm + Repeat(' ', spaces), Repeat('{', pixels));
    case Right =>
      WidthOfConcat(font, Repeat(' ', spaces), Repeat('{', pixels));
      WidthOfConcat(font, Repeat(' ', spaces) + Repeat('{', pixels), mm);
  }

  lemma GapSplits(gap: nat)
    ensures 17 * (gap / 17) + gap % 17 == gap
  {
  }

  lemma PadFills(font: Font, mm: string, alignment: Alignment, gap: nat)
    ensures Width(font, Pad(mm, alignment, gap / 17, gap % 17)) == Width(font, mm) + gap - Missing(alignment, gap)
  {
    GapSplits(gap);
    if alignment != NoAlignment {
      PadAdds(font, mm, alignment, gap / 17, gap % 17);
    }
  }

  /** A text that fits takes up its field but for what is missing. */
  lemma AlignedWidth(font: Font, mm: string, alignment: Alignment, px: int)
    requires Width(font, mm) <= px
    ensures Width(font, AlignText(mm, alignment, px, Width(font, mm))) == Taken(px, Width(font, mm), alignment)
  {
    var gap: nat := px - Width(font, mm);
    PadFills(font, mm, alignment, gap);
    assert AlignText(mm, alignment, px, Width(font, mm)) == Pad(mm, alignment, gap / 17, gap % 17);
  }

  /**
   * A text that fits fills its field when it is aligned to a side, and a centred one exactly when the gap
   * is under one space or a whole number of them. It is never more than 16 pixels short.
   */
  lemma FillsExactlyWhen(font: Font, mm: string, alignment: Alignment, px: int, width: int)
    requires Width(font, mm) <= px && alignment != NoAlignment
    requires width == Width(font, AlignText(mm, alignment, px, Width(font, mm)))
    ensures var gap := px - Width(font, mm);
            && (width == px <==> alignment != Centre || gap < 17 || gap % 17 == 0)
            && px - 16 <= width <= px
  {
    AlignedWidth(font, mm, alignment, px);
    MissingIs(alignment, px - Width(font, mm));
  }

  /** Aligned to a side, whatever the text, it takes all the pixels of its field but the last. */
  lemma SideFills(font: Font, text: string, fieldSize: int, alignment: Alignment)
    requires fieldSize >= 1 && (alignment == Left || alignment == Right)
    ensures FieldWidth(font, text, fieldSize, alignment) == 40 * fieldSize - 1
  {
  }

  lemma MissingIs(alignment: Alignment, gap: nat)
    requires alignment != NoAlignment
    ensures Missing(alignment, gap) == 0 <==> alignment != Centre || gap < 17 || gap % 17 == 0
    ensures Missing(alignment, gap) <= 16
  {
  }

  /** An empty text centred in one field comes out two pixels short, in every font. */
  lemma EmptyFallsShort(font: Font, px: int)
    requires px == FieldPx(1)
    ensures px == 39 && Width(font, AlignText("", Centre, px, 0)) == 37
  {
    assert Width(font, "") == 0;
    AlignedWidth(font, "", Centre, px);
  }

  // ---------- What is kept, and where ----------

  lemma CharWidths(font: Font)
    ensures forall c: char :: c < ' ' || c > '}' ==> CharWidth(font, c) == 0
    ensures forall c: char :: CharWidth(font, c) == Width(font, [c])
    ensures CharWidth(FontTable(), 'i') == 4 && CharWidth(FontTable(), 'A') == 20 && CharWidth(FontTable(), 'W') == 28
            && CharWidth(FontTable(), '_') == 2 && CharWidth(FontTable(), '|') == 17
  {
    forall c: char ensures CharWidth(font, c) == Width(font, [c]) {
      assert Width(font, [c]) == Width(font, [c][..0]) + CharWidth(font, [c][0]);
    }
  }

  predicate Blank(c: char) {
    c == ' ' || c as int in [9, 10, 11, 12, 13]
  }

  /** s[i..j] is what is left without the blanks at both ends. */
  ghost predicate Inner(s: string, i: nat, j: nat) {
    && i <= j <= |s|
    && (forall k :: 0 <= k < i || j <= k < |s| ==> Blank(s[k]))
    && (i < j ==> !Blank(s[i]) && !Blank(s[j - 1]))
  }

  lemma InnerOfTail(s: string, i: nat, j: nat)
    requires s != "" && Blank(s[0]) && Inner(s[1..], i, j)
    ensures Inner(s, i + 1, j + 1)
  {
    assert forall k :: 1 <= k < |s| ==> s[k] == s[1..][k - 1];
  }

  lemma InnerOfFront(s: string, i: nat, j: nat)
    requires s != "" && Blank(s[|s| - 1]) && Inner(s[..|s| - 1], i, j)
    ensures Inner(s, i, j)
  {
    assert forall k :: 0 <= k < |s| - 1 ==> s[k] == s[..|s| - 1][k];
  }

  /** Stripping leaves what lies between the first and the last character that is not blank. */
  lemma {:induction false} StripIs(s: string) returns (i: nat, j: nat)
    ensures Inner(s, i, j) && Strip(s) == s[i..j]
    decreases |s|
  {
    if s == "" {
      i, j := 0, 0;
    } else if IsSpace(s[0]) {
      i, j := StripIs(s[1..]);
      InnerOfTail(s, i, j);
      i, j := i + 1, j + 1;
    } else if IsSpace(s[|s| - 1]) {
      i, j := StripIs(s[..|s| - 1]);
      InnerOfFront(s, i, j);
    } else {
      i, j := 0, |s|;
    }
  }

  /** Each blank becomes three underscores, wherever it stands, and nothing else changes. */
  lemma {:induction false} SpacesAreReplaced(s: string, a: string, c: char, b: string)
    requires s == a + [c] + b
    ensures ReplaceSpaces(s) == ReplaceSpaces(a) + (if c == ' ' then ['_', '_', '_'] else [c]) + ReplaceSpaces(b)
  {
    if a == "" {
      assert s[0] == c && s[1..] == b;
    } else {
      assert s[0] == a[0] && s[1..] == a[1..] + [c] + b;
      SpacesAreReplaced(s[1..], a[1..], c, b);
    }
  }

  lemma {:induction false} RepeatIs(c: char, n: nat)
    ensures |Repeat(c, n)| == n && forall i :: 0 <= i < n ==> Repeat(c, n)[i] == c
  {
    if n > 0 {
      RepeatIs(c, n - 1);
    }
  }

  /** Text on the left comes first, then the spaces, then the braces. */
  lemma LeftIs(mm: string, spaces: nat, pixels: nat)
    ensures var r := Pad(mm, Left, spaces, pixels);
            && |r| == |mm| + spaces + pixels && r[..|mm|] == mm
            && (forall i :: |mm| <= i < |mm| + spaces ==> r[i] == ' ')
            && (forall i :: |mm| + spaces <= i < |r| ==> r[i] == '{')
  {
    RepeatIs(' ', spaces);
    RepeatIs('{', pixels);
  }

  /** Text on the right comes last. */
  lemma RightIs(mm: string, spaces: nat, pixels: nat)
    ensures var r := Pad(mm, Right, spaces, pixels);
            && |r| == spaces + pixels + |mm| && r[spaces + pixels..] == mm
            && (forall i :: 0 <= i < spaces ==> r[i] == ' ')
            && (forall i :: spaces <= i < spaces + pixels ==> r[i] == '{')
  {
    RepeatIs(' ', spaces);
    RepeatIs('{', pixels);
  }

  /** The left part of a margin when text of so many characters is centred: half of it, rounded up if the whole width is odd. */
  lemma LeftShareIs(margin: nat, length: nat)
    ensures 2 * LeftShare(margin, length + margin) == margin + if margin % 2 == 0 then 0 else if length % 2 == 0 then 1 else -1
  {
  }

  /** Centred text stands between the spaces, and these between the braces that go beyond their number. */
  lemma CentreIs(mm: string, spaces: nat, pixels: nat)
    ensures var braces := if pixels > spaces then pixels - spaces else 0;
            var (l, k) := (LeftShare(spaces, |mm| + spaces), LeftShare(braces, |mm| + spaces + braces));
            Pad(mm, Centre, spaces, pixels) ==
            Repeat('{', k) + (Repeat(' ', l) + mm + Repeat(' ', spaces - l)) + Repeat('{', braces - k)
  {
    var c := Center(mm, |mm| + spaces, ' ');
    CenterIs(mm, spaces, ' ');
    CenterLength(mm, spaces, ' ');
    if pixels > spaces {
      CenterIs(c, pixels - spaces, '{');
    } else {
      assert Repeat('{', 0) + c + Repeat('{', 0) == c;
    }
  }

  // ---------- A line of the display ----------

  function FirstTab(s: string): (i: nat)
    ensures i <= |s| && (i < |s| ==> s[i] == '\t')
  {
    if s == "" || s[0] == '\t' then 0 else 1 + FirstTab(s[1..])
  }

  function DropTabs(s: string): string {
    if s == "" then "" else (if s[0] == '\t' then "" else [s[0]]) + DropTabs(s[1..])
  }

  function Min(a: int, b: int): int {
    if a < b then a else b
  }

  /** The two columns of a text with a tab. */
  function Columns(text: string): (string, string)
    requires '\t' in text
  {
    TabIsFound(text);
    (DropTabs(text[..FirstTab(text)]), DropTabs(text[FirstTab(text) + 1..]))
  }

  /** The columns are what comes before the first tab and, less any further tabs, what comes after it. */
  lemma ColumnsAre(text: string, first: string, rest: string)
    requires text == first + ['\t'] + rest && '\t' !in first
    ensures Columns(text) == (first, DropTabs(rest))
  {
    TabIsFound(text);
    FirstTabIs(text, first, rest);
    NoTabToDrop(first);
    assert text[..|first|] == first && text[|first| + 1..] == rest;
  }

  lemma {:induction false} FirstTabIs(text: string, first: string, rest: string)
    requires text == first + ['\t'] + rest && '\t' !in first
    ensures FirstTab(text) == |first|
    decreases |first|
  {
    if first != "" {
      assert text[0] == first[0] && text[1..] == first[1..] + ['\t'] + rest;
      FirstTabIs(text[1..], first[1..], rest);
    }
  }

  lemma {:induction false} NoTabToDrop(s: string)
    requires '\t' !in s
    ensures DropTabs(s) == s
  {
    if s != "" {
      NoTabToDrop(s[1..]);
    }
  }

  lemma {:induction false} TabsAreDropped(s: string, a: string, c: char, b: string)
    requires s == a + [c] + b
    ensures DropTabs(s) == DropTabs(a) + (if c == '\t' then [] else [c]) + DropTabs(b)
  {
    if a == "" {
      assert s[0] == c && s[1..] == b;
    } else {
      assert s[0] == a[0] && s[1..] == a[1..] + [c] + b;
      TabsAreDropped(s[1..], a[1..], c, b);
    }
  }

  datatype Field = Field(text: string, size: int, alignment: Alignment)

  /** The fields of a line: one, or two columns around an optional icon. */
  function Fields(text: string, padForIcon: bool, alignLeft: Alignment, alignRight: Alignment, fieldLength: int): seq<Field> {
    if '\t' in text then
      var (first, second) := Columns(text);
      if padForIcon then [Field(first, 3, alignLeft), Field("", 1, Left), Field(second, 3, alignRight)]
      else [Field(first, 4, alignLeft), Field(second, 4, alignRight)]
    else [Field(text, Min(fieldLength, if padForIcon then 7 else 8), alignLeft)]
  }

  /** A text with a tab makes two fields in its own order, each with its alignment, and an empty one between them for the icon. */
  lemma ColumnFields(text: string, first: string, rest: string, padForIcon: bool, alignLeft: Alignment, alignRight: Alignment, fieldLength: int)
    requires text == first + ['\t'] + rest && '\t' !in first
    ensures Fields(text, padForIcon, alignLeft, alignRight, fieldLength)
            == if padForIcon then [Field(first, 3, alignLeft), Field("", 1, Left), Field(DropTabs(rest), 3, alignRight)]
               else [Field(first, 4, alignLeft), Field(DropTabs(rest), 4, alignRight)]
  {
    ColumnsAre(text, first, rest);
  }

  /** Any other makes one field, as long as asked for but at most the line less the icon. */
  lemma SingleField(text: string, padForIcon: bool, alignLeft: Alignment, alignRight: Alignment, fieldLength: int)
    requires '\t' !in text
    ensures var fields := Fields(text, padForIcon, alignLeft, alignRight, fieldLength);
            var most := if padForIcon then 7 else 8;
            && |fields| == 1 && fields[0].text == text && fields[0].alignment == alignLeft
            && (fieldLength <= most ==> fields[0].size == fieldLength) && (fieldLength >= most ==> fields[0].size == most)
  {
  }

  predicate Sized(fields: seq<Field>) {
    forall i :: 0 <= i < |fields| ==> fields[i].size >= 1
  }

  /** What a line with a tab, or one with room, always is. */
  lemma FieldsAreSized(text: string, padForIcon: bool, alignLeft: Alignment, alignRight: Alignment, fieldLength: int)
    ensures Sized(Fields(text, padForIcon, alignLeft, alignRight, fieldLength)) <==> '\t' in text || fieldLength >= 1
  {
    var fields := Fields(text, padForIcon, alignLeft, alignRight, fieldLength);
    assert '\t' !in text ==> fields[0].size == Min(fieldLength, if padForIcon then 7 else 8);
  }

  /** The converted fields one after another, the pixels that they take up, and those that they have. */
  function Joined(font: Font, fields: seq<Field>): string
    requires Sized(fields)
  {
    if fields == [] then ""
    else
      var f := fields[|fields| - 1];
      Joined(font, fields[..|fields| - 1]) + Converted(font, f.text, f.size, f.alignment)
  }

  function TotalWidth(font: Font, fields: seq<Field>): int
    requires Sized(fields)
  {
    if fields == [] then 0
    else
      var f := fields[|fields| - 1];
      TotalWidth(font, fields[..|fields| - 1]) + FieldWidth(font, f.text, f.size, f.alignment)
  }

  function TotalPx(fields: seq<Field>): int {
    if fields == [] then 0 else TotalPx(fields[..|fields| - 1]) + FieldPx(fields[|fields| - 1].size)
  }

  /** The text that display_text_on_line sends: the converted fields and a zero. */
  method LineText(font: Font, text: string, padForIcon: bool, alignLeft: Alignment, alignRight: Alignment, fieldLength: int) returns (r: string)
    ensures '\t' in text || fieldLength >= 1 ==>
              var fields := Fields(text, padForIcon, alignLeft, alignRight, fieldLength);
              Sized(fields) && r == Joined(font, fields) + [0 as char] && Width(font, r) == TotalWidth(font, fields)
    ensures |r| > 0 && r[|r| - 1] == 0 as char
  {
    var fields := Fields(text, padForIcon, alignLeft, alignRight, fieldLength);
    FieldsAreSized(text, padForIcon, alignLeft, alignRight, fieldLength);
    r := "";
    for i := 0 to |fields|
      invariant Sized(fields) ==> r == Joined(font, fields[..i])
    {
      assert fields[..i + 1][..i] == fields[..i];
      var part := TextConversion(font, fields[i].text, fields[i].size, fields[i].alignment);
      r := r + part;
    }
    assert fields[..|fields|] == fields;
    if Sized(fields) {
      JoinedWidth(font, fields);
    }
    EndAddsNothing(font, r);
    r := r + [0 as char];
  }

  lemma {:induction false} JoinedWidth(font: Font, fields: seq<Field>)
    requires Sized(fields)
    ensures Width(font, Joined(font, fields)) == TotalWidth(font, fields)
  {
    if fields != [] {
      var front, f := fields[..|fields| - 1], fields[|fields| - 1];
      JoinedWidth(font, front);
      ConvertedWidth(font, f.text, f.size, f.alignment);
      WidthOfConcat(font, Joined(font, front), Converted(font, f.text, f.size, f.alignment));
    }
  }

  lemma EndAddsNothing(font: Font, s: string)
    ensures Width(font, s + [0 as char]) == Width(font, s)
  {
    assert (s + [0 as char])[..|s|] == s;
  }

  /** A field is full when it is aligned to a side, or centred with a gap of under one space or of whole spaces. */
  predicate Full(font: Font, f: Field)
    requires f.size >= 1
  {
    var gap := FieldPx(f.size) - Width(font, Shown(font, f.text, f.size));
    match f.alignment
    case Centre => gap < 17 || gap % 17 == 0
    case NoAlignment => gap == 0
    case _ => true
  }

  lemma FullExactlyWhen(font: Font, f: Field)
    requires f.size >= 1
    ensures FieldWidth(font, f.text, f.size, f.alignment) == FieldPx(f.size) <==> Full(font, f)
  {
  }

  /** A line has the width of its fields together exactly when each of them is full; else it is short. */
  lemma {:induction false} LineIsFullExactlyWhen(font: Font, fields: seq<Field>)
    requires Sized(fields)
    ensures TotalWidth(font, fields) <= TotalPx(fields)
    ensures TotalWidth(font, fields) == TotalPx(fields) <==> forall i :: 0 <= i < |fields| ==> Full(font, fields[i])
  {
    if fields != [] {
      var front, f := fields[..|fields| - 1], fields[|fields| - 1];
      LineIsFullExactlyWhen(font, front);
      FullExactlyWhen(font, f);
      assert forall i :: 0 <= i < |front| ==> front[i] == fields[i];
    }
  }

  lemma {:induction false} TabIsFound(s: string)
    requires '\t' in s
    ensures FirstTab(s) < |s|
  {
    if s[0] != '\t' {
      TabIsFound(s[1..]);
    }
  }
}
