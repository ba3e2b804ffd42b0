/**
 * The help text of lib/optparse.js (lines 61-81): one line per descriptor,
 * the short form, the long form with its argument padded to a common width,
 * then the description; and the string repetition that builds the padding.
 */
module Help {
  import opened FlagSchema

  /** `n` copies of `s`; none when `n` is not positive. */
  function Repeat(s: string, n: int): (r: string)
    ensures |r| == if n > 0 then n * |s| else 0
    decreases n
  {
    if n <= 0 then "" else s + Repeat(s, n - 1)
  }

  /** Repeating one character gives a string of nothing but that character. */
  lemma {:induction false} RepeatChar(c: char, n: int)
    ensures forall k :: 0 <= k < |Repeat([c], n)| ==> Repeat([c], n)[k] == c
    decreases n
  {
    if n > 0 {
      RepeatChar(c, n - 1);
      assert Repeat([c], n) == [c] + Repeat([c], n - 1);
    }
  }

  /** Repetition counts add up. */
  lemma {:induction false} RepeatAdd(s: string, a: nat, b: nat)
    ensures Repeat(s, a + b) == Repeat(s, a) + Repeat(s, b)
    decreases a
  {
    if a > 0 {
      RepeatAdd(s, a - 1, b);
      assert Repeat(s, a + b) == s + Repeat(s, a - 1 + b);
    }
  }

  /** Repeating a doubled string is repeating the string twice as often. */
  lemma {:induction false} RepeatDoubled(s: string, m: nat)
    ensures Repeat(s + s, m) == Repeat(s, 2 * m)
    decreases m
  {
    if m > 0 {
      RepeatDoubled(s, m - 1);
      RepeatAdd(s, 2, 2 * (m - 1));
      assert Repeat(s, 2) == s + s by {
        assert Repeat(s, 1) == s + "";
      }
    }
  }

  /** One round of the doubling loop: the low bit of `m`, then the rest with `s` doubled. */
  lemma Halve(s: string, m: nat)
    ensures Repeat(s, m) == (if m % 2 == 1 then s else "") + Repeat(s + s, m / 2)
  {
    RepeatDoubled(s, m / 2);
    if m % 2 == 1 {
      RepeatAdd(s, 1, 2 * (m / 2));
      assert Repeat(s, 1) == s + "";
    }
  }

  /**
   * String repetition by doubling: while `n` is positive, append `str` when
   * its low bit is set, halve `n` and, unless it reached zero, double `str`.
   */
  method RepeatString(str: string, n: int) returns (r: string)
    ensures r == Repeat(str, n)
  {
    r := "";
    var s, m := str, n;
    while m > 0
      invariant r + Repeat(s, m) == Repeat(str, n)
      decreases m
    {
      Halve(s, m);
      if m % 2 == 1 {
        r := r + s;
      }
      m := m / 2;
      if m != 0 {
        s := s + s;
      } else {
        assert Repeat(s + s, m) == Repeat(s, m) == "";
      }
    }
  }

  /** The long column of a descriptor: its long form, then a space and its argument when it has one. */
  function LongColumn(d: Descriptor): (col: string)
    ensures |col| >= |d.long|
    ensures col[..|d.long|] == d.long
    ensures Truthy(d.arg) ==> col == d.long + " " + d.arg.s
    ensures !Truthy(d.arg) ==> col == d.long
  {
    d.long + (if Truthy(d.arg) then " " + d.arg.s else "")
  }

  /** The widest of the columns; 0 when there are none. */
  function Width(cols: seq<string>): (w: nat)
    ensures forall k :: 0 <= k < |cols| ==> |cols[k]| <= w
    ensures cols != [] ==> exists k :: 0 <= k < |cols| && |cols[k]| == w
    ensures cols == [] ==> w == 0
  {
    if cols == [] then 0
    else
      var w := Width(cols[1..]);
      if |cols[0]| >= w then |cols[0]| else w
  }

  /** `s` followed by `w` spaces, cut to `w` characters. */
  function PadTo(s: string, w: nat): (p: string)
    ensures |p| == w
    ensures |s| <= w ==> p[..|s|] == s && forall k :: |s| <= k < w ==> p[k] == ' '
  {
    RepeatChar(' ', w);
    Prefix(s + Repeat(" ", w), w)
  }

  /** The short column: the short form and a comma, or three spaces when there is none. */
  function ShortColumn(d: Descriptor): (c: string)
    ensures |c| >= 2
    ensures ShortFits(d) ==> |c| == 3
    ensures Truthy(d.short) ==> c[..|c| - 1] == d.short.s && c[|c| - 1] == ','
    ensures !Truthy(d.short) ==> c == "   "
  {
    if Truthy(d.short) then d.short.s + "," else "   "
  }

  /** A description as string concatenation renders it: a missing one reads `undefined`. */
  function DescText(f: Field): (t: string)
    ensures f.Text? ==> t == f.s
    ensures f.Missing? ==> t == "undefined"
  {
    match f
    case Missing => "undefined"
    case Text(s) => s
  }

  /** The long columns of the descriptors, in order. */
  function Columns(flags: seq<Descriptor>): (cols: seq<string>)
    ensures |cols| == |flags| && forall i :: 0 <= i < |flags| ==> cols[i] == LongColumn(flags[i])
  {
    seq(|flags|, i requires 0 <= i < |flags| => LongColumn(flags[i]))
  }

  /** The help line of one descriptor, its long column padded to `width`. */
  function Line(d: Descriptor, width: nat): (line: string)
    ensures |line| >= 2 && line[..2] == "  "
    ensures |line| > 2 + |ShortColumn(d)|
    ensures line[2..2 + |ShortColumn(d)|] == ShortColumn(d) && line[2 + |ShortColumn(d)|] == ' '
    ensures |line| >= 3 + |ShortColumn(d)| + width
    ensures line[3 + |ShortColumn(d)|..3 + |ShortColumn(d)| + width] == PadTo(LongColumn(d), width)
    ensures |LongColumn(d)| <= width ==> |line| == |ShortColumn(d)| + width + 5 + |DescText(d.desc)|
    ensures |line| >= |DescText(d.desc)| + 2 && line[|line| - |DescText(d.desc)|..] == DescText(d.desc)
    ensures line[|line| - |DescText(d.desc)| - 2..|line| - |DescText(d.desc)|] == "  "
  {
    "  " + ShortColumn(d) + " " + PadTo(LongColumn(d), width) + "  " + DescText(d.desc)
  }

  /** One line per descriptor, in order, all padded to the widest long column. */
  function Lines(flags: seq<Descriptor>): (lines: seq<string>)
    ensures |lines| == |flags|
    ensures forall i :: 0 <= i < |flags| ==> lines[i] == Line(flags[i], Width(Columns(flags)))
  {
    var width := Width(Columns(flags));
    seq(|flags|, i requires 0 <= i < |flags| => Line(flags[i], width))
  }

  /** The lines joined with `sep` between each two. */
  function Join(lines: seq<string>, sep: string): (r: string)
    ensures lines == [] ==> r == ""
    ensures lines != [] ==> lines[0] <= r
  {
    if lines == [] then "" else if |lines| == 1 then lines[0] else lines[0] + sep + Join(lines[1..], sep)
  }

  /** The help text: the lines joined with newlines. */
  function HelpText(flags: seq<Descriptor>): (r: string)
    ensures r == "" <==> flags == []
    ensures flags != [] ==> Line(flags[0], Width(Columns(flags))) <= r
  {
    Join(Lines(flags), "\n")
  }

  /** A short form that fills the short column exactly: absent or empty, or two characters. */
  predicate ShortFits(d: Descriptor)
  {
    !Truthy(d.short) || |d.short.s| == 2
  }

  /**
   * The layout of one line whose short form fills the short column: the long
   * column starts at column 6 and is padded with spaces to `width`, and the
   * description starts at `width + 8`.
   */
  lemma LineLayout(d: Descriptor, width: nat)
    requires ShortFits(d) && |LongColumn(d)| <= width
    ensures var line, col := Line(d, width), LongColumn(d);
      |line| == width + 8 + |DescText(d.desc)| &&
      line[..6] == "  " + ShortColumn(d) + " " &&
      line[6..6 + |col|] == col &&
      (forall k :: 6 + |col| <= k < 6 + width ==> line[k] == ' ') &&
      line[6 + width..width + 8] == "  " &&
      line[width + 8..] == DescText(d.desc)
  {
    var col := LongColumn(d);
    var head := "  " + ShortColumn(d) + " ";
    assert |head| == 6 by {
      if Truthy(d.short) {
        assert |d.short.s| == 2;
      }
    }
    var padded := PadTo(col, width);
    var line := head + padded + "  " + DescText(d.desc);
    assert line[6..6 + width] == padded;
    assert line[6..6 + |col|] == padded[..|col|];
    assert line[width + 8..] == DescText(d.desc);
  }

  /** When every short form fills the short column, all descriptions start at `width + 8`. */
  lemma LinesAligned(flags: seq<Descriptor>)
    requires forall d :: d in flags ==> ShortFits(d)
    ensures var width, lines := Width(Columns(flags)), Lines(flags);
      forall i :: 0 <= i < |flags| ==>
        |lines[i]| == width + 8 + |DescText(flags[i].desc)| &&
        lines[i][width + 8..] == DescText(flags[i].desc)
  {
    var width := Width(Columns(flags));
    forall i | 0 <= i < |flags|
      ensures Lines(flags)[i] == Line(flags[i], width)
      ensures |Line(flags[i], width)| == width + 8 + |DescText(flags[i].desc)|
      ensures Line(flags[i], width)[width + 8..] == DescText(flags[i].desc)
    {
      assert flags[i] in flags;
      assert Columns(flags)[i] == LongColumn(flags[i]);
      LineLayout(flags[i], width);
    }
  }

  /** Every short form a mapping with named entries normalises to fits the short column. */
  lemma NormalizedShortsFit(es: seq<Entry>)
    requires forall e :: e in es ==> e.name != "" || !e.abbr.Default?
    ensures forall d :: d in Normalized(Mapping(es)) ==> ShortFits(d)
  {
    var flags := Normalized(Mapping(es));
    forall d | d in flags
      ensures ShortFits(d)
    {
      var k :| 0 <= k < |flags| && flags[k] == d;
      assert es[k] in es;
    }
  }

  /** The lines up to the first newline of `s`, the rest after it, and so on. */
  function SplitLines(s: string): (lines: seq<string>)
    ensures lines != []
    decreases |s|
  {
    if '\n' !in s then [s]
    else
      var i := FirstNewline(s);
      [s[..i]] + SplitLines(s[i + 1..])
  }

  /** The position of the first newline in `s`. */
  function FirstNewline(s: string): (i: nat)
    requires '\n' in s
    ensures i < |s| && s[i] == '\n' && '\n' !in s[..i]
  {
    if s[0] == '\n' then 0
    else
      assert '\n' in s[1..] by { var j :| 0 <= j < |s| && s[j] == '\n'; assert s[1..][j - 1] == '\n'; }
      var j := FirstNewline(s[1..]);
      assert s[..j + 1] == [s[0]] + s[1..][..j];
      j + 1
  }

  /** Joining lines that hold no newline with newlines, then splitting at newlines, gives them back. */
  lemma {:induction false} SplitJoin(lines: seq<string>)
    requires lines != []
    requires forall l :: l in lines ==> '\n' !in l
    ensures SplitLines(Join(lines, "\n")) == lines
  {
    if |lines| > 1 {
      var first, rest := lines[0], Join(lines[1..], "\n");
      assert lines[0] in lines;
      var s := first + "\n" + rest;
      assert s[|first|] == '\n';
      assert FirstNewline(s) == |first| by {
        assert s[..|first|] == first;
      }
      assert s[..|first|] == first && s[|first| + 1..] == rest;
      assert forall l :: l in lines[1..] ==> l in lines;
      SplitJoin(lines[1..]);
    }
  }

  /** True iff no text of the field holds a newline. */
  predicate OneLine(f: Field)
  {
    f.Text? ==> '\n' !in f.s
  }

  /** True iff no field the help line shows (short, long, argument, description) holds a newline. */
  predicate ShowsOneLine(d: Descriptor)
  {
    OneLine(d.short) && '\n' !in d.long && OneLine(d.arg) && OneLine(d.desc)
  }

  /** The line of a descriptor whose fields hold no newline holds none either. */
  lemma LineHasNoNewline(d: Descriptor, width: nat)
    requires ShowsOneLine(d) && |LongColumn(d)| <= width
    ensures '\n' !in Line(d, width)
  {
    var col := LongColumn(d);
    assert '\n' !in col by {
      if Truthy(d.arg) {
        assert col == d.long + " " + d.arg.s;
      }
    }
    var padded := PadTo(col, width);
    assert '\n' !in padded by {
      forall k | 0 <= k < |padded|
        ensures padded[k] != '\n'
      {
        if k < |col| {
          assert padded[k] == padded[..|col|][k];
        }
      }
    }
    var sc, desc := ShortColumn(d), DescText(d.desc);
    assert '\n' !in sc;
    assert '\n' !in desc;
    assert Line(d, width) == "  " + sc + " " + padded + "  " + desc;
  }

  /**
   * When no short form, long form, argument or description holds a newline,
   * the help text splits back into exactly one line per descriptor.
   */
  lemma HelpHasOneLinePerFlag(flags: seq<Descriptor>)
    requires flags != []
    requires forall d :: d in flags ==> ShowsOneLine(d)
    ensures SplitLines(HelpText(flags)) == Lines(flags)
  {
    var lines, width := Lines(flags), Width(Columns(flags));
    forall l | l in lines
      ensures '\n' !in l
    {
      var i :| 0 <= i < |lines| && lines[i] == l;
      assert flags[i] in flags;
      assert Columns(flags)[i] == LongColumn(flags[i]);
      LineHasNoNewline(flags[i], width);
    }
    SplitJoin(lines);
  }
}
