/**
 * `CommitDate` (src/main.rs): the commit date `rustc -vV` reports, its
 * parser, its `YYYY-MM-DD` rendering and its derived ordering.
 */
module CommitDates {
  import opened Wrappers
  import opened Decimal
  import opened Splitting

  /** The three fields are Rust `i32`s. */
  datatype CommitDate = CommitDate(year: Int32, month: Int32, day: Int32)

  /** The oldest nightly the driver accepts. */
  const MinimumCommitDate: CommitDate := CommitDate(2021, 10, 1)

  /** The derived `Ord`: lexicographic on (year, month, day), in field order. */
  predicate Less(a: CommitDate, b: CommitDate) {
    || a.year < b.year
    || (a.year == b.year && a.month < b.month)
    || (a.year == b.year && a.month == b.month && a.day < b.day)
  }

  predicate NonNegative(d: CommitDate) {
    d.year >= 0 && d.month >= 0 && d.day >= 0
  }

  /**
   * What `CommitDate::parse` returns: the first three `-`-separated pieces,
   * each read as an `i32`; `None` when a piece is missing or does not read.
   */
  function ParseDate(date: string): Option<CommitDate> {
    var pieces := Split(date);
    if |pieces| < 3 then None
    else
      match (ParseI32(pieces[0]), ParseI32(pieces[1]), ParseI32(pieces[2]))
      case (Some(y), Some(m), Some(d)) => Some(CommitDate(y, m, d))
      case _ => None
  }

  /** `CommitDate::parse`, pulling pieces from the `split` iterator one by one. */
  method Parse(date: string) returns (r: Option<CommitDate>)
    ensures r == ParseDate(date)
  {
    var iter := new SplitIter(date);
    var piece := iter.Next();
    if piece.None? {
      return None;
    }
    var year := ParseI32(piece.value);
    if year.None? {
      return None;
    }
    piece := iter.Next();
    if piece.None? {
      return None;
    }
    var month := ParseI32(piece.value);
    if month.None? {
      return None;
    }
    piece := iter.Next();
    if piece.None? {
      return None;
    }
    var day := ParseI32(piece.value);
    if day.None? {
      return None;
    }
    r := Some(CommitDate(year.value, month.value, day.value));
  }

  /** `Display`: `{:04}-{:02}-{:02}`. */
  function Render(d: CommitDate): (s: string)
    ensures |s| >= 10
  {
    ZeroPad(d.year, 4) + "-" + (ZeroPad(d.month, 2) + "-" + ZeroPad(d.day, 2))
  }

  /** The rendering of a date with non-negative fields splits back into its three padded fields. */
  lemma RenderPieces(d: CommitDate)
    requires NonNegative(d)
    ensures Split(Render(d)) == [ZeroPad(d.year, 4), ZeroPad(d.month, 2), ZeroPad(d.day, 2)]
  {
    var y, m, dd := ZeroPad(d.year, 4), ZeroPad(d.month, 2), ZeroPad(d.day, 2);
    ZeroPadNonNegative(d.year, 4);
    ZeroPadNonNegative(d.month, 2);
    ZeroPadNonNegative(d.day, 2);
    DigitsNoDash(y);
    DigitsNoDash(m);
    DigitsNoDash(dd);
    SplitWhole(dd);
    SplitFirstPiece(m, dd);
    SplitFirstPiece(y, m + "-" + dd);
  }

  /** Rendering then parsing gives the date back exactly when no field is negative. */
  lemma RoundTrip(d: CommitDate)
    ensures NonNegative(d) ==> ParseDate(Render(d)) == Some(d)
    ensures !NonNegative(d) ==> ParseDate(Render(d)) == None
  {
    var pieces := Split(Render(d));
    if NonNegative(d) {
      RenderPieces(d);
      ParsePadded(d.year, 4);
      ParsePadded(d.month, 2);
      ParsePadded(d.day, 2);
      assert ParseI32(pieces[0]) == Some(d.year);
      assert ParseI32(pieces[1]) == Some(d.month);
      assert ParseI32(pieces[2]) == Some(d.day);
    } else {
      NegativeFieldEmptyPiece(d);
      assert ParseI32([]) == None;
      assert ParseI32(pieces[0]) == None || ParseI32(pieces[1]) == None || ParseI32(pieces[2]) == None;
    }
  }

  /**
   * Three parts glued with separators, where one part is itself led by a
   * separator: one of the first three pieces is empty.
   */
  lemma EmptyPieceAmongThree(a: string, b: string, c: string)
    requires
      || (a != [] && a[0] == Separator && Separator !in a[1..])
      || (Separator !in a && b != [] && b[0] == Separator && Separator !in b[1..])
      || (Separator !in a && Separator !in b && c != [] && c[0] == Separator)
    ensures |Split(a + "-" + (b + "-" + c))| >= 3
    ensures var p := Split(a + "-" + (b + "-" + c)); p[0] == [] || p[1] == [] || p[2] == []
  {
    if a != [] && a[0] == Separator && Separator !in a[1..] {
      var after := a[1..] + "-" + (b + "-" + c);
      assert a + "-" + (b + "-" + c) == [] + "-" + after;
      SplitFirstPiece([], after);
      SplitFirstPiece(a[1..], b + "-" + c);
    } else if Separator !in a && b != [] && b[0] == Separator && Separator !in b[1..] {
      var after := b[1..] + "-" + c;
      assert b + "-" + c == [] + "-" + after;
      SplitFirstPiece([], after);
      SplitFirstPiece(a, b + "-" + c);
    } else {
      var after := c[1..];
      assert c == [] + "-" + after;
      SplitFirstPiece([], after);
      SplitFirstPiece(b, c);
      SplitFirstPiece(a, b + "-" + c);
    }
  }

  /** A negative field puts a second separator next to one: one of the first three pieces is empty. */
  lemma NegativeFieldEmptyPiece(d: CommitDate)
    requires !NonNegative(d)
    ensures |Split(Render(d))| >= 3
    ensures Split(Render(d))[0] == [] || Split(Render(d))[1] == [] || Split(Render(d))[2] == []
  {
    var y, m, dd := ZeroPad(d.year, 4), ZeroPad(d.month, 2), ZeroPad(d.day, 2);
    if d.year < 0 {
      ZeroPadNegative(d.year, 4);
      DigitsNoDash(y[1..]);
    } else {
      ZeroPadNonNegative(d.year, 4);
      DigitsNoDash(y);
      if d.month < 0 {
        ZeroPadNegative(d.month, 2);
        DigitsNoDash(m[1..]);
      } else {
        ZeroPadNonNegative(d.month, 2);
        DigitsNoDash(m);
        ZeroPadNegative(d.day, 2);
      }
    }
    EmptyPieceAmongThree(y, m, dd);
  }

  /** Text with fewer than three pieces never parses. */
  lemma TooFewPieces(date: string)
    requires Count(date) < 2
    ensures ParseDate(date) == None
  {
    SplitJoin(date);
  }

  /** Three separator-free parts parse exactly when each reads as an `i32`. */
  lemma ParseThreeParts(x: string, y: string, z: string)
    requires Separator !in x && Separator !in y && Separator !in z
    ensures ParseDate(x + "-" + (y + "-" + z)) ==
      if ParseI32(x).Some? && ParseI32(y).Some? && ParseI32(z).Some? then
        Some(CommitDate(ParseI32(x).value, ParseI32(y).value, ParseI32(z).value))
      else None
  {
    SplitWhole(z);
    SplitFirstPiece(y, z);
    SplitFirstPiece(x, y + "-" + z);
    assert Split(x + "-" + (y + "-" + z)) == [x, y, z];
  }

  /** Whatever follows the third separator is never looked at. */
  lemma ParseIgnoresTail(x: string, y: string, z: string, tail: string)
    requires Separator !in x && Separator !in y && Separator !in z
    ensures ParseDate(x + "-" + (y + "-" + (z + "-" + tail))) == ParseDate(x + "-" + (y + "-" + z))
  {
    ParseThreeParts(x, y, z);
    SplitFirstPiece(z, tail);
    SplitFirstPiece(y, z + "-" + tail);
    SplitFirstPiece(x, y + "-" + (z + "-" + tail));
    var pieces := Split(x + "-" + (y + "-" + (z + "-" + tail)));
    assert pieces == [x, y, z] + Split(tail);
    assert pieces[0] == x && pieces[1] == y && pieces[2] == z;
  }

  /** A piece holds no separator, so no field of a parsed date is negative. */
  lemma ParsedIsNonNegative(date: string)
    requires ParseDate(date).Some?
    ensures NonNegative(ParseDate(date).value)
  {
    SplitJoin(date);
    var pieces := Split(date);
    assert Separator !in pieces[0] && Separator !in pieces[1] && Separator !in pieces[2];
  }

  /** Parsing is undone by rendering: a parsed date renders to text that parses to it again. */
  lemma ReparseRendered(date: string)
    requires ParseDate(date).Some?
    ensures ParseDate(Render(ParseDate(date).value)) == ParseDate(date)
  {
    ParsedIsNonNegative(date);
    RoundTrip(ParseDate(date).value);
  }

  /**
   * Canonical text (4, 2 and 2 digits, as `rustc` reports) parses, and
   * rendering the parsed date gives the text back character for character.
   */
  lemma CanonicalRoundTrip(y: string, m: string, d: string)
    requires AllDigits(y) && AllDigits(m) && AllDigits(d)
    requires |y| == 4 && |m| == 2 && |d| == 2
    ensures var p := ParseDate(y + "-" + (m + "-" + d));
      p.Some? && p.value.year == Value(y) && p.value.month == Value(m) && p.value.day == Value(d)
    ensures Render(ParseDate(y + "-" + (m + "-" + d)).value) == y + "-" + (m + "-" + d)
  {
    DigitsNoDash(y);
    DigitsNoDash(m);
    DigitsNoDash(d);
    ValueBound(y);
    ValueBound(m);
    ValueBound(d);
    assert Pow10(4) == 10000;
    ParseThreeParts(y, m, d);
    PadCanonical(y);
    PadCanonical(m);
    PadCanonical(d);
  }

  lemma LessIrreflexive(a: CommitDate)
    ensures !Less(a, a)
  {
  }

  lemma LessTransitive(a: CommitDate, b: CommitDate, c: CommitDate)
    requires Less(a, b) && Less(b, c)
    ensures Less(a, c)
  {
  }

  /** Any two dates are equal or ordered one way, never both ways. */
  lemma LessTrichotomy(a: CommitDate, b: CommitDate)
    ensures a == b || Less(a, b) || Less(b, a)
    ensures !(Less(a, b) && Less(b, a))
  {
  }

  /** The floor is printed as `2021-10-01` in the gate's diagnostic. */
  lemma MinimumRendered()
    ensures Render(MinimumCommitDate) == "2021-10-01"
  {
  }
}
