/** The plot file-name codec of hotplots/models.py
    (`PlotNameMetadata.parse_from_filename`).

    A complete plot is named `plot-k<K>-<Y>-<M>-<D>-<H>-<Min>-<id>.plot`;
    an rsync transfer in progress writes `.<same name>.<suffix>`. The
    `<id>` is the only key that ties a source plot to a transfer. */
module PlotNames {
  import opened Wrappers
  import opened Strings

  /** `k` is converted to an integer; the timestamp fields stay strings. */
  datatype PlotNameMetadata = PlotNameMetadata(
    k: int, year: string, month: string, day: string, hour: string, minute: string, plotId: string)

  /** The ValueError cases of the parser. */
  datatype ParseError =
    | WrongDotCount(basename: string)
    | WrongFieldCount(stem: string)
    | InvalidK(kField: string)

  /** The stem is split on '-' into exactly eight fields, the first is
      discarded, the second is the k-size with its 'k's stripped. */
  function ParseStem(stem: string): Result<PlotNameMetadata, ParseError>
  {
    var fields := Split(stem, '-');
    if |fields| != 8 then Failure(WrongFieldCount(stem))
    else match ParseInt(Strip(fields[1], 'k'))
      case None => Failure(InvalidK(fields[1]))
      case Some(k) => Success(PlotNameMetadata(k, fields[2], fields[3], fields[4], fields[5], fields[6], fields[7]))
  }

  /** Only the basename is parsed. A hidden name (leading '.') must split
      on '.' into exactly four pieces, the stem being the second; any other
      name into exactly two, the stem being the first. */
  function ParseFromFilename(plotFilename: string): Result<PlotNameMetadata, ParseError>
  {
    var basename := Basename(plotFilename);
    var pieces := Split(basename, '.');
    if StartsWith(basename, '.') then
      (if |pieces| != 4 then Failure(WrongDotCount(basename)) else ParseStem(pieces[1]))
    else
      (if |pieces| != 2 then Failure(WrongDotCount(basename)) else ParseStem(pieces[0]))
  }

  /** A name is rejected unless it holds exactly the dots its form allows:
      three for a hidden name, one otherwise. */
  lemma ParseRejectsWrongDotCount(plotFilename: string)
    ensures var b := Basename(plotFilename);
            Count(b, '.') != (if StartsWith(b, '.') then 3 else 1) ==>
              ParseFromFilename(plotFilename) == Failure(WrongDotCount(b))
  {
  }

  /** A name with the right dots is rejected unless its stem holds exactly
      seven '-', that is, eight fields. */
  lemma ParseRejectsWrongFieldCount(plotFilename: string)
    ensures var b := Basename(plotFilename);
            var pieces := Split(b, '.');
            Count(b, '.') == (if StartsWith(b, '.') then 3 else 1) ==>
              var stem := if StartsWith(b, '.') then pieces[1] else pieces[0];
              Count(stem, '-') != 7 ==> ParseFromFilename(plotFilename) == Failure(WrongFieldCount(stem))
  {
  }

  /** The id a parsed name yields contains no '-', '.' or '/'. */
  lemma ParsedIdHasNoSeparators(plotFilename: string)
    requires ParseFromFilename(plotFilename).Success?
    ensures var id := ParseFromFilename(plotFilename).value.plotId;
            '-' !in id && '.' !in id && '/' !in id
  {
    var b := Basename(plotFilename);
    var pieces := Split(b, '.');
    var stem := if StartsWith(b, '.') then pieces[1] else pieces[0];
    var fields := Split(stem, '-');
    SplitPiecesAvoid(b, '.', '/');
    SplitPiecesAvoid(stem, '-', '/');
    SplitPiecesAvoid(stem, '-', '.');
    assert ParseFromFilename(plotFilename).value.plotId == fields[7];
  }

  /** Pieces of a string that lacks `c` lack `c` too. */
  lemma {:induction false} SplitPiecesAvoid(s: string, sep: char, c: char)
    requires c !in s
    ensures forall i :: 0 <= i < |Split(s, sep)| ==> c !in Split(s, sep)[i]
    decreases |s|
  {
    if |s| > 0 {
      assert c !in s[1..];
      SplitPiecesAvoid(s[1..], sep, c);
    }
  }

  /** Any directory prefix is ignored. */
  lemma ParseIgnoresDirectory(dir: string, name: string)
    requires '/' !in name
    ensures ParseFromFilename(PathJoin(dir, name)) == ParseFromFilename(name)
  {
    BasenameOfPathJoin(dir, name);
    SplitWithoutSeparator(name, '/');
  }

  /** Splitting off a last piece that holds no separator. */
  lemma SplitSnoc(x: string, y: string, sep: char)
    requires sep !in y
    ensures Split(x + [sep] + y, sep) == Split(x, sep) + [y]
  {
    SplitAround(x, y, sep);
    SplitWithoutSeparator(y, sep);
  }

  /** The hidden in-flight form `.<stem>.<ext>.<suffix>` parses exactly as
      the complete form `<stem>.<ext>`: the id is stable across the two. */
  lemma HiddenFormParsesLikeComplete(stem: string, ext: string, suffix: string)
    requires |stem| > 0
    requires '.' !in stem && '.' !in ext && '.' !in suffix
    requires '/' !in stem && '/' !in ext && '/' !in suffix
    ensures ParseFromFilename("." + stem + "." + ext + "." + suffix) == ParseFromFilename(stem + "." + ext)
  {
    var hidden := "." + stem + "." + ext + "." + suffix;
    var complete := stem + "." + ext;
    HiddenPieces(stem, ext, suffix);
    CompletePieces(stem, ext);
    assert stem[0] != '.';
    assert StartsWith(hidden, '.');
    assert complete[0] == stem[0];
  }

  lemma HiddenPieces(stem: string, ext: string, suffix: string)
    requires '.' !in stem && '.' !in ext && '.' !in suffix
    requires '/' !in stem && '/' !in ext && '/' !in suffix
    ensures var hidden := "." + stem + "." + ext + "." + suffix;
            Basename(hidden) == hidden && Split(hidden, '.') == ["", stem, ext, suffix]
  {
    var h1 := "" + ['.'] + stem;
    var h2 := h1 + ['.'] + ext;
    var h3 := h2 + ['.'] + suffix;
    assert h3 == "." + stem + "." + ext + "." + suffix;
    assert '/' !in h3;
    SplitWithoutSeparator(h3, '/');
    SplitWithoutSeparator("", '.');
    SplitSnoc("", stem, '.');
    SplitSnoc(h1, ext, '.');
    SplitSnoc(h2, suffix, '.');
  }

  lemma CompletePieces(stem: string, ext: string)
    requires '.' !in stem && '.' !in ext
    requires '/' !in stem && '/' !in ext
    ensures var complete := stem + "." + ext;
            Basename(complete) == complete && Split(complete, '.') == [stem, ext]
  {
    var c := stem + ['.'] + ext;
    assert c == stem + "." + ext;
    assert '/' !in c;
    SplitWithoutSeparator(c, '/');
    SplitWithoutSeparator(stem, '.');
    SplitSnoc(stem, ext, '.');
  }

  /** The stem of the source file name the tests build, from the
      `str()` of each number. */
  function FormattedStem(k: string, year: string, month: string, day: string, hour: string, minute: string,
                         plotId: string): string
  {
    "plot-k" + k + "-" + year + "-" + month + "-" + day + "-" + hour + "-" + minute + "-" + plotId
  }

  /** The source file name the tests build:
      `"plot-k%s-%s-%s-%s-%s-%s-%s.plot" % (k, year, month, day, hour, minute, plot_id)`. */
  function FormatPlotFilename(k: int, year: int, month: int, day: int, hour: int, minute: int, plotId: string): string
  {
    FormattedStem(IntToString(k), IntToString(year), IntToString(month), IntToString(day),
                  IntToString(hour), IntToString(minute), plotId) + ".plot"
  }

  /** A formatted stem splits on '-' into its eight fields. */
  lemma SplitFormattedStem(k: string, year: string, month: string, day: string, hour: string, minute: string,
                           plotId: string)
    requires '-' !in k && '-' !in year && '-' !in month && '-' !in day
    requires '-' !in hour && '-' !in minute && '-' !in plotId
    ensures Split(FormattedStem(k, year, month, day, hour, minute, plotId), '-')
         == ["plot", "k" + k, year, month, day, hour, minute, plotId]
  {
    var s1 := "plot-k" + k;
    assert Split(s1, '-') == ["plot", "k" + k] by {
      assert s1 == "plot" + ['-'] + ("k" + k);
      SplitWithoutSeparator("plot", '-');
      assert '-' !in "k" + k;
      SplitSnoc("plot", "k" + k, '-');
    }
    var s4 := s1 + "-" + year + "-" + month + "-" + day;
    assert Split(s4, '-') == ["plot", "k" + k, year, month, day] by {
      SplitSnoc3(s1, year, month, day);
    }
    var s7 := s4 + "-" + hour + "-" + minute + "-" + plotId;
    assert Split(s7, '-') == ["plot", "k" + k, year, month, day, hour, minute, plotId] by {
      SplitSnoc3(s4, hour, minute, plotId);
    }
    assert s7 == FormattedStem(k, year, month, day, hour, minute, plotId);
  }

  lemma SplitSnoc3(x: string, a: string, b: string, c: string)
    requires '-' !in a && '-' !in b && '-' !in c
    ensures Split(x + "-" + a + "-" + b + "-" + c, '-') == Split(x, '-') + [a, b, c]
  {
    SplitSnoc(x, a, '-');
    SplitSnoc(x + "-" + a, b, '-');
    SplitSnoc(x + "-" + a + "-" + b, c, '-');
  }

  lemma NatStringHasNoSeparators(n: nat)
    ensures '-' !in NatToString(n) && '.' !in NatToString(n) && '/' !in NatToString(n) && 'k' !in NatToString(n)
    ensures IntToString(n) == NatToString(n)
  {
    DigitsHaveNo(NatToString(n), '-');
    DigitsHaveNo(NatToString(n), '.');
    DigitsHaveNo(NatToString(n), '/');
    DigitsHaveNo(NatToString(n), 'k');
  }

  /** Round trip: parsing a formatted name, under any directory, recovers
      k as an integer, the timestamp as the decimal strings, and the id,
      provided the id holds no '-', '.' or '/' (and the numbers are not
      negative, since a '-' sign would add a field). */
  lemma RoundTrip(dir: string, k: nat, year: nat, month: nat, day: nat, hour: nat, minute: nat, plotId: string)
    requires '-' !in plotId && '.' !in plotId && '/' !in plotId
    ensures ParseFromFilename(PathJoin(dir, FormatPlotFilename(k, year, month, day, hour, minute, plotId)))
         == Success(PlotNameMetadata(k, NatToString(year), NatToString(month), NatToString(day),
                                     NatToString(hour), NatToString(minute), plotId))
  {
    var a, b, c, d := NatToString(k), NatToString(year), NatToString(month), NatToString(day);
    var e, f := NatToString(hour), NatToString(minute);
    NatStringHasNoSeparators(k);
    NatStringHasNoSeparators(year);
    NatStringHasNoSeparators(month);
    NatStringHasNoSeparators(day);
    NatStringHasNoSeparators(hour);
    NatStringHasNoSeparators(minute);
    var stem := FormattedStem(a, b, c, d, e, f, plotId);
    var name := FormatPlotFilename(k, year, month, day, hour, minute, plotId);
    assert name == stem + ".plot";
    assert ParseFromFilename(name) == ParseStem(stem) by {
      ParseCompleteName(stem);
    }
    assert ParseFromFilename(PathJoin(dir, name)) == ParseFromFilename(name) by {
      ParseIgnoresDirectory(dir, name);
    }
    assert ParseInt(Strip("k" + a, 'k')) == Some(k) by {
      StripPrefixChar(a, 'k');
      ParseNatToString(k);
    }
    ParseFormattedStem(k, a, b, c, d, e, f, plotId);
  }

  /** A complete name parses as its stem. */
  lemma ParseCompleteName(stem: string)
    requires '.' !in stem && '/' !in stem && |stem| > 0
    ensures ParseFromFilename(stem + ".plot") == ParseStem(stem)
  {
    CompletePieces(stem, "plot");
    assert stem + ".plot" == stem + "." + "plot";
    assert (stem + ".plot")[0] == stem[0];
  }

  /** A formatted stem whose k-field parses parses into its fields. */
  lemma ParseFormattedStem(k: int, a: string, b: string, c: string, d: string, e: string, f: string, plotId: string)
    requires '-' !in a && '-' !in b && '-' !in c && '-' !in d
    requires '-' !in e && '-' !in f && '-' !in plotId
    requires ParseInt(Strip("k" + a, 'k')) == Some(k)
    ensures ParseStem(FormattedStem(a, b, c, d, e, f, plotId)) == Success(PlotNameMetadata(k, b, c, d, e, f, plotId))
  {
    SplitFormattedStem(a, b, c, d, e, f, plotId);
  }
}
