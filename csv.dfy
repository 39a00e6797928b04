/**
 * Reading an exported playlist: the CSV line scanner, the header check against
 * the known column names, and the mapping of each data line to a track row.
 * The file is given by its content; reading it from disk is not modelled.
 */
module Csv {
  import opened Text

  /** Accepted names of the track-name column (index 1), in every export language. */
  const TrackNameColumns: seq<string> := [
    "Track Name", "Track-Name", "Nombre de la canción", "Nom du titre",
    "Nome della traccia", "Nummmernaam", "Nome da faixa", "Låtens namn",
    "Parça Adı", "اسم الأغنية", "トラック名"
  ]

  /** Accepted names of the artist-name column (index 3). */
  const ArtistNameColumns: seq<string> := [
    "Artist Name(s)", "Künstlername(n)", "Nombre(s) del artista", "Nom(s) de l'artiste",
    "Nome dell'artista", "Naam van artiest", "Nome(s) do artista", "Artistens namn",
    "Sanatçı Adı", "أسماء الفنانين", "アーティスト名"
  ]

  /** Accepted names of the album-name column (index 5). */
  const AlbumNameColumns: seq<string> := [
    "Album Name", "Album-Name", "Nombre del álbum", "Nom de l'album",
    "Nome dell'album", "Naam van album", "Albumets namn", "Albüm Adı",
    "Nome do álbum", "اسم الألبوم", "アルバム名"
  ]

  /** Rows are padded to this many fields; the header must have at least this many. */
  const ColumnCount: nat := 17

  /** One playlist entry as read from the file. */
  datatype TrackRow = TrackRow(title: string, artist: string, album: string,
                               albumArtist: string, date: string, isrc: string)

  /** `CsvFormatError`: the file has no non-blank line, or its header is not an export header. */
  datatype CsvError = EmptyFile | WrongFormat

  datatype CsvData = CsvData(headers: seq<string>, rows: seq<TrackRow>)

  datatype Result<+T> = Ok(value: T) | Err(error: CsvError)

  /**
   * The field scanner of `parseCsvLine` over the unread text `s`: `done` holds
   * the finished fields, `cur` the field being read, `inside` whether a quoted
   * section is open. Inside quotes, `""` stands for one `"`; any other `"`
   * toggles quoting and is dropped; a comma outside quotes ends a field.
   */
  function Scan(s: string, done: seq<string>, cur: string, inside: bool): seq<string>
    decreases |s|
  {
    if s == [] then done + [cur]
    else if s[0] == '"' then
      if inside && |s| > 1 && s[1] == '"' then Scan(s[2..], done, cur + "\"", inside)
      else Scan(s[1..], done, cur, !inside)
    else if s[0] == ',' && !inside then Scan(s[1..], done + [cur], "", inside)
    else Scan(s[1..], done, cur + [s[0]], inside)
  }

  /** The fields of a line before cleaning. */
  function RawFields(line: string): seq<string>
  {
    Scan(line, [], "", false)
  }

  /** `.replace(/^"|"$/g, "")`: at most one leading and one trailing `"` go. */
  function EndQuotesRemoved(t: string): string
  {
    var a := if |t| > 0 && t[0] == '"' then t[1..] else t;
    if |a| > 0 && a[|a| - 1] == '"' then a[..|a| - 1] else a
  }

  /**
   * `val.trim().replace(/^"|"$/g, "")`: surrounding white space goes, then at
   * most one leading and one trailing `"`.
   */
  function CleanField(v: string): (r: string)
    ensures |r| <= |Trim(v)| <= |r| + 2
    ensures (forall i :: 0 <= i < |v| ==> v[i] != '"') ==> r == Trim(v)
  {
    EndQuotesRemoved(Trim(v))
  }

  /**
   * The text is the one with its end quotes removed, with those quotes put
   * back: one in front when it starts with a quote, and one behind when a
   * quote is left at its end after that.
   */
  lemma EndQuotesPutBack(t: string)
    ensures var lead := if StartsWith(t, "\"") then "\"" else "";
            var trail := if |t| > |lead| && t[|t| - 1] == '"' then "\"" else "";
            t == lead + EndQuotesRemoved(t) + trail
  {
    var r := EndQuotesRemoved(t);
    if |t| > 0 && t[0] == '"' {
      assert StartsWith(t, "\"");
      var a := t[1..];
      if |a| > 0 && a[|a| - 1] == '"' {
        assert t == "\"" + r + "\"";
      } else {
        assert t == "\"" + r + "";
      }
    } else {
      assert !StartsWith(t, "\"");
      if |t| > 0 && t[|t| - 1] == '"' {
        assert t == "" + r + "\"";
      } else {
        assert t == "" + r + "";
      }
    }
  }

  /**
   * The trimmed field is the cleaned one with the quotes that were removed
   * put back: one in front when the trimmed field starts with a quote, and
   * one behind when a quote is left at the end after that.
   */
  lemma CleanFieldRemovesEndQuotes(v: string)
    ensures var t := Trim(v);
            var lead := if StartsWith(t, "\"") then "\"" else "";
            var trail := if |t| > |lead| && t[|t| - 1] == '"' then "\"" else "";
            t == lead + CleanField(v) + trail
  {
    EndQuotesPutBack(Trim(v));
  }

  /** What `parseCsvLine` returns for `line`. */
  function ParsedLine(line: string): seq<string>
  {
    var raw := RawFields(line);
    seq(|raw|, k requires 0 <= k < |raw| => CleanField(raw[k]))
  }

  /** The number of commas outside quoted sections, tracking quotes as the scanner does. */
  function CommasOutsideQuotes(s: string, inside: bool): nat
    decreases |s|
  {
    if s == [] then 0
    else if s[0] == '"' then
      if inside && |s| > 1 && s[1] == '"' then CommasOutsideQuotes(s[2..], inside)
      else CommasOutsideQuotes(s[1..], !inside)
    else (if s[0] == ',' && !inside then 1 else 0) + CommasOutsideQuotes(s[1..], inside)
  }

  /**
   * `parseCsvLine`: one pass over the characters, then every field cleaned.
   * There is exactly one field more than there are commas outside quotes.
   */
  method ParseCsvLine(line: string) returns (fields: seq<string>)
    ensures fields == ParsedLine(line)
    ensures |fields| == CommasOutsideQuotes(line, false) + 1
  {
    var result: seq<string> := [];
    var current := "";
    var insideQuotes := false;
    var i := 0;
    while i < |line|
      invariant 0 <= i <= |line|
      invariant Scan(line[i..], result, current, insideQuotes) == RawFields(line)
    {
      var c := line[i];
      assert line[i..][0] == c && line[i..][1..] == line[i + 1..];
      if c == '"' {
        if insideQuotes && i + 1 < |line| && line[i + 1] == '"' {
          assert line[i..][2..] == line[i + 2..];
          current := current + "\"";
          i := i + 1;
        } else {
          insideQuotes := !insideQuotes;
        }
      } else if c == ',' && !insideQuotes {
        result := result + [current];
        current := "";
      } else {
        current := current + [c];
      }
      i := i + 1;
    }
    result := result + [current];
    fields := seq(|result|, k requires 0 <= k < |result| => CleanField(result[k]));
    FieldCount(line, [], "", false);
  }

  /** The scanner yields one field per comma outside quotes, plus the last one. */
  lemma {:induction false} FieldCount(s: string, done: seq<string>, cur: string, inside: bool)
    ensures |Scan(s, done, cur, inside)| == |done| + 1 + CommasOutsideQuotes(s, inside)
    decreases |s|
  {
    if s != [] {
      if s[0] == '"' {
        if inside && |s| > 1 && s[1] == '"' {
          FieldCount(s[2..], done, cur + "\"", inside);
        } else {
          FieldCount(s[1..], done, cur, !inside);
        }
      } else if s[0] == ',' && !inside {
        FieldCount(s[1..], done + [cur], "", inside);
      } else {
        FieldCount(s[1..], done, cur + [s[0]], inside);
      }
    }
  }

  /** Without quotes the scanner is `split(",")`, the open field prefixed to the first piece. */
  lemma {:induction false} ScanWithoutQuotes(s: string, done: seq<string>, cur: string)
    requires '"' !in s
    ensures Scan(s, done, cur, false) == done + [cur + Split(s, ',')[0]] + Split(s, ',')[1..]
    decreases |s|
  {
    if s == [] {
      assert cur + "" == cur;
    } else {
      assert s == [s[0]] + s[1..];
      assert '"' !in s[1..];
      if s[0] == ',' {
        ScanWithoutQuotes(s[1..], done + [cur], "");
        ScanCommaStep(s, done, cur);
      } else {
        ScanWithoutQuotes(s[1..], done, cur + [s[0]]);
        ScanCharStep(s, done, cur);
      }
    }
  }

  /** A comma outside quotes closes the open field; the next piece starts empty. */
  lemma ScanCommaStep(s: string, done: seq<string>, cur: string)
    requires s != [] && s[0] == ','
    requires var rest := Split(s[1..], ',');
             Scan(s[1..], done + [cur], "", false) == done + [cur] + ["" + rest[0]] + rest[1..]
    ensures Scan(s, done, cur, false) == done + [cur + Split(s, ',')[0]] + Split(s, ',')[1..]
  {
    var rest := Split(s[1..], ',');
    assert Split(s, ',') == [""] + rest;
    assert "" + rest[0] == rest[0] && cur + "" == cur;
    assert done + [cur] + [rest[0]] + rest[1..] == done + [cur] + rest;
  }

  /** Any other character outside quotes extends the open field and the first piece. */
  lemma ScanCharStep(s: string, done: seq<string>, cur: string)
    requires s != [] && s[0] != ',' && s[0] != '"'
    requires var rest := Split(s[1..], ',');
             Scan(s[1..], done, cur + [s[0]], false) == done + [cur + [s[0]] + rest[0]] + rest[1..]
    ensures Scan(s, done, cur, false) == done + [cur + Split(s, ',')[0]] + Split(s, ',')[1..]
  {
    var rest := Split(s[1..], ',');
    assert Split(s, ',') == [[s[0]] + rest[0]] + rest[1..];
    assert cur + [s[0]] + rest[0] == cur + ([s[0]] + rest[0]);
  }

  /** A character absent from `s` is absent from every piece of its split. */
  lemma {:induction false} SplitKeepsOut(s: string, sep: char, c: char)
    requires c !in s
    ensures forall k :: 0 <= k < |Split(s, sep)| ==> c !in Split(s, sep)[k]
    decreases |s|
  {
    if s != [] {
      assert s == [s[0]] + s[1..];
      SplitKeepsOut(s[1..], sep, c);
    }
  }

  /**
   * For a line with no `"`, `parseCsvLine` is `split(",")` followed by `trim`
   * on each piece.
   */
  lemma UnquotedLine(line: string)
    requires '"' !in line
    ensures var parts := Split(line, ',');
            ParsedLine(line) == seq(|parts|, k requires 0 <= k < |parts| => Trim(parts[k]))
  {
    var parts := Split(line, ',');
    RawFieldsWithoutQuotes(line);
    SplitKeepsOut(line, ',', '"');
    forall k | 0 <= k < |parts|
      ensures CleanField(parts[k]) == Trim(parts[k])
    {
      NoQuoteCleansToTrim(parts[k]);
    }
  }

  lemma RawFieldsWithoutQuotes(line: string)
    requires '"' !in line
    ensures RawFields(line) == Split(line, ',')
  {
    var parts := Split(line, ',');
    ScanWithoutQuotes(line, [], "");
    assert "" + parts[0] == parts[0];
    assert [] + [parts[0]] + parts[1..] == parts;
  }

  /** A field without quotes is only trimmed. */
  lemma NoQuoteCleansToTrim(v: string)
    requires '"' !in v
    ensures CleanField(v) == Trim(v)
  {
  }

  /** A field as RFC 4180 writes it when it needs quoting: in quotes, each `"` doubled. */
  function Escape(f: string): string
  {
    if f == [] then [] else (if f[0] == '"' then "\"\"" else [f[0]]) + Escape(f[1..])
  }

  function Quoted(f: string): string
  {
    "\"" + Escape(f) + "\""
  }

  /** Fields written quoted, separated by commas. */
  function QuotedLine(fs: seq<string>): string
    requires |fs| >= 1
  {
    if |fs| == 1 then Quoted(fs[0]) else Quoted(fs[0]) + "," + QuotedLine(fs[1..])
  }

  /**
   * Inside quotes, an escaped field followed by the closing quote yields the
   * field itself: each `""` becomes one `"`, commas are kept, and the closing
   * quote ends the quoted section.
   */
  lemma {:induction false} ScanEscaped(f: string, rest: string, done: seq<string>, cur: string)
    requires rest == [] || rest[0] != '"'
    ensures Scan(Escape(f) + "\"" + rest, done, cur, true) == Scan(rest, done, cur + f, false)
    decreases |f|
  {
    var s := Escape(f) + "\"" + rest;
    if f == [] {
      assert s == "\"" + rest;
      assert s[1..] == rest;
      assert cur + f == cur;
    } else {
      assert Escape(f) == (if f[0] == '"' then "\"\"" else [f[0]]) + Escape(f[1..]);
      ScanEscaped(f[1..], rest, done, cur + [f[0]]);
      assert cur + [f[0]] + f[1..] == cur + f;
      if f[0] == '"' {
        assert s == "\"\"" + (Escape(f[1..]) + "\"" + rest);
        assert s[2..] == Escape(f[1..]) + "\"" + rest;
        assert cur + "\"" == cur + [f[0]];
      } else {
        assert s == [f[0]] + (Escape(f[1..]) + "\"" + rest);
        assert s[1..] == Escape(f[1..]) + "\"" + rest;
      }
    }
  }

  /** An opening quote outside quotes only opens a quoted section. */
  lemma ScanOpeningQuote(body: string, done: seq<string>, cur: string)
    ensures Scan("\"" + body, done, cur, false) == Scan(body, done, cur, true)
  {
    assert ("\"" + body)[0] == '"' && ("\"" + body)[1..] == body;
  }

  /** A comma outside quotes closes the open field. */
  lemma ScanComma(t: string, done: seq<string>, cur: string)
    ensures Scan("," + t, done, cur, false) == Scan(t, done + [cur], "", false)
  {
    assert ("," + t)[0] == ',' && ("," + t)[1..] == t;
  }

  /** A quoted field followed by `rest` scans as `rest` with the field open. */
  lemma ScanQuotedField(f: string, rest: string, done: seq<string>)
    requires rest == [] || rest[0] != '"'
    ensures Scan(Quoted(f) + rest, done, "", false) == Scan(rest, done, f, false)
  {
    var body := Escape(f) + "\"" + rest;
    assert Quoted(f) + rest == "\"" + body;
    ScanOpeningQuote(body, done, "");
    ScanEscaped(f, rest, done, "");
    assert "" + f == f;
  }

  /** A line of one quoted field scans to that field. */
  lemma ScanQuotedLast(fs: seq<string>, done: seq<string>)
    requires |fs| == 1
    ensures Scan(QuotedLine(fs), done, "", false) == done + fs
  {
    assert QuotedLine(fs) == Quoted(fs[0]) + [];
    ScanQuotedField(fs[0], [], done);
  }

  /** The first quoted field of a longer line is finished by the comma after it. */
  lemma ScanQuotedHead(fs: seq<string>, done: seq<string>)
    requires |fs| > 1
    ensures Scan(QuotedLine(fs), done, "", false) == Scan(QuotedLine(fs[1..]), done + [fs[0]], "", false)
  {
    var tail := QuotedLine(fs[1..]);
    assert QuotedLine(fs) == Quoted(fs[0]) + ("," + tail);
    ScanQuotedField(fs[0], "," + tail, done);
    ScanComma(tail, done, fs[0]);
  }

  /** Scanning a line of quoted fields gives back the fields. */
  lemma {:induction false} ScanQuotedLine(fs: seq<string>, done: seq<string>)
    requires |fs| >= 1
    ensures Scan(QuotedLine(fs), done, "", false) == done + fs
    decreases |fs|
  {
    if |fs| == 1 {
      ScanQuotedLast(fs, done);
    } else {
      ScanQuotedHead(fs, done);
      ScanQuotedLine(fs[1..], done + [fs[0]]);
      assert done + [fs[0]] + fs[1..] == done + fs;
    }
  }

  /**
   * Fields written as RFC 4180 quoted fields come back from `parseCsvLine` as
   * their cleaned selves: trimmed, and without one leading and one trailing `"`.
   */
  lemma QuotedRoundTrip(fs: seq<string>)
    requires |fs| >= 1
    ensures ParsedLine(QuotedLine(fs)) == seq(|fs|, k requires 0 <= k < |fs| => CleanField(fs[k]))
  {
    ScanQuotedLine(fs, []);
    assert [] + fs == fs;
  }

  /**
   * Section 2 of RFC 4180 writes the value `"x` as `"""x"`; `parseCsvLine`
   * reads it back as `x`: the escaped quote at the start of the value is lost.
   */
  lemma LeadingEscapedQuoteLost()
    ensures Quoted("\"x") == "\"\"\"x\""
    ensures ParsedLine("\"\"\"x\"") == ["x"]
  {
    QuoteThenXWritten();
    QuoteThenXCleaned();
    QuotedRoundTrip(["\"x"]);
    assert QuotedLine(["\"x"]) == Quoted("\"x");
  }

  lemma QuoteThenXWritten()
    ensures Quoted("\"x") == "\"\"\"x\""
  {
    assert Escape("\"x") == "\"\"" + Escape("x");
    assert Escape("x") == "x" + Escape("");
  }

  lemma QuoteThenXCleaned()
    ensures CleanField("\"x") == "x"
  {
    var t := "\"x";
    assert |t| == 2 && t[0] == '"' && t[1] == 'x';
    assert !IsSpace(t[0]) && !IsSpace(t[1]);
    assert TrimStart(t) == t;
    assert TrimEnd(t) == t;
    assert t[1..] == "x";
    assert EndQuotesRemoved(t) == "x";
  }

  /** `validateHeaders`: at least 17 columns, known names at 1, 3 and 5, and `ISRC` at 16. */
  predicate HeadersValid(headers: seq<string>)
  {
    |headers| >= ColumnCount
    && headers[1] in TrackNameColumns
    && headers[3] in ArtistNameColumns
    && headers[5] in AlbumNameColumns
    && headers[16] == "ISRC"
  }

  /**
   * Each of the three checked names is looked up in its own list, so a header
   * mixing the languages of different exports passes; a header one column
   * short, or with a lower-case `isrc`, does not.
   */
  lemma HeadersCheckedColumnByColumn(h: seq<string>)
    requires |h| == ColumnCount
    requires h[1] == "Nombre de la canción" && h[3] == "Nom(s) de l'artiste" && h[5] == "アルバム名"
    requires h[16] == "ISRC"
    ensures HeadersValid(h)
    ensures !HeadersValid(h[..16])
    ensures !HeadersValid(h[16 := "isrc"])
  {
    assert h[1] == TrackNameColumns[2];
    assert h[3] == ArtistNameColumns[3];
    assert h[5] == AlbumNameColumns[10];
  }

  /**
   * `content.split(/\r?\n/)`: the pieces between line feeds, each losing the
   * carriage return that ends it when that return precedes a line feed.
   */
  function SplitLines(content: string): (lines: seq<string>)
    ensures |lines| == Count(content, '\n') + 1
    ensures forall k :: 0 <= k < |lines| ==> '\n' !in lines[k]
  {
    var parts := Split(content, '\n');
    seq(|parts|, k requires 0 <= k < |parts| =>
      if k < |parts| - 1 && |parts[k]| > 0 && parts[k][|parts[k]| - 1] == '\r'
      then parts[k][..|parts[k]| - 1] else parts[k])
  }

  /** Lines written out with the line ending `eol` after every line but the last. */
  function JoinLines(lines: seq<string>, eol: string): string
    requires |lines| >= 1
    decreases |lines|
  {
    if |lines| == 1 then lines[0] else lines[0] + eol + JoinLines(lines[1..], eol)
  }

  /** The pieces between the line feeds of written-out lines. */
  lemma {:induction false} SplitJoinLines(lines: seq<string>, eol: string)
    requires |lines| >= 1 && (eol == "\n" || eol == "\r\n")
    requires forall k :: 0 <= k < |lines| ==> '\n' !in lines[k]
    ensures var parts := Split(JoinLines(lines, eol), '\n');
            && |parts| == |lines|
            && parts[|lines| - 1] == lines[|lines| - 1]
            && forall k :: 0 <= k < |lines| - 1 ==> parts[k] == lines[k] + eol[..|eol| - 1]
    decreases |lines|
  {
    if |lines| == 1 {
      SplitWhole(lines[0], '\n');
    } else {
      var head := lines[0] + eol[..|eol| - 1];
      assert eol == eol[..|eol| - 1] + ['\n'];
      assert JoinLines(lines, eol) == head + ['\n'] + JoinLines(lines[1..], eol);
      assert '\n' !in eol[..|eol| - 1];
      SplitAround(head, JoinLines(lines[1..], eol), '\n');
      SplitJoinLines(lines[1..], eol);
    }
  }

  /**
   * Splitting undoes writing lines out with `\n` or `\r\n` endings, for lines
   * without line feeds; with `\n` endings a line (other than the last) must not
   * itself end in a carriage return, which the split would take for part of
   * its line ending.
   */
  lemma SplitLinesRoundTrip(lines: seq<string>, eol: string)
    requires |lines| >= 1 && (eol == "\n" || eol == "\r\n")
    requires forall k :: 0 <= k < |lines| ==> '\n' !in lines[k]
    requires eol == "\n" ==> forall k :: 0 <= k < |lines| - 1 ==> lines[k] == [] || lines[k][|lines[k]| - 1] != '\r'
    ensures SplitLines(JoinLines(lines, eol)) == lines
  {
    SplitJoinLines(lines, eol);
    var parts := Split(JoinLines(lines, eol), '\n');
    var r := SplitLines(JoinLines(lines, eol));
    forall k | 0 <= k < |lines| - 1
      ensures r[k] == lines[k]
    {
      assert parts[k] == lines[k] + eol[..|eol| - 1];
      if eol == "\r\n" {
        assert parts[k][..|parts[k]| - 1] == lines[k];
      }
    }
  }

  /** A line made of white space only. */
  predicate Blank(line: string)
  {
    forall i :: 0 <= i < |line| ==> IsSpace(line[i])
  }

  /** `line.trim() === ""` holds exactly for the blank lines. */
  lemma TrimEmptyIffBlank(line: string)
    ensures Trim(line) == "" <==> Blank(line)
  {
  }

  /** `.filter((line) => line.trim() !== "")`, order kept. */
  function NonBlank(lines: seq<string>): (r: seq<string>)
    ensures |r| <= |lines|
    ensures forall k :: 0 <= k < |r| ==> !Blank(r[k]) && r[k] in lines
    ensures forall l :: l in lines && !Blank(l) ==> l in r
  {
    if lines == [] then []
    else if Blank(lines[0]) then NonBlank(lines[1..])
    else [lines[0]] + NonBlank(lines[1..])
  }

  /**
   * The filter works line by line: the kept lines of a concatenation are the
   * kept lines of its parts, in order and with their repetitions, and a single
   * line is kept exactly when it is not blank.
   */
  lemma {:induction false} NonBlankConcat(x: seq<string>, y: seq<string>, line: string)
    ensures NonBlank(x + y) == NonBlank(x) + NonBlank(y)
    ensures NonBlank([line]) == if Blank(line) then [] else [line]
    decreases |x|
  {
    if x == [] {
      assert x + y == y;
    } else {
      assert (x + y)[1..] == x[1..] + y;
      NonBlankConcat(x[1..], y, line);
    }
  }

  /** The lines of the file that are not blank. */
  function ContentLines(content: string): seq<string>
  {
    NonBlank(SplitLines(content))
  }

  /** Field `k`, or `""` where the line is shorter (the padding to 17 fields). */
  function FieldAt(values: seq<string>, k: nat): string
  {
    if k < |values| then values[k] else ""
  }

  /** The row built from a data line's fields: columns 1, 3, 5, 7, 8 and 16. */
  function RowOf(values: seq<string>): TrackRow
  {
    TrackRow(FieldAt(values, 1), FieldAt(values, 3), FieldAt(values, 5),
             FieldAt(values, 7), FieldAt(values, 8), FieldAt(values, 16))
  }

  /** The `while (values.length < 17) values.push("")` loop. */
  method PadFields(fields: seq<string>) returns (values: seq<string>)
    ensures |values| >= ColumnCount && |values| >= |fields|
    ensures forall k :: 0 <= k < |values| ==> values[k] == FieldAt(fields, k)
  {
    values := fields;
    while |values| < ColumnCount
      invariant |values| >= |fields|
      invariant forall k :: 0 <= k < |values| ==> values[k] == FieldAt(fields, k)
      decreases ColumnCount - |values|
    {
      values := values + [""];
    }
  }

  /** The rows built from a sequence of data lines, one per line, in order. */
  function Rows(lines: seq<string>): seq<TrackRow>
  {
    seq(|lines|, k requires 0 <= k < |lines| => RowOf(ParsedLine(lines[k])))
  }

  /** Extending the data lines by one extends the rows by that line's row. */
  lemma RowsPrefix(lines: seq<string>, i: nat)
    requires i < |lines|
    ensures Rows(lines[..i + 1]) == Rows(lines[..i]) + [RowOf(ParsedLine(lines[i]))]
  {
    assert lines[..i + 1] == lines[..i] + [lines[i]];
  }

  /**
   * One iteration of the row loop: a line that trims to nothing is skipped;
   * any other line is parsed, padded to 17 fields and its columns picked.
   */
  method ReadLine(line: string) returns (skipped: bool, row: TrackRow)
    ensures skipped <==> Blank(line)
    ensures !skipped ==> row == RowOf(ParsedLine(line))
  {
    TrimEmptyIffBlank(line);
    if Trim(line) == "" {
      return true, TrackRow("", "", "", "", "", "");
    }
    var fields := ParseCsvLine(line);
    var values := PadFields(fields);
    row := TrackRow(values[1], values[3], values[5], values[7], values[8], values[16]);
    skipped := false;
  }

  /**
   * The row loop of `readCsv` over the data lines. A blank line would be
   * skipped, but none reaches the loop: the lines were filtered before.
   */
  method ReadRows(data: seq<string>) returns (rows: seq<TrackRow>)
    requires forall k :: 0 <= k < |data| ==> !Blank(data[k])
    ensures rows == Rows(data)
  {
    rows := [];
    var i := 0;
    while i < |data|
      invariant 0 <= i <= |data|
      invariant rows == Rows(data[..i])
    {
      var line := data[i];
      var skipped, row := ReadLine(line);
      if skipped {
        assert false;
      }
      RowsPrefix(data, i);
      rows := rows + [row];
      i := i + 1;
    }
    assert data[..i] == data;
  }

  /** What `readCsv` yields for a file's content: an error, or the header and the rows. */
  function CsvContents(content: string): Result<CsvData>
  {
    var lines := ContentLines(content);
    if lines == [] then Err(EmptyFile)
    else if !HeadersValid(ParsedLine(lines[0])) then Err(WrongFormat)
    else Ok(CsvData(ParsedLine(lines[0]), Rows(lines[1..])))
  }

  /**
   * `readCsv` on the file's content: no non-blank line is an error; otherwise
   * the first non-blank line is the header, which must be valid, and every
   * later non-blank line becomes exactly one row, in order.
   */
  method ReadCsv(content: string) returns (r: Result<CsvData>)
    ensures ContentLines(content) == [] <==> r == Err(EmptyFile)
    ensures r == Err(WrongFormat) <==>
              ContentLines(content) != [] && !HeadersValid(ParsedLine(ContentLines(content)[0]))
    ensures r.Ok? ==>
              var lines := ContentLines(content);
              && r.value.headers == ParsedLine(lines[0])
              && r.value.rows == Rows(lines[1..])
    ensures r == CsvContents(content)
  {
    var lines := ContentLines(content);
    if |lines| < 1 {
      return Err(EmptyFile);
    }
    var headers := ParseCsvLine(lines[0]);
    if !HeadersValid(headers) {
      return Err(WrongFormat);
    }
    var rows := ReadRows(lines[1..]);
    r := Ok(CsvData(headers, rows));
  }
}
