/** The pure parts of `saveTranscript` and `getMeetingTitle` (content.js):
    the title sanitiser, the download file name, and the txt, CSV and JSON
    bodies. Dates and times are opaque strings supplied by the caller. */
module Export {
  import opened Text
  import opened Wrappers

  const MaxTitleLength := 50

  /** The characters `/[^a-zA-Z0-9\s-_]/g` does not remove. Without the `u`
      flag, `\s-_` in a class is `\s`, `-` and `_`. */
  predicate IsTitleChar(c: char)
  {
    ('a' <= c <= 'z') || ('A' <= c <= 'Z') || ('0' <= c <= '9') || IsWhitespace(c) || c == '-' || c == '_'
  }

  predicate AllTitleChars(s: string)
  {
    forall i :: 0 <= i < |s| ==> IsTitleChar(s[i])
  }

  /** `s.replace(/[^a-zA-Z0-9\s-_]/g, '')` */
  function KeepTitleChars(s: string): string
  {
    if s == [] then []
    else KeepTitleChars(s[..|s| - 1]) + (if IsTitleChar(s[|s| - 1]) then [s[|s| - 1]] else [])
  }

  /** The sanitised title: the allowed characters, cut to 50. Every allowed
      character lies in the Basic Multilingual Plane, so `substring(0, 50)`,
      which counts UTF-16 units, counts characters here. */
  function Sanitize(title: string): string
  {
    var kept := KeepTitleChars(title);
    if |kept| <= MaxTitleLength then kept else kept[..MaxTitleLength]
  }

  lemma {:induction false} KeepTitleCharsAllowed(s: string)
    ensures AllTitleChars(KeepTitleChars(s))
    ensures |KeepTitleChars(s)| <= |s|
  {
    if s != [] {
      KeepTitleCharsAllowed(s[..|s| - 1]);
    }
  }

  lemma {:induction false} KeepTitleCharsNoOp(s: string)
    requires AllTitleChars(s)
    ensures KeepTitleChars(s) == s
  {
    if s != [] {
      KeepTitleCharsNoOp(s[..|s| - 1]);
    }
  }

  /** The filter works character by character: what it keeps of a
      concatenation is what it keeps of each part. */
  lemma {:induction false} KeepTitleCharsConcat(a: string, b: string)
    ensures KeepTitleChars(a + b) == KeepTitleChars(a) + KeepTitleChars(b)
  {
    if b == [] {
      assert a + b == a;
    } else {
      var init := b[..|b| - 1];
      KeepTitleCharsConcat(a, init);
      assert (a + b)[..|a + b| - 1] == a + init;
      assert (a + b)[|a + b| - 1] == b[|b| - 1];
    }
  }

  /** A single character is kept exactly when it is allowed. */
  lemma KeepTitleCharsOne(c: char)
    ensures KeepTitleChars([c]) == if IsTitleChar(c) then [c] else []
  {
    assert [c][..0] == [];
  }

  /** A disallowed character anywhere in the title is deleted without a
      trace: the title sanitises as if it had never been there. */
  lemma SanitizeDropsDisallowed(p: string, c: char, q: string)
    requires !IsTitleChar(c)
    ensures Sanitize(p + [c] + q) == Sanitize(p + q)
  {
    var kp, kq := KeepTitleChars(p), KeepTitleChars(q);
    calc {
      KeepTitleChars(p + [c] + q);
      { KeepTitleCharsConcat(p + [c], q); }
      KeepTitleChars(p + [c]) + kq;
      { KeepTitleCharsConcat(p, [c]); KeepTitleCharsOne(c); assert kp + [] == kp; }
      kp + kq;
      { KeepTitleCharsConcat(p, q); }
      KeepTitleChars(p + q);
    }
  }

  /** An allowed character is kept in place between what is kept of the
      text before and after it. */
  lemma SanitizeKeepsAllowed(p: string, c: char, q: string)
    requires IsTitleChar(c)
    ensures KeepTitleChars(p + [c] + q) == KeepTitleChars(p) + [c] + KeepTitleChars(q)
  {
    KeepTitleCharsConcat(p + [c], q);
    KeepTitleCharsConcat(p, [c]);
    KeepTitleCharsOne(c);
  }

  /** A title made of allowed characters is cut to its first 50. */
  lemma SanitizeCleanTitle(title: string)
    requires AllTitleChars(title)
    ensures Sanitize(title) == title[..if |title| <= MaxTitleLength then |title| else MaxTitleLength]
  {
    KeepTitleCharsNoOp(title);
  }

  /** The sanitised title is at most 50 characters long and holds only ASCII
      letters, digits, whitespace, `-` and `_`. */
  lemma SanitizeShape(title: string)
    ensures |Sanitize(title)| <= MaxTitleLength
    ensures AllTitleChars(Sanitize(title))
    ensures '.' !in Sanitize(title)
  {
    KeepTitleCharsAllowed(title);
  }

  /** A title is left as it is exactly when it is short enough and holds
      only allowed characters; in particular sanitising is idempotent. */
  lemma SanitizeFixpoint(title: string)
    ensures Sanitize(title) == title <==> |title| <= MaxTitleLength && AllTitleChars(title)
    ensures Sanitize(Sanitize(title)) == Sanitize(title)
  {
    KeepTitleCharsAllowed(title);
    if AllTitleChars(title) {
      KeepTitleCharsNoOp(title);
    }
    var s := Sanitize(title);
    KeepTitleCharsNoOp(s);
  }

  /** `new Date().toISOString().replace(/[:.]/g, '-')` applied to the ISO text. */
  function FileTimestamp(iso: string): (r: string)
    ensures |r| == |iso|
    ensures ':' !in r && '.' !in r
    ensures forall i :: 0 <= i < |iso| && iso[i] != ':' && iso[i] != '.' ==> r[i] == iso[i]
    ensures forall i :: 0 <= i < |iso| && (iso[i] == ':' || iso[i] == '.') ==> r[i] == '-'
  {
    if iso == [] then []
    else
      var c := iso[|iso| - 1];
      FileTimestamp(iso[..|iso| - 1]) + [if c == ':' || c == '.' then '-' else c]
  }

  datatype Format = Txt | Json | Csv | Html

  /** The `format` argument of `saveTranscript`; anything else is unknown. */
  function ParseFormat(name: string): Option<Format>
  {
    if name == "txt" then Some(Txt)
    else if name == "json" then Some(Json)
    else if name == "csv" then Some(Csv)
    else if name == "html" then Some(Html)
    else None
  }

  /** The file extension of each format. */
  function Extension(f: Format): string
  {
    match f
    case Txt => "txt"
    case Json => "json"
    case Csv => "csv"
    case Html => "html"
  }

  /** Each known format name is its own extension and names one format. */
  lemma FormatNames(name: string, f: Format)
    ensures ParseFormat(name) == Some(f) <==> name == Extension(f)
    ensures '.' !in Extension(f)
  {
  }

  /** `${title}_transcript_${timestamp}.${extension}` */
  function Filename(title: string, timestamp: string, ext: string): string
  {
    title + "_transcript_" + timestamp + "." + ext
  }

  /** What follows the last `.` of a name (the whole name if it has none). */
  function ExtensionOf(name: string): string
  {
    if name == [] || name[|name| - 1] == '.' then []
    else ExtensionOf(name[..|name| - 1]) + [name[|name| - 1]]
  }

  lemma {:induction false} ExtensionOfAppended(stem: string, ext: string)
    requires '.' !in ext
    ensures ExtensionOf(stem + "." + ext) == ext
  {
    if ext != [] {
      var init := ext[..|ext| - 1];
      ExtensionOfAppended(stem, init);
      assert (stem + "." + ext)[..|stem + "." + ext| - 1] == stem + "." + init;
    } else {
      assert stem + "." + ext == stem + ".";
    }
  }

  /** The download name starts with the sanitised title and ends with the
      format's extension after the last dot. */
  lemma FilenameParts(title: string, iso: string, f: Format)
    ensures Sanitize(title) <= Filename(Sanitize(title), FileTimestamp(iso), Extension(f))
    ensures ExtensionOf(Filename(Sanitize(title), FileTimestamp(iso), Extension(f))) == Extension(f)
  {
    FormatNames(Extension(f), f);
    ExtensionOfAppended(Sanitize(title) + "_transcript_" + FileTimestamp(iso), Extension(f));
  }

  /** The txt body (content.js:74). */
  function TxtBody(meeting: string, date: string, lines: seq<string>): string
  {
    "Meeting: " + meeting + "\nDate: " + date + "\n\n" + Join(lines, '\n')
  }

  /** Reading a txt export back line by line gives its two header lines, a
      blank line and then the transcript, when no field holds a newline. */
  lemma TxtBodyLines(meeting: string, date: string, lines: seq<string>)
    requires |lines| >= 1
    requires '\n' !in meeting && '\n' !in date
    requires forall i :: 0 <= i < |lines| ==> '\n' !in lines[i]
    ensures Split(TxtBody(meeting, date, lines), '\n') == ["Meeting: " + meeting, "Date: " + date, ""] + lines
  {
    var j := Join(lines, '\n');
    var h1, h2 := "Meeting: " + meeting, "Date: " + date;
    assert TxtBody(meeting, date, lines) == h1 + ['\n'] + (h2 + ['\n'] + ("" + ['\n'] + j));
    SplitJoin(lines, '\n');
    SplitAfterPiece("", '\n', j);
    assert "" + ['\n'] + j == [] + ['\n'] + j;
    SplitAfterPiece(h2, '\n', "" + ['\n'] + j);
    SplitAfterPiece(h1, '\n', h2 + ['\n'] + ("" + ['\n'] + j));
  }

  /** The JSON document, as the record `JSON.stringify` is given. */
  datatype JsonDoc = JsonDoc(meeting: string, date: string, transcript: seq<string>, totalLines: nat)

  function JsonBody(meeting: string, date: string, lines: seq<string>): JsonDoc
  {
    JsonDoc(meeting, date, lines, |lines|)
  }

  const CsvHeader := "Timestamp,Speaker,Text\n"

  /** `line.replace(/"/g, '""')` */
  function EscapeQuotes(s: string): string
  {
    if s == [] then []
    else (if s[0] == '"' then "\"\"" else [s[0]]) + EscapeQuotes(s[1..])
  }

  /** The text before the quoted text field of a CSV row. */
  function CsvRowLead(time: string): string
  {
    "\"" + time + "\",\"Unknown\",\""
  }

  /** One CSV row (content.js:94). */
  function CsvRow(time: string, line: string): string
  {
    CsvRowLead(time) + EscapeQuotes(line) + "\"\n"
  }

  /** The rows for `lines`; row `i` carries the time `time(i)`. */
  function CsvRows(lines: seq<string>, time: nat -> string): string
  {
    if lines == [] then ""
    else CsvRows(lines[..|lines| - 1], time) + CsvRow(time(|lines| - 1), lines[|lines| - 1])
  }

  /** The CSV body (content.js:91-95). */
  function CsvDocument(lines: seq<string>, time: nat -> string): string
  {
    CsvHeader + CsvRows(lines, time)
  }

  /** The CSV body built the way the source builds it, by appending one row
      per line to the header. */
  method BuildCsv(lines: seq<string>, time: nat -> string) returns (content: string)
    ensures content == CsvDocument(lines, time)
  {
    content := CsvHeader;
    var i := 0;
    while i < |lines|
      invariant 0 <= i <= |lines|
      invariant content == CsvHeader + CsvRows(lines[..i], time)
    {
      var row := CsvRow(time(i), lines[i]);
      assert lines[..i + 1][..i] == lines[..i];
      assert CsvRows(lines[..i + 1], time) == CsvRows(lines[..i], time) + row;
      content := content + row;
      i := i + 1;
    }
    assert lines[..|lines|] == lines;
  }

  /** An empty transcript gives the header row alone. */
  lemma CsvEmpty(time: nat -> string)
    ensures CsvDocument([], time) == "Timestamp,Speaker,Text\n"
  {
  }

  /** Reads one quoted CSV field whose opening quote has been consumed: a
      doubled quote stands for one quote, a single quote closes the field.
      Gives the field's value and what follows the closing quote. */
  function ReadQuotedField(s: string): Option<(string, string)>
  {
    if s == [] then None
    else if s[0] == '"' then
      if |s| >= 2 && s[1] == '"' then
        match ReadQuotedField(s[2..])
        case Some((v, rest)) => Some(("\"" + v, rest))
        case None => None
      else Some(("", s[1..]))
    else
      match ReadQuotedField(s[1..])
      case Some((v, rest)) => Some(([s[0]] + v, rest))
      case None => None
  }

  /** A field escaped by doubling its quotes reads back as itself, whatever
      follows the closing quote, as long as that is not another quote. */
  lemma {:induction false} EscapeQuotesRoundTrip(x: string, rest: string)
    requires rest == [] || rest[0] != '"'
    ensures ReadQuotedField(EscapeQuotes(x) + "\"" + rest) == Some((x, rest))
  {
    var s := EscapeQuotes(x) + "\"" + rest;
    if x == [] {
      assert s == "\"" + rest;
      assert s[1..] == rest;
    } else if x[0] == '"' {
      assert s == "\"\"" + (EscapeQuotes(x[1..]) + "\"" + rest);
      assert s[2..] == EscapeQuotes(x[1..]) + "\"" + rest;
      EscapeQuotesRoundTrip(x[1..], rest);
      assert "\"" + x[1..] == x;
    } else {
      assert s == [x[0]] + (EscapeQuotes(x[1..]) + "\"" + rest);
      assert s[1..] == EscapeQuotes(x[1..]) + "\"" + rest;
      EscapeQuotesRoundTrip(x[1..], rest);
      assert [x[0]] + x[1..] == x;
    }
  }

  /** The text field of every CSV row reads back as the transcript line,
      quotes included, and is followed by the end of the row. */
  lemma CsvRowTextField(time: string, line: string)
    ensures CsvRowLead(time) <= CsvRow(time, line)
    ensures ReadQuotedField(CsvRow(time, line)[|CsvRowLead(time)|..]) == Some((line, "\n"))
  {
    var row := CsvRow(time, line);
    assert row[|CsvRowLead(time)|..] == EscapeQuotes(line) + "\"" + "\n";
    EscapeQuotesRoundTrip(line, "\n");
  }

  /** The rows of a longer transcript extend the rows of a shorter one: the
      row of line `i` depends only on line `i` and its time. */
  lemma {:induction false} CsvRowsExtend(lines: seq<string>, k: nat, time: nat -> string)
    requires k <= |lines|
    ensures CsvRows(lines[..k], time) <= CsvRows(lines, time)
  {
    if k < |lines| {
      CsvRowsExtend(lines[..|lines| - 1], k, time);
      assert lines[..|lines| - 1][..k] == lines[..k];
    } else {
      assert lines[..k] == lines;
    }
  }

  /** What a download holds, by format. The HTML page is recorded by its
      inputs; its markup is not modelled. */
  datatype Body =
    | TextBody(text: string)
    | JsonFile(doc: JsonDoc)
    | CsvBody(csv: string)
    | HtmlPage(meeting: string, date: string, lines: seq<string>)

  datatype ExportFile = ExportFile(name: string, body: Body)

  /** The readings of the clock that one export uses, as opaque text. */
  datatype Clock = Clock(iso: string, localeDateTime: string, lineTime: nat -> string)

  /** The file `saveTranscript` produces from the transcript, the meeting
      title as stored, its sanitised form and the clock; `None` for an empty
      transcript or an unknown format (content.js:62-66, 133-136). */
  function Render(format: string, lines: seq<string>, meeting: string, title: string, clock: Clock): (r: Option<ExportFile>)
    ensures r.None? <==> lines == [] || ParseFormat(format).None?
    ensures r.Some? ==> r.value.name == Filename(title, FileTimestamp(clock.iso), format)
    ensures r.Some? && format == "json" ==>
              r.value.body.JsonFile? && r.value.body.doc.transcript == lines
              && r.value.body.doc.totalLines == |lines| && r.value.body.doc.totalLines > 0
              && r.value.body.doc.meeting == meeting && r.value.body.doc.date == clock.iso
  {
    if lines == [] then None
    else
      match ParseFormat(format)
      case None => None
      case Some(f) =>
        var body := match f
          case Txt => TextBody(TxtBody(meeting, clock.localeDateTime, lines))
          case Json => JsonFile(JsonBody(meeting, clock.iso, lines))
          case Csv => CsvBody(CsvDocument(lines, clock.lineTime))
          case Html => HtmlPage(meeting, clock.localeDateTime, lines);
        Some(ExportFile(Filename(title, FileTimestamp(clock.iso), Extension(f)), body))
  }
}
