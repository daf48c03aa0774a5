// A printed manifest reads back as itself exactly when its bare fields look bare; and every manifest
// that was read meets the other conditions.
module ManifestRoundTrip {
  import opened Text
  import opened Decimal
  import opened Doubles
  import opened Manifest

  // ---- What the parser always yields ----

  ghost predicate LegalKey(key: string) {
    && key != "" && IsKeyStart(key[0]) && (forall i :: 0 <= i < |key| ==> IsKeyPart(key[i]))
    && key !in {"version", "releaseDate", "path", "sha512"}
  }

  ghost predicate LegalScalar(value: Scalar) {
    match value
    case Str(text) => SingleLine(text)
    case Num(number) => IsNumber(number)
    case Bool(_) => true
  }

  ghost predicate LegalFile(f: File) {
    SingleLine(f.url) && SingleLine(f.sha512) && IsNumber(f.size)
  }

  ghost predicate LegalExtras(extras: map<string, Scalar>) {
    forall k :: k in extras ==> LegalKey(k) && LegalScalar(extras[k])
  }

  ghost predicate LegalFiles(files: seq<File>) {
    forall f :: f in files ==> LegalFile(f)
  }

  ghost predicate Legal(m: Manifest) {
    && m.version != "" && SingleLine(m.version) && m.releaseDate != "" && SingleLine(m.releaseDate)
    && m.files != [] && LegalFiles(m.files) && LegalExtras(m.extras)
  }

  // ---- What survives being printed bare ----

  // The field that a bare value is read back as, if the line is recognised at all.
  function Reread(value: string): Option<string> {
    if Trim(value) == "" then None else Some(StripSingleQuotes(Trim(value)))
  }

  function RereadFile(f: File): Option<File> {
    if Reread(f.url).None? || Reread(f.sha512).None? || !PrintsDigits(f.size) then None
    else Some(File(Reread(f.url).value, Reread(f.sha512).value, f.size))
  }

  function RereadFiles(files: seq<File>): Option<seq<File>> {
    if files == [] then Some([])
    else if RereadFile(files[0]).None? || RereadFiles(files[1..]).None? then None
    else Some([RereadFile(files[0]).value] + RereadFiles(files[1..]).value)
  }

  ghost predicate PlainFile(f: File) {
    Reread(f.url) == Some(f.url) && Reread(f.sha512) == Some(f.sha512) && PrintsDigits(f.size)
  }

  lemma {:induction false} RereadFilesIff(files: seq<File>)
    ensures RereadFiles(files) == Some(files) <==> forall f :: f in files ==> PlainFile(f)
  {
    if files == [] {
    } else {
      RereadFilesIff(files[1..]);
      assert files == [files[0]] + files[1..];
      var rest := RereadFiles(files[1..]);
      assert PlainFile(files[0]) <==> RereadFile(files[0]) == Some(files[0]);
      if RereadFiles(files).Some? {
        assert RereadFiles(files).value[0] == RereadFile(files[0]).value;
        assert RereadFiles(files).value[1..] == rest.value;
      }
    }
  }

  // A number printed with an exponent is read back as a string.
  function RereadScalar(value: Scalar): Scalar {
    if value.Num? && !PrintsPlainly(value.number) then Str(NumberText(value.number)) else value
  }

  function RereadExtras(extras: map<string, Scalar>): map<string, Scalar> {
    map k | k in extras :: RereadScalar(extras[k])
  }

  ghost predicate PlainExtras(extras: map<string, Scalar>) {
    forall k :: k in extras && extras[k].Num? ==> PrintsPlainly(extras[k].number)
  }

  lemma RereadExtrasIff(extras: map<string, Scalar>)
    ensures RereadExtras(extras) == extras <==> PlainExtras(extras)
  {
    assert RereadExtras(extras) == extras <==> forall k :: k in extras ==> RereadScalar(extras[k]) == extras[k];
  }

  ghost predicate PlainVersion(version: string) {
    ParseScalarValue(version) == Str(version)
  }

  ghost predicate Plain(m: Manifest) {
    PlainVersion(m.version) && PlainExtras(m.extras) && forall f :: f in m.files ==> PlainFile(f)
  }

  // ---- Trimming a line ----

  lemma {:induction false} TrimEndAppend(a: string, y: string)
    ensures TrimEnd(a + y) == if TrimEnd(y) == "" then TrimEnd(a) else a + TrimEnd(y)
    decreases |y|
  {
    if y == "" {
      assert a + y == a;
    } else if IsSpace(y[|y| - 1]) {
      assert (a + y)[..|a + y| - 1] == a + y[..|y| - 1];
      TrimEndAppend(a, y[..|y| - 1]);
    }
  }

  lemma {:induction false} TrimsCommute(x: string)
    ensures TrimStart(TrimEnd(x)) == Trim(x)
    decreases |x|
  {
    if x == "" {
    } else {
      assert x == [x[0]] + x[1..];
      TrimEndAppend([x[0]], x[1..]);
      assert [x[0]][..0] == "";
      if IsSpace(x[0]) {
        TrimsCommute(x[1..]);
        if TrimEnd(x[1..]) == "" {
          assert TrimEnd([x[0]]) == TrimEnd("");
        } else {
          assert TrimEnd(x)[1..] == TrimEnd(x[1..]);
        }
      }
    }
  }

  lemma SingleLineTrim(x: string)
    requires SingleLine(x)
    ensures SingleLine(Trim(x))
  {
    TrimIsTrimmed(x);
  }

  // What a trimmed line gives back behind its prefix.
  lemma ReadAfterPrefix(prefix: string, x: string)
    requires prefix != "" && !IsSpace(prefix[|prefix| - 1]) && SingleLine(x)
    ensures Trim(x) == "" ==> TrimEnd(prefix + x) == prefix && AfterPrefix(prefix, prefix) == None
    ensures Trim(x) != "" ==> prefix < TrimEnd(prefix + x) && AfterPrefix(prefix, TrimEnd(prefix + x)) == Some(Trim(x))
  {
    TrimEndAppend(prefix, x);
    TrimsCommute(x);
    SingleLineTrim(x);
    if Trim(x) == "" {
      if TrimEnd(x) != "" {
        TrimEndKeepsStart(x);
        AllSpace(TrimEnd(x));
      }
      assert prefix[|prefix|..] == "";
    } else {
      assert TrimEnd(x) != "";
      assert TrimEnd(prefix + x)[|prefix|..] == TrimEnd(x);
    }
  }

  // A space behind the prefix makes no difference.
  lemma SpaceIsTrimmed(prefix: string, x: string)
    ensures prefix + " " + x == prefix + (" " + x) && Trim(" " + x) == Trim(x)
    ensures SingleLine(x) ==> SingleLine(" " + x)
  {
    assert (" " + x)[1..] == x;
  }

  lemma {:induction false} AllSpace(x: string)
    requires TrimStart(x) == "" && x != ""
    ensures IsSpace(x[|x| - 1])
  {
    if |x| > 1 {
      AllSpace(x[1..]);
    }
  }

  // ---- Lines of a file ----

  lemma OtherPrefix(a: string, b: string, line: string, k: nat)
    requires b <= line && k < |a| && k < |b| && a[k] != b[k]
    ensures AfterPrefix(a, line) == None
  {
    assert line[k] == b[k];
    if a <= line {
      assert false;
    }
  }

  lemma UrlLineIsRead(x: string)
    requires SingleLine(x)
    ensures Classify(TrimEnd(URL_PREFIX + x)) == if Reread(x).None? then OtherLine else UrlLine(Reread(x).value)
  {
    ReadAfterPrefix(URL_PREFIX, x);
    var line := TrimEnd(URL_PREFIX + x);
    if Trim(x) == "" {
      assert line == URL_PREFIX;
      OtherPrefix(SHA_PREFIX, URL_PREFIX, line, 2);
      OtherPrefix(SIZE_PREFIX, URL_PREFIX, line, 2);
      assert line[0] == ' ' && FILES_LINE[0] == 'f';
    } else {
      TrimIsTrimmed(x);
      TrimOfTrimmed(Trim(x));
    }
  }

  lemma ShaLineIsRead(x: string)
    requires SingleLine(x)
    ensures Classify(TrimEnd(SHA_PREFIX + x)) == if Reread(x).None? then OtherLine else ShaLine(Reread(x).value)
  {
    ReadAfterPrefix(SHA_PREFIX, x);
    var line := TrimEnd(SHA_PREFIX + x);
    OtherPrefix(URL_PREFIX, SHA_PREFIX, line, 2);
    if Trim(x) == "" {
      assert line == SHA_PREFIX;
      OtherPrefix(SIZE_PREFIX, SHA_PREFIX, line, 5);
      assert line[0] == ' ' && FILES_LINE[0] == 'f';
    } else {
      TrimIsTrimmed(x);
      TrimOfTrimmed(Trim(x));
    }
  }

  lemma NumberTextIsTrimmed(s: string)
    requires LooksLikeNumber(s)
    ensures Trim(s) == s && SingleLine(s) && s != ""
  {
    assert forall i :: 0 <= i < |s| ==> s[i] in s;
    assert forall c :: IsNumberChar(c) ==> !IsSpace(c) && !IsLineTerminator(c);
    TrimOfTrimmed(s);
  }

  lemma SizeTextIsRead(x: string)
    requires SingleLine(x)
    ensures Classify(TrimEnd(SIZE_PREFIX + x)) ==
              if Trim(x) != "" && AllDigits(Trim(x)) then SizeLine(ReadDigits(Trim(x))) else OtherLine
  {
    ReadAfterPrefix(SIZE_PREFIX, x);
    var line := TrimEnd(SIZE_PREFIX + x);
    OtherPrefix(URL_PREFIX, SIZE_PREFIX, line, 2);
    OtherPrefix(SHA_PREFIX, SIZE_PREFIX, line, 5);
    assert line[0] == SIZE_PREFIX[0] == ' ' && FILES_LINE[0] == 'f';
  }

  // A size is read back from its digits; one printed with an exponent is not recognised.
  lemma SizeLineIsRead(size: Number)
    requires IsNumber(size)
    ensures Classify(TrimEnd(SIZE_PREFIX + " " + NumberText(size)))
         == if PrintsDigits(size) then SizeLine(size) else OtherLine
  {
    var x := NumberText(size);
    NumberTextLooks(size);
    NumberTextIsTrimmed(x);
    PrintsDigitsIff(size);
    SpaceIsTrimmed(SIZE_PREFIX, x);
    SizeTextIsRead(" " + x);
  }

  // ---- Running over several lines ----

  lemma {:induction false} TakeLinesAppend(s: State, xs: seq<Line>, ys: seq<Line>)
    ensures TakeLines(s, xs + ys) ==
      (var mid := TakeLines(s, xs); if mid.Err? then mid else TakeLines(mid.value, ys))
    decreases |xs|
  {
    if xs == [] {
      assert xs + ys == ys;
    } else {
      assert (xs + ys)[1..] == xs[1..] + ys;
      var next := TakeLine(s, xs[0]);
      if next.Ok? {
        TakeLinesAppend(next.value, xs[1..], ys);
      }
    }
  }

  lemma ClassifyAppend(xs: seq<string>, ys: seq<string>)
    ensures ClassifyAll(xs + ys) == ClassifyAll(xs) + ClassifyAll(ys)
  {
  }

  // The printed lines of a file, classified.
  function Record(f: File): seq<Line> {
    var url, sha512 := Reread(f.url), Reread(f.sha512);
    [if url.None? then OtherLine else UrlLine(url.value), if sha512.None? then OtherLine else ShaLine(sha512.value),
     if PrintsDigits(f.size) then SizeLine(f.size) else OtherLine]
  }

  function Records(files: seq<File>): seq<Line> {
    if files == [] then [] else Record(files[0]) + Records(files[1..])
  }

  lemma FileLinesAreRecord(f: File)
    requires LegalFile(f)
    ensures ClassifyAll(FileLines(f)) == Record(f)
  {
    SpaceIsTrimmed(URL_PREFIX, f.url);
    UrlLineIsRead(" " + f.url);
    SpaceIsTrimmed(SHA_PREFIX, f.sha512);
    ShaLineIsRead(" " + f.sha512);
    SizeLineIsRead(f.size);
  }

  lemma {:induction false} FileLinesAreRecords(files: seq<File>)
    requires LegalFiles(files)
    ensures ClassifyAll(AllFileLines(files)) == Records(files)
  {
    if files == [] {
    } else {
      FileLinesAreRecord(files[0]);
      FileLinesAreRecords(files[1..]);
      ClassifyAppend(FileLines(files[0]), AllFileLines(files[1..]));
    }
  }

  // Between records: the file being read, if any, is complete.
  ghost predicate Settled(s: State) {
    Finish(s).Ok? && (s.current.Some? ==> s.inFiles)
  }

  // The state between records, as it will be once the file being read is finished.
  function Done(s: State): State
    requires Settled(s)
  {
    Finish(s).value.(inFiles := false)
  }

  // Reading the lines from s adds the given files, or fails if there are none to add.
  ghost predicate Adds(s: State, lines: seq<Line>, files: Option<seq<File>>)
    requires Settled(s)
  {
    var t := TakeLines(s, lines);
    if files.None? then t.Err?
    else t.Ok? && Settled(t.value) && Done(t.value) == Done(s).(files := Done(s).files + files.value)
  }

  lemma RecordIsTaken(s: State, f: File)
    requires Settled(s)
    ensures Adds(s, Record(f), if RereadFile(f).None? then None else Some([RereadFile(f).value]))
  {
    var r := Record(f);
    TakeThree(s, r[0], r[1], r[2]);
    if RereadFile(f).Some? {
      var t := TakeLines(s, r).value;
      assert t.current == Some(PartialFile(Reread(f.url).value, Some(Reread(f.sha512).value), Some(f.size)));
      assert t.files == Done(s).files;
    }
  }

  lemma TakeThree(s: State, a: Line, b: Line, c: Line)
    ensures TakeLines(s, [a, b, c]) ==
      (var x := TakeLine(s, a);
       if x.Err? then x else
       var y := TakeLine(x.value, b);
       if y.Err? then y else TakeLine(y.value, c))
  {
    assert [a, b, c] == [a] + ([b] + [c]);
    TakeOne(s, a);
    TakeLinesAppend(s, [a], [b] + [c]);
    var x := TakeLine(s, a);
    if x.Ok? {
      TakeOne(x.value, b);
      TakeLinesAppend(x.value, [b], [c]);
      var y := TakeLine(x.value, b);
      if y.Ok? {
        TakeOne(y.value, c);
      }
    }
  }

  lemma TakeOne(s: State, a: Line)
    ensures TakeLines(s, [a]) == TakeLine(s, a)
  {
    assert [a][1..] == [];
    var next := TakeLine(s, a);
    assert next.Ok? ==> TakeLines(next.value, []) == next;
  }

  lemma AddsBoth(s: State, xs: seq<Line>, ys: seq<Line>, first: seq<File>, rest: Option<seq<File>>)
    requires Settled(s) && Adds(s, xs, Some(first)) && Adds(TakeLines(s, xs).value, ys, rest)
    ensures Adds(s, xs + ys, if rest.None? then None else Some(first + rest.value))
  {
    TakeLinesAppend(s, xs, ys);
    if rest.Some? {
      assert Done(s).files + (first + rest.value) == Done(s).files + first + rest.value;
    }
  }

  lemma FailsFirst(s: State, xs: seq<Line>, ys: seq<Line>)
    requires Settled(s) && Adds(s, xs, None)
    ensures Adds(s, xs + ys, None)
  {
    TakeLinesAppend(s, xs, ys);
  }

  lemma {:induction false} RecordsAreTaken(s: State, files: seq<File>)
    requires Settled(s)
    ensures Adds(s, Records(files), RereadFiles(files))
    decreases |files|
  {
    if files == [] {
      assert Done(s).files + [] == Done(s).files;
    } else {
      var f, rest := files[0], files[1..];
      RecordIsTaken(s, f);
      var record := Record(f);
      if RereadFile(f).Some? {
        var t := TakeLines(s, record).value;
        RecordsAreTaken(t, rest);
        AddsBoth(s, record, Records(rest), [RereadFile(f).value], RereadFiles(rest));
      } else {
        FailsFirst(s, record, Records(rest));
      }
    }
  }

  // ---- Top-level lines ----

  lemma {:induction false} KeyRunOf(key: string, rest: string)
    requires forall i :: 0 <= i < |key| ==> IsKeyPart(key[i])
    requires rest != "" && !IsKeyPart(rest[0])
    ensures KeyRun(key + rest) == |key|
  {
    if key == "" {
      assert key + rest == rest;
    } else {
      assert (key + rest)[1..] == key[1..] + rest;
      KeyRunOf(key[1..], rest);
    }
  }

  // A line "key:value", trimmed, is classified as that entry.
  lemma EntryTextIsRead(key: string, x: string)
    requires key != "" && IsKeyStart(key[0]) && forall i :: 0 <= i < |key| ==> IsKeyPart(key[i])
    requires SingleLine(x)
    ensures Trim(x) == "" ==> TrimEnd(key + ":" + x) == key + ":"
    ensures Trim(x) != "" ==> Classify(TrimEnd(key + ":" + x)) == EntryLine(key, Trim(x))
  {
    var prefix := key + ":";
    assert prefix[|prefix| - 1] == ':';
    ReadAfterPrefix(prefix, x);
    if Trim(x) != "" {
      EntryClassified(key, TrimEnd(prefix + x), Trim(x));
    }
  }

  lemma EntryIsRead(key: string, x: string)
    requires key != "" && IsKeyStart(key[0]) && forall i :: 0 <= i < |key| ==> IsKeyPart(key[i])
    requires SingleLine(x)
    ensures Trim(x) == "" ==> TrimEnd(key + ": " + x) == key + ":"
    ensures Trim(x) != "" ==> Classify(TrimEnd(key + ": " + x)) == EntryLine(key, Trim(x))
  {
    assert key + ": " + x == key + ":" + (" " + x);
    SpaceIsTrimmed(key + ":", x);
    EntryTextIsRead(key, " " + x);
  }

  lemma EntryClassified(key: string, line: string, value: string)
    requires key != "" && IsKeyStart(key[0]) && forall i :: 0 <= i < |key| ==> IsKeyPart(key[i])
    requires key + ":" < line && AfterPrefix(key + ":", line) == Some(value)
    ensures Classify(line) == EntryLine(key, value)
  {
    assert line[0] == (key + ":")[0] == key[0] && line[0] != ' ';
    assert URL_PREFIX[0] == ' ' && SHA_PREFIX[0] == ' ' && SIZE_PREFIX[0] == ' ';
    NotFilesLine(line, key + ":");
    KeyIsRead(key, line, value);
  }

  lemma KeyIsRead(key: string, line: string, value: string)
    requires key != "" && IsKeyStart(key[0]) && forall i :: 0 <= i < |key| ==> IsKeyPart(key[i])
    requires key + ":" < line && AfterPrefix(key + ":", line) == Some(value)
    ensures KeyAndValue(line) == Some((key, value))
  {
    var rest := line[|key|..];
    assert line[..|key|] == (key + ":")[..|key|] == key;
    assert line == key + rest && rest[0] == (key + ":")[|key|] == ':';
    KeyRunOf(key, rest);
  }

  lemma NotFilesLine(line: string, prefix: string)
    requires prefix < line && prefix != "" && prefix[|prefix| - 1] == ':'
    ensures line != FILES_LINE
  {
    assert line[|prefix| - 1] == ':';
    assert |FILES_LINE| == 6 && forall i :: 0 <= i < 5 ==> FILES_LINE[i] != ':';
  }

  lemma UnescapeOfEscape(s: string)
    ensures Unescape(Escape(s)) == s
  {
    if s != "" {
      UnescapeOfEscape(s[1..]);
      var rest := Escape(s[1..]);
      if s[0] == QUOTE {
        assert Escape(s)[2..] == rest;
      } else {
        assert Escape(s)[1..] == rest;
      }
    }
  }

  lemma {:induction false} EscapeIsSingleLine(s: string)
    requires SingleLine(s)
    ensures SingleLine(Escape(s))
  {
    if s == "" {
    } else {
      EscapeIsSingleLine(s[1..]);
    }
  }

  lemma QuotedReadsBack(s: string)
    requires SingleLine(s)
    ensures SingleLine(QuoteYamlString(s)) && Trim(QuoteYamlString(s)) == QuoteYamlString(s)
    ensures ParseScalarValue(QuoteYamlString(s)) == Str(s)
  {
    EscapeIsSingleLine(s);
    UnescapeOfEscape(s);
    var q := QuoteYamlString(s);
    TrimOfTrimmed(q);
    assert q[1..|q| - 1] == Escape(s);
  }

  // ---- Scalars ----

  // Every scalar is read back from its printed form with its type, except a number printed with an
  // exponent.
  lemma ScalarReadsBack(value: Scalar)
    requires LegalScalar(value)
    ensures SingleLine(SerializeScalarValue(value)) && SerializeScalarValue(value) != ""
    ensures Trim(SerializeScalarValue(value)) == SerializeScalarValue(value)
    ensures ParseScalarValue(SerializeScalarValue(value)) == RereadScalar(value)
  {
    var text := SerializeScalarValue(value);
    match value
    case Str(t) => QuotedReadsBack(t);
    case Num(number) => NumberReadsBack(number);
    case Bool(b) => TrimOfTrimmed(text);
  }

  lemma NumberReadsBack(number: Number)
    requires IsNumber(number)
    ensures var text := NumberText(number);
            && SingleLine(text) && text != "" && Trim(text) == text
            && ParseScalarValue(text) == RereadScalar(Num(number))
  {
    var text := NumberText(number);
    NumberTextLooks(number);
    NumberTextIsTrimmed(text);
    NumberReadsBackIff(number);
    assert text[0] != QUOTE && text[0] != "true"[0] && text[0] != "false"[0];
  }

  lemma ExtraLineIsRead(key: string, value: Scalar)
    requires LegalKey(key) && LegalScalar(value)
    ensures Classify(TrimEnd(ExtraLine(key, value))) == EntryLine(key, SerializeScalarValue(value))
  {
    ScalarReadsBack(value);
    EntryIsRead(key, SerializeScalarValue(value));
  }

  // The printed line of an extra, classified.
  function Entry(key: string, value: Scalar): Line {
    EntryLine(key, SerializeScalarValue(value))
  }

  function Entries(keys: seq<string>, extras: map<string, Scalar>): seq<Line>
    requires forall k :: k in keys ==> k in extras
  {
    seq(|keys|, i requires 0 <= i < |keys| => Entry(keys[i], extras[keys[i]]))
  }

  lemma {:induction false} ExtraLinesAreEntries(keys: seq<string>, extras: map<string, Scalar>)
    requires LegalExtras(extras) && forall k :: k in keys ==> k in extras
    ensures ClassifyAll(ExtraLines(keys, extras)) == Entries(keys, extras)
  {
    if keys == [] {
    } else {
      var line := ExtraLine(keys[0], extras[keys[0]]);
      ExtraLinesAreEntries(keys[1..], extras);
      ExtraLineIsRead(keys[0], extras[keys[0]]);
      ClassifyCons(line, ExtraLines(keys[1..], extras));
      assert Entries(keys, extras) == [Entry(keys[0], extras[keys[0]])] + Entries(keys[1..], extras);
    }
  }

  lemma ClassifyCons(line: string, rest: seq<string>)
    ensures ClassifyAll([line] + rest) == [Classify(TrimEnd(line))] + ClassifyAll(rest)
  {
  }

  lemma EntryIsTaken(s: State, key: string, value: Scalar)
    requires Settled(s) && LegalKey(key) && LegalScalar(value)
    ensures TakeLine(s, Entry(key, value)) == Ok(Done(s).(extras := s.extras[key := RereadScalar(value)]))
  {
    ScalarReadsBack(value);
    TextIsTaken(s, key, SerializeScalarValue(value), RereadScalar(value));
  }

  lemma TextIsTaken(s: State, key: string, text: string, value: Scalar)
    requires Settled(s) && LegalKey(key) && ParseScalarValue(text) == value
    ensures TakeLine(s, EntryLine(key, text)) == Ok(Done(s).(extras := s.extras[key := value]))
  {
  }

  lemma TakeCons(s: State, line: Line, rest: seq<Line>, next: State)
    requires TakeLine(s, line) == Ok(next)
    ensures TakeLines(s, [line] + rest) == TakeLines(next, rest)
  {
    assert ([line] + rest)[1..] == rest;
  }

  function Select(keys: seq<string>, extras: map<string, Scalar>): map<string, Scalar>
    requires forall k :: k in keys ==> k in extras
  {
    map k | k in keys :: RereadScalar(extras[k])
  }

  lemma {:induction false} TakeChain(lines: seq<Line>, states: seq<State>)
    requires |states| == |lines| + 1
    requires forall i :: 0 <= i < |lines| ==> TakeLine(states[i], lines[i]) == Ok(states[i + 1])
    ensures TakeLines(states[0], lines) == Ok(states[|lines|])
  {
    if lines == [] {
    } else {
      TakeCons(states[0], lines[0], lines[1..], states[1]);
      assert lines == [lines[0]] + lines[1..];
      TakeChain(lines[1..], states[1..]);
    }
  }

  // The state after the first n extras.
  function AfterEntries(s: State, keys: seq<string>, extras: map<string, Scalar>, n: nat): State
    requires Settled(s) && n <= |keys| && forall k :: k in keys ==> k in extras
  {
    if n == 0 then s else Done(s).(extras := s.extras + Select(keys[..n], extras))
  }

  lemma NextEntryIsTaken(s: State, keys: seq<string>, extras: map<string, Scalar>, n: nat)
    requires Settled(s) && LegalExtras(extras) && n < |keys| && forall k :: k in keys ==> k in extras
    ensures TakeLine(AfterEntries(s, keys, extras, n), Entries(keys, extras)[n]) ==
        Ok(AfterEntries(s, keys, extras, n + 1))
  {
    var before := AfterEntries(s, keys, extras, n);
    EntryIsTaken(before, keys[n], extras[keys[n]]);
    NextSelected(s.extras, keys, extras, n);
    if n == 0 {
      assert s.extras + Select(keys[..0], extras) == s.extras;
    }
  }

  lemma NextSelected(given: map<string, Scalar>, keys: seq<string>, extras: map<string, Scalar>, n: nat)
    requires n < |keys| && forall k :: k in keys ==> k in extras
    ensures (given + Select(keys[..n], extras))[keys[n] := RereadScalar(extras[keys[n]])] ==
        given + Select(keys[..n + 1], extras)
  {
    assert keys[..n + 1] == keys[..n] + [keys[n]];
  }

  lemma EntriesAreTaken(s: State, keys: seq<string>, extras: map<string, Scalar>)
    requires Settled(s) && LegalExtras(extras) && forall k :: k in keys ==> k in extras
    ensures TakeLines(s, Entries(keys, extras)) == Ok(AfterEntries(s, keys, extras, |keys|))
  {
    var lines := Entries(keys, extras);
    var states := StatesAfter(s, keys, extras);
    forall i | 0 <= i < |lines| ensures TakeLine(states[i], lines[i]) == Ok(states[i + 1]) {
      NextEntryIsTaken(s, keys, extras, i);
    }
    TakeChain(lines, states);
  }

  function StatesAfter(s: State, keys: seq<string>, extras: map<string, Scalar>): (states: seq<State>)
    requires Settled(s) && forall k :: k in keys ==> k in extras
    ensures |states| == |keys| + 1
    ensures forall i :: 0 <= i <= |keys| ==> states[i] == AfterEntries(s, keys, extras, i)
  {
    seq(|keys| + 1, i requires 0 <= i <= |keys| => AfterEntries(s, keys, extras, i))
  }

  // ---- The whole manifest ----

  ghost predicate NoNewline(lines: seq<string>) {
    forall p :: p in lines ==> '\n' !in p
  }

  lemma {:induction false} FileLinesHaveNoNewline(files: seq<File>)
    requires LegalFiles(files)
    ensures NoNewline(AllFileLines(files))
  {
    if files == [] {
    } else {
      FileLinesHaveNoNewline(files[1..]);
      var f := files[0];
      assert LegalFile(f);
      NumberTextLooks(f.size);
      NumberTextIsTrimmed(NumberText(f.size));
      assert '\n' !in URL_PREFIX + " " && '\n' !in SHA_PREFIX + " " && '\n' !in SIZE_PREFIX + " ";
      assert NoNewline(FileLines(f));
    }
  }

  lemma {:induction false} ExtraLinesHaveNoNewline(keys: seq<string>, extras: map<string, Scalar>)
    requires LegalExtras(extras) && forall k :: k in keys ==> k in extras
    ensures NoNewline(ExtraLines(keys, extras))
  {
    if keys == [] {
    } else {
      var key := keys[0];
      ExtraLinesHaveNoNewline(keys[1..], extras);
      ScalarReadsBack(extras[key]);
      assert '\n' !in key by {
        assert LegalKey(key);
        assert forall i :: 0 <= i < |key| ==> key[i] != '\n';
      }
      assert '\n' !in ": ";
      assert '\n' !in ExtraLine(key, extras[key]);
    }
  }

  lemma LinesHaveNoNewline(m: Manifest, keys: seq<string>)
    requires Legal(m) && forall k :: k in keys ==> k in m.extras
    ensures NoNewline(Lines(m, keys))
  {
    FileLinesHaveNoNewline(m.files);
    ExtraLinesHaveNoNewline(keys, m.extras);
    FirstAndLastHaveNoNewline(m.version, m.releaseDate);
  }

  lemma FirstAndLastHaveNoNewline(version: string, date: string)
    requires SingleLine(version) && SingleLine(date)
    ensures NoNewline(["version: " + version, FILES_LINE])
    ensures NoNewline(["releaseDate: " + QuoteYamlString(date), ""])
  {
    QuotedReadsBack(date);
    assert '\n' !in "version: " && '\n' !in FILES_LINE && '\n' !in "releaseDate: ";
    assert '\n' !in "releaseDate: " + QuoteYamlString(date);
  }

  function VersionLine(version: string): Line {
    if Trim(version) == "" then OtherLine else EntryLine("version", Trim(version))
  }

  lemma VersionLineIsRead(version: string)
    requires SingleLine(version)
    ensures Classify(TrimEnd("version: " + version)) == VersionLine(version)
  {
    var key := "version";
    assert "version: " + version == key + ": " + version;
    EntryIsRead(key, version);
    if Trim(version) == "" {
      EmptyEntryIsNotRead(key);
    }
  }

  // "version:" with nothing behind it is no entry.
  lemma EmptyEntryIsNotRead(key: string)
    requires key == "version"
    ensures Classify(key + ":") == OtherLine
  {
    var line := key + ":";
    assert line[0] == 'v';
    assert URL_PREFIX[0] == ' ' && SHA_PREFIX[0] == ' ' && SIZE_PREFIX[0] == ' ' && FILES_LINE[0] == 'f';
    KeyRunOf(key, ":");
    assert line[..|key|] == key;
    assert line[|key + ":"|..] == "";
  }

  lemma DateLineIsRead(date: string)
    requires SingleLine(date)
    ensures Classify(TrimEnd("releaseDate: " + QuoteYamlString(date))) ==
        EntryLine("releaseDate", QuoteYamlString(date))
  {
    var key := "releaseDate";
    QuotedReadsBack(date);
    assert "releaseDate: " + QuoteYamlString(date) == key + ": " + QuoteYamlString(date);
    EntryIsRead(key, QuoteYamlString(date));
  }

  lemma FilesLineIsRead()
    ensures Classify(TrimEnd(FILES_LINE)) == FilesLine && Classify(TrimEnd("")) == Blank
  {
    assert FILES_LINE[0] == 'f' && URL_PREFIX[0] == ' ' && SHA_PREFIX[0] == ' ' && SIZE_PREFIX[0] == ' ';
    assert TrimEnd(FILES_LINE) == FILES_LINE by {
      assert FILES_LINE[5] == ':';
    }
  }

  // The lines of a printed manifest, classified.
  function Printed(m: Manifest, keys: seq<string>): seq<Line>
    requires forall k :: k in keys ==> k in m.extras
  {
    [VersionLine(m.version), FilesLine] + Records(m.files) + Entries(keys, m.extras)
    + [EntryLine("releaseDate", QuoteYamlString(m.releaseDate)), Blank]
  }

  lemma LinesArePrinted(m: Manifest, keys: seq<string>)
    requires Legal(m) && forall k :: k in keys ==> k in m.extras
    ensures ClassifyAll(Lines(m, keys)) == Printed(m, keys)
  {
    VersionLineIsRead(m.version);
    DateLineIsRead(m.releaseDate);
    FilesLineIsRead();
    FileLinesAreRecords(m.files);
    ExtraLinesAreEntries(keys, m.extras);
    var first, last := ["version: " + m.version, FILES_LINE], ["releaseDate: " + QuoteYamlString(m.releaseDate), ""];
    assert ClassifyAll(first) == [VersionLine(m.version), FilesLine];
    assert ClassifyAll(last) == [EntryLine("releaseDate", QuoteYamlString(m.releaseDate)), Blank];
    ClassifyAppend(first, AllFileLines(m.files));
    ClassifyAppend(first + AllFileLines(m.files), ExtraLines(keys, m.extras));
    ClassifyAppend(first + AllFileLines(m.files) + ExtraLines(keys, m.extras), last);
  }

  lemma ParsePrintedLines(m: Manifest, keys: seq<string>)
    requires Legal(m) && ListsKeys(keys, m.extras)
    ensures Parse(Serialize(m, keys)) ==
      (var end := TakeLines(START, Printed(m, SortStrings(keys)));
       if end.Err? then Err(end.error) else Conclude(end.value))
  {
    var sorted := SortStrings(keys);
    LinesHaveNoNewline(m, sorted);
    SplitOfJoin(Lines(m, sorted), '\n');
    LinesArePrinted(m, sorted);
  }

  // What comes back: the version as a scalar, every file with its fields read again, and the extras.
  function Reprinted(m: Manifest): Option<Manifest> {
    var version, files := ParseScalarValue(m.version), RereadFiles(m.files);
    if version.Str? && version.text != "" && files.Some? then
      Some(m.(version := version.text, files := files.value, extras := RereadExtras(m.extras)))
    else None
  }

  lemma VersionIsTaken(version: string)
    ensures var value := ParseScalarValue(version);
      if value.Str? && value.text != "" then
        TakeLine(START, VersionLine(version)) == Ok(START.(version := Some(value.text)))
      else if Trim(version) == "" || !value.Str? then TakeLine(START, VersionLine(version)).Err?
      else TakeLine(START, VersionLine(version)) == Ok(START.(version := Some("")))
  {
    TrimIsTrimmed(version);
    TrimOfTrimmed(Trim(version));
  }

  lemma DateIsTaken(s: State, date: string)
    requires Settled(s) && SingleLine(date)
    ensures TakeLine(s, EntryLine("releaseDate", QuoteYamlString(date))) == Ok(Done(s).(releaseDate := Some(date)))
  {
    QuotedReadsBack(date);
  }

  function LastLines(date: string): seq<Line> {
    [EntryLine("releaseDate", QuoteYamlString(date)), Blank]
  }

  lemma LastLinesAreTaken(s: State, date: string)
    requires Settled(s) && SingleLine(date)
    ensures TakeLines(s, LastLines(date)) == Ok(Done(s).(releaseDate := Some(date)))
  {
    DateIsTaken(s, date);
    var dateLine := LastLines(date)[0];
    var next := Done(s).(releaseDate := Some(date));
    TakeOne(next, Blank);
    TakeCons(s, dateLine, [Blank], next);
    assert LastLines(date) == [dateLine] + [Blank];
  }

  lemma ExtrasAndDateAreTaken(s: State, m: Manifest, keys: seq<string>)
    requires Settled(s) && Legal(m) && s.extras == map[]
    requires forall k :: k in keys <==> k in m.extras
    ensures TakeLines(s, Entries(keys, m.extras) + LastLines(m.releaseDate))
         == Ok(Done(s).(extras := RereadExtras(m.extras), releaseDate := Some(m.releaseDate)))
  {
    var entries, last := Entries(keys, m.extras), LastLines(m.releaseDate);
    EntriesAreTaken(s, keys, m.extras);
    var u := AfterEntries(s, keys, m.extras, |keys|);
    LastLinesAreTaken(u, m.releaseDate);
    assert keys[..|keys|] == keys;
    assert s.extras + Select(keys, m.extras) == RereadExtras(m.extras);
    TakeLinesAppend(s, entries, last);
  }

  lemma BodyIsTaken(s: State, m: Manifest, keys: seq<string>, records: seq<Line>, files: Option<seq<File>>)
    requires Settled(s) && Legal(m) && s.extras == map[] && Done(s).files == []
    requires forall k :: k in keys <==> k in m.extras
    requires Adds(s, records, files)
    ensures var end := TakeLines(s, records + (Entries(keys, m.extras) + LastLines(m.releaseDate)));
      if files.None? then end.Err?
      else end == Ok(Done(s).(
        files := files.value, extras := RereadExtras(m.extras), releaseDate := Some(m.releaseDate)))
  {
    var tail := Entries(keys, m.extras) + LastLines(m.releaseDate);
    TakeLinesAppend(s, records, tail);
    if files.Some? {
      assert [] + files.value == files.value;
      var t := TakeLines(s, records).value;
      ExtrasAndDateAreTaken(t, m, keys);
      assert Done(t).(files := files.value) == Done(s).(files := files.value);
    }
  }

  // The state after the lines of a printed manifest.
  ghost predicate PrintedEnd(m: Manifest, end: Result<State>) {
    var value, files := ParseScalarValue(m.version), RereadFiles(m.files);
    if !value.Str? || files.None? then end.Err?
    else if value.text != "" then
      end == Ok(State(files.value, None, false, Some(value.text), Some(m.releaseDate), RereadExtras(m.extras)))
    else end.Ok? ==> end.value.version == Some("") && end.value.current.None?
  }

  lemma PrintedIsTaken(m: Manifest, keys: seq<string>)
    requires Legal(m) && forall k :: k in keys <==> k in m.extras
    ensures PrintedEnd(m, TakeLines(START, Printed(m, keys)))
  {
    var version := VersionLine(m.version);
    var tail := Records(m.files) + (Entries(keys, m.extras) + LastLines(m.releaseDate));
    assert Printed(m, keys) == [version] + ([FilesLine] + tail);
    VersionIsTaken(m.version);
    TakeOne(START, version);
    TakeLinesAppend(START, [version], [FilesLine] + tail);
    var s := TakeLine(START, version);
    if s.Ok? {
      var next := s.value.(inFiles := true);
      TakeCons(s.value, FilesLine, tail, next);
      RecordsAreTaken(next, m.files);
      BodyIsTaken(next, m, keys, Records(m.files), RereadFiles(m.files));
    }
  }

  lemma {:induction false} RereadKeepsCount(files: seq<File>)
    requires RereadFiles(files).Some?
    ensures |RereadFiles(files).value| == |files|
  {
    if files == [] {
    } else {
      RereadKeepsCount(files[1..]);
    }
  }

  // What reading a printed manifest gives, exactly.
  lemma ParseOfSerialize(m: Manifest, keys: seq<string>)
    requires Legal(m) && ListsKeys(keys, m.extras)
    ensures Reprinted(m).Some? ==> Parse(Serialize(m, keys)) == Ok(Reprinted(m).value)
    ensures Reprinted(m).None? ==> Parse(Serialize(m, keys)).Err?
  {
    var sorted := SortStrings(keys);
    ParsePrintedLines(m, keys);
    PrintedIsTaken(m, sorted);
    PrintedConcludes(m, TakeLines(START, Printed(m, sorted)));
  }

  lemma PrintedConcludes(m: Manifest, end: Result<State>)
    requires Legal(m) && PrintedEnd(m, end)
    ensures Reprinted(m).Some? ==> end.Ok? && Conclude(end.value) == Ok(Reprinted(m).value)
    ensures Reprinted(m).None? && end.Ok? ==> Conclude(end.value).Err?
  {
    if RereadFiles(m.files).Some? {
      RereadKeepsCount(m.files);
    }
  }

  // Round trip: it comes back unchanged exactly when the version and every field of every file, which
  // are printed without quotes, read as themselves, and no number is printed with an exponent.
  lemma SurvivesIffPlain(m: Manifest, keys: seq<string>)
    requires Legal(m) && ListsKeys(keys, m.extras)
    ensures Parse(Serialize(m, keys)) == Ok(m) <==> Plain(m)
  {
    ParseOfSerialize(m, keys);
    RereadFilesIff(m.files);
    RereadExtrasIff(m.extras);
  }

  // ---- Whatever the parser accepts is legal ----

  lemma {:induction false} UnescapeIsSingleLine(s: string)
    requires SingleLine(s)
    ensures SingleLine(Unescape(s))
    decreases |s|
  {
    if |s| >= 2 && s[0] == QUOTE && s[1] == QUOTE {
      UnescapeIsSingleLine(s[2..]);
    } else if s != "" {
      UnescapeIsSingleLine(s[1..]);
    }
  }

  lemma StripIsSingleLine(s: string)
    requires SingleLine(s)
    ensures SingleLine(StripSingleQuotes(s))
  {
    if |s| > 1 {
      UnescapeIsSingleLine(s[1..|s| - 1]);
    }
  }

  lemma ParsedScalarIsLegal(raw: string)
    requires SingleLine(raw)
    ensures LegalScalar(ParseScalarValue(raw))
  {
    SingleLineTrim(raw);
    var trimmed := Trim(raw);
    if IsQuoted(trimmed) {
      UnescapeIsSingleLine(trimmed[1..|trimmed| - 1]);
    }
    if IsNumeral(trimmed) {
      ReadIsNumber(trimmed);
    }
  }

  ghost predicate LegalLine(line: Line) {
    match line
    case UrlLine(url) => SingleLine(url)
    case ShaLine(sha512) => SingleLine(sha512)
    case SizeLine(size) => IsNumber(size)
    case EntryLine(key, value) =>
      key != "" && IsKeyStart(key[0]) && (forall i :: 0 <= i < |key| ==> IsKeyPart(key[i])) && SingleLine(value)
    case _ => true
  }

  lemma FieldIsSingleLine(value: string)
    requires SingleLine(value)
    ensures SingleLine(StripSingleQuotes(Trim(value)))
  {
    SingleLineTrim(value);
    StripIsSingleLine(Trim(value));
  }

  lemma ClassifiedIsLegal(line: string)
    ensures LegalLine(Classify(line))
  {
    var url, sha512 := AfterPrefix(URL_PREFIX, line), AfterPrefix(SHA_PREFIX, line);
    if url.Some? {
      FieldIsSingleLine(url.value);
    } else if sha512.Some? {
      FieldIsSingleLine(sha512.value);
    } else {
      var size := AfterPrefix(SIZE_PREFIX, line);
      if size.Some? && AllDigits(size.value) {
        WholeReads(size.value, false);
        ReadIsNumber(size.value);
      }
    }
  }

  ghost predicate LegalPartial(p: PartialFile) {
    && SingleLine(p.url) && (p.sha512.Some? ==> SingleLine(p.sha512.value))
    && (p.size.Some? ==> IsNumber(p.size.value))
  }

  ghost predicate LegalState(s: State) {
    && LegalFiles(s.files) && LegalExtras(s.extras)
    && (s.current.Some? ==> LegalPartial(s.current.value))
    && (s.version.Some? ==> SingleLine(s.version.value))
    && (s.releaseDate.Some? ==> SingleLine(s.releaseDate.value))
  }

  lemma FinishStaysLegal(s: State)
    requires LegalState(s)
    ensures Finish(s).Ok? ==> LegalState(Finish(s).value)
  {
  }

  lemma EntryStaysLegal(s: State, key: string, value: string)
    requires LegalState(s) && LegalLine(EntryLine(key, value))
    ensures var t := TakeEntry(s, key, ParseScalarValue(value)); t.Ok? ==> LegalState(t.value)
  {
    ParsedScalarIsLegal(value);
    var scalar := ParseScalarValue(value);
    assert LegalKey(key) || key in {"version", "releaseDate", "path", "sha512"};
  }

  lemma LineStaysLegal(s: State, line: Line)
    requires LegalState(s) && LegalLine(line)
    ensures TakeLine(s, line).Ok? ==> LegalState(TakeLine(s, line).value)
  {
    FinishStaysLegal(s);
    match line {
      case EntryLine(key, value) =>
        var done := LeaveFiles(s);
        if done.Ok? {
          EntryStaysLegal(done.value, key, value);
        }
      case _ =>
    }
  }

  lemma {:induction false} LinesStayLegal(s: State, lines: seq<Line>)
    requires LegalState(s) && forall line :: line in lines ==> LegalLine(line)
    ensures TakeLines(s, lines).Ok? ==> LegalState(TakeLines(s, lines).value)
    decreases |lines|
  {
    if lines == [] {
    } else {
      assert LegalLine(lines[0]);
      LineStaysLegal(s, lines[0]);
      var next := TakeLine(s, lines[0]);
      if next.Ok? {
        LinesStayLegal(next.value, lines[1..]);
      }
    }
  }

  lemma ParsedIsLegal(raw: string)
    requires Parse(raw).Ok?
    ensures Legal(Parse(raw).value)
  {
    var lines := Split(raw, '\n');
    var classified := ClassifyAll(lines);
    forall line | line in classified ensures LegalLine(line) {
      var i :| 0 <= i < |lines| && line == Classify(TrimEnd(lines[i]));
      ClassifiedIsLegal(TrimEnd(lines[i]));
    }
    LinesStayLegal(START, classified);
    FinishStaysLegal(TakeLines(START, classified).value);
  }

  // A manifest file that was accepted can be rewritten without loss exactly when what was read is plain.
  lemma RewriteIsLosslessIff(raw: string, keys: seq<string>)
    requires Parse(raw).Ok? && ListsKeys(keys, Parse(raw).value.extras)
    ensures Parse(Serialize(Parse(raw).value, keys)) == Parse(raw) <==> Plain(Parse(raw).value)
  {
    ParsedIsLegal(raw);
    SurvivesIffPlain(Parse(raw).value, keys);
  }

  // ---- What plain means, in terms a caller can check ----

  lemma {:induction false} UnescapeIsNoLonger(s: string)
    ensures |Unescape(s)| <= |s|
    decreases |s|
  {
    if s == "" {
    } else if |s| >= 2 && s[0] == QUOTE && s[1] == QUOTE {
      UnescapeIsNoLonger(s[2..]);
    } else {
      UnescapeIsNoLonger(s[1..]);
    }
  }

  lemma TrimIsNoLonger(s: string)
    ensures |Trim(s)| <= |s| && (Trim(s) == s <==> Trimmed(s))
  {
    TrimIsTrimmed(s);
    TrimEndKeepsStart(TrimStart(s));
    TrimStartIsNoLonger(s);
    if Trimmed(s) {
      TrimOfTrimmed(s);
    }
  }

  lemma {:induction false} TrimStartIsNoLonger(s: string)
    ensures |TrimStart(s)| <= |s|
  {
    if s == "" || !IsSpace(s[0]) {
    } else {
      TrimStartIsNoLonger(s[1..]);
    }
  }

  // A version survives exactly if it is trimmed, unquoted, no boolean and no numeral.
  lemma PlainVersionIff(version: string)
    ensures PlainVersion(version) <==>
            && Trimmed(version) && !IsQuoted(version)
            && version != "true" && version != "false" && !IsNumeral(version)
  {
    TrimIsNoLonger(version);
    var trimmed := Trim(version);
    if IsQuoted(trimmed) {
      UnescapeIsNoLonger(trimmed[1..|trimmed| - 1]);
    }
  }

  // A URL or hash survives exactly if it is nonempty, trimmed, and does not both start and end with a
  // quote.
  lemma PlainFieldIff(value: string)
    ensures Reread(value) == Some(value) <==>
            value != "" && Trimmed(value) && !(value[0] == QUOTE && value[|value| - 1] == QUOTE)
  {
    TrimIsNoLonger(value);
    var trimmed := Trim(value);
    if |trimmed| > 1 {
      UnescapeIsNoLonger(trimmed[1..|trimmed| - 1]);
    }
  }

  // ---- What does not survive ----

  // A version that looks like a number was quoted in the file read; printed bare, it is refused.
  lemma QuotedVersionIsNotPlain()
    ensures ParseScalarValue("'2'") == Str("2") && !PlainVersion("2")
  {
    var q := "'2'";
    TrimOfTrimmed(q);
    assert q[1..2] == "2";
    assert Unescape("2") == "2" by {
      assert "2"[1..] == "";
    }
    TrimOfTrimmed("2");
    assert DigitRun("2") == 1;
  }

  // An extra of ten to the power of 21 is read as a number, printed as 1e+21, and read back as a string.
  lemma LargeNumberIsNotPlain()
    ensures var raw := "1" + Zeros(21);
            && ParseScalarValue(raw) == Num(Finite(false, "1", 22))
            && SerializeScalarValue(ParseScalarValue(raw)) == "1e+21"
            && ParseScalarValue("1e+21") == Str("1e+21")
  {
    LargeNumeralReads("1" + Zeros(21));
    Ten21Text();
    ScalarReadsBack(Num(Finite(false, "1", 22)));
  }

  lemma LargeNumeralReads(raw: string)
    requires raw == "1" + Zeros(21)
    ensures ParseScalarValue(raw) == Num(Finite(false, "1", 22)) && IsNumber(Finite(false, "1", 22))
  {
    assert raw == Zeros(0) + ("1" + Zeros(21));
    NormalizedOf(raw, false, 0, "1", 21, 22);
    WholeReads(raw, false);
    DigitsLook(raw);
    NumberTextIsTrimmed(raw);
    Ten21IsNumber();
    assert raw[0] == '1' && raw[0] != QUOTE && raw[0] != "true"[0] && raw[0] != "false"[0];
  }
}
