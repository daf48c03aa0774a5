// The macOS update manifest: its line-by-line parser, its printer, and the merge of two of them.
module Manifest {
  import opened Text
  import opened Decimal
  import opened Doubles

  datatype File = File(url: string, sha512: string, size: Number)

  datatype Scalar = Str(text: string) | Num(number: Number) | Bool(value: bool)

  datatype Manifest = Manifest(version: string, releaseDate: string, files: seq<File>, extras: map<string, Scalar>)

  datatype Error = IncompleteFile | FieldWithoutFile | UnsupportedLine | NotAString | MissingVersion
                 | MissingReleaseDate | MissingFiles | DifferentVersions | ConflictingFile | ConflictingExtra

  datatype Result<+T> = Ok(value: T) | Err(error: Error)

  // ---- Scalars ----

  const QUOTE: char := '\''

  function Unescape(s: string): string {
    if |s| >= 2 && s[0] == QUOTE && s[1] == QUOTE then [QUOTE] + Unescape(s[2..])
    else if s == "" then ""
    else [s[0]] + Unescape(s[1..])
  }

  function Escape(s: string): string {
    if s == "" then "" else (if s[0] == QUOTE then [QUOTE, QUOTE] else [s[0]]) + Escape(s[1..])
  }

  function QuoteYamlString(s: string): string {
    [QUOTE] + Escape(s) + [QUOTE]
  }

  // Unlike the scalar parser, this strips a lone quote down to nothing.
  function StripSingleQuotes(s: string): string {
    if s != "" && s[0] == QUOTE && s[|s| - 1] == QUOTE then
      if |s| == 1 then "" else Unescape(s[1..|s| - 1])
    else s
  }

  predicate IsQuoted(s: string) {
    |s| >= 2 && s[0] == QUOTE && s[|s| - 1] == QUOTE
  }

  function ParseScalarValue(raw: string): Scalar {
    var trimmed := Trim(raw);
    if IsQuoted(trimmed) then Str(Unescape(trimmed[1..|trimmed| - 1]))
    else if trimmed == "true" then Bool(true)
    else if trimmed == "false" then Bool(false)
    else if IsNumeral(trimmed) then Num(ReadNumber(trimmed))
    else Str(trimmed)
  }

  function SerializeScalarValue(value: Scalar): string {
    match value
    case Str(text) => QuoteYamlString(text)
    case Num(number) => NumberText(number)
    case Bool(b) => if b then "true" else "false"
  }

  // ---- Lines ----

  // Characters that "." does not match.
  predicate IsLineTerminator(c: char) {
    c == '\n' || c == '\r' || c as int == 0x2028 || c as int == 0x2029
  }

  predicate SingleLine(s: string) {
    forall c :: c in s ==> !IsLineTerminator(c)
  }

  // prefix, optional white space, then at least one character, up to the end of the line.
  function AfterPrefix(prefix: string, line: string): Option<string> {
    if prefix <= line then
      var rest := TrimStart(line[|prefix|..]);
      if rest != "" && SingleLine(rest) then Some(rest) else None
    else None
  }

  predicate IsKeyStart(c: char) {
    IsLetter(c)
  }

  predicate IsKeyPart(c: char) {
    IsLetter(c) || IsDigit(c)
  }

  function KeyRun(s: string): (n: nat)
    ensures n <= |s|
    ensures n < |s| ==> !IsKeyPart(s[n])
    ensures forall i :: 0 <= i < n ==> IsKeyPart(s[i])
  {
    if s == "" || !IsKeyPart(s[0]) then 0 else 1 + KeyRun(s[1..])
  }

  // A top-level "key: value" line.
  function KeyAndValue(line: string): Option<(string, string)> {
    if line == "" || !IsKeyStart(line[0]) then None
    else
      var n := KeyRun(line);
      var value := AfterPrefix(line[..n] + ":", line);
      if value.None? then None else Some((line[..n], value.value))
  }

  const URL_PREFIX := "  - url:"
  const SHA_PREFIX := "    sha512:"
  const SIZE_PREFIX := "    size:"
  const FILES_LINE := "files:"

  datatype Line = Blank | UrlLine(url: string) | ShaLine(sha512: string) | SizeLine(size: Number) | FilesLine
                | EntryLine(key: string, value: string) | OtherLine

  function Classify(line: string): Line {
    if line == "" then Blank
    else if AfterPrefix(URL_PREFIX, line).Some? then
      UrlLine(StripSingleQuotes(Trim(AfterPrefix(URL_PREFIX, line).value)))
    else if AfterPrefix(SHA_PREFIX, line).Some? then
      ShaLine(StripSingleQuotes(Trim(AfterPrefix(SHA_PREFIX, line).value)))
    else if AfterPrefix(SIZE_PREFIX, line).Some? && AllDigits(AfterPrefix(SIZE_PREFIX, line).value) then
      SizeLine(ReadDigits(AfterPrefix(SIZE_PREFIX, line).value))
    else if line == FILES_LINE then FilesLine
    else
      var entry := KeyAndValue(line);
      if entry.None? then OtherLine else EntryLine(entry.value.0, entry.value.1)
  }

  // ---- Parser ----

  datatype PartialFile = PartialFile(url: string, sha512: Option<string>, size: Option<Number>)

  datatype State = State(
    files: seq<File>, current: Option<PartialFile>, inFiles: bool,
    version: Option<string>, releaseDate: Option<string>, extras: map<string, Scalar>)

  const START := State([], None, false, None, None, map[])

  function ParseFileRecord(p: PartialFile): Result<File> {
    if p.sha512.None? || p.size.None? then Err(IncompleteFile) else Ok(File(p.url, p.sha512.value, p.size.value))
  }

  // Moves the file being read, if any, to the finished ones.
  function Finish(s: State): Result<State> {
    if s.current.None? then Ok(s)
    else
      match ParseFileRecord(s.current.value)
      case Err(e) => Err(e)
      case Ok(file) => Ok(s.(files := s.files + [file], current := None))
  }

  function TakeEntry(s: State, key: string, value: Scalar): Result<State> {
    if key == "version" then
      if value.Str? then Ok(s.(version := Some(value.text))) else Err(NotAString)
    else if key == "releaseDate" then
      if value.Str? then Ok(s.(releaseDate := Some(value.text))) else Err(NotAString)
    else if key == "path" || key == "sha512" then Ok(s)
    else Ok(s.(extras := s.extras[key := value]))
  }

  function TakeLine(s: State, line: Line): Result<State> {
    match line
    case Blank => Ok(s)
    case UrlLine(url) =>
      var done := Finish(s);
      if done.Err? then done else Ok(done.value.(current := Some(PartialFile(url, None, None)), inFiles := true))
    case ShaLine(sha512) =>
      if s.current.None? then Err(FieldWithoutFile)
      else Ok(s.(current := Some(s.current.value.(sha512 := Some(sha512)))))
    case SizeLine(size) =>
      if s.current.None? then Err(FieldWithoutFile) else Ok(s.(current := Some(s.current.value.(size := Some(size)))))
    case FilesLine => Ok(s.(inFiles := true))
    case OtherLine =>
      var done := LeaveFiles(s);
      if done.Err? then done else Err(UnsupportedLine)
    case EntryLine(key, value) =>
      var done := LeaveFiles(s);
      if done.Err? then done else TakeEntry(done.value, key, ParseScalarValue(value))
  }

  function LeaveFiles(s: State): Result<State> {
    var done := if s.inFiles && s.current.Some? then Finish(s) else Ok(s);
    if done.Err? then done else Ok(done.value.(inFiles := false))
  }

  function TakeLines(s: State, lines: seq<Line>): Result<State>
    decreases |lines|
  {
    if lines == [] then Ok(s)
    else
      var next := TakeLine(s, lines[0]);
      if next.Err? then next else TakeLines(next.value, lines[1..])
  }

  function ClassifyAll(lines: seq<string>): (r: seq<Line>)
    ensures |r| == |lines|
  {
    seq(|lines|, i requires 0 <= i < |lines| => Classify(TrimEnd(lines[i])))
  }

  function Conclude(s: State): Result<Manifest> {
    match Finish(s)
    case Err(e) => Err(e)
    case Ok(done) =>
      if done.version.None? || done.version.value == "" then Err(MissingVersion)
      else if done.releaseDate.None? || done.releaseDate.value == "" then Err(MissingReleaseDate)
      else if done.files == [] then Err(MissingFiles)
      else Ok(Manifest(done.version.value, done.releaseDate.value, done.files, done.extras))
  }

  // Lines end at a newline; a carriage return before it is white space that every line loses anyway.
  function Parse(raw: string): Result<Manifest> {
    var end := TakeLines(START, ClassifyAll(Split(raw, '\n')));
    if end.Err? then Err(end.error) else Conclude(end.value)
  }

  method ParseMacUpdateManifest(raw: string) returns (result: Result<Manifest>)
    ensures result == Parse(raw)
  {
    var lines := Split(raw, '\n');
    var state := START;
    ghost var all := ClassifyAll(lines);
    assert all[0..] == all;
    for index := 0 to |lines|
      invariant TakeLines(state, all[index..]) == TakeLines(START, all)
    {
      assert all[index..][1..] == all[index + 1..];
      var next := TakeLine(state, Classify(TrimEnd(lines[index])));
      if next.Err? {
        return Err(next.error);
      }
      state := next.value;
    }
    return Conclude(state);
  }

  // ---- Printer ----

  function FileLines(file: File): seq<string> {
    [URL_PREFIX + " " + file.url, SHA_PREFIX + " " + file.sha512, SIZE_PREFIX + " " + NumberText(file.size)]
  }

  function AllFileLines(files: seq<File>): seq<string> {
    if files == [] then [] else FileLines(files[0]) + AllFileLines(files[1..])
  }

  function ExtraLine(key: string, value: Scalar): string {
    key + ": " + SerializeScalarValue(value)
  }

  function ExtraLines(keys: seq<string>, extras: map<string, Scalar>): seq<string>
    requires forall k :: k in keys ==> k in extras
  {
    if keys == [] then [] else [ExtraLine(keys[0], extras[keys[0]])] + ExtraLines(keys[1..], extras)
  }

  // The lines of a manifest whose extra keys are printed in the given order.
  function Lines(m: Manifest, keys: seq<string>): seq<string>
    requires forall k :: k in keys ==> k in m.extras
  {
    ["version: " + m.version, FILES_LINE] + AllFileLines(m.files) + ExtraLines(keys, m.extras)
    + ["releaseDate: " + QuoteYamlString(m.releaseDate), ""]
  }

  // JavaScript's string order.
  predicate StringAtMost(a: string, b: string) {
    a == "" || (b != "" && (a[0] < b[0] || (a[0] == b[0] && StringAtMost(a[1..], b[1..]))))
  }

  function InsertString(s: string, sorted: seq<string>): (r: seq<string>)
    ensures forall x :: x in r <==> x == s || x in sorted
  {
    if sorted == [] || StringAtMost(s, sorted[0]) then [s] + sorted else [sorted[0]] + InsertString(s, sorted[1..])
  }

  function SortStrings(ss: seq<string>): (r: seq<string>)
    ensures forall x :: x in r <==> x in ss
  {
    if ss == [] then [] else InsertString(ss[0], SortStrings(ss[1..]))
  }

  // The keys of the extras in some order, each once, as Object.keys lists them.
  ghost predicate ListsKeys(keys: seq<string>, extras: map<string, Scalar>) {
    && (forall k :: k in keys <==> k in extras)
    && (forall i, j :: 0 <= i < j < |keys| ==> keys[i] != keys[j])
  }

  lemma {:induction false} InsertedMembers(s: string, ss: seq<string>)
    ensures multiset(InsertString(s, ss)) == multiset{s} + multiset(ss)
  {
    if ss == [] {
    } else {
      assert ss == [ss[0]] + ss[1..];
      if !StringAtMost(s, ss[0]) {
        InsertedMembers(s, ss[1..]);
      }
    }
  }

  lemma {:induction false} SortedMembers(ss: seq<string>)
    ensures multiset(SortStrings(ss)) == multiset(ss)
  {
    if ss == [] {
    } else {
      SortedMembers(ss[1..]);
      InsertedMembers(ss[0], SortStrings(ss[1..]));
      assert ss == [ss[0]] + ss[1..];
    }
  }

  function Serialize(m: Manifest, keys: seq<string>): string
    requires forall k :: k in keys ==> k in m.extras
  {
    Join(Lines(m, SortStrings(keys)), "\n")
  }

  method SerializeMacUpdateManifest(m: Manifest, keys: seq<string>) returns (text: string)
    requires forall k :: k in keys ==> k in m.extras
    ensures text == Serialize(m, keys)
  {
    var lines := ["version: " + m.version, FILES_LINE];
    lines := PushFiles(lines, m.files);
    lines := PushExtras(lines, SortStrings(keys), m.extras);
    lines := lines + ["releaseDate: " + QuoteYamlString(m.releaseDate), ""];
    text := Join(lines, "\n");
  }

  method PushFiles(lines: seq<string>, files: seq<File>) returns (r: seq<string>)
    ensures r == lines + AllFileLines(files)
  {
    r := lines;
    for i := 0 to |files|
      invariant r + AllFileLines(files[i..]) == lines + AllFileLines(files)
    {
      assert files[i..][1..] == files[i + 1..];
      r := r + FileLines(files[i]);
    }
  }

  method PushExtras(lines: seq<string>, keys: seq<string>, extras: map<string, Scalar>) returns (r: seq<string>)
    requires forall k :: k in keys ==> k in extras
    ensures r == lines + ExtraLines(keys, extras)
  {
    r := lines;
    for i := 0 to |keys|
      invariant forall k :: k in keys[i..] ==> k in extras
      invariant r + ExtraLines(keys[i..], extras) == lines + ExtraLines(keys, extras)
    {
      assert keys[i] in keys[i..];
      assert keys[i..][1..] == keys[i + 1..];
      r := r + [ExtraLine(keys[i], extras[keys[i]])];
    }
  }

  // ---- Merge ----

  // Adds each file unless one with its URL is there already; two different files with one URL are
  // a conflict.
  function MergeFiles(merged: seq<File>, files: seq<File>): Result<seq<File>>
    decreases |files|
  {
    if files == [] then Ok(merged)
    else if exists f :: f in merged && f.url == files[0].url && f != files[0] then Err(ConflictingFile)
    else MergeFiles(if files[0] in merged then merged else merged + [files[0]], files[1..])
  }

  // A key is in conflict if the primary has another value for it, or if it lacks the key but every
  // object inherits one by that name.
  predicate ExtraConflicts(primary: map<string, Scalar>, key: string, value: Scalar) {
    if key in primary then primary[key] != value else key in INHERITED_NAMES
  }

  function MergeExtras(primary: map<string, Scalar>, secondary: map<string, Scalar>): Result<map<string, Scalar>> {
    if exists k :: k in secondary && ExtraConflicts(primary, k, secondary[k]) then Err(ConflictingExtra)
    else Ok(primary + secondary)
  }

  method CombineExtras(
      primary: map<string, Scalar>, secondary: map<string, Scalar>) returns (r: Result<map<string, Scalar>>)
    ensures r == MergeExtras(primary, secondary)
  {
    var merged := primary;
    var left := secondary.Keys;
    while left != {}
      invariant left <= secondary.Keys
      invariant merged == primary + (map k | k in secondary && k !in left :: secondary[k])
      invariant forall k :: k in secondary && k !in left ==> !ExtraConflicts(primary, k, secondary[k])
    {
      var k :| k in left;
      if ExtraConflicts(merged, k, secondary[k]) {
        return Err(ConflictingExtra);
      }
      merged := merged[k := secondary[k]];
      left := left - {k};
    }
    assert (map k | k in secondary && k !in left :: secondary[k]) == secondary;
    return Ok(merged);
  }

  function LaterDate(primary: Manifest, secondary: Manifest): string {
    var p, s := primary.releaseDate, secondary.releaseDate;
    if StringAtMost(s, p) then p else s
  }

  function Merge(primary: Manifest, secondary: Manifest): Result<Manifest> {
    if primary.version != secondary.version then Err(DifferentVersions)
    else
      var files := MergeFiles([], primary.files + secondary.files);
      if files.Err? then Err(files.error)
      else
        var extras := MergeExtras(primary.extras, secondary.extras);
        if extras.Err? then Err(extras.error)
        else Ok(Manifest(primary.version,
                         LaterDate(primary, secondary),
                         files.value, extras.value))
  }

  // The values of an insertion-ordered map, in order.
  function Values(order: seq<string>, byUrl: map<string, File>): seq<File>
    requires forall url :: url in order ==> url in byUrl
  {
    seq(|order|, i requires 0 <= i < |order| => byUrl[order[i]])
  }

  method MergeFilesByUrl(files: seq<File>) returns (r: Result<seq<File>>)
    ensures r == MergeFiles([], files)
  {
    var order: seq<string> := [];
    var byUrl: map<string, File> := map[];
    assert files[0..] == files && Values(order, byUrl) == [];
    for i := 0 to |files|
      invariant forall url :: url in order <==> url in byUrl
      invariant forall url :: url in byUrl ==> byUrl[url].url == url
      invariant MergeFiles(Values(order, byUrl), files[i..]) == MergeFiles([], files)
    {
      var file := files[i];
      ghost var merged := Values(order, byUrl);
      assert files[i..][0] == file && files[i..][1..] == files[i + 1..];
      assert forall f :: f in merged ==> f.url in byUrl && f == byUrl[f.url];
      if file.url in byUrl {
        var k :| 0 <= k < |order| && order[k] == file.url;
        assert merged[k] == byUrl[file.url];
        if byUrl[file.url] != file {
          return Err(ConflictingFile);
        }
        assert byUrl[file.url := file] == byUrl;
      } else {
        assert Values(order + [file.url], byUrl[file.url := file]) == merged + [file];
        order := order + [file.url];
      }
      byUrl := byUrl[file.url := file];
    }
    return Ok(Values(order, byUrl));
  }

  method MergeMacUpdateManifests(primary: Manifest, secondary: Manifest) returns (r: Result<Manifest>)
    ensures r == Merge(primary, secondary)
  {
    if primary.version != secondary.version {
      return Err(DifferentVersions);
    }
    var files := MergeFilesByUrl(primary.files + secondary.files);
    if files.Err? {
      return Err(files.error);
    }
    var extras := CombineExtras(primary.extras, secondary.extras);
    if extras.Err? {
      return Err(extras.error);
    }
    var releaseDate := LaterDate(primary, secondary);
    return Ok(Manifest(primary.version, releaseDate, files.value, extras.value));
  }
}
