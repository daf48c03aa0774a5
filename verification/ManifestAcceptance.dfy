// Which files the manifest parser accepts, and what it reads from them, said without its state.
module ManifestAcceptance {
  import opened Text
  import opened Manifest
  import opened ManifestRoundTrip

  // ---- Records ----

  predicate Inner(line: Line) {
    line.Blank? || line.FilesLine? || line.ShaLine? || line.SizeLine?
  }

  predicate Field(line: Line) {
    line.ShaLine? || line.SizeLine?
  }

  // The lines up to the next URL line, entry or unsupported line.
  function Body(lines: seq<Line>): (r: seq<Line>)
    ensures r <= lines && forall line :: line in r ==> Inner(line)
    ensures |r| < |lines| ==> !Inner(lines[|r|])
  {
    if lines == [] || !Inner(lines[0]) then [] else [lines[0]] + Body(lines[1..])
  }

  function LastSha(body: seq<Line>): Option<string> {
    if body == [] then None
    else
      var later := LastSha(body[1..]);
      if later.Some? then later else if body[0].ShaLine? then Some(body[0].sha512) else None
  }

  function LastSize(body: seq<Line>): Option<Doubles.Number> {
    if body == [] then None
    else
      var later := LastSize(body[1..]);
      if later.Some? then later else if body[0].SizeLine? then Some(body[0].size) else None
  }

  // A record for each URL line, with the last hash and the last size of its body.
  function RecordsOf(lines: seq<Line>): seq<PartialFile> {
    if lines == [] then []
    else if lines[0].UrlLine? then
      [PartialFile(lines[0].url, LastSha(Body(lines[1..])), LastSize(Body(lines[1..])))] + RecordsOf(lines[1..])
    else RecordsOf(lines[1..])
  }

  predicate Complete(p: PartialFile) {
    p.sha512.Some? && p.size.Some?
  }

  function FilesOf(records: seq<PartialFile>): seq<File>
    requires forall p :: p in records ==> Complete(p)
  {
    if records == [] then []
    else
      assert records[0] in records && Complete(records[0]);
      [File(records[0].url, records[0].sha512.value, records[0].size.value)] + FilesOf(records[1..])
  }

  // The line at i stands in the record that the URL line at u opens.
  ghost predicate Belongs(lines: seq<Line>, u: nat, i: nat) {
    u < i < |lines| && lines[u].UrlLine? && forall j :: u < j <= i ==> Inner(lines[j])
  }

  ghost predicate Stray(lines: seq<Line>, i: nat) {
    i < |lines| && Field(lines[i]) && forall u: nat :: u < i ==> !Belongs(lines, u, i)
  }

  // ---- Entries ----

  // The value of the last entry with the key.
  function LastValue(lines: seq<Line>, key: string): Option<Scalar> {
    if lines == [] then None
    else
      var later := LastValue(lines[1..], key);
      if later.Some? then later
      else if lines[0].EntryLine? && lines[0].key == key then Some(ParseScalarValue(lines[0].value))
      else None
  }

  const TEXT_KEYS := {"version", "releaseDate"}
  const SKIPPED_KEYS := {"path", "sha512"}

  predicate NotText(line: Line) {
    line.EntryLine? && line.key in TEXT_KEYS && !ParseScalarValue(line.value).Str?
  }

  predicate HasText(lines: seq<Line>, key: string) {
    match LastValue(lines, key)
    case Some(Str(text)) => text != ""
    case _ => false
  }

  function Keys(lines: seq<Line>): set<string> {
    set line | line in lines && line.EntryLine? :: line.key
  }

  // The last values of all keys but the reserved ones.
  function ExtrasOf(lines: seq<Line>, reserved: set<string>): map<string, Scalar> {
    map key | key in Keys(lines) && key !in reserved && LastValue(lines, key).Some? :: LastValue(lines, key).value
  }

  // ---- What is accepted ----

  // What each error means.
  ghost predicate Fault(e: Error, lines: seq<Line>) {
    match e
    case UnsupportedLine => OtherLine in lines
    case FieldWithoutFile => exists i: nat :: Stray(lines, i)
    case IncompleteFile => exists p :: p in RecordsOf(lines) && !Complete(p)
    case NotAString => exists line :: line in lines && NotText(line)
    case MissingVersion => WellFormed(lines) && !HasText(lines, "version")
    case MissingReleaseDate => WellFormed(lines) && HasText(lines, "version") && !HasText(lines, "releaseDate")
    case MissingFiles =>
      WellFormed(lines) && HasText(lines, "version") && HasText(lines, "releaseDate") && RecordsOf(lines) == []
    case _ => false
  }

  // Every line is supported, hashes and sizes stand in records, records are complete, and the version and
  // the date are strings wherever they occur.
  ghost predicate WellFormed(lines: seq<Line>) {
    && OtherLine !in lines
    && (forall i :: 0 <= i < |lines| ==> !Stray(lines, i))
    && (forall p :: p in RecordsOf(lines) ==> Complete(p))
    && (forall line :: line in lines ==> !NotText(line))
  }

  ghost predicate Accepted(lines: seq<Line>) {
    WellFormed(lines) && HasText(lines, "version") && HasText(lines, "releaseDate") && RecordsOf(lines) != []
  }

  ghost function Contents(lines: seq<Line>): Manifest
    requires Accepted(lines)
  {
    Manifest(LastValue(lines, "version").value.text, LastValue(lines, "releaseDate").value.text,
             FilesOf(RecordsOf(lines)), ExtrasOf(lines, TEXT_KEYS + SKIPPED_KEYS))
  }

  // ---- One record ----

  function Or<T>(later: Option<T>, earlier: Option<T>): Option<T> {
    if later.Some? then later else earlier
  }

  lemma {:induction false} BodyIsTaken(s: State, body: seq<Line>)
    requires s.current.Some? && s.inFiles && forall line :: line in body ==> Inner(line)
    ensures var p := s.current.value;
            TakeLines(s, body)
            == Ok(s.(current := Some(PartialFile(p.url, Or(LastSha(body), p.sha512), Or(LastSize(body), p.size)))))
    decreases |body|
  {
    if body == [] {
    } else {
      assert body[0] in body;
      BodyIsTaken(TakeLine(s, body[0]).value, body[1..]);
    }
  }

  // All the lines, and then the record being read.
  function Total(s: State, lines: seq<Line>): Result<State> {
    var end := TakeLines(s, lines);
    if end.Err? then end else Finish(end.value)
  }

  // A record that ends here may as well have been finished before.
  lemma RecordEnds(s: State, lines: seq<Line>)
    requires s.current.Some? && s.inFiles && (lines != [] ==> !Inner(lines[0]))
    ensures Total(s, lines) == if Finish(s).Err? then Finish(s) else Total(Finish(s).value, lines)
  {
  }

  lemma RecordIsTaken(s: State, lines: seq<Line>)
    requires s.current.None? && lines != [] && lines[0].UrlLine?
    ensures var body := Body(lines[1..]);
            var p := PartialFile(lines[0].url, LastSha(body), LastSize(body));
            Total(s, lines) ==
              if !Complete(p) then Err(IncompleteFile)
              else Total(s.(files := s.files + FilesOf([p]), inFiles := true), lines[1 + |body|..])
  {
    var body, rest := Body(lines[1..]), lines[1 + |Body(lines[1..])|..];
    var p := PartialFile(lines[0].url, LastSha(body), LastSize(body));
    var open := s.(current := Some(PartialFile(lines[0].url, None, None)), inFiles := true);
    assert lines[1..] == body + rest;
    BodyIsTaken(open, body);
    TakeLinesAppend(open, body, rest);
    var read := s.(current := Some(p), inFiles := true);
    assert TakeLine(s, lines[0]) == Ok(open);
    assert TakeLines(open, body) == Ok(read);
    assert Total(s, lines) == Total(read, rest);
    RecordEnds(read, rest);
    if Complete(p) {
      assert [p][1..] == [];
      assert Finish(read).value == s.(files := s.files + FilesOf([p]), inFiles := true);
    }
  }

  // ---- Line by line ----

  // Where reading goes on after the first line, or after the first record.
  ghost predicate Cut(lines: seq<Line>, k: nat) {
    1 <= k <= |lines| && k == if lines[0].UrlLine? then 1 + |Body(lines[1..])| else 1
  }

  lemma {:induction false} NothingInBody(body: seq<Line>, rest: seq<Line>, key: string)
    requires forall line :: line in body ==> Inner(line)
    ensures RecordsOf(body + rest) == RecordsOf(rest) && LastValue(body + rest, key) == LastValue(rest, key)
  {
    if body == [] {
      assert body + rest == rest;
    } else {
      assert body[0] in body && (body + rest)[1..] == body[1..] + rest;
      NothingInBody(body[1..], rest, key);
    }
  }

  lemma CutLines(lines: seq<Line>, k: nat)
    requires Cut(lines, k)
    ensures lines == lines[..k] + lines[k..] && forall line :: line in lines[1..k] ==> Inner(line)
    ensures forall line :: line in lines <==> line in lines[..k] || line in lines[k..]
    ensures forall line :: line in lines[..k] && !Inner(line) ==> line == lines[0]
    ensures lines[0].UrlLine? && k < |lines| ==> !Inner(lines[k])
  {
    assert lines[..k] == [lines[0]] + lines[1..k];
    if lines[0].UrlLine? {
      assert lines[1..k] == Body(lines[1..]);
    }
  }

  lemma CutRecords(lines: seq<Line>, k: nat)
    requires Cut(lines, k)
    ensures var body := Body(lines[1..]);
            RecordsOf(lines) ==
              (if lines[0].UrlLine? then [PartialFile(lines[0].url, LastSha(body), LastSize(body))] else [])
              + RecordsOf(lines[k..])
  {
    CutLines(lines, k);
    assert lines[1..] == lines[1..k] + lines[k..];
    NothingInBody(lines[1..k], lines[k..], "");
  }

  lemma CutValue(lines: seq<Line>, k: nat, key: string)
    requires Cut(lines, k)
    ensures LastValue(lines, key) ==
              Or(LastValue(lines[k..], key),
                 if lines[0].EntryLine? && lines[0].key == key then Some(ParseScalarValue(lines[0].value)) else None)
  {
    CutLines(lines, k);
    assert lines[1..] == lines[1..k] + lines[k..];
    NothingInBody(lines[1..k], lines[k..], key);
  }

  lemma CutStrays(lines: seq<Line>, k: nat)
    requires Cut(lines, k)
    ensures forall i: nat :: Stray(lines[k..], i) ==> Stray(lines, i + k)
    ensures forall i: nat :: Stray(lines, i) ==> (i == 0 && Field(lines[0])) || (i >= k && Stray(lines[k..], i - k))
    ensures Field(lines[0]) ==> Stray(lines, 0)
  {
    CutLines(lines, k);
    forall i: nat | Stray(lines[k..], i) ensures Stray(lines, i + k) {
      StrayLater(lines, k, i);
    }
    forall i: nat | Stray(lines, i)
      ensures (i == 0 && Field(lines[0])) || (i >= k && Stray(lines[k..], i - k))
    {
      StrayBefore(lines, k, i);
    }
  }

  lemma StrayLater(lines: seq<Line>, k: nat, i: nat)
    requires Cut(lines, k) && Stray(lines[k..], i)
    ensures Stray(lines, i + k)
  {
    CutLines(lines, k);
    assert forall j :: 0 < j < k ==> lines[j] in lines[1..k];
    if !Stray(lines, i + k) {
      var u: nat :| u < i + k && Belongs(lines, u, i + k);
      BelongsInTail(lines, k, u, i + k);
    }
  }

  lemma BelongsInTail(lines: seq<Line>, k: nat, u: nat, i: nat)
    requires k <= i < |lines|
    ensures u >= k ==> (Belongs(lines[k..], u - k, i - k) <==> Belongs(lines, u, i))
  {
    assert forall j :: k <= j < |lines| ==> lines[j] == lines[k..][j - k];
  }

  lemma StrayBefore(lines: seq<Line>, k: nat, i: nat)
    requires Cut(lines, k) && Stray(lines, i)
    ensures (i == 0 && Field(lines[0])) || (i >= k && Stray(lines[k..], i - k))
  {
    if i >= k {
      if !Stray(lines[k..], i - k) {
        var u: nat :| u < i - k && Belongs(lines[k..], u, i - k);
        BelongsInTail(lines, k, u + k, i);
      }
    } else if i > 0 {
      BodyBelongs(lines, k, i);
    }
  }

  lemma BodyBelongs(lines: seq<Line>, k: nat, i: nat)
    requires Cut(lines, k) && 0 < i < k
    ensures Belongs(lines, 0, i)
  {
    CutLines(lines, k);
    assert forall j :: 0 < j <= i ==> lines[j] in lines[1..k];
  }

  // ---- The whole file ----

  function TextOf(value: Option<Scalar>): Option<string> {
    match value
    case Some(Str(text)) => Some(text)
    case _ => None
  }

  // The state that well-formed lines lead to.
  ghost function Extended(s: State, lines: seq<Line>, inFiles: bool): State
    requires WellFormed(lines)
  {
    State(s.files + FilesOf(RecordsOf(lines)), None, inFiles,
          Or(TextOf(LastValue(lines, "version")), s.version),
          Or(TextOf(LastValue(lines, "releaseDate")), s.releaseDate),
          s.extras + ExtrasOf(lines, TEXT_KEYS + SKIPPED_KEYS))
  }

  ghost predicate LineFault(e: Error, lines: seq<Line>) {
    e in {UnsupportedLine, FieldWithoutFile, IncompleteFile, NotAString} && Fault(e, lines)
  }

  ghost predicate Reads(s: State, lines: seq<Line>) {
    match Total(s, lines)
    case Err(e) => LineFault(e, lines)
    case Ok(end) => WellFormed(lines) && end == Extended(s, lines, end.inFiles)
  }

  // Faults behind the cut are faults, and others are in front of it.
  lemma CutFaults(lines: seq<Line>, k: nat)
    requires Cut(lines, k)
    ensures forall e :: LineFault(e, lines[k..]) ==> LineFault(e, lines)
    ensures var record := PartialFile(if lines[0].UrlLine? then lines[0].url else "",
                                      LastSha(Body(lines[1..])), LastSize(Body(lines[1..])));
            WellFormed(lines) <==>
              && WellFormed(lines[k..]) && !Field(lines[0]) && !lines[0].OtherLine? && !NotText(lines[0])
              && (lines[0].UrlLine? ==> Complete(record))
  {
    CutLines(lines, k);
    CutRecords(lines, k);
    CutStrays(lines, k);
  }

  lemma {:induction false} ValueIsOfEntry(lines: seq<Line>, key: string)
    ensures LastValue(lines, key).Some? ==> exists line :: line in lines && line.EntryLine? && line.key == key
  {
    if lines == [] {
    } else {
      ValueIsOfEntry(lines[1..], key);
      assert lines[0] in lines && forall line :: line in lines[1..] ==> line in lines;
    }
  }

  function EntryOf(line: Line, reserved: set<string>): map<string, Scalar> {
    if line.EntryLine? && line.key !in reserved then map[line.key := ParseScalarValue(line.value)] else map[]
  }

  lemma CutExtras(lines: seq<Line>, k: nat, reserved: set<string>)
    requires Cut(lines, k)
    ensures ExtrasOf(lines, reserved) == EntryOf(lines[0], reserved) + ExtrasOf(lines[k..], reserved)
  {
    var all, first, rest := ExtrasOf(lines, reserved), EntryOf(lines[0], reserved), ExtrasOf(lines[k..], reserved);
    forall key
      ensures key in all <==> key in first || key in rest
      ensures key in all ==> all[key] == if key in rest then rest[key] else first[key]
    {
      CutKey(lines, k, key);
      CutValue(lines, k, key);
      ValueIsOfEntry(lines[k..], key);
    }
  }

  lemma CutKey(lines: seq<Line>, k: nat, key: string)
    requires Cut(lines, k)
    ensures key in Keys(lines) <==> (lines[0].EntryLine? && lines[0].key == key) || key in Keys(lines[k..])
  {
    CutLines(lines, k);
    assert lines[0] in lines;
  }

  // What is left to read after the first line or record is read from t.
  lemma CutReads(s: State, lines: seq<Line>, k: nat, t: State)
    requires Cut(lines, k) && Total(s, lines) == Total(t, lines[k..]) && Reads(t, lines[k..])
    requires WellFormed(lines[k..]) ==>
               WellFormed(lines) && forall b :: Extended(t, lines[k..], b) == Extended(s, lines, b)
    ensures Reads(s, lines)
  {
    CutFaults(lines, k);
  }

  lemma EntryIsTaken(s: State, line: Line)
    requires s.current.None? && line.EntryLine?
    ensures var t, value := TakeLine(s, line), ParseScalarValue(line.value);
            if NotText(line) then t == Err(NotAString)
            else t == Ok(State(s.files, None, false,
                               if line.key == "version" then TextOf(Some(value)) else s.version,
                               if line.key == "releaseDate" then TextOf(Some(value)) else s.releaseDate,
                               s.extras + EntryOf(line, TEXT_KEYS + SKIPPED_KEYS)))
  {
    assert LeaveFiles(s) == Ok(s.(inFiles := false));
    assert s.extras + map[] == s.extras;
    var value := ParseScalarValue(line.value);
    assert s.extras + map[line.key := value] == s.extras[line.key := value];
  }

  lemma EntryReads(s: State, lines: seq<Line>)
    requires s.current.None? && lines != [] && lines[0].EntryLine?
    requires var t := TakeLine(s, lines[0]); t.Ok? ==> t.value.current.None? && Reads(t.value, lines[1..])
    ensures Reads(s, lines)
  {
    var t := TakeLine(s, lines[0]);
    CutFaults(lines, 1);
    EntryIsTaken(s, lines[0]);
    if NotText(lines[0]) {
      assert lines[0] in lines;
    } else {
      if WellFormed(lines[1..]) {
        EntryExtends(s, lines, t.value);
      }
      CutReads(s, lines, 1, t.value);
    }
  }

  lemma EntryExtends(s: State, lines: seq<Line>, t: State)
    requires s.current.None? && lines != [] && lines[0].EntryLine? && TakeLine(s, lines[0]) == Ok(t)
    requires WellFormed(lines) && WellFormed(lines[1..])
    ensures forall b :: Extended(t, lines[1..], b) == Extended(s, lines, b)
  {
    EntryIsTaken(s, lines[0]);
    CutRecords(lines, 1);
    TextExtends(lines, "version", s.version);
    TextExtends(lines, "releaseDate", s.releaseDate);
    CutExtras(lines, 1, TEXT_KEYS + SKIPPED_KEYS);
    AddThree(s.extras, EntryOf(lines[0], TEXT_KEYS + SKIPPED_KEYS), ExtrasOf(lines[1..], TEXT_KEYS + SKIPPED_KEYS));
  }

  lemma AddThree(a: map<string, Scalar>, b: map<string, Scalar>, c: map<string, Scalar>)
    ensures a + b + c == a + (b + c)
  {
  }

  lemma TextExtends(lines: seq<Line>, key: string, before: Option<string>)
    requires lines != [] && lines[0].EntryLine? && key in TEXT_KEYS && WellFormed(lines[1..])
    ensures Or(TextOf(LastValue(lines, key)), before) ==
              Or(TextOf(LastValue(lines[1..], key)),
                 if lines[0].key == key then Or(TextOf(Some(ParseScalarValue(lines[0].value))), before) else before)
  {
    CutValue(lines, 1, key);
    LastIsText(lines[1..], key);
  }

  lemma {:induction false} LastIsText(lines: seq<Line>, key: string)
    requires key in TEXT_KEYS && forall line :: line in lines ==> !NotText(line)
    ensures LastValue(lines, key).Some? ==> LastValue(lines, key).value.Str?
  {
    if lines == [] {
    } else {
      assert lines[0] in lines && !NotText(lines[0]);
      LastIsText(lines[1..], key);
    }
  }

  lemma PlainLineReads(s: State, lines: seq<Line>)
    requires s.current.None? && lines != [] && !lines[0].EntryLine? && !lines[0].UrlLine?
    requires Inner(lines[0]) && !Field(lines[0]) ==>
               TakeLine(s, lines[0]).Ok? && Reads(TakeLine(s, lines[0]).value, lines[1..])
    ensures Reads(s, lines)
  {
    CutFaults(lines, 1);
    CutStrays(lines, 1);
    assert lines[0] in lines;
    if Inner(lines[0]) && !Field(lines[0]) {
      var t := TakeLine(s, lines[0]).value;
      CutRecords(lines, 1);
      if WellFormed(lines[1..]) {
        SameEntries(s, lines, 1);
        assert forall b :: Extended(t, lines[1..], b) == Extended(s, lines, b);
      }
      CutReads(s, lines, 1, t);
    }
  }

  // What is read from entries lies behind a first line that is none.
  lemma SameEntries(s: State, lines: seq<Line>, k: nat)
    requires Cut(lines, k) && !lines[0].EntryLine?
    requires WellFormed(lines) && WellFormed(lines[k..])
    ensures var rest := lines[k..];
            forall b :: Extended(s, lines, b) ==
                        Extended(s, rest, b).(files := s.files + FilesOf(RecordsOf(lines)))
  {
    CutValue(lines, k, "version");
    CutValue(lines, k, "releaseDate");
    NoEntryExtra(lines, k, TEXT_KEYS + SKIPPED_KEYS);
  }

  lemma NoEntryExtra(lines: seq<Line>, k: nat, reserved: set<string>)
    requires Cut(lines, k) && !lines[0].EntryLine?
    ensures ExtrasOf(lines, reserved) == ExtrasOf(lines[k..], reserved)
  {
    CutExtras(lines, k, reserved);
    assert map[] + ExtrasOf(lines[k..], reserved) == ExtrasOf(lines[k..], reserved);
  }

  lemma RecordReads(s: State, lines: seq<Line>)
    requires s.current.None? && lines != [] && lines[0].UrlLine?
    requires forall t: State :: t.current.None? ==> Reads(t, lines[1 + |Body(lines[1..])|..])
    ensures Reads(s, lines)
  {
    var body := Body(lines[1..]);
    var k := 1 + |body|;
    var p := PartialFile(lines[0].url, LastSha(body), LastSize(body));
    RecordIsTaken(s, lines);
    CutFaults(lines, k);
    CutRecords(lines, k);
    if !Complete(p) {
      assert p in RecordsOf(lines);
    } else {
      var t := s.(files := s.files + FilesOf([p]), inFiles := true);
      if WellFormed(lines[k..]) {
        RecordExtends(s, lines, k, p);
      }
      CutReads(s, lines, k, t);
    }
  }

  lemma RecordExtends(s: State, lines: seq<Line>, k: nat, p: PartialFile)
    requires Cut(lines, k) && lines[0].UrlLine? && WellFormed(lines) && WellFormed(lines[k..])
    requires p == PartialFile(lines[0].url, LastSha(Body(lines[1..])), LastSize(Body(lines[1..]))) && Complete(p)
    ensures forall b ::
      Extended(s.(files := s.files + FilesOf([p]), inFiles := true), lines[k..], b) == Extended(s, lines, b)
  {
    CutRecords(lines, k);
    SameEntries(s, lines, k);
    assert ([p] + RecordsOf(lines[k..]))[1..] == RecordsOf(lines[k..]) && [p][1..] == [];
    assert FilesOf(RecordsOf(lines)) == FilesOf([p]) + FilesOf(RecordsOf(lines[k..]));
  }

  lemma {:induction false} LinesAreRead(s: State, lines: seq<Line>)
    requires s.current.None?
    ensures Reads(s, lines)
    decreases |lines|
  {
    if lines == [] {
      assert s.extras + map[] == s.extras;
    } else if lines[0].UrlLine? {
      forall t: State | t.current.None? ensures Reads(t, lines[1 + |Body(lines[1..])|..]) {
        LinesAreRead(t, lines[1 + |Body(lines[1..])|..]);
      }
      RecordReads(s, lines);
    } else {
      var t := TakeLine(s, lines[0]);
      if t.Ok? {
        LinesAreRead(t.value, lines[1..]);
      }
      if lines[0].EntryLine? {
        EntryReads(s, lines);
      } else {
        PlainLineReads(s, lines);
      }
    }
  }

  // The parser accepts a file exactly if its lines meet the conditions, then reads exactly its contents,
  // and otherwise names a fault that the file has.
  lemma AcceptsIff(raw: string)
    ensures var lines := ClassifyAll(Split(raw, '\n'));
            && (Parse(raw).Ok? <==> Accepted(lines))
            && (Parse(raw).Ok? ==> Parse(raw).value == Contents(lines))
            && (Parse(raw).Err? ==> Fault(Parse(raw).error, lines))
  {
    var lines := ClassifyAll(Split(raw, '\n'));
    LinesAreRead(START, lines);
    ParseIsConcluded(raw);
    if Total(START, lines).Ok? {
      WellFormedConcludes(lines, Total(START, lines).value);
    }
  }

  lemma ParseIsConcluded(raw: string)
    ensures var total := Total(START, ClassifyAll(Split(raw, '\n')));
            Parse(raw) == if total.Err? then Err(total.error) else Conclude(total.value)
  {
  }

  lemma WellFormedConcludes(lines: seq<Line>, end: State)
    requires WellFormed(lines) && end == Extended(START, lines, end.inFiles)
    ensures var result := Conclude(end);
            && (result.Ok? <==> Accepted(lines))
            && (result.Ok? ==> result.value == Contents(lines))
            && (result.Err? ==> Fault(result.error, lines))
  {
    LastIsText(lines, "version");
    LastIsText(lines, "releaseDate");
    var extras := ExtrasOf(lines, TEXT_KEYS + SKIPPED_KEYS);
    assert map[] + extras == extras;
    assert Finish(end) == Ok(end);
  }

  // A quoted URL or hash is read as what was quoted.
  lemma QuotedFieldIsRead(x: string)
    requires SingleLine(x)
    ensures Reread(QuoteYamlString(x)) == Some(x)
  {
    QuotedReadsBack(x);
    UnescapeOfEscape(x);
    var q := QuoteYamlString(x);
    assert q[1..|q| - 1] == Escape(x);
  }
}
