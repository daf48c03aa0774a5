// When two manifests can be merged, what the merge holds, and that it can be written and read back.
module ManifestMerge {
  import opened Text
  import opened Manifest
  import opened ManifestRoundTrip

  // ---- Files ----

  ghost predicate OneFilePerUrl(files: seq<File>) {
    forall f, g :: f in files && g in files && f.url == g.url ==> f == g
  }

  ghost predicate DistinctUrls(files: seq<File>) {
    forall i, j :: 0 <= i < j < |files| ==> files[i].url != files[j].url
  }

  ghost predicate SameFiles(a: seq<File>, b: seq<File>) {
    forall f :: f in a <==> f in b
  }

  // A merge succeeds exactly when the files have one content per URL, and then holds each once.
  ghost predicate Merged(r: Result<seq<File>>, merged: seq<File>, files: seq<File>) {
    && (r.Ok? <==> OneFilePerUrl(files))
    && (r.Ok? ==> DistinctUrls(r.value) && SameFiles(r.value, files) && merged <= r.value)
  }

  lemma {:induction false} MergeFilesIff(merged: seq<File>, files: seq<File>)
    requires DistinctUrls(merged)
    ensures Merged(MergeFiles(merged, files), merged, merged + files)
    decreases |files|
  {
    if files == [] {
      assert merged + files == merged;
    } else {
      var f, rest := files[0], files[1..];
      assert merged + [f] + rest == merged + files;
      if exists g :: g in merged && g.url == f.url && g != f {
        var g :| g in merged && g.url == f.url && g != f;
        assert g in merged + files && f in merged + files;
      } else if f in merged {
        MergeFilesIff(merged, rest);
      } else {
        MergeFilesIff(merged + [f], rest);
      }
    }
  }

  // Files that are all new are added in order; files that are all present change nothing.
  lemma {:induction false} AllNew(merged: seq<File>, files: seq<File>)
    requires DistinctUrls(merged + files)
    ensures MergeFiles(merged, files) == Ok(merged + files)
    decreases |files|
  {
    if files == [] {
      assert merged + files == merged;
    } else {
      var f, rest := files[0], files[1..];
      assert merged + [f] + rest == merged + files;
      assert (merged + files)[|merged|] == f;
      forall g | g in merged ensures g.url != f.url {
        var i :| 0 <= i < |merged| && merged[i] == g;
        assert (merged + files)[i] == g;
      }
      AllNew(merged + [f], rest);
    }
  }

  lemma {:induction false} AllPresent(merged: seq<File>, files: seq<File>)
    requires DistinctUrls(merged) && forall f :: f in files ==> f in merged
    ensures MergeFiles(merged, files) == Ok(merged)
    decreases |files|
  {
    if files == [] {
    } else {
      AllPresent(merged, files[1..]);
    }
  }

  lemma {:induction false} MergeInTwo(merged: seq<File>, xs: seq<File>, ys: seq<File>)
    ensures MergeFiles(merged, xs + ys) ==
      (var mid := MergeFiles(merged, xs); if mid.Err? then mid else MergeFiles(mid.value, ys))
    decreases |xs|
  {
    if xs == [] {
      assert xs + ys == ys;
    } else {
      assert (xs + ys)[1..] == xs[1..] + ys;
      MergeInTwo(if xs[0] in merged then merged else merged + [xs[0]], xs[1..], ys);
    }
  }

  // ---- The whole merge ----

  ghost predicate ExtrasAgree(primary: map<string, Scalar>, secondary: map<string, Scalar>) {
    && (forall k :: k in primary && k in secondary ==> primary[k] == secondary[k])
    && (forall k :: k in secondary && k !in primary ==> k !in INHERITED_NAMES)
  }

  ghost predicate Compatible(p: Manifest, s: Manifest) {
    p.version == s.version && OneFilePerUrl(p.files + s.files) && ExtrasAgree(p.extras, s.extras)
  }

  // A merge is the union: each file of either, once per URL; each extra of either; the later date.
  ghost predicate IsUnion(m: Manifest, p: Manifest, s: Manifest) {
    && m.version == p.version == s.version
    && DistinctUrls(m.files) && SameFiles(m.files, p.files + s.files)
    && m.extras.Keys == p.extras.Keys + s.extras.Keys
    && (forall k :: k in p.extras ==> m.extras[k] == p.extras[k])
    && (forall k :: k in s.extras ==> m.extras[k] == s.extras[k])
    && m.releaseDate in {p.releaseDate, s.releaseDate}
    && StringAtMost(p.releaseDate, m.releaseDate) && StringAtMost(s.releaseDate, m.releaseDate)
  }

  lemma MergesIffCompatible(p: Manifest, s: Manifest)
    ensures Merge(p, s).Ok? <==> Compatible(p, s)
    ensures Merge(p, s).Ok? ==> IsUnion(Merge(p, s).value, p, s)
  {
    MergeFilesIff([], p.files + s.files);
    assert [] + (p.files + s.files) == p.files + s.files;
    LaterDateIsLater(p, s);
    MergeExtrasIff(p.extras, s.extras);
  }

  lemma LaterDateIsLater(p: Manifest, s: Manifest)
    ensures var date := LaterDate(p, s);
            && date in {p.releaseDate, s.releaseDate}
            && StringAtMost(p.releaseDate, date) && StringAtMost(s.releaseDate, date)
  {
    AtMostIsTotal(p.releaseDate, s.releaseDate);
    AtMostIsTotal(p.releaseDate, p.releaseDate);
    AtMostIsTotal(s.releaseDate, s.releaseDate);
  }

  lemma MergeExtrasIff(p: map<string, Scalar>, s: map<string, Scalar>)
    ensures MergeExtras(p, s).Ok? <==> ExtrasAgree(p, s)
    ensures MergeExtras(p, s).Ok? ==> MergeExtras(p, s).value == p + s
    ensures ExtrasAgree(p, s) ==> forall k :: k in p ==> (p + s)[k] == p[k]
  {
    assert ExtrasAgree(p, s) <==> !exists k :: k in s && ExtraConflicts(p, k, s[k]);
  }

  // Merging a manifest with itself gives it back exactly when no URL is listed twice.
  lemma MergeWithItselfIff(m: Manifest)
    ensures Merge(m, m) == Ok(m) <==> DistinctUrls(m.files)
  {
    MergesIffCompatible(m, m);
    if DistinctUrls(m.files) {
      MergeInTwo([], m.files, m.files);
      assert [] + m.files == m.files;
      AllNew([], m.files);
      AllPresent(m.files, m.files);
      assert m.extras + m.extras == m.extras;
    }
  }

  // Merging again with either part changes nothing, so a merge is a fixed point.
  lemma MergeAbsorbs(p: Manifest, s: Manifest)
    requires Merge(p, s).Ok?
    ensures var m := Merge(p, s).value; Merge(m, p) == Ok(m) && Merge(m, s) == Ok(m)
  {
    var m := Merge(p, s).value;
    MergesIffCompatible(p, s);
    AbsorbsPart(m, p);
    AbsorbsPart(m, s);
  }

  lemma AbsorbsPart(m: Manifest, part: Manifest)
    requires DistinctUrls(m.files) && m.version == part.version && StringAtMost(part.releaseDate, m.releaseDate)
    requires forall f :: f in part.files ==> f in m.files
    requires forall k :: k in part.extras ==> k in m.extras && m.extras[k] == part.extras[k]
    ensures Merge(m, part) == Ok(m)
  {
    MergeInTwo([], m.files, part.files);
    assert [] + m.files == m.files;
    AllNew([], m.files);
    AllPresent(m.files, part.files);
    assert m.extras + part.extras == m.extras;
  }

  // The order of the two matters only for extras named like a member that every object inherits.
  lemma SwappedMergeIff(p: Manifest, s: Manifest)
    requires Merge(p, s).Ok?
    ensures Merge(s, p).Ok? <==> forall k :: k in p.extras && k !in s.extras ==> k !in INHERITED_NAMES
    ensures Merge(s, p).Ok? ==>
      var a, b := Merge(p, s).value, Merge(s, p).value;
      a.(files := b.files) == b && SameFiles(a.files, b.files)
  {
    MergesIffCompatible(p, s);
    MergesIffCompatible(s, p);
    assert SameFiles(p.files + s.files, s.files + p.files);
    if Merge(s, p).Ok? {
      var a, b := Merge(p, s).value, Merge(s, p).value;
      AtMostIsTotal(p.releaseDate, s.releaseDate);
      if StringAtMost(p.releaseDate, s.releaseDate) && StringAtMost(s.releaseDate, p.releaseDate) {
        AtMostIsAntisymmetric(p.releaseDate, s.releaseDate);
      }
      assert a.extras == b.extras;
    }
  }

  // Such an extra merges from the primary but not from the secondary.
  lemma InheritedNameIsOneSided()
    ensures var extras := map["constructor" := Bool(true)];
      MergeExtras(extras, map[]) == Ok(extras) && MergeExtras(map[], extras).Err?
  {
    var extras := map["constructor" := Bool(true)];
    assert "constructor" in extras && ExtraConflicts(map[], "constructor", extras["constructor"]);
    assert extras + map[] == extras;
  }

  // ---- Writing a merge ----

  lemma MergeStaysLegal(p: Manifest, s: Manifest)
    requires Legal(p) && Legal(s) && Merge(p, s).Ok?
    ensures Legal(Merge(p, s).value)
    ensures Plain(p) && Plain(s) ==> Plain(Merge(p, s).value)
  {
    MergesIffCompatible(p, s);
    var m := Merge(p, s).value;
    assert p.files[0] in m.files;
  }

  // End to end: two manifest files that merge give a file that reads back as the merge, if what was
  // read from both is plain.
  lemma MergedFileReadsBack(first: string, second: string, keys: seq<string>)
    requires Parse(first).Ok? && Parse(second).Ok? && Merge(Parse(first).value, Parse(second).value).Ok?
    requires ListsKeys(keys, Merge(Parse(first).value, Parse(second).value).value.extras)
    ensures var p, s := Parse(first).value, Parse(second).value;
      var m := Merge(p, s).value;
      Parse(Serialize(m, keys)) == Ok(m) <==> Plain(p) && Plain(s)
  {
    var p, s := Parse(first).value, Parse(second).value;
    ParsedIsLegal(first);
    ParsedIsLegal(second);
    MergeStaysLegal(p, s);
    MergesIffCompatible(p, s);
    SurvivesIffPlain(Merge(p, s).value, keys);
    var m := Merge(p, s).value;
    if Plain(m) {
      assert forall f :: f in p.files ==> f in m.files;
      assert forall f :: f in s.files ==> f in m.files;
    }
  }

  // ---- The order of strings ----

  lemma {:induction false} AtMostIsTotal(a: string, b: string)
    ensures StringAtMost(a, b) || StringAtMost(b, a)
  {
    if a != "" && b != "" {
      AtMostIsTotal(a[1..], b[1..]);
    }
  }

  lemma {:induction false} AtMostIsAntisymmetric(a: string, b: string)
    requires StringAtMost(a, b) && StringAtMost(b, a)
    ensures a == b
  {
    if a != "" && b != "" {
      AtMostIsAntisymmetric(a[1..], b[1..]);
      assert a == [a[0]] + a[1..] && b == [b[0]] + b[1..];
    }
  }

  lemma {:induction false} AtMostIsTransitive(a: string, b: string, c: string)
    requires StringAtMost(a, b) && StringAtMost(b, c)
    ensures StringAtMost(a, c)
  {
    if a != "" && b != "" && a[0] == b[0] && b[0] == c[0] {
      AtMostIsTransitive(a[1..], b[1..], c[1..]);
    }
  }

  // ---- The printed text does not depend on the order of the extras ----

  ghost predicate Ascending(ss: seq<string>) {
    forall i, j :: 0 <= i < j < |ss| ==> StringAtMost(ss[i], ss[j])
  }

  lemma {:induction false} InsertKeepsAscending(s: string, ss: seq<string>)
    requires Ascending(ss)
    ensures Ascending(InsertString(s, ss))
  {
    if ss == [] {
    } else {
      AtMostIsTotal(s, ss[0]);
      if StringAtMost(s, ss[0]) {
        forall j | 0 <= j < |ss| ensures StringAtMost(s, ss[j]) {
          if j > 0 {
            AtMostIsTransitive(s, ss[0], ss[j]);
          }
        }
      } else {
        InsertKeepsAscending(s, ss[1..]);
        var rest := InsertString(s, ss[1..]);
        forall x | x in rest ensures StringAtMost(ss[0], x) {
          if x != s {
            var j :| 0 <= j < |ss[1..]| && ss[1..][j] == x;
            assert x == ss[j + 1];
          }
        }
      }
    }
  }

  lemma {:induction false} SortIsAscending(ss: seq<string>)
    ensures Ascending(SortStrings(ss))
  {
    if ss == [] {
    } else {
      SortIsAscending(ss[1..]);
      InsertKeepsAscending(ss[0], SortStrings(ss[1..]));
    }
  }

  lemma HeadIsLeast(ss: seq<string>, s: string)
    requires Ascending(ss) && s in ss
    ensures StringAtMost(ss[0], s)
  {
    var i :| 0 <= i < |ss| && ss[i] == s;
    if i == 0 {
      AtMostIsTotal(s, s);
    }
  }

  lemma HeadsAgree(xs: seq<string>, ys: seq<string>)
    requires Ascending(xs) && Ascending(ys) && multiset(xs) == multiset(ys) && xs != []
    ensures ys != [] && xs[0] == ys[0]
  {
    assert xs[0] in multiset(xs);
    assert xs[0] in ys && ys[0] in multiset(ys) && ys[0] in xs;
    HeadIsLeast(xs, ys[0]);
    HeadIsLeast(ys, xs[0]);
    AtMostIsAntisymmetric(xs[0], ys[0]);
  }

  lemma MultisetOfTail(ss: seq<string>)
    requires ss != []
    ensures multiset(ss[1..]) == multiset(ss) - multiset{ss[0]}
  {
    assert ss == [ss[0]] + ss[1..];
  }

  lemma {:induction false} AscendingIsUnique(xs: seq<string>, ys: seq<string>)
    requires Ascending(xs) && Ascending(ys) && multiset(xs) == multiset(ys)
    ensures xs == ys
    decreases |xs|
  {
    if xs == [] {
      assert |multiset(ys)| == 0;
    } else {
      HeadsAgree(xs, ys);
      MultisetOfTail(xs);
      MultisetOfTail(ys);
      AscendingIsUnique(xs[1..], ys[1..]);
      assert xs == [xs[0]] + xs[1..] && ys == [ys[0]] + ys[1..];
    }
  }

  lemma {:induction false} DistinctMembers(xs: seq<string>, x: string)
    requires forall i, j :: 0 <= i < j < |xs| ==> xs[i] != xs[j]
    ensures multiset(xs)[x] == if x in xs then 1 else 0
  {
    if xs == [] {
    } else {
      DistinctMembers(xs[1..], x);
      assert xs == [xs[0]] + xs[1..];
    }
  }

  lemma SerializeIgnoresOrder(m: Manifest, a: seq<string>, b: seq<string>)
    requires ListsKeys(a, m.extras) && ListsKeys(b, m.extras)
    ensures Serialize(m, a) == Serialize(m, b)
  {
    forall k ensures multiset(a)[k] == multiset(b)[k] {
      DistinctMembers(a, k);
      DistinctMembers(b, k);
      assert k in a <==> k in b;
    }
    SortedMembers(a);
    SortedMembers(b);
    SortIsAscending(a);
    SortIsAscending(b);
    AscendingIsUnique(SortStrings(a), SortStrings(b));
  }
}
