/** The project browser's file tree (src/Panels/ProjectBrowserPanel.cpp): the
    icon a file gets from its extension, the order the entries of a directory
    are shown in, and the search filter that hides entries. The ImGui drawing,
    the expand/collapse state and drag-and-drop are not part of this model. */
module ProjectBrowser {
  import opened Wrappers
  import Shaders

  datatype FileIconType = Folder | Code | Image | Document | Other

  /** One entry of a directory listing: its file name and whether it is a
      directory. */
  datatype DirectoryEntry = DirectoryEntry(fileName: string, isDirectory: bool)

  const CodeExtensions: set<string> := {".cpp", ".h", ".hpp", ".c", ".cs", ".js", ".ts"}
  const ImageExtensions: set<string> := {".png", ".jpg", ".jpeg", ".bmp", ".gif"}
  const DocumentExtensions: set<string> := {".txt", ".md", ".pdf", ".doc", ".docx"}

  /** `::tolower` in the C locale: only 'A'..'Z' change. */
  function LowerChar(c: char): (l: char)
    ensures l != c <==> 'A' <= c <= 'Z'
    ensures 'A' <= c <= 'Z' ==> l as int == c as int + 32
  {
    if 'A' <= c <= 'Z' then (c as int + 32) as char else c
  }

  /** A string lower-cased character by character. */
  function Lower(s: string): (r: string)
    ensures |r| == |s| && forall i :: 0 <= i < |s| ==> r[i] == LowerChar(s[i])
  {
    seq(|s|, i requires 0 <= i < |s| => LowerChar(s[i]))
  }

  /** `path.extension()` of a file name: from the last '.' to the end, empty
      when there is no '.', when the only '.' leads the name, and for "." and
      "..". */
  function Extension(fileName: string): (ext: string)
    ensures ext == [] || (|ext| <= |fileName| && ext[0] == '.' && ext == fileName[|fileName| - |ext|..])
    ensures ext != [] ==> forall j :: 0 < j < |ext| ==> ext[j] != '.'
  {
    if fileName == "." || fileName == ".." then ""
    else match Shaders.FindLastDot(fileName)
      case None => ""
      case Some(d) => if d == 0 then "" else fileName[d..]
  }

  /** The icon of an entry: Folder for a directory whatever its name, otherwise
      by the lower-cased extension. */
  function GetFileIconType(isDirectory: bool, fileName: string): (t: FileIconType)
    ensures isDirectory <==> t == Folder
    ensures t == Code <==> !isDirectory && Lower(Extension(fileName)) in CodeExtensions
    ensures t == Image <==> !isDirectory && Lower(Extension(fileName)) in ImageExtensions
    ensures t == Document <==> !isDirectory && Lower(Extension(fileName)) in DocumentExtensions
  {
    if isDirectory then Folder
    else
      var ext := Lower(Extension(fileName));
      if ext in CodeExtensions then Code
      else if ext in ImageExtensions then Image
      else if ext in DocumentExtensions then Document
      else Other
  }

  /** Lower-casing leaves every '.' where it is, so it finds the same last dot. */
  lemma LowerKeepsLastDot(s: string)
    ensures Shaders.FindLastDot(Lower(s)) == Shaders.FindLastDot(s)
  {
    var l := Lower(s);
    assert forall j :: 0 <= j < |s| ==> (l[j] == '.' <==> s[j] == '.');
    match Shaders.FindLastDot(s)
    case None =>
    case Some(d) =>
      match Shaders.FindLastDot(l)
      case None =>
      case Some(e) =>
        assert !(e < d) && !(d < e);
  }

  /** Taking the extension and lower-casing commute. */
  lemma ExtensionOfLower(s: string)
    ensures Extension(Lower(s)) == Lower(Extension(s))
  {
    var l := Lower(s);
    LowerKeepsLastDot(s);
    if s == "." || s == ".." {
      assert l == s;
    } else {
      assert l != "." && l != ".." by {
        if l == "." || l == ".." {
          assert forall j :: 0 <= j < |s| ==> s[j] == '.';
        }
      }
      match Shaders.FindLastDot(s)
      case None =>
      case Some(d) =>
        if d != 0 {
          assert l[d..] == Lower(s[d..]);
        }
    }
  }

  /** Lower-casing twice is lower-casing once. */
  lemma LowerIdempotent(s: string)
    ensures Lower(Lower(s)) == Lower(s)
  {
  }

  /** Two file names that differ only in letter case get the same icon, so
      ".PNG" and ".png" classify alike. */
  lemma IconTypeIgnoresCase(isDirectory: bool, a: string, b: string)
    requires Lower(a) == Lower(b)
    ensures GetFileIconType(isDirectory, a) == GetFileIconType(isDirectory, b)
  {
    ExtensionOfLower(a);
    ExtensionOfLower(b);
    LowerIdempotent(Extension(a));
    LowerIdempotent(Extension(b));
    assert Lower(Extension(a)) == Lower(Lower(Extension(a))) == Lower(Extension(Lower(a)));
    assert Lower(Extension(b)) == Lower(Lower(Extension(b))) == Lower(Extension(Lower(b)));
  }

  /** The last dot of a name is the one with no dot after it. */
  lemma LastDotAt(s: string, d: nat)
    requires d < |s| && s[d] == '.'
    requires forall j :: d < j < |s| ==> s[j] != '.'
    ensures Shaders.FindLastDot(s) == Some(d)
  {
  }

  /** Sample classifications: the extension is matched case-insensitively, and
      a directory is a folder whatever its name. */
  lemma SampleIconTypes()
    ensures GetFileIconType(false, "Logo.PNG") == Image
    ensures GetFileIconType(false, "Scene.cpp") == Code
    ensures GetFileIconType(true, "textures.png") == Folder
  {
    LastDotAt("Logo.PNG", 4);
    assert "Logo.PNG"[4..] == ".PNG";
    assert Lower(".PNG") == ".png";
    LastDotAt("Scene.cpp", 5);
    assert "Scene.cpp"[5..] == ".cpp";
    assert Lower(".cpp") == ".cpp";
  }

  /** More samples: a Markdown file is a document, and a name whose only dot
      leads it has no extension. */
  lemma SampleIconTypesWithoutMatch()
    ensures GetFileIconType(false, "README.md") == Document
    ensures GetFileIconType(false, ".gitignore") == Other
  {
    LastDotAt("README.md", 6);
    assert Extension("README.md") == ".md" by {
      assert "README.md"[6..] == ".md";
    }
    assert Lower(".md") == ".md";
    LastDotAt(".gitignore", 0);
    assert Extension(".gitignore") == "";
  }

  /** A double extension is judged by its last part. */
  lemma SampleDoubleExtension()
    ensures GetFileIconType(false, "assets.tar.gz") == Other
  {
    LastDotAt("assets.tar.gz", 10);
    assert Extension("assets.tar.gz") == ".gz" by {
      assert "assets.tar.gz"[10..] == ".gz";
    }
    assert Lower(".gz") == ".gz";
  }

  // ---------------------------------------------------------------------------
  // Sort order
  // ---------------------------------------------------------------------------

  /** `std::string`'s `<`: lexicographic by character. */
  predicate LexLess(a: string, b: string)
    decreases |a|
  {
    if a == [] then b != []
    else if b == [] then false
    else if a[0] != b[0] then a[0] < b[0]
    else LexLess(a[1..], b[1..])
  }

  lemma {:induction false} LexLessIrreflexive(a: string)
    ensures !LexLess(a, a)
    decreases |a|
  {
    if a != [] {
      LexLessIrreflexive(a[1..]);
    }
  }

  lemma {:induction false} LexLessTransitive(a: string, b: string, c: string)
    requires LexLess(a, b) && LexLess(b, c)
    ensures LexLess(a, c)
    decreases |a|
  {
    if a != [] && b != [] && c != [] && a[0] == b[0] && b[0] == c[0] {
      LexLessTransitive(a[1..], b[1..], c[1..]);
    }
  }

  /** Two different strings are ordered one way or the other. */
  lemma {:induction false} LexLessTotal(a: string, b: string)
    requires a != b
    ensures LexLess(a, b) || LexLess(b, a)
    decreases |a|
  {
    if a != [] && b != [] && a[0] == b[0] {
      assert a == [a[0]] + a[1..] && b == [b[0]] + b[1..];
      LexLessTotal(a[1..], b[1..]);
    }
  }

  /** The comparator handed to std::sort: directories before files, and by
      file name within each group. */
  predicate Before(a: DirectoryEntry, b: DirectoryEntry)
  {
    if a.isDirectory != b.isDirectory then a.isDirectory
    else LexLess(a.fileName, b.fileName)
  }

  /** The comparator is a strict weak order: irreflexive, transitive, and two
      entries are incomparable exactly when they agree on the directory flag
      and the name, which makes incomparability an equivalence. Directories
      always come before files. */
  lemma BeforeIsStrictWeakOrder(a: DirectoryEntry, b: DirectoryEntry, c: DirectoryEntry)
    ensures !Before(a, a)
    ensures Before(a, b) && Before(b, c) ==> Before(a, c)
    ensures !Before(a, b) && !Before(b, a) <==> a == b
    ensures a.isDirectory && !b.isDirectory ==> Before(a, b) && !Before(b, a)
  {
    LexLessIrreflexive(a.fileName);
    if Before(a, b) && Before(b, c) && a.isDirectory == b.isDirectory && b.isDirectory == c.isDirectory {
      LexLessTransitive(a.fileName, b.fileName, c.fileName);
    }
    if a != b && a.isDirectory == b.isDirectory {
      LexLessTotal(a.fileName, b.fileName);
    }
    if a.isDirectory == b.isDirectory && LexLess(a.fileName, b.fileName) {
      assert !LexLess(b.fileName, a.fileName) by {
        if LexLess(b.fileName, a.fileName) {
          LexLessTransitive(a.fileName, b.fileName, a.fileName);
          assert false;
        }
      }
    }
  }

  /** Sorted for the comparator: no entry is Before one that precedes it. */
  ghost predicate SortedEntries(s: seq<DirectoryEntry>)
  {
    forall i, j :: 0 <= i < j < |s| ==> !Before(s[j], s[i])
  }

  lemma SortedTail(s: seq<DirectoryEntry>)
    requires SortedEntries(s) && s != []
    ensures SortedEntries(s[1..])
  {
    var t := s[1..];
    forall i, j | 0 <= i < j < |t| ensures !Before(t[j], t[i]) {
      assert t[i] == s[i + 1] && t[j] == s[j + 1];
    }
  }

  /** `x` inserted in front of the first entry it is Before. */
  function Insert(x: DirectoryEntry, s: seq<DirectoryEntry>): (r: seq<DirectoryEntry>)
    ensures multiset(r) == multiset(s) + multiset{x}
    ensures |r| == |s| + 1
  {
    if s == [] then [x]
    else
      assert s == [s[0]] + s[1..];
      if Before(s[0], x) then [s[0]] + Insert(x, s[1..])
      else [x] + s
  }

  /** An entry that the first entry of a sorted run is not Before can go in
      front of the run. */
  lemma InsertFrontSorted(x: DirectoryEntry, s: seq<DirectoryEntry>)
    requires SortedEntries(s) && s != [] && !Before(s[0], x)
    ensures SortedEntries([x] + s)
  {
    var r := [x] + s;
    forall j | 0 < j < |r| ensures !Before(r[j], x) {
      assert r[j] == s[j - 1];
      if j > 1 {
        assert !Before(s[j - 1], s[0]);
        BeforeIsStrictWeakOrder(s[j - 1], x, s[0]);
        BeforeIsStrictWeakOrder(s[j - 1], s[0], x);
        BeforeIsStrictWeakOrder(x, s[0], s[j - 1]);
      }
    }
    forall i, j | 0 <= i < j < |r| ensures !Before(r[j], r[i]) {
      if i > 0 {
        assert r[i] == s[i - 1] && r[j] == s[j - 1];
      }
    }
  }

  /** An entry that no entry of a sorted run is Before can lead the run. */
  lemma ConsSorted(a: DirectoryEntry, t: seq<DirectoryEntry>)
    requires SortedEntries(t)
    requires forall k :: 0 <= k < |t| ==> !Before(t[k], a)
    ensures SortedEntries([a] + t)
  {
    var r := [a] + t;
    forall i, j | 0 <= i < j < |r| ensures !Before(r[j], r[i]) {
      if i == 0 {
        assert r[j] == t[j - 1];
      } else {
        assert r[i] == t[i - 1] && r[j] == t[j - 1];
      }
    }
  }

  /** Every entry of a sorted run after its first is one the first is not
      after. */
  lemma HeadFirst(s: seq<DirectoryEntry>, y: DirectoryEntry)
    requires SortedEntries(s) && s != [] && y in s[1..]
    ensures !Before(y, s[0])
  {
    var m :| 0 <= m < |s[1..]| && s[1..][m] == y;
    assert s[m + 1] == y;
  }

  lemma {:induction false} InsertSorted(x: DirectoryEntry, s: seq<DirectoryEntry>)
    requires SortedEntries(s)
    ensures SortedEntries(Insert(x, s))
    decreases |s|
  {
    if s != [] {
      if Before(s[0], x) {
        var tail := s[1..];
        SortedTail(s);
        InsertSorted(x, tail);
        var t := Insert(x, tail);
        BeforeIsStrictWeakOrder(s[0], x, s[0]);
        forall k | 0 <= k < |t| ensures !Before(t[k], s[0]) {
          assert t[k] in multiset(tail) + multiset{x} by {
            assert t[k] in multiset(t);
          }
          if t[k] != x {
            HeadFirst(s, t[k]);
          }
        }
        ConsSorted(s[0], t);
      } else {
        InsertFrontSorted(x, s);
      }
    }
  }

  /** The sorted listing: std::sort's result, obtained here by insertion. */
  function SortEntries(s: seq<DirectoryEntry>): (r: seq<DirectoryEntry>)
    ensures multiset(r) == multiset(s)
    ensures SortedEntries(r)
    decreases |s|
  {
    if s == [] then []
    else
      var rest := SortEntries(s[1..]);
      InsertSorted(s[0], rest);
      assert s == [s[0]] + s[1..];
      Insert(s[0], rest)
  }

  /** A sorted listing puts every directory before every file, and orders each
      group by name. */
  lemma SortedListing(s: seq<DirectoryEntry>)
    requires SortedEntries(s)
    ensures forall i, j :: 0 <= i < j < |s| && s[j].isDirectory ==> s[i].isDirectory
    ensures forall i, j :: 0 <= i < j < |s| && s[i].isDirectory == s[j].isDirectory ==> !LexLess(s[j].fileName, s[i].fileName)
  {
  }

  /** Two sorted arrangements of the same entries start with the same one. */
  lemma SortedSameHead(a: seq<DirectoryEntry>, b: seq<DirectoryEntry>)
    requires SortedEntries(a) && SortedEntries(b) && multiset(a) == multiset(b) && a != []
    ensures b != [] && a[0] == b[0]
  {
    assert a[0] in multiset(b);
    var m :| 0 <= m < |b| && b[m] == a[0];
    assert b[0] in multiset(a);
    var n :| 0 <= n < |a| && a[n] == b[0];
    if a[0] != b[0] {
      assert !Before(a[0], b[0]) by {
        assert m > 0;
      }
      assert !Before(b[0], a[0]) by {
        assert n > 0;
      }
      BeforeIsStrictWeakOrder(a[0], b[0], a[0]);
    }
  }

  /** Two runs with the same entries and the same first entry have the same
      entries after it. */
  lemma TailMultisets(a: seq<DirectoryEntry>, b: seq<DirectoryEntry>)
    requires a != [] && b != [] && a[0] == b[0] && multiset(a) == multiset(b)
    ensures multiset(a[1..]) == multiset(b[1..])
  {
    assert a == [a[0]] + a[1..] && b == [b[0]] + b[1..];
    assert multiset(a) == multiset{a[0]} + multiset(a[1..]);
    assert multiset(b) == multiset{b[0]} + multiset(b[1..]);
    assert multiset(a[1..]) == multiset(a) - multiset{a[0]};
    assert multiset(b[1..]) == multiset(b) - multiset{b[0]};
  }

  /** Distinct entries (a directory never lists one name twice) have only one
      sorted order, so the unstable std::sort and any other sort agree. */
  lemma {:induction false} SortedUnique(a: seq<DirectoryEntry>, b: seq<DirectoryEntry>)
    requires SortedEntries(a) && SortedEntries(b) && multiset(a) == multiset(b)
    ensures a == b
    decreases |a|
  {
    if a == [] {
      assert |b| == |multiset(b)| == 0;
    } else {
      SortedSameHead(a, b);
      TailMultisets(a, b);
      SortedTail(a);
      SortedTail(b);
      SortedUnique(a[1..], b[1..]);
    }
  }

  // ---------------------------------------------------------------------------
  // Search filter
  // ---------------------------------------------------------------------------

  /** An entry is shown when the filter is empty or occurs in its file name. */
  predicate Shown(e: DirectoryEntry, filter: string)
  {
    filter == "" || Shaders.Find(e.fileName, filter, 0).Some?
  }

  /** The entries the display loop does not skip, in order. */
  function FilterEntries(s: seq<DirectoryEntry>, filter: string): (r: seq<DirectoryEntry>)
    ensures forall e :: e in r <==> e in s && Shown(e, filter)
    ensures |r| <= |s|
    decreases |s|
  {
    if s == [] then []
    else FilterEntries(s[..|s| - 1], filter) + (if Shown(s[|s| - 1], filter) then [s[|s| - 1]] else [])
  }

  /** Filtering keeps the listing sorted. */
  lemma {:induction false} FilterKeepsSorted(s: seq<DirectoryEntry>, filter: string)
    requires SortedEntries(s)
    ensures SortedEntries(FilterEntries(s, filter))
    decreases |s|
  {
    if s != [] {
      var init := s[..|s| - 1];
      var last := s[|s| - 1];
      assert SortedEntries(init) by {
        forall i, j | 0 <= i < j < |init| ensures !Before(init[j], init[i]) {
          assert init[i] == s[i] && init[j] == s[j];
        }
      }
      FilterKeepsSorted(init, filter);
      var f := FilterEntries(init, filter);
      if Shown(last, filter) {
        var r := f + [last];
        forall i, j | 0 <= i < j < |r| ensures !Before(r[j], r[i]) {
          if j < |f| {
            assert r[i] == f[i] && r[j] == f[j];
          } else {
            assert r[i] == f[i] && r[j] == last;
            assert f[i] in init;
            var m :| 0 <= m < |init| && init[m] == f[i];
            assert s[m] == f[i];
          }
        }
      }
    }
  }

  /** The entries DisplayFileTree shows for a directory listing, in the order
      it shows them: sorted, then filtered. */
  method DisplayFileTree(entries: seq<DirectoryEntry>, filter: string) returns (shown: seq<DirectoryEntry>)
    ensures shown == FilterEntries(SortEntries(entries), filter)
  {
    var sorted := SortEntries(entries);
    shown := [];
    for i := 0 to |sorted|
      invariant shown == FilterEntries(sorted[..i], filter)
    {
      var entry := sorted[i];
      assert sorted[..i + 1][..i] == sorted[..i];
      if filter != "" && Shaders.Find(entry.fileName, filter, 0).None? {
        continue;
      }
      shown := shown + [entry];
    }
    assert sorted[..|sorted|] == sorted;
  }

  /** What DisplayFileTree shows: exactly the listed entries that pass the
      filter, directories first
      and by name within each group. */
  lemma DisplayedListing(entries: seq<DirectoryEntry>, filter: string)
    ensures var shown := FilterEntries(SortEntries(entries), filter);
      && (forall e :: e in shown <==> e in entries && Shown(e, filter))
      && SortedEntries(shown)
  {
    var sorted := SortEntries(entries);
    forall e ensures e in sorted <==> e in entries {
      assert e in sorted <==> e in multiset(sorted);
      assert e in entries <==> e in multiset(entries);
    }
    FilterKeepsSorted(sorted, filter);
  }
}
