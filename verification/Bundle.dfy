/** Unpacking an activity's zip: cleaned names, a shared folder stripped, a bound on what is stored. */
module Bundle {
  import opened Wrappers

  type Bytes = seq<int>
  type Files = map<string, Bytes>

  const MAX_FILES: nat := 256
  const MAX_UNPACKED_BYTES: nat := 16 * 1024 * 1024
  const INDEX: string := "index.html"

  // ---------------------------------------------------------------- names

  /** The parts between slashes; one more than there are slashes. */
  function SplitPath(s: string): (parts: seq<string>)
    ensures parts != []
  {
    if s == "" then [""]
    else
      var rest := SplitPath(s[1..]);
      if s[0] == '/' then [""] + rest else [[s[0]] + rest[0]] + rest[1..]
  }

  function JoinPath(parts: seq<string>): string {
    if parts == [] then "" else if |parts| == 1 then parts[0] else parts[0] + "/" + JoinPath(parts[1..])
  }

  function Kept(parts: seq<string>): seq<string> {
    if parts == [] then []
    else if parts[0] == "" || parts[0] == "." then Kept(parts[1..])
    else [parts[0]] + Kept(parts[1..])
  }

  predicate Refused(raw: string) {
    (raw != "" && raw[0] == '/') || '\\' in raw || ':' in raw
  }

  function CleanPath(raw: string): Option<string> {
    if Refused(raw) then None
    else
      var parts := Kept(SplitPath(raw));
      if parts == [] || ".." in parts then None else Some(JoinPath(parts))
  }

  /** A name that needs no cleaning. */
  predicate Clean(path: string) {
    CleanPath(path) == Some(path)
  }

  /** Parts that survive cleaning unchanged. */
  predicate GoodPart(p: string) {
    p != "" && p != "." && p != ".." && '/' !in p && '\\' !in p && ':' !in p
  }

  predicate GoodParts(parts: seq<string>) {
    parts != [] && forall i :: 0 <= i < |parts| ==> GoodPart(parts[i])
  }

  lemma {:induction false} SplitPart(p: string)
    requires '/' !in p
    ensures SplitPath(p) == [p]
  {
    if p != "" {
      assert p == [p[0]] + p[1..];
      SplitPart(p[1..]);
    }
  }

  lemma {:induction false} SplitFirst(p: string, rest: string)
    requires '/' !in p
    ensures SplitPath(p + "/" + rest) == [p] + SplitPath(rest)
  {
    var s := p + "/" + rest;
    if p == "" {
      assert s[1..] == rest;
    } else {
      assert p == [p[0]] + p[1..];
      SplitFirst(p[1..], rest);
      assert s[1..] == p[1..] + "/" + rest;
    }
  }

  lemma {:induction false} SplitUndoesJoin(parts: seq<string>)
    requires GoodParts(parts)
    ensures SplitPath(JoinPath(parts)) == parts
  {
    assert GoodPart(parts[0]);
    if |parts| == 1 {
      SplitPart(parts[0]);
    } else {
      SplitUndoesJoin(parts[1..]);
      SplitFirst(parts[0], JoinPath(parts[1..]));
      assert parts == [parts[0]] + parts[1..];
    }
  }

  lemma {:induction false} KeptAll(parts: seq<string>)
    requires forall i :: 0 <= i < |parts| ==> GoodPart(parts[i])
    ensures Kept(parts) == parts
  {
    if parts != [] {
      assert GoodPart(parts[0]);
      KeptAll(parts[1..]);
    }
  }

  ghost predicate FreeOf(parts: seq<string>, c: char) {
    forall i :: 0 <= i < |parts| ==> c !in parts[i]
  }

  lemma {:induction false} SplitLetters(s: string, c: char)
    requires c !in s
    ensures FreeOf(SplitPath(s), c) && FreeOf(SplitPath(s), '/')
  {
    if s != "" {
      assert s == [s[0]] + s[1..];
      SplitLetters(s[1..], c);
    }
  }

  lemma {:induction false} KeptLetters(parts: seq<string>, c: char)
    requires FreeOf(parts, c)
    ensures FreeOf(Kept(parts), c)
  {
    if parts != [] {
      KeptLetters(parts[1..], c);
    }
  }

  lemma {:induction false} KeptNames(parts: seq<string>)
    ensures forall i :: 0 <= i < |Kept(parts)| ==> Kept(parts)[i] != "" && Kept(parts)[i] != "."
  {
    if parts != [] {
      KeptNames(parts[1..]);
    }
  }

  lemma {:induction false} JoinLetters(parts: seq<string>, c: char)
    requires FreeOf(parts, c) && c != '/'
    ensures c !in JoinPath(parts)
  {
    if |parts| > 1 {
      JoinLetters(parts[1..], c);
    }
  }

  /** A joined list of good parts is a clean name. */
  lemma JoinIsClean(parts: seq<string>)
    requires GoodParts(parts)
    ensures Clean(JoinPath(parts)) && SplitPath(JoinPath(parts)) == parts
  {
    SplitUndoesJoin(parts);
    KeptAll(parts);
    assert forall i :: 0 <= i < |parts| ==> GoodPart(parts[i]) && '\\' !in parts[i] && ':' !in parts[i] && parts[i] != "..";
    JoinLetters(parts, '\\');
    JoinLetters(parts, ':');
    assert GoodPart(parts[0]) && JoinPath(parts)[0] == parts[0][0];
    assert parts[0][0] in parts[0];
    assert !Refused(JoinPath(parts));
  }

  lemma CleanedParts(raw: string)
    requires CleanPath(raw).Some?
    ensures GoodParts(Kept(SplitPath(raw)))
  {
    var parts := Kept(SplitPath(raw));
    SplitLetters(raw, '\\');
    SplitLetters(raw, ':');
    KeptLetters(SplitPath(raw), '\\');
    KeptLetters(SplitPath(raw), ':');
    KeptLetters(SplitPath(raw), '/');
    KeptNames(SplitPath(raw));
    assert forall i :: 0 <= i < |parts| ==> parts[i] in parts;
  }

  /** Cleaning a cleaned name changes nothing. */
  lemma CleanIsIdempotent(raw: string)
    requires CleanPath(raw).Some?
    ensures Clean(CleanPath(raw).value)
  {
    CleanedParts(raw);
    JoinIsClean(Kept(SplitPath(raw)));
  }

  // ---------------------------------------------------------------- the shared folder

  /** Everything lies in folder `dir`. */
  ghost predicate Shared(files: Files, dir: string) {
    files != map[] && '/' !in dir && forall k :: k in files ==> dir + "/" <= k
  }

  function Inside(k: string, dir: string): string
    requires |dir| + 1 <= |k|
  {
    k[|dir| + 1..]
  }

  function Stripped(files: Files, dir: string): Files {
    map r | r in (set k | k in files && dir + "/" <= k :: Inside(k, dir)) && dir + "/" + r in files :: files[dir + "/" + r]
  }

  /** The text before the first slash. */
  function Folder(k: string): Option<string> {
    if '/' in k then Some(SplitPath(k)[0]) else None
  }

  lemma FolderIsPrefix(k: string, dir: string)
    requires '/' !in dir
    ensures Folder(k) == Some(dir) <==> dir + "/" <= k
  {
    if dir + "/" <= k {
      var rest := k[|dir| + 1..];
      assert k == dir + "/" + rest;
      SplitFirst(dir, rest);
      assert k[|dir|] == '/';
    } else if '/' in k {
      HeadThenSlash(k);
    }
  }

  lemma {:induction false} HeadThenSlash(k: string)
    requires '/' in k
    ensures var d := SplitPath(k)[0]; '/' !in d && d + "/" <= k
  {
    if k[0] != '/' {
      assert k == [k[0]] + k[1..];
      HeadThenSlash(k[1..]);
      var d := SplitPath(k[1..])[0];
      assert SplitPath(k)[0] == [k[0]] + d;
      assert k[1..][..|d| + 1] == d + "/";
      assert k[..|d| + 2] == [k[0]] + d + "/";
    }
  }

  /** The map's first key is whichever it happens to be. */
  method StripSharedFolder(files: Files) returns (out: Files)
    ensures INDEX in files || !(exists dir :: Shared(files, dir)) ==> out == files
    ensures INDEX !in files ==> forall dir :: Shared(files, dir) ==> out == Stripped(files, dir)
  {
    if INDEX in files || files == map[] {
      return files;
    }
    var first :| first in files;
    SharedByFirst(files, first);
    match Folder(first) {
      case Some(dir) =>
        if forall k :: k in files ==> dir + "/" <= k {
          HeadThenSlash(first);
          assert Shared(files, dir);
          out := Stripped(files, dir);
        } else {
          out := files;
        }
      case None =>
        out := files;
    }
  }

  /** A shared folder is the folder of any file. */
  lemma SharedByFirst(files: Files, first: string)
    requires first in files
    ensures forall dir :: Shared(files, dir) ==> Folder(first) == Some(dir)
  {
    forall dir | Shared(files, dir) ensures Folder(first) == Some(dir) {
      FolderIsPrefix(first, dir);
    }
  }

  lemma Beneath(k: string, dir: string)
    requires dir + "/" <= k
    ensures |dir| + 1 <= |k| && k == dir + "/" + Inside(k, dir)
  {
  }

  /** Stripping renames one to one and keeps what the names stand for. */
  lemma StripIsRenaming(files: Files, dir: string)
    requires Shared(files, dir)
    ensures forall k :: k in files ==> |dir| + 1 <= |k| && Inside(k, dir) in Stripped(files, dir)
    ensures forall k :: k in files ==> |dir| + 1 <= |k| && Stripped(files, dir)[Inside(k, dir)] == files[k]
    ensures forall r :: r in Stripped(files, dir) ==> dir + "/" + r in files
    ensures forall j, k :: j in files && k in files && |dir| < |j| && |dir| < |k| && j != k ==> Inside(j, dir) != Inside(k, dir)
  {
    forall k | k in files ensures |dir| + 1 <= |k| && k == dir + "/" + Inside(k, dir) {
      Beneath(k, dir);
    }
  }

  /** Names stay clean. */
  lemma StripKeepsClean(files: Files, dir: string)
    requires Shared(files, dir) && forall k :: k in files ==> Clean(k)
    ensures forall r :: r in Stripped(files, dir) ==> Clean(r)
  {
    forall r | r in Stripped(files, dir) ensures Clean(r) {
      var k := dir + "/" + r;
      assert k in files && Clean(k);
      CleanInside(dir, r);
    }
  }

  lemma CleanInside(dir: string, r: string)
    requires '/' !in dir && Clean(dir + "/" + r)
    ensures Clean(r)
  {
    var k := dir + "/" + r;
    var parts := Kept(SplitPath(k));
    CleanedParts(k);
    JoinIsClean(parts);
    assert SplitPath(k) == parts;
    SplitFirst(dir, r);
    assert parts == [dir] + SplitPath(r);
    var rest := SplitPath(r);
    assert forall i :: 0 <= i < |rest| ==> rest[i] == parts[i + 1];
    assert GoodParts(rest);
    JoinIsClean(rest);
    assert JoinPath(parts) == dir + "/" + JoinPath(rest) by {
      assert parts[1..] == rest;
    }
    assert k == dir + "/" + JoinPath(rest);
    assert r == k[|dir| + 1..] == JoinPath(rest);
  }

  // ---------------------------------------------------------------- unpacking

  /** One zip entry; a name or content that cannot be read is None or marked so. */
  datatype Entry = Unreadable | Directory | File(name: Option<string>, data: Bytes, readable: bool)

  datatype Failure = TooManyFiles | BadEntry | LeavesBundle | TooLarge | NoIndex

  predicate Acceptable(e: Entry) {
    e.Directory? || (e.File? && e.name.Some? && CleanPath(e.name.value).Some? && e.readable)
  }

  function Total(entries: seq<Entry>): nat {
    if entries == [] then 0
    else Total(entries[..|entries| - 1]) + if entries[|entries| - 1].File? then |entries[|entries| - 1].data| else 0
  }

  /** What is stored: later entries of the same clean name replace earlier ones. */
  function Stored(entries: seq<Entry>): Files
    requires forall i :: 0 <= i < |entries| ==> Acceptable(entries[i])
  {
    if entries == [] then map[]
    else
      var e := entries[|entries| - 1];
      var before := Stored(entries[..|entries| - 1]);
      assert Acceptable(e);
      if e.File? then before[CleanPath(e.name.value).value := e.data] else before
  }

  /** What is wrong with an entry, when `budget` bytes are left. */
  function Fault(e: Entry, budget: nat): Option<Failure> {
    match e
    case Unreadable => Some(BadEntry)
    case Directory => None
    case File(name, data, readable) =>
      if name.None? then Some(BadEntry)
      else if CleanPath(name.value).None? then Some(LeavesBundle)
      else if !readable then Some(BadEntry)
      else if |data| > budget then Some(TooLarge)
      else None
  }

  /** The entries up to `i` are taken, and entry `i` is refused. */
  ghost predicate FailsAt(entries: seq<Entry>, i: nat, error: Failure) {
    && i < |entries| && Total(entries[..i]) <= MAX_UNPACKED_BYTES
    && (forall k :: 0 <= k < i ==> Acceptable(entries[k]))
    && Fault(entries[i], MAX_UNPACKED_BYTES - Total(entries[..i])) == Some(error)
  }

  method Collect(entries: seq<Entry>) returns (r: Result<Files, Failure>)
    ensures r.Ok? <==> (forall i :: 0 <= i < |entries| ==> Acceptable(entries[i])) && Total(entries) <= MAX_UNPACKED_BYTES
    ensures r.Ok? ==> r.value == Stored(entries)
    ensures r.Err? ==> exists i :: FailsAt(entries, i, r.error)
  {
    var files: Files := map[];
    var budget: nat := MAX_UNPACKED_BYTES;
    assert entries[..0] == [];
    for i := 0 to |entries|
      invariant forall k :: 0 <= k < i ==> Acceptable(entries[k])
      invariant budget + Total(entries[..i]) == MAX_UNPACKED_BYTES
      invariant files == Stored(entries[..i])
    {
      var e := entries[i];
      assert entries[..i + 1][..i] == entries[..i];
      TotalGrows(entries, i + 1);
      match e {
        case Unreadable =>
          assert FailsAt(entries, i, BadEntry);
          return Err(BadEntry);
        case Directory =>
        case File(name, data, readable) =>
          if name.None? {
            assert FailsAt(entries, i, BadEntry);
            return Err(BadEntry);
          }
          var path := CleanPath(name.value);
          if path.None? {
            assert FailsAt(entries, i, LeavesBundle);
            return Err(LeavesBundle);
          }
          if !readable {
            assert FailsAt(entries, i, BadEntry);
            return Err(BadEntry);
          }
          var read := if |data| <= budget + 1 then |data| else budget + 1;
          if read > budget {
            assert FailsAt(entries, i, TooLarge);
            return Err(TooLarge);
          }
          budget := budget - read;
          files := files[path.value := data];
      }
    }
    assert entries[..|entries|] == entries;
    r := Ok(files);
  }

  lemma {:induction false} TotalGrows(entries: seq<Entry>, i: nat)
    requires i <= |entries|
    ensures Total(entries[..i]) <= Total(entries)
  {
    if i == |entries| {
      assert entries[..i] == entries;
    } else {
      assert entries[..|entries| - 1][..i] == entries[..i];
      TotalGrows(entries[..|entries| - 1], i);
    }
  }

  method Unpack(entries: seq<Entry>) returns (r: Result<Files, Failure>)
    ensures r.Ok? ==>
              && |entries| <= 256 && Total(entries) <= 16 * 1024 * 1024
              && (forall i :: 0 <= i < |entries| ==> Acceptable(entries[i]))
              && "index.html" in r.value
              && (r.value == Stored(entries) ||
                    exists dir :: Shared(Stored(entries), dir) && r.value == Stripped(Stored(entries), dir))
    ensures r.Err? ==>
              match r.error
              case TooManyFiles => |entries| > 256
              case NoIndex => (forall i :: 0 <= i < |entries| ==> Acceptable(entries[i])) && INDEX !in Stored(entries) &&
                              forall dir :: Shared(Stored(entries), dir) ==> INDEX !in Stripped(Stored(entries), dir)
              case error => exists i :: FailsAt(entries, i, error)
  {
    if |entries| > MAX_FILES {
      return Err(TooManyFiles);
    }
    var collected := Collect(entries);
    if collected.Err? {
      return collected;
    }
    var files := StripSharedFolder(collected.value);
    if INDEX !in files {
      return Err(NoIndex);
    }
    r := Ok(files);
  }

  // ---------------------------------------------------------------- the bound

  ghost function Size(files: Files): nat {
    if files == map[] then 0 else var k :| k in files; |files[k]| + Size(files - {k})
  }

  lemma {:induction false} SizeAt(files: Files, k: string)
    requires k in files
    ensures Size(files) == |files[k]| + Size(files - {k})
  {
    var j :| j in files && Size(files) == |files[j]| + Size(files - {j});
    if j != k {
      SizeAt(files - {j}, k);
      SizeAt(files - {k}, j);
      assert files - {j} - {k} == files - {k} - {j};
    }
  }

  lemma SizeUpdate(files: Files, k: string, data: Bytes)
    ensures Size(files[k := data]) <= Size(files) + |data|
  {
    SizeAt(files[k := data], k);
    assert files[k := data] - {k} == files - {k};
    if k in files {
      SizeAt(files, k);
    } else {
      assert files - {k} == files;
    }
  }

  /** What is stored is never more than what was read, duplicates included. */
  lemma {:induction false} StoredWithinTotal(entries: seq<Entry>)
    requires forall i :: 0 <= i < |entries| ==> Acceptable(entries[i])
    ensures Size(Stored(entries)) <= Total(entries)
    ensures forall k :: k in Stored(entries) ==> Clean(k)
  {
    if entries != [] {
      var e := entries[|entries| - 1];
      var before := entries[..|entries| - 1];
      StoredWithinTotal(before);
      if e.File? {
        SizeUpdate(Stored(before), CleanPath(e.name.value).value, e.data);
        CleanIsIdempotent(e.name.value);
      }
    }
  }

  /** Stripping stores the same bytes under other names. */
  lemma {:induction false} StripKeepsSize(files: Files, dir: string)
    requires forall k :: k in files ==> dir + "/" <= k
    ensures Size(Stripped(files, dir)) == Size(files)
  {
    if files == map[] {
      assert Stripped(files, dir) == map[];
    } else {
      var k :| k in files;
      var r := Inside(k, dir);
      Beneath(k, dir);
      StripKeepsSize(files - {k}, dir);
      StripLess(files, dir, k);
      SizeAt(files, k);
      SizeAt(Stripped(files, dir), r);
    }
  }

  lemma StripLess(files: Files, dir: string, k: string)
    requires (forall j :: j in files ==> dir + "/" <= j) && k in files && |dir| + 1 <= |k|
    ensures Inside(k, dir) in Stripped(files, dir) && Stripped(files, dir)[Inside(k, dir)] == files[k]
    ensures Stripped(files, dir) - {Inside(k, dir)} == Stripped(files - {k}, dir)
  {
    Beneath(k, dir);
    var all, less := Stripped(files, dir) - {Inside(k, dir)}, Stripped(files - {k}, dir);
    forall r ensures r in all <==> r in less {
      if r in all {
        var j := dir + "/" + r;
        assert j in files && Inside(j, dir) == r && j != k;
      }
      if r in less {
        assert dir + "/" + r != k;
      }
    }
  }

  /** A bundle holds at most 16 MiB, under clean names. */
  lemma BundleIsBounded(entries: seq<Entry>, files: Files)
    requires (forall i :: 0 <= i < |entries| ==> Acceptable(entries[i])) && Total(entries) <= MAX_UNPACKED_BYTES
    requires files == Stored(entries) ||
             exists dir :: Shared(Stored(entries), dir) && files == Stripped(Stored(entries), dir)
    ensures Size(files) <= 16 * 1024 * 1024 && forall k :: k in files ==> Clean(k)
  {
    StoredWithinTotal(entries);
    if files != Stored(entries) {
      var dir :| Shared(Stored(entries), dir) && files == Stripped(Stored(entries), dir);
      StripKeepsSize(Stored(entries), dir);
      StripKeepsClean(Stored(entries), dir);
    }
  }

  // ---------------------------------------------------------------- what cleaning and storing mean

  /** A path is the parts between its slashes, joined again. */
  lemma {:induction false} JoinUndoesSplit(s: string)
    ensures JoinPath(SplitPath(s)) == s && FreeOf(SplitPath(s), '/')
  {
    if s != "" {
      var rest := SplitPath(s[1..]);
      JoinUndoesSplit(s[1..]);
      assert s == [s[0]] + s[1..];
      if s[0] == '/' {
        assert ([""] + rest)[1..] == rest;
      } else {
        assert ([[s[0]] + rest[0]] + rest[1..])[1..] == rest[1..];
      }
    }
  }

  /** A name is refused if it is absolute, holds a backslash or a colon, leads upwards, or names nothing. */
  lemma CleanPathMeans(raw: string)
    ensures CleanPath(raw) == None <==>
            || (raw != "" && raw[0] == '/') || '\\' in raw || ':' in raw
            || ".." in SplitPath(raw)
            || forall part :: part in SplitPath(raw) ==> part == "" || part == "."
  {
    KeptMembers(SplitPath(raw));
    var kept := Kept(SplitPath(raw));
    if kept != [] {
      assert kept[0] in kept;
    }
  }

  lemma {:induction false} KeptMembers(parts: seq<string>)
    ensures forall part :: part in Kept(parts) <==> part in parts && part != "" && part != "."
  {
    if parts != [] {
      KeptMembers(parts[1..]);
      assert parts == [parts[0]] + parts[1..];
    }
  }

  /** Cleaning leaves out empty parts and dots, wherever they are, and nothing else. */
  lemma {:induction false} CleaningDropsOnly(a: seq<string>, part: string, b: seq<string>)
    ensures Kept(a + [part] + b) == if part == "" || part == "." then Kept(a + b) else Kept(a) + [part] + Kept(b)
  {
    if a == [] {
      assert a + [part] + b == [part] + b && a + b == b;
      KeptCons(part, b);
      hide Kept;
      assert Kept(a) + [part] + Kept(b) == [part] + Kept(b) by { assert Kept(a) == [] by { KeptNone(); } }
    } else {
      CleaningDropsOnly(a[1..], part, b);
      assert a + [part] + b == [a[0]] + (a[1..] + [part] + b) && a + b == [a[0]] + (a[1..] + b) && a == [a[0]] + a[1..];
      hide Kept;
      KeptCons(a[0], a[1..] + [part] + b);
      KeptCons(a[0], a[1..] + b);
      KeptCons(a[0], a[1..]);
    }
  }

  lemma KeptCons(part: string, rest: seq<string>)
    ensures Kept([part] + rest) == if part == "" || part == "." then Kept(rest) else [part] + Kept(rest)
  {
    assert ([part] + rest)[1..] == rest;
  }

  lemma KeptNone()
    ensures Kept([]) == []
  {
  }

  /** What a clean name says is what is left of the raw one's parts. */
  lemma CleanPathKeepsParts(raw: string)
    requires CleanPath(raw).Some?
    ensures SplitPath(CleanPath(raw).value) == Kept(SplitPath(raw))
  {
    CleanedParts(raw);
    JoinIsClean(Kept(SplitPath(raw)));
  }

  /** Entry `i` is a file whose clean name is `k`. */
  predicate Names(entries: seq<Entry>, i: int, k: string) {
    0 <= i < |entries| && entries[i].File? && entries[i].name.Some? && CleanPath(entries[i].name.value) == Some(k)
  }

  /** A bundle holds every name that some file has, and under it what the last such file holds. */
  lemma {:induction false} StoredHoldsLast(entries: seq<Entry>, k: string)
    requires forall i :: 0 <= i < |entries| ==> Acceptable(entries[i])
    ensures k in Stored(entries) <==> exists i :: Names(entries, i, k)
    ensures forall i :: Names(entries, i, k) && (forall j :: i < j < |entries| ==> !Names(entries, j, k)) ==>
                          k in Stored(entries) && Stored(entries)[k] == entries[i].data
  {
    if entries != [] {
      var n := |entries| - 1;
      var before := entries[..n];
      StoredHoldsLast(before, k);
      StoredStep(entries, k);
      NamesBefore(entries, k);
      hide Stored, Acceptable, Names;
      if !Names(entries, n, k) && k in Stored(before) {
        var i :| Names(before, i, k);
        assert Names(entries, i, k);
      }
      forall i | Names(entries, i, k) && (forall j :: i < j < |entries| ==> !Names(entries, j, k))
        ensures k in Stored(entries) && Stored(entries)[k] == entries[i].data
      {
        assert i < n ==> !Names(entries, n, k) && Names(before, i, k) && before[i] == entries[i];
      }
    }
  }

  lemma NamesBefore(entries: seq<Entry>, k: string)
    requires entries != []
    ensures var n := |entries| - 1;
            forall i :: Names(entries, i, k) <==> if i == n then Names(entries, n, k) else Names(entries[..n], i, k)
    ensures forall i :: Names(entries, i, k) ==> 0 <= i < |entries| && entries[i].File?
  {
  }

  lemma StoredStep(entries: seq<Entry>, k: string)
    requires entries != [] && forall i :: 0 <= i < |entries| ==> Acceptable(entries[i])
    ensures var n := |entries| - 1;
            var before := Stored(entries[..n]);
            if Names(entries, n, k) then k in Stored(entries) && Stored(entries)[k] == entries[n].data
            else (k in Stored(entries) <==> k in before) && (k in before ==> Stored(entries)[k] == before[k])
  {
    assert Acceptable(entries[|entries| - 1]);
    hide CleanPath;
  }

  /** Why unpacking stops: a bad entry, a name that leads out, or more than 16 MiB by then. */
  lemma FailureMeans(entries: seq<Entry>, i: nat, error: Failure)
    requires FailsAt(entries, i, error)
    ensures match error
            case LeavesBundle => entries[i].File? && entries[i].name.Some? && CleanPath(entries[i].name.value) == None
            case TooLarge => Acceptable(entries[i]) && Total(entries[..i + 1]) > 16 * 1024 * 1024
            case BadEntry => entries[i].Unreadable? ||
                             (entries[i].File? && (entries[i].name == None || !entries[i].readable))
            case _ => false
  {
    assert entries[..i + 1][..i] == entries[..i];
  }
}
