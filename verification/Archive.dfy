/** Files in and out of a sandbox as tar entries (internal/runtime/docker/file_archive.go,
    internal/runtime/docker/docker.go), over a model of the daemon's file tree. */
module Archive {
  import opened Wrappers
  import opened Paths

  datatype Kind = Regular | Directory | OtherKind

  datatype TarEntry = TarEntry(name: string, kind: Kind, mode: int, content: seq<Byte>)

  // A tar stream: its entries, and whether a malformed header follows them.
  datatype TarStream = TarStream(entries: seq<TarEntry>, broken: bool)

  datatype FileInfo = FileInfo(path: string, size: int, mode: int, isDir: bool)

  const ARCHIVE_DIR_MODE := 0x1e8  // octal 750

  function Perm(mode: nat): nat {
    mode % 0x200
  }

  // ---- The daemon's file tree ----

  type Path = seq<string>

  datatype Node =
    | FileNode(content: seq<Byte>, mode: int)
    | DirNode(mode: int)
    | LinkNode(mode: int)  // a symbolic link, or anything else that is neither

  // Everything below the root, by components.
  type Tree = map<Path, Node>

  ghost predicate WellFormed(t: Tree) {
    forall p :: p in t ==>
      && p != [] && AllGood(p)
      && forall k :: 0 < k < |p| ==> p[..k] in t && t[p[..k]].DirNode?
  }

  /** Every ancestor of p is absent or a directory. */
  ghost predicate Reachable(t: Tree, p: Path) {
    forall k :: 0 < k < |p| ==> p[..k] in t ==> t[p[..k]].DirNode?
  }

  predicate Below(p: Path, q: Path) {
    p < q
  }

  // Extraction of one entry at the root: a directory entry over a directory only sets
  // its mode, anything else replaces what is there.
  function Extract(t: Tree, e: TarEntry): Tree {
    var p := Components("/" + e.name);
    if e.kind == Directory && p in t && t[p].DirNode? then t[p := DirNode(e.mode)]
    else
      var cleared := map q | q in t && !Below(p, q) :: t[q];
      cleared[p := if e.kind == Directory then DirNode(e.mode) else FileNode(e.content, e.mode)]
  }

  function ExtractAll(t: Tree, entries: seq<TarEntry>): Tree {
    if entries == [] then t else Extract(ExtractAll(t, entries[..|entries| - 1]), entries[|entries| - 1])
  }

  // ---- Writing ----

  function DirEntry(parts: Path): TarEntry {
    TarEntry(JoinSlash(parts) + "/", Directory, ARCHIVE_DIR_MODE, [])
  }

  // The entries of an archive: the ancestors, outermost first, then the file.
  function DirEntries(parts: Path, n: nat): seq<TarEntry>
    requires n <= |parts|
  {
    if n == 0 then [] else DirEntries(parts, n - 1) + [DirEntry(parts[..n])]
  }

  function WriteEntries(parts: Path, content: seq<Byte>, mode: nat): seq<TarEntry>
    requires parts != []
  {
    DirEntries(parts, |parts| - 1) + [TarEntry(JoinSlash(parts), Regular, Perm(mode), content)]
  }

  method FileArchive(filePath: string, content: seq<Byte>, mode: nat) returns (entries: seq<TarEntry>)
    requires ValidateWrite(filePath, content).Ok?
    ensures Components(filePath) != []
    ensures entries == WriteEntries(Components(filePath), content, mode)
  {
    ValidPathsAreRenderings(filePath);
    var name := filePath[1..];
    var tokens := Split(name);
    SplitOfJoin(Components(filePath));
    entries := [];
    for i := 0 to |tokens| - 1
      invariant entries == DirEntries(tokens, i)
    {
      entries := entries + [TarEntry(JoinSlash(tokens[..i + 1]) + "/", Directory, ARCHIVE_DIR_MODE, [])];
    }
    entries := entries + [TarEntry(name, Regular, Perm(mode), content)];
  }

  lemma EntryNames(parts: Path, slash: bool)
    requires AllGood(parts) && parts != []
    ensures Components("/" + (JoinSlash(parts) + (if slash then "/" else ""))) == parts
  {
    ComponentsOfRender(parts);
    if slash {
      assert "/" + (JoinSlash(parts) + "/") == Render(parts) + "/";
    } else {
      assert JoinSlash(parts) + "" == JoinSlash(parts);
    }
  }

  // After the first n directory entries: those directories stand with the archive's
  // mode, everything else is as it was.
  ghost predicate DirsMade(t: Tree, t': Tree, parts: Path, n: nat) {
    forall q :: if 0 < |q| <= n && q <= parts then q in t' && t'[q] == DirNode(ARCHIVE_DIR_MODE)
                else (q in t' <==> q in t) && (q in t ==> t'[q] == t[q])
  }

  lemma MakesNone(t: Tree, parts: Path)
    ensures DirsMade(t, ExtractAll(t, DirEntries(parts, 0)), parts, 0)
  {
  }

  lemma ExtractsLast(t: Tree, es: seq<TarEntry>, e: TarEntry)
    ensures ExtractAll(t, es + [e]) == Extract(ExtractAll(t, es), e)
  {
  }

  // Above the n-th ancestor, nothing stands where only the archive's directories do.
  lemma NothingBelowMissing(t: Tree, t1: Tree, parts: Path, n: nat, q: Path)
    requires WellFormed(t) && 0 < n < |parts| && DirsMade(t, t1, parts, n - 1) && parts[..n] !in t
    ensures Below(parts[..n], q) ==> q !in t1
  {
    assert Below(parts[..n], q) ==> q[..n] == parts[..n];
    assert q in t && n < |q| ==> q[..n] in t;
    assert |q| > n ==> (q in t1 <==> q in t);
  }

  // Making directory n over the first n - 1 changes the mode of one that stands, or adds
  // one that was missing, and nothing else.
  lemma MakesDirIsUpdate(t: Tree, t1: Tree, parts: Path, n: nat)
    requires WellFormed(t) && 0 < n < |parts| && Reachable(t, parts)
    requires DirsMade(t, t1, parts, n - 1)
    requires Components("/" + (JoinSlash(parts[..n]) + "/")) == parts[..n]
    ensures Extract(t1, DirEntry(parts[..n])) == t1[parts[..n] := DirNode(ARCHIVE_DIR_MODE)]
  {
    var p := parts[..n];
    assert |p| == n && (p in t1 <==> p in t) && (p in t ==> t1[p] == t[p]);
    if p !in t {
      forall q
        ensures Below(p, q) ==> q !in t1
      {
        NothingBelowMissing(t, t1, parts, n, q);
      }
      var cleared := map q | q in t1 && !Below(p, q) :: t1[q];
      assert cleared == t1;
    }
  }

  lemma MakesDir(t: Tree, t1: Tree, parts: Path, n: nat)
    requires WellFormed(t) && 0 < n < |parts| && Reachable(t, parts)
    requires DirsMade(t, t1, parts, n - 1)
    requires Components("/" + (JoinSlash(parts[..n]) + "/")) == parts[..n]
    ensures DirsMade(t, Extract(t1, DirEntry(parts[..n])), parts, n)
  {
    MakesDirIsUpdate(t, t1, parts, n);
    var t2 := t1[parts[..n] := DirNode(ARCHIVE_DIR_MODE)];
    forall q
      ensures if 0 < |q| <= n && q <= parts then q in t2 && t2[q] == DirNode(ARCHIVE_DIR_MODE)
              else (q in t2 <==> q in t) && (q in t ==> t2[q] == t[q])
    {
      assert q <= parts && |q| == n <==> q == parts[..n];
    }
  }

  lemma MakesOneMore(t: Tree, es: seq<TarEntry>, parts: Path, n: nat)
    requires WellFormed(t) && AllGood(parts) && 0 < n < |parts| && Reachable(t, parts)
    requires DirsMade(t, ExtractAll(t, es), parts, n - 1)
    ensures DirsMade(t, ExtractAll(t, es + [DirEntry(parts[..n])]), parts, n)
  {
    EntryNames(parts[..n], true);
    ExtractsLast(t, es, DirEntry(parts[..n]));
    MakesDir(t, ExtractAll(t, es), parts, n);
  }

  lemma DirEntriesSnoc(parts: Path, n: nat)
    requires 0 < n <= |parts|
    ensures DirEntries(parts, n) == DirEntries(parts, n - 1) + [DirEntry(parts[..n])]
  {
  }

  lemma MakesNextDir(t: Tree, parts: Path, n: nat)
    requires WellFormed(t) && AllGood(parts) && 0 < n < |parts| && Reachable(t, parts)
    requires DirsMade(t, ExtractAll(t, DirEntries(parts, n - 1)), parts, n - 1)
    ensures DirsMade(t, ExtractAll(t, DirEntries(parts, n)), parts, n)
  {
    var es := DirEntries(parts, n - 1);
    DirEntriesSnoc(parts, n);
    MakesOneMore(t, es, parts, n);
  }

  lemma {:induction false} MakesDirs(t: Tree, parts: Path, n: nat)
    requires WellFormed(t) && AllGood(parts) && n < |parts| && Reachable(t, parts)
    ensures DirsMade(t, ExtractAll(t, DirEntries(parts, n)), parts, n)
  {
    if n == 0 {
      MakesNone(t, parts);
    } else {
      MakesDirs(t, parts, n - 1);
      MakesNextDir(t, parts, n);
    }
  }

  /** The tree after a write: the file, its ancestors as directories, and everything else
      that was not below the file's own path. */
  ghost predicate Written(t: Tree, t': Tree, parts: Path, content: seq<Byte>, mode: nat) {
    && parts in t' && t'[parts] == FileNode(content, Perm(mode))
    && (forall k :: 0 < k < |parts| ==> parts[..k] in t' && t'[parts[..k]] == DirNode(ARCHIVE_DIR_MODE))
    && (forall q :: Below(parts, q) ==> q !in t')
    && (forall q :: !(q <= parts) && !Below(parts, q) ==> (q in t' <==> q in t) && (q in t ==> t'[q] == t[q]))
  }

  // What a file entry leaves: itself, and whatever was neither at nor below its path.
  ghost predicate Replaced(t1: Tree, t': Tree, p: Path, node: Node) {
    && p in t' && t'[p] == node
    && forall q :: q != p ==> (q in t' <==> q in t1 && !Below(p, q)) && (q in t' ==> t'[q] == t1[q])
  }

  lemma FileReplaces(t1: Tree, e: TarEntry, p: Path)
    requires e.kind == Regular && Components("/" + e.name) == p
    ensures Replaced(t1, Extract(t1, e), p, FileNode(e.content, e.mode))
  {
  }

  lemma ReplacedIsWritten(t: Tree, t1: Tree, t': Tree, parts: Path, content: seq<Byte>, mode: nat)
    requires WellFormed(t) && parts != [] && DirsMade(t, t1, parts, |parts| - 1)
    requires Replaced(t1, t', parts, FileNode(content, Perm(mode)))
    ensures Written(t, t', parts, content, mode) && [] !in t'
  {
  }

  lemma PutsFile(t: Tree, t1: Tree, parts: Path, content: seq<Byte>, mode: nat)
    requires WellFormed(t) && parts != [] && DirsMade(t, t1, parts, |parts| - 1)
    requires Components("/" + JoinSlash(parts)) == parts
    ensures var t' := Extract(t1, TarEntry(JoinSlash(parts), Regular, Perm(mode), content));
            Written(t, t', parts, content, mode) && [] !in t'
  {
    var t' := Extract(t1, TarEntry(JoinSlash(parts), Regular, Perm(mode), content));
    FileReplaces(t1, TarEntry(JoinSlash(parts), Regular, Perm(mode), content), parts);
    ReplacedIsWritten(t, t1, t', parts, content, mode);
  }

  lemma WrittenAncestor(t: Tree, t': Tree, parts: Path, content: seq<Byte>, mode: nat, q: Path, k: nat)
    requires WellFormed(t) && parts != [] && Written(t, t', parts, content, mode)
    requires q in t' && 0 < k < |q|
    ensures q[..k] in t' && t'[q[..k]].DirNode?
  {
    var a := q[..k];
    assert !Below(parts, q);
    assert a == parts || Below(parts, a) ==> Below(parts, q);
    if a <= parts {
      assert a == parts[..k];
    } else {
      assert q <= parts ==> a <= parts;
      assert q in t && t[a].DirNode?;
    }
  }

  lemma WrittenIsWellFormed(t: Tree, t': Tree, parts: Path, content: seq<Byte>, mode: nat)
    requires WellFormed(t) && AllGood(parts) && parts != [] && Written(t, t', parts, content, mode)
    requires [] !in t'
    ensures WellFormed(t')
  {
    forall q | q in t'
      ensures q != [] && AllGood(q) && forall k :: 0 < k < |q| ==> q[..k] in t' && t'[q[..k]].DirNode?
    {
      assert q <= parts ==> q == parts[..|q|];
      assert q <= parts || q in t;
      forall k | 0 < k < |q|
        ensures q[..k] in t' && t'[q[..k]].DirNode?
      {
        WrittenAncestor(t, t', parts, content, mode, q, k);
      }
    }
  }

  lemma WriteLands(t: Tree, parts: Path, content: seq<Byte>, mode: nat)
    requires WellFormed(t) && AllGood(parts) && parts != [] && Reachable(t, parts)
    ensures var t' := ExtractAll(t, WriteEntries(parts, content, mode));
            Written(t, t', parts, content, mode) && WellFormed(t')
  {
    var n := |parts| - 1;
    var es, e := DirEntries(parts, n), TarEntry(JoinSlash(parts), Regular, Perm(mode), content);
    ExtractsLast(t, es, e);
    MakesDirs(t, parts, n);
    EntryNames(parts, false);
    assert JoinSlash(parts) + "" == JoinSlash(parts);
    PutsFile(t, ExtractAll(t, es), parts, content, mode);
    WrittenIsWellFormed(t, ExtractAll(t, es + [e]), parts, content, mode);
  }

  // ---- What the daemon streams back ----

  /** Some listing of the subtree at p: every node once. */
  ghost predicate IsSubtree(t: Tree, p: Path, nodes: seq<Path>) {
    && (forall i, j :: 0 <= i < j < |nodes| ==> nodes[i] != nodes[j])
    && (forall q :: q in nodes <==> q in t && p <= q)
  }

  // An entry's name starts with the last component of p; a directory's ends in a slash.
  function NodeEntry(t: Tree, p: Path, q: Path): TarEntry
    requires p != [] && p <= q && q in t
  {
    var name := JoinSlash(q[|p| - 1..]);
    match t[q]
    case FileNode(content, mode) => TarEntry(name, Regular, mode, content)
    case DirNode(mode) => TarEntry(name + "/", Directory, mode, [])
    case LinkNode(mode) => TarEntry(name, OtherKind, mode, [])
  }

  ghost predicate Streams(t: Tree, p: Path, nodes: seq<Path>, entries: seq<TarEntry>) {
    && p != [] && IsSubtree(t, p, nodes)
    && |entries| == |nodes|
    && forall i :: 0 <= i < |nodes| ==>
         nodes[i] in nodes && entries[i] == NodeEntry(t, p, nodes[i])
  }

  // ---- Reading ----

  predicate Wanted(e: TarEntry, base: string) {
    e.kind == Regular && e.name == base
  }

  /** What a reader of a stream makes of it: the first wanted entry decides. */
  function Unarchived(base: string, stream: TarStream): Result<seq<Byte>>
    decreases |stream.entries|
  {
    if stream.entries == [] then Err(if stream.broken then ErrDaemon else ErrPathNotFound)
    else if Wanted(stream.entries[0], base) then
      if |stream.entries[0].content| > MAX_FILE_SIZE then Err(ErrFileTooLarge) else Ok(stream.entries[0].content)
    else Unarchived(base, stream.(entries := stream.entries[1..]))
  }

  method FileUnarchive(filePath: string, stream: TarStream) returns (r: Result<seq<Byte>>)
    requires IsAbs(filePath)
    ensures r == Unarchived(BasePath(filePath), stream)
    ensures var es, base := stream.entries, BasePath(filePath);
            if exists i :: 0 <= i < |es| && Wanted(es[i], base) then
              exists i :: && 0 <= i < |es| && Wanted(es[i], base) && (forall j :: 0 <= j < i ==> !Wanted(es[j], base))
                          && r == (if |es[i].content| > MAX_FILE_SIZE then Err(ErrFileTooLarge) else Ok(es[i].content))
            else r == Err(if stream.broken then ErrDaemon else ErrPathNotFound)
  {
    var targetBasename := BasePath(filePath);
    for i := 0 to |stream.entries|
      invariant forall j :: 0 <= j < i ==> !Wanted(stream.entries[j], targetBasename)
      invariant Unarchived(targetBasename, stream)
                  == Unarchived(targetBasename, stream.(entries := stream.entries[i..]))
    {
      assert stream.entries[i..][1..] == stream.entries[i + 1..];
      var header := stream.entries[i];
      if header.kind != Regular || header.name != targetBasename {
        continue;
      }
      assert Wanted(header, targetBasename);
      if |header.content| > MAX_FILE_SIZE {
        return Err(ErrFileTooLarge);
      }
      return Ok(header.content);
    }
    return Err(if stream.broken then ErrDaemon else ErrPathNotFound);
  }

  lemma {:induction false} DeepNamesHaveSlash(parts: Path)
    requires |parts| > 1
    ensures '/' in JoinSlash(parts)
  {
  }

  /** In a subtree's stream, the only entry a read takes is the one for the path itself,
      and only if that is a file. */
  lemma WantedIsTheFile(t: Tree, p: Path, nodes: seq<Path>, entries: seq<TarEntry>, i: nat)
    requires WellFormed(t) && p != [] && AllGood(p) && Streams(t, p, nodes, entries) && i < |entries|
    ensures Wanted(entries[i], p[|p| - 1]) <==> nodes[i] == p && t[p].FileNode?
  {
    var q := nodes[i];
    assert q in nodes;
    var suffix := q[|p| - 1..];
    assert suffix[0] == p[|p| - 1];
    if |suffix| > 1 {
      DeepNamesHaveSlash(suffix);
      assert q != p;
    } else {
      assert q == p;
    }
  }

  lemma {:induction false} FirstWantedIsRead(base: string, stream: TarStream, content: seq<Byte>)
    requires exists i :: 0 <= i < |stream.entries| && Wanted(stream.entries[i], base)
    requires forall i :: 0 <= i < |stream.entries| && Wanted(stream.entries[i], base) ==>
               stream.entries[i].content == content
    requires |content| <= MAX_FILE_SIZE
    ensures Unarchived(base, stream) == Ok(content)
    decreases |stream.entries|
  {
    if !Wanted(stream.entries[0], base) {
      var rest := stream.entries[1..];
      var i :| 0 <= i < |stream.entries| && Wanted(stream.entries[i], base);
      assert rest[i - 1] == stream.entries[i];
      FirstWantedIsRead(base, stream.(entries := rest), content);
    }
  }

  lemma StreamHoldsFile(t: Tree, p: Path, content: seq<Byte>, nodes: seq<Path>, entries: seq<TarEntry>)
    requires WellFormed(t) && p != [] && AllGood(p) && Streams(t, p, nodes, entries)
    requires p in t && t[p].FileNode? && t[p].content == content
    ensures exists i :: 0 <= i < |entries| && Wanted(entries[i], p[|p| - 1]) && entries[i].content == content
    ensures forall i :: 0 <= i < |entries| && Wanted(entries[i], p[|p| - 1]) ==> entries[i].content == content
  {
  }

  /** Reading back: after a validated write whose ancestors are absent or directories, a
      read of the path yields exactly the bytes written, from any stream the daemon may
      make of the path, even one that breaks off after its entries. */
  lemma WriteThenRead(t: Tree, filePath: string, content: seq<Byte>, mode: nat, nodes: seq<Path>,
      entries: seq<TarEntry>, broken: bool)
    requires ValidateWrite(filePath, content).Ok? && WellFormed(t) && Reachable(t, Components(filePath))
    requires Components(filePath) != []
    requires var t' := ExtractAll(t, WriteEntries(Components(filePath), content, mode));
             Streams(t', Components(filePath), nodes, entries)
    ensures exists i :: 0 <= i < |entries| && Wanted(entries[i], BasePath(filePath)) && entries[i].content == content
    ensures forall i :: 0 <= i < |entries| && Wanted(entries[i], BasePath(filePath)) ==> entries[i].content == content
    ensures Unarchived(BasePath(filePath), TarStream(entries, broken)) == Ok(content)
    ensures |content| <= MAX_FILE_SIZE
  {
    ValidPathsAreRenderings(filePath);
    var p := Components(filePath);
    var t' := ExtractAll(t, WriteEntries(p, content, mode));
    WriteLands(t, p, content, mode);
    DirAndBase(p);
    StreamHoldsFile(t', p, content, nodes, entries);
    FirstWantedIsRead(p[|p| - 1], TarStream(entries, broken), content);
  }

  lemma AncestorsAreDirs(t: Tree, parts: Path, other: Path)
    requires WellFormed(t) && Reachable(t, parts) && other in t
    ensures other < parts ==> t[other].DirNode?
  {
    if other < parts {
      assert parts[..|other|] == other;
    }
  }

  /** A file elsewhere reads the same before and after the write. */
  lemma WriteLeavesOtherFiles(t: Tree, parts: Path, content: seq<Byte>, mode: nat, other: Path)
    requires WellFormed(t) && AllGood(parts) && parts != [] && Reachable(t, parts)
    requires other in t && t[other].FileNode? && other != parts && !Below(parts, other)
    ensures var t' := ExtractAll(t, WriteEntries(parts, content, mode)); other in t' && t'[other] == t[other]
  {
    WriteLands(t, parts, content, mode);
    AncestorsAreDirs(t, parts, other);
  }

  // The first entry, if any, that is a regular file of that name.
  ghost predicate FirstFile(es: seq<TarEntry>, base: string, i: int) {
    && 0 <= i < |es| && es[i].kind == Regular && es[i].name == base
    && forall j :: 0 <= j < i ==> es[j].kind != Regular || es[j].name != base
  }

  /** What a reader makes of any stream, entry by entry: the first regular file of the name
      decides, by ten mebibytes; where there is none, and a link or a directory of the name
      is none, the path is not found, or the stream's own failure reported. */
  lemma {:induction false} ReaderAnswers(base: string, stream: TarStream)
    ensures forall i :: FirstFile(stream.entries, base, i) ==>
              Unarchived(base, stream) == if |stream.entries[i].content| > 10_485_760 then Err(ErrFileTooLarge)
                                          else Ok(stream.entries[i].content)
    ensures (forall i :: 0 <= i < |stream.entries| ==>
               stream.entries[i].kind != Regular || stream.entries[i].name != base) ==>
              Unarchived(base, stream) == Err(if stream.broken then ErrDaemon else ErrPathNotFound)
    decreases |stream.entries|
  {
    var es := stream.entries;
    if es != [] && (es[0].kind != Regular || es[0].name != base) {
      ReaderAnswers(base, stream.(entries := es[1..]));
      forall i | FirstFile(es, base, i)
        ensures FirstFile(es[1..], base, i - 1)
      {
        assert forall j :: 0 <= j < i - 1 ==> es[1..][j] == es[j + 1];
      }
      assert forall j :: 0 <= j < |es| - 1 ==> es[1..][j] == es[j + 1];
    }
  }

  /** A read of a path that holds no file, of a directory or a link say, is not found, or
      the stream's failure: it never yields another node's bytes. */
  lemma ReadOfNoFile(t: Tree, p: Path, nodes: seq<Path>, stream: TarStream)
    requires WellFormed(t) && p != [] && AllGood(p) && Streams(t, p, nodes, stream.entries)
    requires p !in t || !t[p].FileNode?
    ensures Unarchived(p[|p| - 1], stream) == Err(if stream.broken then ErrDaemon else ErrPathNotFound)
  {
    forall i | 0 <= i < |stream.entries|
      ensures stream.entries[i].kind != Regular || stream.entries[i].name != p[|p| - 1]
    {
      assert nodes[i] in nodes;
      WantedIsTheFile(t, p, nodes, stream.entries, i);
    }
    ReaderAnswers(p[|p| - 1], stream);
  }

  lemma {:induction false} DirEntriesAt(parts: Path, n: nat)
    requires n <= |parts|
    ensures |DirEntries(parts, n)| == n
    ensures forall i :: 0 <= i < n ==>
              DirEntries(parts, n)[i] == TarEntry(JoinSlash(parts[..i + 1]) + "/", Directory, 488, [])
  {
    if n > 0 {
      DirEntriesAt(parts, n - 1);
    }
  }

  /** The archive's numbers: directories 0750, a file its permission bits, nothing above. */
  lemma ModesSpelledOut(parts: Path, content: seq<Byte>, mode: nat)
    requires parts != []
    ensures var es := WriteEntries(parts, content, mode);
            && |es| == |parts|
            && (forall i :: 0 <= i < |parts| - 1 ==>
                  es[i] == TarEntry(JoinSlash(parts[..i + 1]) + "/", Directory, 488, []))
            && es[|parts| - 1] == TarEntry(JoinSlash(parts), Regular, mode % 512, content)
  {
    DirEntriesAt(parts, |parts| - 1);
  }

  // ---- Listing ----

  function EntryInfo(parent: string, e: TarEntry): FileInfo {
    FileInfo(JoinPath(parent, e.name), |e.content|, e.mode, e.kind == Directory)
  }

  // The infos kept: all entries but the listed directory itself.
  function Kept(dirPath: string, entries: seq<TarEntry>): seq<FileInfo>
    requires IsAbs(dirPath)
  {
    if entries == [] then []
    else
      var info := EntryInfo(DirPath(dirPath), entries[|entries| - 1]);
      Kept(dirPath, entries[..|entries| - 1]) + (if info.isDir && info.path == dirPath then [] else [info])
  }

  lemma {:induction false} KeptGrows(dirPath: string, entries: seq<TarEntry>, n: nat)
    requires IsAbs(dirPath) && n <= |entries|
    ensures |Kept(dirPath, entries[..n])| <= |Kept(dirPath, entries)|
    decreases |entries|
  {
    if n < |entries| {
      var front := entries[..|entries| - 1];
      assert entries[..n] == front[..n];
      KeptGrows(dirPath, front, n);
    } else {
      assert entries[..n] == entries;
    }
  }

  lemma KeptOneMore(dirPath: string, entries: seq<TarEntry>, i: nat)
    requires IsAbs(dirPath) && i < |entries|
    ensures var info := EntryInfo(DirPath(dirPath), entries[i]);
            Kept(dirPath, entries[..i + 1])
            == Kept(dirPath, entries[..i]) + (if info.isDir && info.path == dirPath then [] else [info])
  {
    assert entries[..i + 1][..i] == entries[..i];
  }

  // What a reader of a stream lists: all or nothing.
  function ListResult(dirPath: string, stream: TarStream): Result<seq<FileInfo>>
    requires IsAbs(dirPath)
  {
    if |Kept(dirPath, stream.entries)| > MAX_TOTAL_FILES then Err(ErrTotalFilesTooLarge)
    else if stream.broken then Err(ErrDaemon)
    else Ok(Kept(dirPath, stream.entries))
  }

  method ListDirectoryFromTarStream(dirPath: string, stream: TarStream) returns (r: Result<seq<FileInfo>>)
    requires IsAbs(dirPath)
    ensures r == ListResult(dirPath, stream)
  {
    var fileInfos: seq<FileInfo> := [];
    var parent := DirPath(dirPath);
    for i := 0 to |stream.entries|
      invariant fileInfos == Kept(dirPath, stream.entries[..i]) && |fileInfos| <= MAX_TOTAL_FILES
    {
      KeptOneMore(dirPath, stream.entries, i);
      KeptGrows(dirPath, stream.entries, i + 1);
      var header := stream.entries[i];
      var entryPath := JoinPath(parent, header.name);
      var isDir := header.kind == Directory;
      if isDir && entryPath == dirPath {
        continue;
      }
      fileInfos := fileInfos + [FileInfo(entryPath, |header.content|, header.mode, isDir)];
      if |fileInfos| > MAX_TOTAL_FILES {
        return Err(ErrTotalFilesTooLarge);
      }
    }
    assert stream.entries[..|stream.entries|] == stream.entries;
    if stream.broken {
      return Err(ErrDaemon);
    }
    return Ok(fileInfos);
  }

  // What a listing of p should say about node q.
  function NodeInfo(t: Tree, q: Path): FileInfo
    requires q in t
  {
    match t[q]
    case FileNode(content, mode) => FileInfo(Render(q), |content|, mode, false)
    case DirNode(mode) => FileInfo(Render(q), 0, mode, true)
    case LinkNode(mode) => FileInfo(Render(q), 0, mode, false)
  }

  function Descendants(p: Path, nodes: seq<Path>): seq<Path> {
    if nodes == [] then []
    else Descendants(p, nodes[..|nodes| - 1]) + (if nodes[|nodes| - 1] == p then [] else [nodes[|nodes| - 1]])
  }

  // An entry's name, joined onto the parent of the listed directory.
  lemma RelativeNameJoins(p: Path, q: Path, slash: bool)
    requires p != [] && AllGood(q) && p <= q
    ensures var name := JoinSlash(q[|p| - 1..]);
            JoinPath(Render(p[..|p| - 1]), if slash then name + "/" else name) == Render(q)
  {
    var front, suffix := p[..|p| - 1], q[|p| - 1..];
    assert q == front + suffix;
    JoinPathAppends(front, suffix, slash);
    assert JoinSlash(suffix) + "" == JoinSlash(suffix);
  }

  lemma EntryInfoIsNodeInfo(t: Tree, p: Path, q: Path)
    requires WellFormed(t) && p != [] && AllGood(p) && p <= q && q in t
    ensures EntryInfo(DirPath(Render(p)), NodeEntry(t, p, q)) == NodeInfo(t, q)
    ensures Render(q) == Render(p) <==> q == p
  {
    DirAndBase(p);
    RelativeNameJoins(p, q, t[q].DirNode?);
    ComponentsOfRender(p);
    ComponentsOfRender(q);
  }

  ghost predicate Faithful(t: Tree, p: Path, nodes: seq<Path>, entries: seq<TarEntry>)
    requires p != []
  {
    && |entries| == |nodes|
    && forall i :: 0 <= i < |nodes| ==> nodes[i] in t && p <= nodes[i] && entries[i] == NodeEntry(t, p, nodes[i])
  }

  ghost predicate InfosOf(t: Tree, p: Path, infos: seq<FileInfo>, ds: seq<Path>) {
    && |infos| == |ds|
    && forall i :: 0 <= i < |ds| ==>
         && ds[i] in t && p < ds[i]
         && infos[i] == NodeInfo(t, ds[i]) && ValidatePath(infos[i].path).Ok?
  }

  lemma NodeInfoIsValid(t: Tree, q: Path)
    requires AllGood(q) && q in t
    ensures ValidatePath(NodeInfo(t, q).path).Ok?
  {
    ValidPathsAreRenderings(Render(q));
    ComponentsOfRender(q);
  }

  lemma KeptLast(t: Tree, p: Path, q: Path, entries: seq<TarEntry>)
    requires WellFormed(t) && p != [] && AllGood(p) && p in t && t[p].DirNode? && p <= q && q in t
    requires entries != [] && entries[|entries| - 1] == NodeEntry(t, p, q)
    ensures Kept(Render(p), entries)
         == Kept(Render(p), entries[..|entries| - 1]) + (if q == p then [] else [NodeInfo(t, q)])
  {
    EntryInfoIsNodeInfo(t, p, q);
  }

  lemma OneMoreInfo(t: Tree, p: Path, infos: seq<FileInfo>, ds: seq<Path>, q: Path)
    requires InfosOf(t, p, infos, ds) && p <= q && q in t
    requires ValidatePath(NodeInfo(t, q).path).Ok?
    ensures InfosOf(t, p, infos + (if q == p then [] else [NodeInfo(t, q)]), ds + (if q == p then [] else [q]))
  {
  }

  /** Listing a directory: each descendant in the daemon's order, under its absolute path,
      which ValidatePath accepts. */
  lemma {:induction false} KeptAreDescendants(t: Tree, p: Path, nodes: seq<Path>, entries: seq<TarEntry>)
    requires WellFormed(t) && p != [] && AllGood(p) && p in t && t[p].DirNode?
    requires Faithful(t, p, nodes, entries)
    ensures InfosOf(t, p, Kept(Render(p), entries), Descendants(p, nodes))
    decreases |nodes|
  {
    if nodes != [] {
      var n := |nodes| - 1;
      var q := nodes[n];
      KeptAreDescendants(t, p, nodes[..n], entries[..n]);
      KeptLast(t, p, q, entries);
      NodeInfoIsValid(t, q);
      OneMoreInfo(t, p, Kept(Render(p), entries[..n]), Descendants(p, nodes[..n]), q);
    }
  }

  lemma LastIsNew(nodes: seq<Path>)
    requires nodes != [] && forall i, j :: 0 <= i < j < |nodes| ==> nodes[i] != nodes[j]
    ensures nodes[|nodes| - 1] !in nodes[..|nodes| - 1]
    ensures forall q :: q in nodes <==> q in nodes[..|nodes| - 1] || q == nodes[|nodes| - 1]
  {
    assert nodes == nodes[..|nodes| - 1] + [nodes[|nodes| - 1]];
  }

  lemma {:induction false} DescendantsAreExact(p: Path, nodes: seq<Path>)
    requires forall i, j :: 0 <= i < j < |nodes| ==> nodes[i] != nodes[j]
    ensures var ds := Descendants(p, nodes);
            && (forall i, j :: 0 <= i < j < |ds| ==> ds[i] != ds[j])
            && (forall q :: q in ds <==> q in nodes && q != p)
  {
    if nodes != [] {
      var front, last := nodes[..|nodes| - 1], nodes[|nodes| - 1];
      forall i, j | 0 <= i < j < |front|
        ensures front[i] != front[j]
      {
        assert nodes[i] != nodes[j];
      }
      DescendantsAreExact(p, front);
      LastIsNew(nodes);
      assert Descendants(p, nodes) == Descendants(p, front) + (if last == p then [] else [last]);
    }
  }

  lemma DistinctPaths(t: Tree, p: Path, infos: seq<FileInfo>, ds: seq<Path>)
    requires WellFormed(t) && InfosOf(t, p, infos, ds)
    requires forall i, j :: 0 <= i < j < |ds| ==> ds[i] != ds[j]
    ensures forall i, j :: 0 <= i < j < |infos| ==> infos[i].path != infos[j].path
  {
    forall i, j | 0 <= i < j < |infos|
      ensures infos[i].path != infos[j].path
    {
      ComponentsOfRender(ds[i]);
      ComponentsOfRender(ds[j]);
    }
  }

  lemma EntriesAreFaithful(t: Tree, p: Path, nodes: seq<Path>, entries: seq<TarEntry>)
    requires Streams(t, p, nodes, entries)
    ensures Faithful(t, p, nodes, entries)
  {
    forall i | 0 <= i < |nodes|
      ensures nodes[i] in t && p <= nodes[i]
    {
      assert nodes[i] in nodes;
    }
  }

  /** The listing of a non-root directory, whole: with more descendants than the cap it
      fails; otherwise, if the stream does not break off, it returns one info per descendant,
      none twice, every path accepted.  It never returns a part of the list. */
  lemma ListingIsExact(t: Tree, p: Path, nodes: seq<Path>, stream: TarStream)
    requires WellFormed(t) && p != [] && AllGood(p) && p in t && t[p].DirNode?
    requires Streams(t, p, nodes, stream.entries)
    ensures var ds := Descendants(p, nodes);
            && (forall q :: q in ds <==> q in t && Below(p, q))
            && (forall i, j :: 0 <= i < j < |ds| ==> ds[i] != ds[j])
            && match ListResult(Render(p), stream)
               case Err(e) =>
                 if |ds| > 1000 then e == ErrTotalFilesTooLarge else stream.broken && e == ErrDaemon
               case Ok(infos) =>
                 && |ds| <= 1000 && !stream.broken && InfosOf(t, p, infos, ds)
                 && forall i, j :: 0 <= i < j < |infos| ==> infos[i].path != infos[j].path
  {
    EntriesAreFaithful(t, p, nodes, stream.entries);
    KeptAreDescendants(t, p, nodes, stream.entries);
    DescendantsAreExact(p, nodes);
    DistinctPaths(t, p, Kept(Render(p), stream.entries), Descendants(p, nodes));
  }

  lemma NothingBelowFile(t: Tree, p: Path, nodes: seq<Path>)
    requires WellFormed(t) && p in t && !t[p].DirNode? && IsSubtree(t, p, nodes)
    ensures nodes == [p]
  {
    forall q | q in nodes
      ensures q == p
    {
      AncestorsAreDirs(t, q, p);
    }
    assert p in nodes;
    var last := |nodes| - 1;
    assert nodes[0] in nodes && nodes[last] in nodes && nodes[0] == nodes[last];
    assert last == 0;
  }

  lemma KeptOfOne(dirPath: string, e: TarEntry)
    requires IsAbs(dirPath) && e.kind != Directory
    ensures Kept(dirPath, [e]) == [EntryInfo(DirPath(dirPath), e)]
  {
    KeptOneMore(dirPath, [e], 0);
    assert [e][..1] == [e] && [e][..0] == [];
  }

  /** Listing a path that is no directory lists that one node, a file by its size, a link by
      none: only a directory is left out of its own listing. */
  lemma ListingOfNoDirectory(t: Tree, p: Path, nodes: seq<Path>, stream: TarStream)
    requires WellFormed(t) && p != [] && AllGood(p) && p in t && !t[p].DirNode?
    requires Streams(t, p, nodes, stream.entries)
    ensures ListResult(Render(p), stream) == if stream.broken then Err(ErrDaemon) else Ok([NodeInfo(t, p)])
    ensures NodeInfo(t, p).path == Render(p) && !NodeInfo(t, p).isDir
  {
    NothingBelowFile(t, p, nodes);
    var e := NodeEntry(t, p, p);
    assert stream.entries == [e];
    EntryInfoIsNodeInfo(t, p, p);
    KeptOfOne(Render(p), e);
  }
}
