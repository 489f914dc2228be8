/**
 * The title registry both storage managers keep: a Python dict (insertion-ordered) from the
 * normalized title to its metadata, and the file names derived from a key.
 */
module Registry {
  import opened Wrappers
  import opened PyText

  /** One registry entry: `display_name`, `index_file`, `chunks_file`, `chunk_count`. */
  datatype TitleInfo = TitleInfo(displayName: string, indexFile: string, chunksFile: string, chunkCount: int)

  /** Removes `k` from a list of keys, keeping the order of the others. */
  function Without(order: seq<string>, k: string): (r: seq<string>)
    ensures forall x :: x in r <==> x in order && x != k
    ensures |r| <= |order|
  {
    if order == [] then []
    else if order[0] == k then Without(order[1..], k)
    else [order[0]] + Without(order[1..], k)
  }

  predicate Distinct(order: seq<string>) {
    forall i, j :: 0 <= i < j < |order| ==> order[i] != order[j]
  }

  lemma {:induction false} WithoutKeepsDistinct(order: seq<string>, k: string)
    requires Distinct(order)
    ensures Distinct(Without(order, k))
    decreases |order|
  {
    if order != [] {
      WithoutKeepsDistinct(order[1..], k);
      if order[0] != k {
        assert order[0] !in order[1..];
      }
    }
  }

  /** A Python dict with string keys: the entries, and the keys in insertion order. */
  datatype Dict<V> = Dict(order: seq<string>, entries: map<string, V>) {

    ghost predicate Valid() {
      && Distinct(order)
      && (forall k :: k in entries <==> k in order)
    }

    /** `d.get(k)` */
    function Get(k: string): Option<V> {
      if k in entries then Some(entries[k]) else None
    }

    /** `d[k] = v`: a new key goes to the end, an existing key keeps its place. */
    function Put(k: string, v: V): (d: Dict<V>)
      requires Valid()
      ensures d.Valid()
      ensures d.entries == entries[k := v]
      ensures k in entries ==> d.order == order
      ensures k !in entries ==> d.order == order + [k]
    {
      if k in entries then Dict(order, entries[k := v]) else Dict(order + [k], entries[k := v])
    }

    /** `del d[k]`: the other keys keep their values and their order. */
    function Remove(k: string): (d: Dict<V>)
      requires Valid() && k in entries
      ensures d.Valid()
      ensures d.entries == entries - {k}
      ensures d.order == Without(order, k)
      ensures |d.order| == |order| - 1
    {
      WithoutKeepsDistinct(order, k);
      var d := Dict(Without(order, k), entries - {k});
      assert d.entries.Keys == entries.Keys - {k};
      DistinctCount(d.order, d.entries.Keys);
      DistinctCount(order, entries.Keys);
      d
    }

    /** `list(d.values())` */
    function Values(): (vs: seq<V>)
      requires Valid()
      ensures |vs| == |order|
      ensures forall i :: 0 <= i < |order| ==> vs[i] == entries[order[i]]
    {
      seq(|order|, i requires 0 <= i < |order| => entries[order[i]])
    }
  }

  /** A list of distinct keys is exactly as long as the set it enumerates. */
  lemma {:induction false} DistinctCount(order: seq<string>, keys: set<string>)
    requires Distinct(order)
    requires forall k :: k in keys <==> k in order
    ensures |order| == |keys|
    decreases |order|
  {
    if order != [] {
      assert order[0] !in order[1..];
      var rest := keys - {order[0]};
      forall k ensures k in rest <==> k in order[1..] {
        if k in order && k != order[0] {
          var i :| 0 <= i < |order| && order[i] == k;
          assert order[1..][i - 1] == k;
        }
      }
      DistinctCount(order[1..], rest);
    }
  }

  function EmptyDict<V>(): (d: Dict<V>)
    ensures d.Valid() && d.entries == map[] && d.order == []
  {
    Dict([], map[])
  }

  /** `os.path.join(dir, name)` on POSIX: an absolute `name` replaces `dir`; nothing is normalised. */
  function PathJoin(dir: string, name: string): string {
    if |name| > 0 && name[0] == '/' then name
    else if dir == "" then name
    else if dir[|dir| - 1] == '/' then dir + name
    else dir + "/" + name
  }

  /** `os.path.join(dir, f"{key}.index")` */
  function IndexPath(dir: string, key: string): string {
    PathJoin(dir, key + ".index")
  }

  /** `os.path.join(dir, f"{key}_chunks.json")` */
  function ChunksPath(dir: string, key: string): string {
    PathJoin(dir, key + "_chunks.json")
  }

  /** The entry a new collection gets: no chunks yet, files named after the key. */
  function NewEntry(displayName: string, dir: string, key: string): (info: TitleInfo)
    ensures info.chunkCount == 0 && info.displayName == displayName
    ensures info.indexFile != info.chunksFile
  {
    var info := TitleInfo(displayName, IndexPath(dir, key), ChunksPath(dir, key), 0);
    FileNamesDiffer(dir, key);
    info
  }

  /** The index file and the chunk file of one key never share a path. */
  lemma FileNamesDiffer(dir: string, key: string)
    ensures IndexPath(dir, key) != ChunksPath(dir, key)
  {
    var a, b := IndexPath(dir, key), ChunksPath(dir, key);
    var x, y := key + ".index", key + "_chunks.json";
    assert x[|x| - 1] == 'x' && y[|y| - 1] == 'n';
    assert a[|a| - 1] == x[|x| - 1];
    assert b[|b| - 1] == y[|y| - 1];
  }

  /** A key that does not begin with `/`, so joining it to a directory keeps the directory. */
  predicate Relative(key: string) {
    key == [] || key[0] != '/'
  }

  /** Joining two relative names to the same directory gives the same path only for the same name. */
  lemma PathJoinInjective(dir: string, a: string, b: string)
    requires Relative(a) && Relative(b) && PathJoin(dir, a) == PathJoin(dir, b)
    ensures a == b
  {
    var p := if dir == "" then "" else if dir[|dir| - 1] == '/' then dir else dir + "/";
    assert PathJoin(dir, a) == p + a && PathJoin(dir, b) == p + b;
    assert a == (p + a)[|p|..] && b == (p + b)[|p|..];
  }

  /** Two names that end in the same suffix are equal when the whole strings are. */
  lemma SuffixCancels(a: string, b: string, suffix: string)
    requires a + suffix == b + suffix
    ensures a == b
  {
    assert |a| == |b|;
    assert a == (a + suffix)[..|a|] && b == (b + suffix)[..|b|];
  }

  /** Distinct relative keys never share an index file or a chunk file. */
  lemma KeyPathsDiffer(dir: string, k1: string, k2: string)
    requires Relative(k1) && Relative(k2) && k1 != k2
    ensures IndexPath(dir, k1) != IndexPath(dir, k2)
    ensures ChunksPath(dir, k1) != ChunksPath(dir, k2)
  {
    RelativeWithSuffix(k1, ".index");
    RelativeWithSuffix(k2, ".index");
    RelativeWithSuffix(k1, "_chunks.json");
    RelativeWithSuffix(k2, "_chunks.json");
    if IndexPath(dir, k1) == IndexPath(dir, k2) {
      PathJoinInjective(dir, k1 + ".index", k2 + ".index");
      SuffixCancels(k1, k2, ".index");
    }
    if ChunksPath(dir, k1) == ChunksPath(dir, k2) {
      PathJoinInjective(dir, k1 + "_chunks.json", k2 + "_chunks.json");
      SuffixCancels(k1, k2, "_chunks.json");
    }
  }

  lemma RelativeWithSuffix(k: string, suffix: string)
    requires Relative(k) && Relative(suffix)
    ensures Relative(k + suffix)
  {
    if k != [] {
      assert (k + suffix)[0] == k[0];
    }
  }

  // ---------------------------------------------------------------- pathlib

  /** A key without `/`: it names a single file directly inside the directory. */
  predicate Flat(key: string) {
    '/' !in key
  }

  /** The segments `PurePosixPath` keeps: empty ones (from repeated `/`) and `.` are dropped. */
  function KeptSegments(parts: seq<string>): (kept: seq<string>)
    ensures |kept| <= |parts|
    decreases |parts|
  {
    if parts == [] then []
    else
      var last := parts[|parts| - 1];
      KeptSegments(parts[..|parts| - 1]) + (if last != "" && last != "." then [last] else [])
  }

  /** The root `PurePosixPath` keeps: exactly two leading slashes stay two, one or three and
      more become one, none stays none. */
  function Root(p: string): string {
    if |p| >= 2 && p[0] == '/' && p[1] == '/' && (|p| == 2 || p[2] != '/') then "//"
    else if |p| >= 1 && p[0] == '/' then "/"
    else ""
  }

  /** `str(PurePosixPath(p))` */
  function PurePath(p: string): (r: string)
    ensures r != ""
  {
    var body := Root(p) + Join("/", KeptSegments(Split(p, '/')));
    if body == "" then "." else body
  }

  /** `str(Path(dir) / name)` */
  function PathDiv(dir: string, name: string): string {
    PurePath(PathJoin(dir, name))
  }

  /** `str(Path(dir) / f"{key}.index")` */
  function PathlibIndexPath(dir: string, key: string): string {
    PathDiv(dir, key + ".index")
  }

  /** `str(Path(dir) / f"{key}_chunks.json")` */
  function PathlibChunksPath(dir: string, key: string): string {
    PathDiv(dir, key + "_chunks.json")
  }

  /** The entry `create_title` records: no chunks yet, the files' pathlib paths. */
  function PathlibEntry(displayName: string, dir: string, key: string): (info: TitleInfo)
    ensures info.chunkCount == 0 && info.displayName == displayName
    ensures Flat(key) ==> info.indexFile != info.chunksFile
  {
    var info := TitleInfo(displayName, PathlibIndexPath(dir, key), PathlibChunksPath(dir, key), 0);
    if Flat(key) then PathlibFileNamesDiffer(dir, key); info else info
  }

  /** The directory as `os.path.join` leaves it before a relative name: empty, or ending in `/`. */
  function DirSlash(dir: string): (q: string)
    ensures q == "" || q[|q| - 1] == '/'
  {
    if dir == "" then "" else if dir[|dir| - 1] == '/' then dir else dir + "/"
  }

  /** The segments pathlib keeps of a directory written as `DirSlash` leaves it. */
  function DirSegments(q: string): seq<string> {
    if q == "" then [] else KeptSegments(Split(q[..|q| - 1], '/'))
  }

  /** The joined segments of a directory followed by the `/` before the next segment. */
  function SegmentPrefix(segs: seq<string>): string {
    if segs == [] then "" else Join("/", segs) + "/"
  }

  /** What `str(Path(dir) / name)` puts before a one-segment `name`. */
  function DirPrefix(dir: string): string {
    Root(DirSlash(dir) + "a") + SegmentPrefix(DirSegments(DirSlash(dir)))
  }

  /** Appending a part to the segments keeps it unless it is empty or `.`. */
  lemma KeptSnoc(parts: seq<string>, last: string)
    ensures KeptSegments(parts + [last]) == KeptSegments(parts) + (if last != "" && last != "." then [last] else [])
  {
    assert (parts + [last])[..|parts|] == parts;
  }

  /** The root depends only on the directory when the name does not start with `/`. */
  lemma RootOfDir(q: string, name: string)
    requires name != [] && name[0] != '/'
    ensures Root(q + name) == Root(q + "a")
  {
    var p, a := q + name, q + "a";
    assert |q| >= 1 ==> p[0] == a[0];
    assert |q| >= 2 ==> p[1] == a[1];
    assert |q| >= 3 ==> p[2] == a[2];
    assert |q| == 0 ==> p[0] != '/' && a[0] != '/';
    assert |q| == 1 ==> p[1] != '/' && a[1] != '/';
    assert |q| == 2 ==> p[2] != '/' && a[2] != '/';
  }

  /** Splitting a directory and one more part: the directory's kept segments, then the part
      unless pathlib drops it. */
  lemma SegmentsAfterDir(q: string, part: string)
    requires q == "" || q[|q| - 1] == '/'
    requires '/' !in part
    ensures KeptSegments(Split(q + part, '/'))
         == DirSegments(q) + (if part != "" && part != "." then [part] else [])
  {
    if q == "" {
      assert q + part == part;
      SplitWithoutSep(part, '/');
      KeptSnoc([], part);
      assert [] + [part] == [part];
    } else {
      var r := q[..|q| - 1];
      assert q == r + ['/'];
      assert q + part == r + ['/'] + part;
      SplitSnoc(r, '/', part);
      KeptSnoc(Split(r, '/'), part);
    }
  }

  /** Joining a directory's segments and one more segment. */
  lemma JoinAfterDir(segs: seq<string>, name: string)
    ensures Join("/", segs + [name]) == SegmentPrefix(segs) + name
  {
    if segs == [] {
      assert segs + [name] == [name];
    } else {
      JoinSnoc("/", segs, name);
    }
  }

  /** `str(PurePosixPath(q + name))` for a directory ending in `/` and a relative name whose
      kept segments are the directory's and `name`. */
  lemma PurePathAfterDir(q: string, rest: string, name: string)
    requires q == "" || q[|q| - 1] == '/'
    requires rest != [] && rest[0] != '/' && name != ""
    requires KeptSegments(Split(q + rest, '/')) == DirSegments(q) + [name]
    ensures PurePath(q + rest) == Root(q + "a") + SegmentPrefix(DirSegments(q)) + name
  {
    RootOfDir(q, rest);
    JoinAfterDir(DirSegments(q), name);
  }

  /** `os.path.join` of a relative name is the name after the directory's `DirSlash`. */
  lemma PathJoinRelative(dir: string, name: string)
    requires name != [] && name[0] != '/'
    ensures PathJoin(dir, name) == DirSlash(dir) + name
  {
  }

  /** A trailing `./` adds no segment to a directory. */
  lemma DotDirSegments(q: string)
    requires q == "" || q[|q| - 1] == '/'
    ensures DirSegments(q + "./") == DirSegments(q)
  {
    var q2 := q + "./";
    assert q2[..|q2| - 1] == q + ".";
    SegmentsAfterDir(q, ".");
    assert DirSegments(q) + [] == DirSegments(q);
  }

  /** A one-segment name lands right after the directory's prefix, whatever the directory. */
  lemma PathDivSegment(dir: string, name: string)
    requires Flat(name) && name != "" && name != "."
    ensures PathDiv(dir, name) == DirPrefix(dir) + name
  {
    var q := DirSlash(dir);
    assert name[0] in name;
    PathJoinRelative(dir, name);
    SegmentsAfterDir(q, name);
    PurePathAfterDir(q, name, name);
  }

  /** A `./` in front of a one-segment name is dropped: `Path(dir) / "./x"` is `Path(dir) / "x"`. */
  lemma DotSegmentDropped(dir: string, name: string)
    requires Flat(name) && name != "" && name != "."
    ensures PathDiv(dir, "./" + name) == PathDiv(dir, name)
  {
    var q := DirSlash(dir);
    var dotted := "./" + name;
    PathJoinRelative(dir, dotted);
    DotDirSegments(q);
    assert q + dotted == (q + "./") + name;
    SegmentsAfterDir(q + "./", name);
    PurePathAfterDir(q, dotted, name);
    PathDivSegment(dir, name);
  }

  /** The index file and the chunk file of a key without `/` never share a pathlib path. */
  lemma PathlibFileNamesDiffer(dir: string, key: string)
    requires Flat(key)
    ensures PathlibIndexPath(dir, key) != PathlibChunksPath(dir, key)
  {
    PathlibIndexNotChunks(dir, key, key);
  }

  /** No key without `/` has an index file that is the chunk file of a key without `/`. */
  lemma PathlibIndexNotChunks(dir: string, k1: string, k2: string)
    requires Flat(k1) && Flat(k2)
    ensures PathlibIndexPath(dir, k1) != PathlibChunksPath(dir, k2)
  {
    var x, y := k1 + ".index", k2 + "_chunks.json";
    FlatWithSuffix(k1, ".index");
    FlatWithSuffix(k2, "_chunks.json");
    PathDivSegment(dir, x);
    PathDivSegment(dir, y);
    var a, b := DirPrefix(dir) + x, DirPrefix(dir) + y;
    assert a[|a| - 1] == 'x' && b[|b| - 1] == 'n';
  }

  /** Distinct keys without `/` never share an index file or a chunk file. */
  lemma PathlibKeyPathsDiffer(dir: string, k1: string, k2: string)
    requires Flat(k1) && Flat(k2) && k1 != k2
    ensures PathlibIndexPath(dir, k1) != PathlibIndexPath(dir, k2)
    ensures PathlibChunksPath(dir, k1) != PathlibChunksPath(dir, k2)
  {
    FlatWithSuffix(k1, ".index");
    FlatWithSuffix(k2, ".index");
    FlatWithSuffix(k1, "_chunks.json");
    FlatWithSuffix(k2, "_chunks.json");
    PathDivSegment(dir, k1 + ".index");
    PathDivSegment(dir, k2 + ".index");
    PathDivSegment(dir, k1 + "_chunks.json");
    PathDivSegment(dir, k2 + "_chunks.json");
    var p := DirPrefix(dir);
    if PathlibIndexPath(dir, k1) == PathlibIndexPath(dir, k2) {
      assert k1 + ".index" == (p + (k1 + ".index"))[|p|..];
      assert k2 + ".index" == (p + (k2 + ".index"))[|p|..];
      SuffixCancels(k1, k2, ".index");
    }
    if PathlibChunksPath(dir, k1) == PathlibChunksPath(dir, k2) {
      assert k1 + "_chunks.json" == (p + (k1 + "_chunks.json"))[|p|..];
      assert k2 + "_chunks.json" == (p + (k2 + "_chunks.json"))[|p|..];
      SuffixCancels(k1, k2, "_chunks.json");
    }
  }

  /** Keys `./k` and `k` name the same files: pathlib drops the `.` segment. */
  lemma DotKeySharesFiles(dir: string, key: string)
    requires Flat(key)
    ensures PathlibIndexPath(dir, "./" + key) == PathlibIndexPath(dir, key)
    ensures PathlibChunksPath(dir, "./" + key) == PathlibChunksPath(dir, key)
  {
    FlatWithSuffix(key, ".index");
    FlatWithSuffix(key, "_chunks.json");
    assert ("./" + key) + ".index" == "./" + (key + ".index");
    assert ("./" + key) + "_chunks.json" == "./" + (key + "_chunks.json");
    DotSegmentDropped(dir, key + ".index");
    DotSegmentDropped(dir, key + "_chunks.json");
  }

  /** A key without `/` and a suffix without `/` make a name that is one segment, never `.`. */
  lemma FlatWithSuffix(k: string, suffix: string)
    requires Flat(k) && Flat(suffix) && |suffix| >= 2
    ensures Flat(k + suffix) && k + suffix != "" && k + suffix != "."
  {
    assert |k + suffix| >= 2;
  }

  /** Adding a new key and deleting it again gives back the dict, its order included. */
  lemma PutThenRemove<V>(d: Dict<V>, k: string, v: V)
    requires d.Valid() && k !in d.entries
    ensures d.Put(k, v).Valid() && k in d.Put(k, v).entries
    ensures d.Put(k, v).Remove(k) == d
  {
    var e := d.Put(k, v);
    assert e.order == d.order + [k];
    WithoutFresh(d.order, k);
    assert e.entries - {k} == d.entries;
  }

  lemma {:induction false} WithoutFresh(order: seq<string>, k: string)
    requires k !in order
    ensures Without(order + [k], k) == order
    decreases |order|
  {
    if order == [] {
      assert Without([k], k) == Without([], k);
    } else {
      assert (order + [k])[1..] == order[1..] + [k];
      WithoutFresh(order[1..], k);
    }
  }
}
