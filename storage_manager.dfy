/**
 * The learning-phase registry of named collections: a dict from normalized title to the
 * collection's metadata, persisted as one registry file under the storage directory. The
 * files on disk are a set of paths; the registry file is `None` while it does not exist.
 * The registry records paths as `os.path.join` builds them; the file the OS reaches through
 * such a path is its `PurePath`, since the OS resolves `.` segments and repeated `/`, so the
 * disk holds resolved paths.
 */
module StorageManager {
  import opened Wrappers
  import opened PyText
  import opened Registry

  /** The registry in memory, the registry file, and the resolved paths that exist on disk. */
  datatype Storage = Storage(titles: Dict<TitleInfo>, registryFile: Option<Dict<TitleInfo>>, files: set<string>)

  const RegistryName: string := "titles_registry.json"

  /** `<storage_dir>/titles_registry.json`: the registry's file name, placed under the directory. */
  function RegistryPath(dir: string): (p: string)
    ensures |p| >= |RegistryName| && p[|p| - |RegistryName|..] == RegistryName
    ensures dir != "" ==> |p| > |RegistryName|
  {
    PathJoin(dir, RegistryName)
  }

  /** `load_registry`: the file's dict, or an empty one when there is no file. */
  function LoadRegistry(file: Option<Dict<TitleInfo>>): (d: Dict<TitleInfo>)
    requires file.Some? ==> file.value.Valid()
    ensures d.Valid()
    ensures file.None? ==> d.entries == map[] && d.order == []
    ensures file.Some? ==> d == file.value
  {
    if file.Some? then file.value else EmptyDict()
  }

  /** `register_new_title`: a title whose key is taken is refused and nothing changes;
      otherwise the entry, named with the title as given, is added and saved. No file is
      created. */
  function RegisterSpec(s: Storage, dir: string, title: string): (r: (bool, Storage))
    requires s.titles.Valid()
    ensures r.1.titles.Valid()
    ensures r.0 <==> Normalize(title) !in s.titles.entries
    ensures !r.0 ==> r.1 == s
    ensures r.0 ==> && r.1.titles.entries == s.titles.entries[Normalize(title) := NewEntry(title, dir, Normalize(title))]
                    && r.1.titles.order == s.titles.order + [Normalize(title)]
                    && r.1.registryFile == Some(r.1.titles)
                    && r.1.files == s.files
  {
    var key := Normalize(title);
    if key in s.titles.entries then (false, s)
    else
      var titles := s.titles.Put(key, NewEntry(title, dir, key));
      (true, Storage(titles, Some(titles), s.files))
  }

  /** `delete_title`: an unknown title gives False; otherwise each of the entry's files that
      exists is removed, then the entry is deleted and saved. A removal that raises (a resolved
      path in `failing`) gives False, leaving the entry and whatever was already removed. */
  function DeleteSpec(s: Storage, failing: set<string>, title: string): (r: (bool, Storage))
    requires s.titles.Valid()
    ensures r.1.titles.Valid()
    ensures Normalize(title) !in s.titles.entries ==> r == (false, s)
    ensures r.0 <==> Normalize(title) in s.titles.entries && Normalize(title) !in r.1.titles.entries
    ensures !r.0 ==> r.1.titles == s.titles && r.1.registryFile == s.registryFile
    ensures r.0 ==> && r.1.titles.entries == s.titles.entries - {Normalize(title)}
                    && r.1.registryFile == Some(r.1.titles)
    ensures r.1.files <= s.files
  {
    var key := Normalize(title);
    if key !in s.titles.entries then (false, s)
    else
      var info := s.titles.entries[key];
      var index, chunks := PurePath(info.indexFile), PurePath(info.chunksFile);
      if index in s.files && index in failing then (false, s)
      else
        var files := s.files - {index};
        if chunks in files && chunks in failing then (false, s.(files := files))
        else
          var titles := s.titles.Remove(key);
          (true, Storage(titles, Some(titles), files - {chunks}))
  }

  /** The files `delete_title` removes: on success exactly the two files the entry's paths
      resolve to; an index removal that raises changes nothing; a chunks removal that raises
      leaves the index file removed and the registry as it was. */
  lemma DeleteFiles(s: Storage, failing: set<string>, title: string)
    requires s.titles.Valid() && Normalize(title) in s.titles.entries
    ensures var r := DeleteSpec(s, failing, title);
      var info := s.titles.entries[Normalize(title)];
      var index, chunks := PurePath(info.indexFile), PurePath(info.chunksFile);
      var indexRaises := index in s.files && index in failing;
      var chunksRaise := chunks in s.files - {index} && chunks in failing;
      && (r.0 <==> !indexRaises && !chunksRaise)
      && (r.0 ==> r.1.files == s.files - {index, chunks})
      && (indexRaises ==> r.1 == s)
      && (!indexRaises && chunksRaise ==> r.1 == s.(files := s.files - {index}))
  {
    var info := s.titles.entries[Normalize(title)];
    DeleteSteps(s, failing, title, PurePath(info.indexFile), PurePath(info.chunksFile));
  }

  /** Registering and deleting touch no key but the title's own. */
  lemma OwnKeyOnly(s: Storage, dir: string, failing: set<string>, title: string, k: string)
    requires s.titles.Valid() && k != Normalize(title)
    ensures var t := RegisterSpec(s, dir, title).1;
      (k in t.titles.entries <==> k in s.titles.entries) && (k in s.titles.entries ==> t.titles.entries[k] == s.titles.entries[k])
    ensures var t := DeleteSpec(s, failing, title).1;
      (k in t.titles.entries <==> k in s.titles.entries) && (k in s.titles.entries ==> t.titles.entries[k] == s.titles.entries[k])
  {
  }

  /** Titles differing only in case or surrounding whitespace name the same collection: once
      one is registered, the other is refused. */
  lemma SameKeyRefused(s: Storage, dir: string, title: string, other: string)
    requires s.titles.Valid() && Normalize(other) == Normalize(title)
    requires RegisterSpec(s, dir, title).0
    ensures var t := RegisterSpec(s, dir, title).1;
      RegisterSpec(t, dir, other) == (false, t)
  {
  }

  /** Deleting a freshly registered title, with no removal failing, gives back the registry as
      it was, order included, and removes the files its paths resolve to. */
  lemma RegisterThenDelete(s: Storage, dir: string, title: string)
    requires s.titles.Valid() && Normalize(title) !in s.titles.entries
    ensures var t := RegisterSpec(s, dir, title).1;
      var u := DeleteSpec(t, {}, title);
      && u.0
      && u.1.titles == s.titles
      && u.1.registryFile == Some(s.titles)
      && u.1.files == s.files - {PathlibIndexPath(dir, Normalize(title)), PathlibChunksPath(dir, Normalize(title))}
  {
    var key := Normalize(title);
    PutThenRemove(s.titles, key, NewEntry(title, dir, key));
  }

  // ---------------------------------------------------------------- keys containing `/`

  /** Every registered key has no `/` and names the files `register_new_title` derives from it. */
  predicate Filed(s: Storage, dir: string) {
    forall k :: k in s.titles.entries ==>
      && Flat(k)
      && s.titles.entries[k].indexFile == IndexPath(dir, k)
      && s.titles.entries[k].chunksFile == ChunksPath(dir, k)
  }

  /** Registering `./k` beside a registered `k` succeeds, since the keys differ as strings;
      deleting `./k` then removes `k`'s files, since `storage/./k.index` is `storage/k.index`,
      and `k` stays registered without them. `DotKeyNormal` shows that `k = "a"` qualifies. */
  lemma DottedDeleteErases(s: Storage, dir: string, key: string)
    requires s.titles.Valid() && Filed(s, dir) && key in s.titles.entries
    requires Normalize("./" + key) == "./" + key
    ensures var t := RegisterSpec(s, dir, "./" + key);
      var u := DeleteSpec(t.1, {}, "./" + key);
      && t.0 && u.0
      && key in u.1.titles.entries
      && PathlibIndexPath(dir, key) !in u.1.files
      && PathlibChunksPath(dir, key) !in u.1.files
  {
    var dotted := "./" + key;
    assert dotted !in s.titles.entries by {
      assert dotted[1] == '/';
    }
    RegisterThenDelete(s, dir, dotted);
    DotKeySharesFiles(dir, key);
  }

  /** `"./a".strip().lower()` is `"./a"`. */
  lemma DotKeyNormal()
    ensures Normalize("./a") == "./a"
  {
    var key := "./a";
    if IsSpace('.') {
      SpaceFromListed('.', 0);
      assert false;
    }
    LetterIsNotSpace('a');
    assert SpaceRunEnd(key, 0) == 0;
    assert TrimLeft(key) == key;
    assert SpaceRunStart(key, 3) == 3;
    assert Strip(key) == key;
    assert Lower(key) == key;
  }

  /** The files a registered entry names resolve to the key's pathlib paths. */
  lemma ResolvedEntry(s: Storage, dir: string, key: string)
    requires key in s.titles.entries
    requires s.titles.entries[key].indexFile == IndexPath(dir, key)
    requires s.titles.entries[key].chunksFile == ChunksPath(dir, key)
    ensures PurePath(s.titles.entries[key].indexFile) == PathlibIndexPath(dir, key)
    ensures PurePath(s.titles.entries[key].chunksFile) == PathlibChunksPath(dir, key)
  {
  }

  /** `register_new_title` refusing, besides a taken key, a key that contains `/`. */
  function RegisterFlatSpec(s: Storage, dir: string, title: string): (r: (bool, Storage))
    requires s.titles.Valid()
    ensures r.0 <==> Normalize(title) !in s.titles.entries && Flat(Normalize(title))
    ensures !r.0 ==> r.1 == s
    ensures r.0 ==> r == RegisterSpec(s, dir, title)
  {
    if Flat(Normalize(title)) then RegisterSpec(s, dir, title) else (false, s)
  }

  /** The corrected registration, and every deletion, keep each key filed at its own paths. */
  lemma FlatRegisterKeepsFiled(s: Storage, dir: string, failing: set<string>, title: string)
    requires s.titles.Valid() && Filed(s, dir)
    ensures Filed(RegisterFlatSpec(s, dir, title).1, dir)
    ensures Filed(DeleteSpec(s, failing, title).1, dir)
  {
    var r := RegisterFlatSpec(s, dir, title);
    if r.0 {
      var key := Normalize(title);
      assert r.1.titles.entries == s.titles.entries[key := NewEntry(title, dir, key)];
    }
    var d := DeleteSpec(s, failing, title).1;
    assert forall k :: k in d.titles.entries ==> k in s.titles.entries && d.titles.entries[k] == s.titles.entries[k];
  }

  /** On a registry whose keys are filed, deleting one title, whether it succeeds or raises,
      removes no file of another title. */
  lemma DeleteKeepsOtherFiles(s: Storage, dir: string, failing: set<string>, title: string, k: string)
    requires s.titles.Valid() && Filed(s, dir)
    requires k in s.titles.entries && k != Normalize(title)
    ensures var t := DeleteSpec(s, failing, title).1;
      && (PathlibIndexPath(dir, k) in s.files ==> PathlibIndexPath(dir, k) in t.files)
      && (PathlibChunksPath(dir, k) in s.files ==> PathlibChunksPath(dir, k) in t.files)
  {
    var key := Normalize(title);
    if key in s.titles.entries {
      PathlibKeyPathsDiffer(dir, k, key);
      PathlibIndexNotChunks(dir, k, key);
      PathlibIndexNotChunks(dir, key, k);
      ResolvedEntry(s, dir, key);
      OtherPathSurvives(s, failing, title, PathlibIndexPath(dir, k));
      OtherPathSurvives(s, failing, title, PathlibChunksPath(dir, k));
    }
  }

  /** A file that is neither of the deleted entry's files survives the deletion. */
  lemma OtherPathSurvives(s: Storage, failing: set<string>, title: string, p: string)
    requires s.titles.Valid() && Normalize(title) in s.titles.entries
    requires p != PurePath(s.titles.entries[Normalize(title)].indexFile)
    requires p != PurePath(s.titles.entries[Normalize(title)].chunksFile)
    ensures p in s.files ==> p in DeleteSpec(s, failing, title).1.files
  {
  }

  /** `DeleteSpec` for a known title, with its two resolved files named. */
  lemma DeleteSteps(s: Storage, failing: set<string>, title: string, index: string, chunks: string)
    requires s.titles.Valid() && Normalize(title) in s.titles.entries
    requires index == PurePath(s.titles.entries[Normalize(title)].indexFile)
    requires chunks == PurePath(s.titles.entries[Normalize(title)].chunksFile)
    ensures DeleteSpec(s, failing, title) ==
      if index in s.files && index in failing then (false, s)
      else if chunks in s.files - {index} && chunks in failing then (false, s.(files := s.files - {index}))
      else
        var titles := s.titles.Remove(Normalize(title));
        (true, Storage(titles, Some(titles), s.files - {index} - {chunks}))
  {
  }

  /** `EducationalStorageManager` */
  class EducationalStorageManager {
    const storageDir: string
    const registryPath: string
    var titles: Dict<TitleInfo>
    var registryFile: Option<Dict<TitleInfo>>
    var files: set<string>

    function State(): Storage
      reads this
    {
      Storage(titles, registryFile, files)
    }

    ghost predicate Valid()
      reads this
    {
      titles.Valid()
    }

    /** `EducationalStorageManager(storage_dir)`: the registry is loaded from
        `<storage_dir>/titles_registry.json`, or starts empty when that file is absent. */
    constructor (storageDir: string, registryFile: Option<Dict<TitleInfo>>, files: set<string>)
      requires registryFile.Some? ==> registryFile.value.Valid()
      ensures Valid()
      ensures this.storageDir == storageDir && registryPath == RegistryPath(storageDir)
      ensures titles == LoadRegistry(registryFile)
      ensures this.registryFile == registryFile && this.files == files
    {
      this.storageDir := storageDir;
      registryPath := RegistryPath(storageDir);
      titles := LoadRegistry(registryFile);
      this.registryFile := registryFile;
      this.files := files;
    }

    /** `save_registry` */
    method SaveRegistry()
      modifies this
      ensures State() == old(State()).(registryFile := Some(titles))
    {
      registryFile := Some(titles);
    }

    method RegisterNewTitle(title: string) returns (registered: bool)
      requires Valid()
      modifies this
      ensures Valid()
      ensures (registered, State()) == RegisterSpec(old(State()), storageDir, title)
    {
      var safeTitle := Normalize(title);
      if safeTitle in titles.entries {
        return false;
      }
      titles := titles.Put(safeTitle, TitleInfo(title, IndexPath(storageDir, safeTitle), ChunksPath(storageDir, safeTitle), 0));
      SaveRegistry();
      return true;
    }

    method DeleteTitle(title: string, failing: set<string>) returns (deleted: bool)
      requires Valid()
      modifies this
      ensures Valid()
      ensures (deleted, State()) == DeleteSpec(old(State()), failing, title)
    {
      var safeTitle := Normalize(title);
      if safeTitle !in titles.entries {
        return false;
      }
      var info := titles.entries[safeTitle];
      var index, chunks := PurePath(info.indexFile), PurePath(info.chunksFile);
      // `os.remove` runs only on a path that exists; removing what is absent changes nothing.
      if index in files && index in failing {
        return false;
      }
      files := files - {index};
      if chunks in files && chunks in failing {
        return false;
      }
      files := files - {chunks};
      titles := titles.Remove(safeTitle);
      SaveRegistry();
      return true;
    }
  }
}
