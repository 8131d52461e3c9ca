/** Which names are indexed and which directories are skipped, in terms of the names themselves, and what the walk records of
    a file (internal/indexsync/snapshot/filter.go, builder.go, internal/indexing/file_discovery.go). */
module IndexableNames {
  import opened Outcomes
  import opened GoStrings
  import opened Paths
  import opened MerkleHash
  import opened Discovery
  import Walk = RepositoryWalk

  // ---- extensions ----

  /** A name with a dot, followed by neither dots nor slashes, has the rest from the dot on as its extension. */
  lemma {:induction false} ExtensionIs(stem: string, suffix: string)
    requires !Contains(suffix, '.') && !Contains(suffix, '/')
    ensures Ext(stem + "." + suffix) == "." + suffix
    decreases |suffix|
  {
    var path := stem + "." + suffix;
    if suffix != "" {
      var n := |suffix| - 1;
      assert suffix[n] != '.' && suffix[n] != '/';
      assert !Contains(suffix[..n], '.') && !Contains(suffix[..n], '/') by {
        assert forall i :: 0 <= i < n ==> suffix[..n][i] == suffix[i];
      }
      ExtensionIs(stem, suffix[..n]);
      assert path[..|path| - 1] == stem + "." + suffix[..n];
      assert "." + suffix[..n] + [suffix[n]] == "." + suffix;
    }
  }

  /** Without a dot after the last slash there is no extension. */
  lemma {:induction false} NoExtension(dir: string, name: string)
    requires !Contains(name, '.') && (dir == "" || dir[|dir| - 1] == '/')
    ensures Ext(dir + name) == ""
    decreases |name|
  {
    if name == "" {
      assert dir + name == dir;
    } else {
      var n := |name| - 1;
      assert name[n] != '.';
      assert !Contains(name[..n], '.') by {
        assert forall i :: 0 <= i < n ==> name[..n][i] == name[i];
      }
      NoExtension(dir, name[..n]);
      assert (dir + name)[..|dir + name| - 1] == dir + name[..n];
    }
  }

  lemma FoldAppend(a: string, b: string)
    ensures ToLower(a + b) == ToLower(a) + ToLower(b)
  {
  }

  /** The extensions that are indexed, in capitals or not. */
  predicate IndexedSuffix(suffix: string)
  {
    ToLower(suffix) in {"go", "json", "md", "toml", "txt", "yaml", "yml"}
  }

  lemma ExtensionIndexed(stem: string, suffix: string)
    requires !Contains(suffix, '.') && !Contains(suffix, '/')
    ensures IndexableExtension(stem + "." + suffix) <==> IndexedSuffix(suffix)
  {
    ExtensionIs(stem, suffix);
    FoldAppend(".", suffix);
    var low := ToLower(suffix);
    assert ToLower(".") == ".";
    DotThen(low);
  }

  lemma DotThen(low: string)
    ensures "." + low in EXTENSIONS <==> low in {"go", "json", "md", "toml", "txt", "yaml", "yml"}
  {
    assert ("." + low)[1..] == low;
    assert ".go" == "." + "go" && ".json" == "." + "json" && ".md" == "." + "md" && ".toml" == "." + "toml";
    assert ".txt" == "." + "txt" && ".yaml" == "." + "yaml" && ".yml" == "." + "yml";
  }

  lemma NotIndexedWithout(dir: string, name: string)
    requires !Contains(name, '.') && (dir == "" || dir[|dir| - 1] == '/')
    ensures !IndexableExtension(dir + name)
  {
    NoExtension(dir, name);
  }

  // ---- directories ----

  /** The name starts with a dot. */
  predicate Hidden(name: string)
  {
    name != "" && name[0] == '.'
  }

  /** The names that are skipped, in capitals or not. */
  predicate SkippedName(name: string)
  {
    ToLower(name) in {"bin", "binaries", "build", "dist", "node_modules", "vendor"}
  }

  /** The directories that are skipped: hidden ones, and those names. */
  lemma SkippedAre(name: string)
    ensures SkipDir(name) <==> Hidden(name) || SkippedName(name)
  {
    if name != "" {
      assert HasPrefix(name, ".") <==> name[0] == '.';
      if ToLower(name) == ".git" {
        assert ToLower(name)[0] == '.' && ToLowerChar(name[0]) == '.';
      }
    }
  }

  /** No component is hidden, and no directory has a skipped name. */
  predicate NamesIndexed(parts: seq<string>)
  {
    && (forall i :: 0 <= i < |parts| ==> !Hidden(parts[i]))
    && (forall i :: 0 <= i < |parts| - 1 ==> !SkippedName(parts[i]))
  }

  /** A file with a normal path stem.suffix is indexed if and only if no component of its path is hidden, no directory has a
      skipped name, and its suffix is one of the indexed ones. */
  lemma {:induction false} IndexedIff(stem: string, suffix: string)
    requires Normal(stem + "." + suffix) && !Contains(suffix, '.') && !Contains(suffix, '/')
    ensures ShouldIndexPath(stem + "." + suffix) <==> NamesIndexed(Split(stem + "." + suffix, '/')) && IndexedSuffix(suffix)
  {
    ExtensionIndexed(stem, suffix);
    NormalIndexed(stem + "." + suffix);
  }

  lemma {:induction false} NormalIndexed(path: string)
    requires Normal(path)
    ensures ShouldIndexPath(path) <==> NamesIndexed(Split(path, '/')) && IndexableExtension(path)
  {
    NormalIsFixed(path);
    PartsShown(Split(path, '/'));
  }

  lemma PartsShown(parts: seq<string>)
    requires forall i :: 0 <= i < |parts| ==> PlainPart(parts[i])
    ensures PartsIndexable(parts) <==> NamesIndexed(parts)
  {
    forall i | 0 <= i < |parts|
      ensures HasPrefix(parts[i], ".") <==> Hidden(parts[i])
      ensures ToLower(parts[i]) == ".git" ==> Hidden(parts[i])
    {
      if ToLower(parts[i]) == ".git" {
        assert ToLower(parts[i])[0] == '.' && ToLowerChar(parts[i][0]) == '.';
      }
    }
  }

  // ---- what a walk records ----

  /** The directory tree has this file at this path. */
  ghost predicate FileAt(prefix: string, nodes: seq<FsNode>, path: string, file: FsNode)
    decreases nodes
  {
    nodes != [] &&
    var at := if prefix == "" then nodes[0].name else prefix + "/" + nodes[0].name;
    || (nodes[0].FsFile? && at == path && nodes[0] == file)
    || (nodes[0].FsDir? && FileAt(at, nodes[0].children, path, file))
    || FileAt(prefix, nodes[1..], path, file)
  }

  /** Every file entry of a walk is that of a file of the tree: its path, its size, its time, no hashes yet; and the contents
      that are hashed and indexed are those of a file at the path. Directory entries carry only their paths. */
  lemma {:induction false} EntryIsFile(prefix: string, nodes: seq<FsNode>, e: Entry)
    requires e in SnapshotWalk(prefix, nodes)
    ensures e.parentPath == ParentPath(e.path) && e.nodeHash == "" && e.parentHash == "" && e.contentHash == ""
    ensures e.nodeType == "dir" ==> e.sizeBytes == None && e.mtimeNS == None
    ensures e.nodeType != "dir" ==> e.nodeType == "file" && exists file ::
      FileAt(prefix, nodes, e.path, file) && file.FsFile? && file.regular && e.sizeBytes == Some(file.size) && e.mtimeNS == Some(file.mtime)
    decreases nodes
  {
    var at := ChildPath(prefix, nodes[0].name);
    if e in SnapshotWalk(prefix, nodes[1..]) {
      EntryIsFile(prefix, nodes[1..], e);
      if e.nodeType != "dir" {
        var file :| FileAt(prefix, nodes[1..], e.path, file) && file.FsFile? && file.regular && e.sizeBytes == Some(file.size) && e.mtimeNS == Some(file.mtime);
        assert FileAt(prefix, nodes, e.path, file);
      }
    } else {
      assert e in WalkNode(prefix, nodes[0]);
      match nodes[0] {
        case FsFile(_, _, _, _, _) =>
          assert FileAt(prefix, nodes, e.path, nodes[0]);
        case FsDir(_, children) =>
          if e in SnapshotWalk(at, children) {
            EntryIsFile(at, children, e);
            if e.nodeType != "dir" {
              var file :| FileAt(at, children, e.path, file) && file.FsFile? && file.regular && e.sizeBytes == Some(file.size) && e.mtimeNS == Some(file.mtime);
              assert FileAt(prefix, nodes, e.path, file);
            }
          }
      }
    }
  }

  lemma {:induction false} ContentIsFile(prefix: string, nodes: seq<FsNode>, p: string)
    requires p in Walk.Contents(prefix, nodes)
    ensures exists file :: FileAt(prefix, nodes, p, file) && file.FsFile? && file.regular && Walk.Contents(prefix, nodes)[p] == file.content
    decreases nodes
  {
    var at := ChildPath(prefix, nodes[0].name);
    if p in Walk.NodeContents(prefix, nodes[0]) {
      match nodes[0] {
        case FsFile(_, _, _, _, _) =>
          assert FileAt(prefix, nodes, p, nodes[0]);
        case FsDir(_, children) =>
          ContentIsFile(at, children, p);
          var file :| FileAt(at, children, p, file) && file.FsFile? && file.regular && Walk.Contents(at, children)[p] == file.content;
          assert FileAt(prefix, nodes, p, file);
      }
    } else {
      ContentIsFile(prefix, nodes[1..], p);
      var file :| FileAt(prefix, nodes[1..], p, file) && file.FsFile? && file.regular && Walk.Contents(prefix, nodes[1..])[p] == file.content;
      assert FileAt(prefix, nodes, p, file);
    }
  }
}
