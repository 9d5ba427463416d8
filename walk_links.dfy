/** Where each visited document comes from. An inline schema is the
    extensibility element at its index (only Schema elements are walked)
    and resolves against the WSDL file's directory. Every other visited
    document was named, at a recorded position of the import or include
    list of an earlier visited document, by a location that was resolved
    against that document's directory; the file so reached was parsed, and
    its own references resolve against the file's parent directory. */
module WalkLinks {
  import opened FilePaths
  import opened SchemaWalk

  ghost predicate LinkedAt(files: Files, exts: seq<Extension>, wsdlDir: Path, log: seq<Visit>, k: nat)
    requires k < |log|
  {
    match log[k].origin
    case Inline(i) =>
      i < |exts| && exts[i] == SchemaExt(log[k].schema) && log[k].dir == wsdlDir
    case Ref(p, kind, pos, loc, file) =>
      && p < k
      && pos < |RefList(log[p].schema, kind)| && RefList(log[p].schema, kind)[pos] == loc
      && file == Resolve(log[p].dir, loc)
      && file in files && files[file] == log[k].schema && log[k].dir == ParentDir(file)
  }

  ghost predicate Linked(files: Files, exts: seq<Extension>, wsdlDir: Path, log: seq<Visit>) {
    forall k :: 0 <= k < |log| ==> LinkedAt(files, exts, wsdlDir, log, k)
  }

  /** Extending a log keeps what its entries say about earlier entries. */
  lemma LinkedExtends(files: Files, exts: seq<Extension>, wsdlDir: Path, log: seq<Visit>, longer: seq<Visit>)
    requires log <= longer && Linked(files, exts, wsdlDir, log)
    ensures forall k :: 0 <= k < |log| ==> LinkedAt(files, exts, wsdlDir, longer, k)
  {
    forall k | 0 <= k < |log| ensures LinkedAt(files, exts, wsdlDir, longer, k) {
      assert LinkedAt(files, exts, wsdlDir, log, k);
      assert longer[k] == log[k];
      if log[k].origin.Ref? {
        assert longer[log[k].origin.parent] == log[log[k].origin.parent];
      }
    }
  }

  lemma {:induction false} ElementLinked(files: Files, u: set<string>, exts: seq<Extension>, wsdlDir: Path,
                                         s: Schema, dir: Path, origin: Origin, st: Walk)
    requires st.ok && Closed(files, u) && RefsWithin(s, u)
    requires Linked(files, exts, wsdlDir, st.log)
    requires LinkedAt(files, exts, wsdlDir, st.log + [Visit(s, dir, origin)], |st.log|)
    ensures Linked(files, exts, wsdlDir, Element(files, u, s, dir, origin, st).log)
    decreases |u - st.seen|, 1
  {
    var p := |st.log|;
    var entered := st.(out := st.out + UriLines(s), log := st.log + [Visit(s, dir, origin)]);
    LinkedExtends(files, exts, wsdlDir, st.log, entered.log);
    assert Linked(files, exts, wsdlDir, entered.log);
    var afterImports := Refs(files, u, s.imports, 0, Import, p, dir, entered);
    RefsLinked(files, u, exts, wsdlDir, s.imports, 0, Import, p, dir, entered);
    if afterImports.ok {
      FewerUnseen(u, st.seen, afterImports.seen);
      assert afterImports.log[p] == entered.log[p];
      RefsLinked(files, u, exts, wsdlDir, s.includes, 0, Include, p, dir, afterImports);
    }
  }

  lemma {:induction false} RefsLinked(files: Files, u: set<string>, exts: seq<Extension>, wsdlDir: Path,
                                      locs: seq<string>, i: nat, kind: RefKind, p: nat, dir: Path, st: Walk)
    requires st.ok && Closed(files, u) && i <= |locs|
    requires forall k :: 0 <= k < |locs| ==> locs[k] in u
    requires Linked(files, exts, wsdlDir, st.log)
    requires p < |st.log| && RefList(st.log[p].schema, kind) == locs && st.log[p].dir == dir
    ensures Linked(files, exts, wsdlDir, Refs(files, u, locs, i, kind, p, dir, st).log)
    decreases |u - st.seen|, 0, |locs| - i, 1
  {
    if i < |locs| {
      if locs[i] == "" || locs[i] in st.seen {
        RefsLinked(files, u, exts, wsdlDir, locs, i + 1, kind, p, dir, st);
      } else {
        FollowLinked(files, u, exts, wsdlDir, locs, i, kind, p, dir, st);
      }
    }
  }

  lemma {:induction false} FollowLinked(files: Files, u: set<string>, exts: seq<Extension>, wsdlDir: Path,
                                        locs: seq<string>, i: nat, kind: RefKind, p: nat, dir: Path, st: Walk)
    requires st.ok && Closed(files, u) && i < |locs|
    requires forall k :: 0 <= k < |locs| ==> locs[k] in u
    requires locs[i] != "" && locs[i] !in st.seen
    requires Linked(files, exts, wsdlDir, st.log)
    requires p < |st.log| && RefList(st.log[p].schema, kind) == locs && st.log[p].dir == dir
    ensures Linked(files, exts, wsdlDir, Follow(files, u, locs, i, kind, p, dir, st).log)
    decreases |u - st.seen|, 0, |locs| - i, 0
  {
    var loc := locs[i];
    var file := Resolve(dir, loc);
    var marked := st.(seen := st.seen + {loc});
    MarkingShrinks(u, st.seen, loc);
    var origin := Ref(p, kind, i, loc, file);
    var done := File(files, u, file, origin, marked);
    if file in files {
      assert LinkedAt(files, exts, wsdlDir, marked.log + [Visit(files[file], ParentDir(file), origin)], |marked.log|);
      ElementLinked(files, u, exts, wsdlDir, files[file], ParentDir(file), origin, marked);
    }
    if done.ok {
      FewerUnseen(u, marked.seen, done.seen);
      assert done.log[p] == st.log[p];
      RefsLinked(files, u, exts, wsdlDir, locs, i + 1, kind, p, dir, done);
    }
  }

  lemma {:induction false} TypesLinked(files: Files, u: set<string>, exts: seq<Extension>, i: nat, wsdlDir: Path, st: Walk)
    requires st.ok && Closed(files, u) && InlineWithin(exts, u) && i <= |exts|
    requires Linked(files, exts, wsdlDir, st.log)
    ensures Linked(files, exts, wsdlDir, Types(files, u, exts, i, wsdlDir, st).log)
    decreases |exts| - i
  {
    if i < |exts| && exts[i].SchemaExt? {
      var s := exts[i].schema;
      assert LinkedAt(files, exts, wsdlDir, st.log + [Visit(s, wsdlDir, Inline(i))], |st.log|);
      ElementLinked(files, u, exts, wsdlDir, s, wsdlDir, Inline(i), st);
      var done := Element(files, u, s, wsdlDir, Inline(i), st);
      if done.ok {
        TypesLinked(files, u, exts, i + 1, wsdlDir, done);
      }
    } else if i < |exts| {
      TypesLinked(files, u, exts, i + 1, wsdlDir, st);
    }
  }
}
