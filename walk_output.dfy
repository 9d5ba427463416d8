/** What the walk prints: the base URI of every visited document that has
    one, at the moment it is visited, so the output lists the documents in
    the order of the log, a pre-order of the reference tree. */
module WalkOutput {
  import opened FilePaths
  import opened SchemaWalk

  /** The lines printed for a sequence of visits, in order. */
  function Lines(vs: seq<Visit>): seq<string> {
    if vs == [] then [] else UriLines(vs[0].schema) + Lines(vs[1..])
  }

  lemma {:induction false} LinesAppend(a: seq<Visit>, b: seq<Visit>)
    ensures Lines(a + b) == Lines(a) + Lines(b)
    decreases |a|
  {
    if a == [] {
      assert a + b == b;
    } else {
      assert (a + b)[1..] == a[1..] + b;
      LinesAppend(a[1..], b);
    }
  }

  /** The lines of a log from `x` on split at any later prefix of it. */
  lemma LinesSplit(x: nat, mid: seq<Visit>, log: seq<Visit>)
    requires x <= |mid| && mid <= log
    ensures Lines(log[x..]) == Lines(mid[x..]) + Lines(log[|mid|..])
  {
    assert log[x..] == mid[x..] + log[|mid|..];
    LinesAppend(mid[x..], log[|mid|..]);
  }

  /** Everything printed from `st` to `r` is the lines of the visits made. */
  ghost predicate Printed(st: Walk, r: Walk) {
    st.log <= r.log && r.out == st.out + Lines(r.log[|st.log|..])
  }

  lemma PrefixTrans(a: seq<Visit>, b: seq<Visit>, c: seq<Visit>)
    requires a <= b && b <= c
    ensures a <= c
  {
    assert |a| <= |c|;
    forall k | 0 <= k < |a| ensures a[k] == c[k] {
      assert a[k] == b[k];
    }
  }

  lemma Compose(a: Walk, b: Walk, c: Walk)
    requires Printed(a, b) && Printed(b, c)
    ensures Printed(a, c)
  {
    PrefixTrans(a.log, b.log, c.log);
    LinesSplit(|a.log|, b.log, c.log);
    Associate(a.out, b.out, c.out, Lines(b.log[|a.log|..]), Lines(c.log[|b.log|..]), Lines(c.log[|a.log|..]));
  }

  lemma Associate(ao: seq<string>, bo: seq<string>, co: seq<string>, x: seq<string>, y: seq<string>, z: seq<string>)
    requires bo == ao + x && co == bo + y && z == x + y
    ensures co == ao + z
  {
  }

  lemma {:induction false} ElementOutput(files: Files, u: set<string>, s: Schema, dir: Path, origin: Origin, st: Walk)
    requires st.ok && Closed(files, u) && RefsWithin(s, u)
    ensures Printed(st, Element(files, u, s, dir, origin, st))
    decreases |u - st.seen|, 1
  {
    var p := |st.log|;
    var v := Visit(s, dir, origin);
    var entered := st.(out := st.out + UriLines(s), log := st.log + [v]);
    assert entered.log[p..] == [v];
    assert Lines([v]) == UriLines(s) + Lines([]);
    assert Printed(st, entered);
    var afterImports := Refs(files, u, s.imports, 0, Import, p, dir, entered);
    RefsOutput(files, u, s.imports, 0, Import, p, dir, entered);
    Compose(st, entered, afterImports);
    if afterImports.ok {
      FewerUnseen(u, st.seen, afterImports.seen);
      var r := Refs(files, u, s.includes, 0, Include, p, dir, afterImports);
      RefsOutput(files, u, s.includes, 0, Include, p, dir, afterImports);
      Compose(st, afterImports, r);
    }
  }

  lemma {:induction false} RefsOutput(files: Files, u: set<string>, locs: seq<string>, i: nat, kind: RefKind, p: nat, dir: Path, st: Walk)
    requires st.ok && Closed(files, u) && i <= |locs|
    requires forall k :: 0 <= k < |locs| ==> locs[k] in u
    ensures Printed(st, Refs(files, u, locs, i, kind, p, dir, st))
    decreases |u - st.seen|, 0, |locs| - i, 1
  {
    if i == |locs| {
      assert st.log[|st.log|..] == [];
    } else if locs[i] == "" || locs[i] in st.seen {
      RefsOutput(files, u, locs, i + 1, kind, p, dir, st);
    } else {
      FollowOutput(files, u, locs, i, kind, p, dir, st);
    }
  }

  lemma {:induction false} FollowOutput(files: Files, u: set<string>, locs: seq<string>, i: nat, kind: RefKind, p: nat, dir: Path, st: Walk)
    requires st.ok && Closed(files, u) && i < |locs|
    requires forall k :: 0 <= k < |locs| ==> locs[k] in u
    requires locs[i] != "" && locs[i] !in st.seen
    ensures Printed(st, Follow(files, u, locs, i, kind, p, dir, st))
    decreases |u - st.seen|, 0, |locs| - i, 0
  {
    var loc := locs[i];
    var file := Resolve(dir, loc);
    var marked := st.(seen := st.seen + {loc});
    MarkingShrinks(u, st.seen, loc);
    var done := File(files, u, file, Ref(p, kind, i, loc, file), marked);
    if file in files {
      ElementOutput(files, u, files[file], ParentDir(file), Ref(p, kind, i, loc, file), marked);
    } else {
      assert done.log[|st.log|..] == [];
    }
    if done.ok {
      FewerUnseen(u, marked.seen, done.seen);
      var r := Refs(files, u, locs, i + 1, kind, p, dir, done);
      RefsOutput(files, u, locs, i + 1, kind, p, dir, done);
      Compose(st, done, r);
    }
  }

  lemma {:induction false} TypesOutput(files: Files, u: set<string>, exts: seq<Extension>, i: nat, wsdlDir: Path, st: Walk)
    requires st.ok && Closed(files, u) && InlineWithin(exts, u) && i <= |exts|
    ensures Printed(st, Types(files, u, exts, i, wsdlDir, st))
    decreases |exts| - i
  {
    if i == |exts| {
      assert st.log[|st.log|..] == [];
    } else if exts[i].SchemaExt? {
      var done := Element(files, u, exts[i].schema, wsdlDir, Inline(i), st);
      ElementOutput(files, u, exts[i].schema, wsdlDir, Inline(i), st);
      if done.ok {
        var r := Types(files, u, exts, i + 1, wsdlDir, done);
        TypesOutput(files, u, exts, i + 1, wsdlDir, done);
        Compose(st, done, r);
      }
    } else {
      TypesOutput(files, u, exts, i + 1, wsdlDir, st);
    }
  }
}
