/** A walk that ends without an exception misses nothing: every non-empty
    location in every visited document is in processedSchemas, and every
    Schema element of the WSDL's types was visited. */
module WalkCoverage {
  import opened FilePaths
  import opened SchemaWalk

  /** Every location of `locs` from position `from` on is empty or processed. */
  ghost predicate Followed(seen: set<string>, locs: seq<string>, from: nat) {
    forall k :: from <= k < |locs| ==> locs[k] == "" || locs[k] in seen
  }

  /** Every document visited from index `from` on had all its references handled. */
  ghost predicate Covered(log: seq<Visit>, seen: set<string>, from: nat) {
    forall k :: from <= k < |log| ==>
      Followed(seen, log[k].schema.imports, 0) && Followed(seen, log[k].schema.includes, 0)
  }

  /** What was covered stays covered as the log and the set grow. */
  lemma CoveredGrows(log: seq<Visit>, longer: seq<Visit>, seen: set<string>, more: set<string>, from: nat)
    requires log <= longer && seen <= more && Covered(log, seen, from)
    ensures forall k :: from <= k < |log| ==>
      Followed(more, longer[k].schema.imports, 0) && Followed(more, longer[k].schema.includes, 0)
  {
    forall k | from <= k < |log|
      ensures Followed(more, longer[k].schema.imports, 0) && Followed(more, longer[k].schema.includes, 0)
    {
      assert longer[k] == log[k];
    }
  }

  lemma {:induction false} ElementCoverage(files: Files, u: set<string>, s: Schema, dir: Path, origin: Origin, st: Walk)
    requires st.ok && Closed(files, u) && RefsWithin(s, u)
    ensures var r := Element(files, u, s, dir, origin, st);
      r.ok ==> Covered(r.log, r.seen, |st.log|)
    decreases |u - st.seen|, 1
  {
    var p := |st.log|;
    var entered := st.(out := st.out + UriLines(s), log := st.log + [Visit(s, dir, origin)]);
    var afterImports := Refs(files, u, s.imports, 0, Import, p, dir, entered);
    RefsCoverage(files, u, s.imports, 0, Import, p, dir, entered);
    if afterImports.ok {
      FewerUnseen(u, st.seen, afterImports.seen);
      var r := Refs(files, u, s.includes, 0, Include, p, dir, afterImports);
      RefsCoverage(files, u, s.includes, 0, Include, p, dir, afterImports);
      if r.ok {
        CoveredGrows(afterImports.log, r.log, afterImports.seen, r.seen, p + 1);
        assert r.log[p] == Visit(s, dir, origin);
        forall k | 0 <= k < |s.imports| ensures s.imports[k] == "" || s.imports[k] in r.seen {
          assert Followed(afterImports.seen, s.imports, 0);
        }
      }
    }
  }

  lemma {:induction false} RefsCoverage(files: Files, u: set<string>, locs: seq<string>, i: nat, kind: RefKind, p: nat, dir: Path, st: Walk)
    requires st.ok && Closed(files, u) && i <= |locs|
    requires forall k :: 0 <= k < |locs| ==> locs[k] in u
    ensures var r := Refs(files, u, locs, i, kind, p, dir, st);
      r.ok ==> Followed(r.seen, locs, i) && Covered(r.log, r.seen, |st.log|)
    decreases |u - st.seen|, 0, |locs| - i, 1
  {
    if i < |locs| {
      if locs[i] == "" || locs[i] in st.seen {
        RefsCoverage(files, u, locs, i + 1, kind, p, dir, st);
      } else {
        FollowCoverage(files, u, locs, i, kind, p, dir, st);
      }
    }
  }

  lemma {:induction false} FollowCoverage(files: Files, u: set<string>, locs: seq<string>, i: nat, kind: RefKind, p: nat, dir: Path, st: Walk)
    requires st.ok && Closed(files, u) && i < |locs|
    requires forall k :: 0 <= k < |locs| ==> locs[k] in u
    requires locs[i] != "" && locs[i] !in st.seen
    ensures var r := Follow(files, u, locs, i, kind, p, dir, st);
      r.ok ==> Followed(r.seen, locs, i) && Covered(r.log, r.seen, |st.log|)
    decreases |u - st.seen|, 0, |locs| - i, 0
  {
    var loc := locs[i];
    var file := Resolve(dir, loc);
    var marked := st.(seen := st.seen + {loc});
    MarkingShrinks(u, st.seen, loc);
    var done := File(files, u, file, Ref(p, kind, i, loc, file), marked);
    if done.ok {
      ElementCoverage(files, u, files[file], ParentDir(file), Ref(p, kind, i, loc, file), marked);
      FewerUnseen(u, marked.seen, done.seen);
      var r := Refs(files, u, locs, i + 1, kind, p, dir, done);
      assert r == Follow(files, u, locs, i, kind, p, dir, st);
      RefsCoverage(files, u, locs, i + 1, kind, p, dir, done);
      if r.ok {
        CoveredGrows(done.log, r.log, done.seen, r.seen, |st.log|);
      }
    }
  }

  /** Inline schema `j` was visited between `from` and the end of `log`. */
  ghost predicate InlineVisited(log: seq<Visit>, from: nat, j: nat) {
    exists k :: from <= k < |log| && log[k].origin == Inline(j)
  }

  lemma {:induction false} TypesCoverage(files: Files, u: set<string>, exts: seq<Extension>, i: nat, wsdlDir: Path, st: Walk)
    requires st.ok && Closed(files, u) && InlineWithin(exts, u) && i <= |exts|
    ensures var r := Types(files, u, exts, i, wsdlDir, st);
      r.ok ==> (Covered(r.log, r.seen, |st.log|) &&
                forall j :: i <= j < |exts| && exts[j].SchemaExt? ==> InlineVisited(r.log, |st.log|, j))
    decreases |exts| - i
  {
    if i < |exts| && exts[i].SchemaExt? {
      var done := Element(files, u, exts[i].schema, wsdlDir, Inline(i), st);
      ElementCoverage(files, u, exts[i].schema, wsdlDir, Inline(i), st);
      if done.ok {
        var r := Types(files, u, exts, i + 1, wsdlDir, done);
        TypesCoverage(files, u, exts, i + 1, wsdlDir, done);
        if r.ok {
          CoveredGrows(done.log, r.log, done.seen, r.seen, |st.log|);
          assert r.log[|st.log|] == done.log[|st.log|];
          forall j | i <= j < |exts| && exts[j].SchemaExt? ensures InlineVisited(r.log, |st.log|, j) {
            if j == i {
              assert r.log[|st.log|].origin == Inline(i);
            } else {
              var k :| |done.log| <= k < |r.log| && r.log[k].origin == Inline(j);
            }
          }
        }
      }
    } else if i < |exts| {
      TypesCoverage(files, u, exts, i + 1, wsdlDir, st);
    }
  }
}
