/** What the walk does with processedSchemas: every location it follows is
    non-empty and new to the set, so no location string is expanded twice,
    however the references cycle or meet; the empty location is never
    added; and once the walk succeeds the set holds exactly the locations
    it followed. The key is the raw location string: two references that
    spell the same string are expanded once even when they resolve to
    different files. */
module WalkLedger {
  import opened FilePaths
  import opened SchemaWalk

  /** `l` was followed between walk states `st` and `r`. */
  ghost predicate NewLocation(st: Walk, r: Walk, l: string) {
    l != "" && l !in st.seen && l in r.seen
  }

  /** Some visit of `log` from index `from` on was reached through location `l`. */
  ghost predicate Visited(log: seq<Visit>, from: nat, l: string) {
    exists k :: from <= k < |log| && log[k].origin.Ref? && log[k].origin.location == l
  }

  /** The bookkeeping of a walk from `st` to `r` whose own visits are those
      of `r.log` from `from` on. */
  ghost predicate Ledger(st: Walk, r: Walk, from: nat) {
    && (forall k :: from <= k < |r.log| && r.log[k].origin.Ref? ==> NewLocation(st, r, r.log[k].origin.location))
    && (forall j, k :: from <= j < k < |r.log| && r.log[j].origin.Ref? && r.log[k].origin.Ref? ==>
          r.log[j].origin.location != r.log[k].origin.location)
    && ("" in r.seen ==> "" in st.seen)
    && (r.ok ==> forall l :: l in r.seen && l !in st.seen ==> Visited(r.log, from, l))
    && (!r.ok ==> exists l :: l in r.seen && l !in st.seen && !Visited(r.log, from, l))
  }

  lemma {:induction false} ElementLedger(files: Files, u: set<string>, s: Schema, dir: Path, origin: Origin, st: Walk)
    requires st.ok && Closed(files, u) && RefsWithin(s, u)
    ensures Ledger(st, Element(files, u, s, dir, origin, st), |st.log| + 1)
    decreases |u - st.seen|, 1
  {
    var p := |st.log|;
    var entered := st.(out := st.out + UriLines(s), log := st.log + [Visit(s, dir, origin)]);
    var afterImports := Refs(files, u, s.imports, 0, Import, p, dir, entered);
    RefsLedger(files, u, s.imports, 0, Import, p, dir, entered);
    if afterImports.ok {
      FewerUnseen(u, st.seen, afterImports.seen);
      var r := Refs(files, u, s.includes, 0, Include, p, dir, afterImports);
      RefsLedger(files, u, s.includes, 0, Include, p, dir, afterImports);
      Chain(entered, afterImports, r);
    }
  }

  /** Two walks in a row, the first with its visits from `|a.log|`, the
      second from `|b.log|`, make one walk from `|a.log|`. */
  lemma Chain(a: Walk, b: Walk, c: Walk)
    requires a.log <= b.log <= c.log && a.seen <= b.seen <= c.seen && b.ok
    requires Ledger(a, b, |a.log|) && Ledger(b, c, |b.log|)
    ensures Ledger(a, c, |a.log|)
  {
    forall k | |a.log| <= k < |b.log| && c.log[k].origin.Ref?
      ensures NewLocation(a, c, c.log[k].origin.location) && c.log[k].origin.location in b.seen
    {
      assert c.log[k] == b.log[k];
    }
    forall l | c.ok && l in c.seen && l !in a.seen ensures Visited(c.log, |a.log|, l) {
      if l in b.seen {
        var k :| |a.log| <= k < |b.log| && b.log[k].origin.Ref? && b.log[k].origin.location == l;
        assert c.log[k] == b.log[k];
      } else {
        var k :| |b.log| <= k < |c.log| && c.log[k].origin.Ref? && c.log[k].origin.location == l;
      }
    }
    if !c.ok {
      var l :| l in c.seen && l !in b.seen && !Visited(c.log, |b.log|, l);
      forall k | |a.log| <= k < |b.log| && c.log[k].origin.Ref? ensures c.log[k].origin.location != l {
        assert c.log[k] == b.log[k];
      }
      assert l in c.seen && l !in a.seen && !Visited(c.log, |a.log|, l);
    }
  }

  lemma {:induction false} RefsLedger(files: Files, u: set<string>, locs: seq<string>, i: nat, kind: RefKind, p: nat, dir: Path, st: Walk)
    requires st.ok && Closed(files, u) && i <= |locs|
    requires forall k :: 0 <= k < |locs| ==> locs[k] in u
    ensures Ledger(st, Refs(files, u, locs, i, kind, p, dir, st), |st.log|)
    decreases |u - st.seen|, 0, |locs| - i, 1
  {
    if i < |locs| {
      if locs[i] == "" || locs[i] in st.seen {
        RefsLedger(files, u, locs, i + 1, kind, p, dir, st);
      } else {
        FollowLedger(files, u, locs, i, kind, p, dir, st);
      }
    }
  }

  lemma {:induction false} FollowLedger(files: Files, u: set<string>, locs: seq<string>, i: nat, kind: RefKind, p: nat, dir: Path, st: Walk)
    requires st.ok && Closed(files, u) && i < |locs|
    requires forall k :: 0 <= k < |locs| ==> locs[k] in u
    requires locs[i] != "" && locs[i] !in st.seen
    ensures Ledger(st, Follow(files, u, locs, i, kind, p, dir, st), |st.log|)
    decreases |u - st.seen|, 0, |locs| - i, 0
  {
    var loc := locs[i];
    var file := Resolve(dir, loc);
    var marked := st.(seen := st.seen + {loc});
    MarkingShrinks(u, st.seen, loc);
    var done := File(files, u, file, Ref(p, kind, i, loc, file), marked);
    if file in files {
      ElementLedger(files, u, files[file], ParentDir(file), Ref(p, kind, i, loc, file), marked);
      assert done.log[|st.log|].origin == Ref(p, kind, i, loc, file);
      FollowedLedger(st, marked, done, loc);
    } else {
      assert !Visited(done.log, |st.log|, loc);
    }
    if done.ok {
      FewerUnseen(u, marked.seen, done.seen);
      var r := Refs(files, u, locs, i + 1, kind, p, dir, done);
      RefsLedger(files, u, locs, i + 1, kind, p, dir, done);
      Chain(st, done, r);
    }
  }

  /** Marking `loc` and then walking its file, whose visit is the first new
      entry of the log, is a walk from `st`. */
  lemma FollowedLedger(st: Walk, marked: Walk, done: Walk, loc: string)
    requires loc != "" && loc !in st.seen && marked == st.(seen := st.seen + {loc})
    requires marked.seen <= done.seen && st.log <= done.log && |done.log| > |st.log|
    requires done.log[|st.log|].origin.Ref? && done.log[|st.log|].origin.location == loc
    requires Ledger(marked, done, |st.log| + 1)
    ensures Ledger(st, done, |st.log|)
  {
    var n := |st.log|;
    forall l | done.ok && l in done.seen && l !in st.seen ensures Visited(done.log, n, l) {
      if l != loc {
        var k :| n + 1 <= k < |done.log| && done.log[k].origin.Ref? && done.log[k].origin.location == l;
      }
    }
    if !done.ok {
      var l :| l in done.seen && l !in marked.seen && !Visited(done.log, n + 1, l);
      assert !Visited(done.log, n, l);
    }
  }

  lemma {:induction false} TypesLedger(files: Files, u: set<string>, exts: seq<Extension>, i: nat, wsdlDir: Path, st: Walk)
    requires st.ok && Closed(files, u) && InlineWithin(exts, u) && i <= |exts|
    ensures Ledger(st, Types(files, u, exts, i, wsdlDir, st), |st.log|)
    decreases |exts| - i
  {
    if i < |exts| && exts[i].SchemaExt? {
      var done := Element(files, u, exts[i].schema, wsdlDir, Inline(i), st);
      ElementLedger(files, u, exts[i].schema, wsdlDir, Inline(i), st);
      InlineLedger(st, done);
      if done.ok {
        var r := Types(files, u, exts, i + 1, wsdlDir, done);
        TypesLedger(files, u, exts, i + 1, wsdlDir, done);
        Chain(st, done, r);
      }
    } else if i < |exts| {
      TypesLedger(files, u, exts, i + 1, wsdlDir, st);
    }
  }

  /** An inline schema's own visit was not reached through a location. */
  lemma InlineLedger(st: Walk, done: Walk)
    requires st.log <= done.log && |done.log| > |st.log| && done.log[|st.log|].origin.Inline?
    requires Ledger(st, done, |st.log| + 1)
    ensures Ledger(st, done, |st.log|)
  {
    var n := |st.log|;
    if !done.ok {
      var l :| l in done.seen && l !in st.seen && !Visited(done.log, n + 1, l);
      assert !Visited(done.log, n, l);
    }
  }
}
