/** Where each reference is handled. processSchemaElement handles its
    references one by one, in the order imports first, then includes, each
    list in document order, and handles each at one point of the walk:
    after the subtrees of the references before it and before those of the
    references after it. An empty location is passed over; a location not
    yet processed is followed, which makes it the next visit; any other
    location is passed over because a visit before that point already
    reached it. So a location is expanded where it is first met. A walk
    that fails stops at the reference whose file could not be read. */
module WalkHandling {
  import opened FilePaths
  import opened SchemaWalk
  import opened WalkLedger
  import opened WalkOrder

  /** Visit `j` comes after the point where reference (`kind`, `pos`) of
      visit `p` is handled: it lies outside the subtree of `p`, or it is a
      child of `p` named at a later position. */
  ghost predicate After(log: seq<Visit>, p: nat, kind: RefKind, pos: nat, j: nat)
    requires j < |log|
  {
    || ParentIndex(log[j].origin) < p
    || (log[j].origin.Ref? && log[j].origin.parent == p && KeyBefore(kind, pos, log[j].origin.kind, log[j].origin.pos))
  }

  /** Some visit before the point where reference (`kind`, `pos`) of visit
      `p` is handled was reached through location `loc`. */
  ghost predicate ReachedBefore(log: seq<Visit>, p: nat, kind: RefKind, pos: nat, loc: string) {
    exists k :: 0 <= k < |log| && log[k].origin.Ref? && log[k].origin.location == loc &&
      forall j :: p < j < |log| && After(log, p, kind, pos, j) ==> k < j
  }

  /** Visit `c` was reached through reference (`kind`, `pos`) of visit `p`. */
  ghost predicate ChildAt(log: seq<Visit>, p: nat, kind: RefKind, pos: nat, c: nat)
    requires c < |log|
  {
    log[c].origin.Ref? && log[c].origin.parent == p && log[c].origin.kind == kind && log[c].origin.pos == pos
  }

  /** Reference (`kind`, `pos`) of visit `p` was handled as the program
      handles it: its location is empty, or it was followed, or the
      location had been reached before the point where it is handled. */
  ghost predicate Handled(log: seq<Visit>, p: nat, kind: RefKind, pos: nat)
    requires p < |log| && pos < |RefList(log[p].schema, kind)|
  {
    var loc := RefList(log[p].schema, kind)[pos];
    || loc == ""
    || (exists c :: p < c < |log| && ChildAt(log, p, kind, pos, c))
    || ReachedBefore(log, p, kind, pos, loc)
  }

  /** Every reference of visit `j` was handled. */
  ghost predicate Complete(log: seq<Visit>, j: nat)
    requires j < |log|
  {
    forall kind: RefKind, pos: nat :: pos < |RefList(log[j].schema, kind)| ==> Handled(log, j, kind, pos)
  }

  /** Visit `p` has come to reference (`kind`, `i`): every visit after it
      is complete and its own references before that position are handled. */
  ghost predicate Progress(log: seq<Visit>, p: nat, kind: RefKind, i: nat)
    requires p < |log|
  {
    && (forall j :: p < j < |log| ==> Complete(log, j))
    && (forall k: RefKind, pos: nat :: pos < |RefList(log[p].schema, k)| && KeyBefore(k, pos, kind, i) ==> Handled(log, p, k, pos))
  }

  /** The walk `r` stopped at reference (`kind`, `pos`) of visit `q`: the
      location is non-empty, met there for the first time (no visit was
      reached through it) and so added to the set, the file it resolves to
      against the directory of `q` cannot be read, nothing was visited
      after the point where it was handled, and everything before it in
      the subtree of `q` was handled. */
  ghost predicate Stopped(files: Files, r: Walk, q: nat, kind: RefKind, pos: nat) {
    && q < |r.log| && pos < |RefList(r.log[q].schema, kind)|
    && RefList(r.log[q].schema, kind)[pos] != ""
    && RefList(r.log[q].schema, kind)[pos] in r.seen
    && !Visited(r.log, 0, RefList(r.log[q].schema, kind)[pos])
    && Resolve(r.log[q].dir, RefList(r.log[q].schema, kind)[pos]) !in files
    && Open(r.log, q) && ChildrenBefore(r.log, q, kind, pos)
    && Progress(r.log, q, kind, pos)
  }

  /** Every location of `seen` was reached by a visit of `log`. */
  ghost predicate ReachedIn(seen: set<string>, log: seq<Visit>) {
    forall l :: l in seen ==> Visited(log, 0, l)
  }

  /** Every location a visit of `log` was reached through is in `seen`. */
  ghost predicate LoggedIn(seen: set<string>, log: seq<Visit>) {
    forall k :: 0 <= k < |log| && log[k].origin.Ref? ==> log[k].origin.location in seen
  }

  /** What holds when the loop over the `kind` references `locs` of visit
      `p` comes to position `i`. */
  ghost predicate AtReference(st: Walk, locs: seq<string>, i: nat, kind: RefKind, p: nat, dir: Path) {
    && i <= |locs| && Tree(st.log) && p < |st.log| && Open(st.log, p) && ChildrenBefore(st.log, p, kind, i)
    && RefList(st.log[p].schema, kind) == locs && st.log[p].dir == dir
    && ReachedIn(st.seen, st.log) && LoggedIn(st.seen, st.log) && Progress(st.log, p, kind, i)
  }

  /** A handled reference stays handled as the log grows. */
  lemma HandledGrows(log: seq<Visit>, longer: seq<Visit>, p: nat, kind: RefKind, pos: nat)
    requires log <= longer && p < |log| && pos < |RefList(log[p].schema, kind)|
    requires Handled(log, p, kind, pos)
    ensures longer[p] == log[p] && Handled(longer, p, kind, pos)
  {
    assert longer[p] == log[p];
    var loc := RefList(log[p].schema, kind)[pos];
    if c :| p < c < |log| && ChildAt(log, p, kind, pos, c) {
      assert longer[c] == log[c];
      assert ChildAt(longer, p, kind, pos, c);
    } else if loc != "" {
      var k :| 0 <= k < |log| && log[k].origin.Ref? && log[k].origin.location == loc &&
        forall j :: p < j < |log| && After(log, p, kind, pos, j) ==> k < j;
      forall j | p < j < |longer| && After(longer, p, kind, pos, j) ensures k < j {
        if j < |log| {
          assert longer[j] == log[j];
          assert After(log, p, kind, pos, j);
        }
      }
      assert longer[k] == log[k];
    }
  }

  lemma CompleteGrows(log: seq<Visit>, longer: seq<Visit>, j: nat)
    requires log <= longer && j < |log| && Complete(log, j)
    ensures Complete(longer, j)
  {
    assert longer[j] == log[j];
    forall kind: RefKind, pos: nat | pos < |RefList(longer[j].schema, kind)| ensures Handled(longer, j, kind, pos) {
      HandledGrows(log, longer, j, kind, pos);
    }
  }

  /** A reference met while `p` is open, after its earlier children, whose
      location was already reached, is passed over at the right point. */
  lemma PassedOver(log: seq<Visit>, p: nat, kind: RefKind, pos: nat, loc: string)
    requires p < |log| && Open(log, p) && ChildrenBefore(log, p, kind, pos) && Visited(log, 0, loc)
    ensures ReachedBefore(log, p, kind, pos, loc)
  {
    var k :| 0 <= k < |log| && log[k].origin.Ref? && log[k].origin.location == loc;
    forall j | p < j < |log| ensures !After(log, p, kind, pos, j) {
    }
  }

  /** One more reference of `p` handled: the loop comes to `i + 1`. */
  lemma Step(log: seq<Visit>, p: nat, kind: RefKind, i: nat)
    requires p < |log| && i < |RefList(log[p].schema, kind)|
    requires Progress(log, p, kind, i) && Handled(log, p, kind, i) && ChildrenBefore(log, p, kind, i)
    ensures Progress(log, p, kind, i + 1) && ChildrenBefore(log, p, kind, i + 1)
  {
  }

  /** The child reached through reference (`kind`, `i`) of `p`, with its
      subtree complete, follows the earlier progress of `p`. */
  lemma ChildStep(log: seq<Visit>, longer: seq<Visit>, p: nat, kind: RefKind, i: nat)
    requires log <= longer && p < |log| < |longer| && i < |RefList(log[p].schema, kind)|
    requires Progress(log, p, kind, i) && ChildAt(longer, p, kind, i, |log|)
    requires forall j :: |log| <= j < |longer| ==> Complete(longer, j)
    ensures longer[p] == log[p] && Progress(longer, p, kind, i + 1)
  {
    assert longer[p] == log[p];
    forall j | p < j < |longer| ensures Complete(longer, j) {
      if j < |log| {
        CompleteGrows(log, longer, j);
      }
    }
    forall k: RefKind, pos: nat | pos < |RefList(longer[p].schema, k)| && KeyBefore(k, pos, kind, i + 1)
      ensures Handled(longer, p, k, pos)
    {
      if KeyBefore(k, pos, kind, i) {
        HandledGrows(log, longer, p, k, pos);
      } else {
        assert ChildAt(longer, p, k, pos, |log|);
      }
    }
  }

  /** Marking `loc` as its visit `v` is entered keeps every location reached. */
  lemma MarkReached(seen: set<string>, log: seq<Visit>, loc: string, v: Visit)
    requires ReachedIn(seen, log) && LoggedIn(seen, log) && v.origin.Ref? && v.origin.location == loc
    ensures ReachedIn(seen + {loc}, log + [v]) && LoggedIn(seen + {loc}, log + [v])
  {
    ReachedGrows(seen, log, log + [v]);
    assert (log + [v])[|log|] == v;
  }

  /** An inline visit adds no location. */
  lemma InlineLogged(seen: set<string>, log: seq<Visit>, v: Visit)
    requires LoggedIn(seen, log) && v.origin.Inline?
    ensures LoggedIn(seen, log + [v])
  {
  }

  lemma ReachedGrows(seen: set<string>, log: seq<Visit>, longer: seq<Visit>)
    requires log <= longer && ReachedIn(seen, log)
    ensures ReachedIn(seen, longer)
  {
    forall l | l in seen ensures Visited(longer, 0, l) {
      var k :| 0 <= k < |log| && log[k].origin.Ref? && log[k].origin.location == l;
      assert longer[k] == log[k];
    }
  }

  /** The locations a walk adds are those it visits, so what was reached stays reached. */
  lemma ReachedAfter(seen: set<string>, log: seq<Visit>, r: Walk)
    requires ReachedIn(seen, log) && LoggedIn(seen, log) && log <= r.log && seen <= r.seen
    requires forall l :: l in r.seen && l !in seen ==> Visited(r.log, |log|, l)
    requires forall k :: |log| <= k < |r.log| && r.log[k].origin.Ref? ==> r.log[k].origin.location in r.seen
    ensures ReachedIn(r.seen, r.log) && LoggedIn(r.seen, r.log)
  {
    ReachedGrows(seen, log, r.log);
    forall k | 0 <= k < |log| ensures r.log[k] == log[k] {
    }
  }

  /** A visit just entered has handled nothing yet. */
  lemma Entered(log: seq<Visit>, v: Visit)
    requires Tree(log) && MayEnter(log, v.origin)
    ensures Tree(log + [v]) && Open(log + [v], |log|) && ChildrenBefore(log + [v], |log|, Import, 0)
    ensures Progress(log + [v], |log|, Import, 0)
  {
    Enter(log, v);
  }

  /** All imports of visit `p` handled: the loop over its includes starts. */
  lemma StartIncludes(a: Walk, s: Schema, p: nat, dir: Path)
    requires p < |a.log| && a.log[p].schema == s && a.log[p].dir == dir
    requires Tree(a.log) && Open(a.log, p) && ChildrenBefore(a.log, p, Import, |s.imports|)
    requires ReachedIn(a.seen, a.log) && LoggedIn(a.seen, a.log) && Progress(a.log, p, Import, |s.imports|)
    ensures AtReference(a, s.includes, 0, Include, p, dir)
  {
  }

  /** The child reached through reference (`kind`, `i`) of `p` has been
      walked completely: the loop comes to `i + 1`. */
  lemma ChildDone(st: Walk, done: Walk, locs: seq<string>, i: nat, kind: RefKind, p: nat, dir: Path)
    requires AtReference(st, locs, i, kind, p, dir) && i < |locs|
    requires st.log <= done.log && |st.log| < |done.log| && ChildAt(done.log, p, kind, i, |st.log|)
    requires Tree(done.log) && Open(done.log, |st.log|) && ReachedIn(done.seen, done.log) && LoggedIn(done.seen, done.log)
    requires forall j :: |st.log| <= j < |done.log| ==> Complete(done.log, j)
    ensures AtReference(done, locs, i + 1, kind, p, dir)
  {
    ChildAdded(st.log, done.log, p, kind, i);
    ChildStep(st.log, done.log, p, kind, i);
  }

  /** A schema element's walk adds only locations it reached. */
  lemma ElementReached(files: Files, u: set<string>, s: Schema, dir: Path, origin: Origin, st: Walk)
    requires st.ok && Closed(files, u) && RefsWithin(s, u)
    requires ReachedIn(st.seen, st.log + [Visit(s, dir, origin)]) && LoggedIn(st.seen, st.log + [Visit(s, dir, origin)])
    ensures var r := Element(files, u, s, dir, origin, st);
      r.ok ==> ReachedIn(r.seen, r.log) && LoggedIn(r.seen, r.log)
  {
    var r := Element(files, u, s, dir, origin, st);
    ElementLedger(files, u, s, dir, origin, st);
    assert st.log + [Visit(s, dir, origin)] <= r.log;
    if r.ok {
      ReachedAfter(st.seen, st.log + [Visit(s, dir, origin)], r);
    }
  }

  /** A reference loop adds only locations it reached. */
  lemma RefsReached(files: Files, u: set<string>, locs: seq<string>, i: nat, kind: RefKind, p: nat, dir: Path, st: Walk)
    requires st.ok && Closed(files, u) && i <= |locs|
    requires forall k :: 0 <= k < |locs| ==> locs[k] in u
    requires ReachedIn(st.seen, st.log) && LoggedIn(st.seen, st.log)
    ensures var r := Refs(files, u, locs, i, kind, p, dir, st);
      r.ok ==> ReachedIn(r.seen, r.log) && LoggedIn(r.seen, r.log)
  {
    var r := Refs(files, u, locs, i, kind, p, dir, st);
    RefsLedger(files, u, locs, i, kind, p, dir, st);
    if r.ok {
      ReachedAfter(st.seen, st.log, r);
    }
  }

  /** All includes handled too: the subtree of `p` is complete. */
  lemma IncludesDone(log: seq<Visit>, p: nat)
    requires p < |log| && Progress(log, p, Include, |log[p].schema.includes|)
    ensures forall j :: p <= j < |log| ==> Complete(log, j)
  {
    assert Complete(log, p);
  }

  lemma {:induction false} ElementHandling(files: Files, u: set<string>, s: Schema, dir: Path, origin: Origin, st: Walk)
    requires st.ok && Closed(files, u) && RefsWithin(s, u)
    requires Tree(st.log) && MayEnter(st.log, origin)
    requires ReachedIn(st.seen, st.log + [Visit(s, dir, origin)]) && LoggedIn(st.seen, st.log + [Visit(s, dir, origin)])
    ensures var r := Element(files, u, s, dir, origin, st);
      && (r.ok ==> forall j :: |st.log| <= j < |r.log| ==> Complete(r.log, j))
      && (!r.ok ==> exists q, kind, pos :: Stopped(files, r, q, kind, pos))
    decreases |u - st.seen|, 1
  {
    var p := |st.log|;
    var v := Visit(s, dir, origin);
    var entered := st.(out := st.out + UriLines(s), log := st.log + [v]);
    Entered(st.log, v);
    assert AtReference(entered, s.imports, 0, Import, p, dir);
    var afterImports := Refs(files, u, s.imports, 0, Import, p, dir, entered);
    RefsHandling(files, u, s.imports, 0, Import, p, dir, entered);
    if !afterImports.ok {
      assert Element(files, u, s, dir, origin, st) == afterImports;
    } else {
      RefsOrder(files, u, s.imports, 0, Import, p, dir, entered);
      RefsReached(files, u, s.imports, 0, Import, p, dir, entered);
      FewerUnseen(u, st.seen, afterImports.seen);
      assert afterImports.log[p] == v;
      StartIncludes(afterImports, s, p, dir);
      var r := Refs(files, u, s.includes, 0, Include, p, dir, afterImports);
      RefsHandling(files, u, s.includes, 0, Include, p, dir, afterImports);
      assert Element(files, u, s, dir, origin, st) == r;
      if r.ok {
        assert r.log[p] == v;
        IncludesDone(r.log, p);
      }
    }
  }

  lemma {:induction false} RefsHandling(files: Files, u: set<string>, locs: seq<string>, i: nat, kind: RefKind, p: nat, dir: Path, st: Walk)
    requires st.ok && Closed(files, u) && i <= |locs|
    requires forall k :: 0 <= k < |locs| ==> locs[k] in u
    requires AtReference(st, locs, i, kind, p, dir)
    ensures var r := Refs(files, u, locs, i, kind, p, dir, st);
      && (r.ok ==> Progress(r.log, p, kind, |locs|))
      && (!r.ok ==> exists q, k, pos :: Stopped(files, r, q, k, pos))
    decreases |u - st.seen|, 0, |locs| - i, 1
  {
    if i < |locs| {
      if locs[i] == "" || locs[i] in st.seen {
        if locs[i] != "" {
          PassedOver(st.log, p, kind, i, locs[i]);
        }
        Step(st.log, p, kind, i);
        RefsHandling(files, u, locs, i + 1, kind, p, dir, st);
      } else {
        FollowHandling(files, u, locs, i, kind, p, dir, st);
      }
    }
  }

  lemma {:induction false} FollowHandling(files: Files, u: set<string>, locs: seq<string>, i: nat, kind: RefKind, p: nat, dir: Path, st: Walk)
    requires st.ok && Closed(files, u) && i < |locs|
    requires forall k :: 0 <= k < |locs| ==> locs[k] in u
    requires locs[i] != "" && locs[i] !in st.seen
    requires AtReference(st, locs, i, kind, p, dir)
    ensures var r := Follow(files, u, locs, i, kind, p, dir, st);
      && (Resolve(dir, locs[i]) !in files ==> Stopped(files, r, p, kind, i))
      && (Resolve(dir, locs[i]) in files ==> |r.log| > |st.log| && ChildAt(r.log, p, kind, i, |st.log|))
      && (r.ok ==> Progress(r.log, p, kind, |locs|))
      && (!r.ok ==> exists q, k, pos :: Stopped(files, r, q, k, pos))
    decreases |u - st.seen|, 0, |locs| - i, 0, 1
  {
    var loc := locs[i];
    var file := Resolve(dir, loc);
    var marked := st.(seen := st.seen + {loc});
    MarkingShrinks(u, st.seen, loc);
    var origin := Ref(p, kind, i, loc, file);
    var done := File(files, u, file, origin, marked);
    if file !in files {
      assert Follow(files, u, locs, i, kind, p, dir, st) == done;
      assert !Visited(done.log, 0, loc);
      assert Stopped(files, done, p, kind, i);
    } else {
      var v := Visit(files[file], ParentDir(file), origin);
      MarkReached(st.seen, st.log, loc, v);
      ElementHandling(files, u, files[file], ParentDir(file), origin, marked);
      if done.ok {
        FollowDone(files, u, locs, i, kind, p, dir, st);
        var r := Refs(files, u, locs, i + 1, kind, p, dir, done);
        assert Follow(files, u, locs, i, kind, p, dir, st) == r;
        assert r.log[|st.log|] == done.log[|st.log|];
      } else {
        assert Follow(files, u, locs, i, kind, p, dir, st) == done;
      }
      assert ChildAt(done.log, p, kind, i, |st.log|);
    }
  }

  /** The file of a followed reference was walked completely. */
  lemma {:induction false} FollowDone(files: Files, u: set<string>, locs: seq<string>, i: nat, kind: RefKind, p: nat, dir: Path, st: Walk)
    requires st.ok && Closed(files, u) && i < |locs|
    requires forall k :: 0 <= k < |locs| ==> locs[k] in u
    requires locs[i] != "" && locs[i] !in st.seen
    requires AtReference(st, locs, i, kind, p, dir)
    requires Resolve(dir, locs[i]) in files
    requires var file := Resolve(dir, locs[i]);
      var done := File(files, u, file, Ref(p, kind, i, locs[i], file), st.(seen := st.seen + {locs[i]}));
      done.ok && forall j :: |st.log| <= j < |done.log| ==> Complete(done.log, j)
    ensures var r := Follow(files, u, locs, i, kind, p, dir, st);
      && (r.ok ==> Progress(r.log, p, kind, |locs|))
      && (!r.ok ==> exists q, k, pos :: Stopped(files, r, q, k, pos))
    decreases |u - st.seen|, 0, |locs| - i, 0, 0
  {
    var loc := locs[i];
    var file := Resolve(dir, loc);
    var marked := st.(seen := st.seen + {loc});
    MarkingShrinks(u, st.seen, loc);
    var origin := Ref(p, kind, i, loc, file);
    var done := File(files, u, file, origin, marked);
    var s := files[file];
    MarkReached(st.seen, st.log, loc, Visit(s, ParentDir(file), origin));
    ElementOrder(files, u, s, ParentDir(file), origin, marked);
    ElementReached(files, u, s, ParentDir(file), origin, marked);
    ChildDone(st, done, locs, i, kind, p, dir);
    FewerUnseen(u, marked.seen, done.seen);
    RefsHandling(files, u, locs, i + 1, kind, p, dir, done);
    assert Follow(files, u, locs, i, kind, p, dir, st) == Refs(files, u, locs, i + 1, kind, p, dir, done);
  }

  lemma {:induction false} TypesHandling(files: Files, u: set<string>, exts: seq<Extension>, i: nat, wsdlDir: Path, st: Walk)
    requires st.ok && Closed(files, u) && InlineWithin(exts, u) && i <= |exts|
    requires Tree(st.log) && InlineBefore(st.log, i) && ReachedIn(st.seen, st.log) && LoggedIn(st.seen, st.log)
    requires forall j :: 0 <= j < |st.log| ==> Complete(st.log, j)
    ensures var r := Types(files, u, exts, i, wsdlDir, st);
      && (r.ok ==> forall j :: 0 <= j < |r.log| ==> Complete(r.log, j))
      && (!r.ok ==> exists q, kind, pos :: Stopped(files, r, q, kind, pos))
    decreases |exts| - i
  {
    if i < |exts| && exts[i].SchemaExt? {
      var s := exts[i].schema;
      var v := Visit(s, wsdlDir, Inline(i));
      ReachedGrows(st.seen, st.log, st.log + [v]);
      InlineLogged(st.seen, st.log, v);
      ElementHandling(files, u, s, wsdlDir, Inline(i), st);
      var done := Element(files, u, s, wsdlDir, Inline(i), st);
      if done.ok {
        ElementOrder(files, u, s, wsdlDir, Inline(i), st);
        ElementReached(files, u, s, wsdlDir, Inline(i), st);
        forall j | 0 <= j < |done.log| ensures Complete(done.log, j) {
          if j < |st.log| {
            CompleteGrows(st.log, done.log, j);
          }
        }
        forall j | 0 <= j < |done.log| && done.log[j].origin.Inline? ensures done.log[j].origin.index < i + 1 {
          if j < |st.log| {
            assert done.log[j] == st.log[j];
          }
        }
        TypesHandling(files, u, exts, i + 1, wsdlDir, done);
      }
    } else if i < |exts| {
      TypesHandling(files, u, exts, i + 1, wsdlDir, st);
    }
  }
}
