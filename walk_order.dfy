/** The order of the visits. The log is the pre-order of a tree: each
    visit's parent comes before it, the subtree of a visit occupies the
    entries right after it, and the children of one visit come in the
    order imports first, then includes, each list in document order (the
    inline schemas likewise in the order of the WSDL). */
module WalkOrder {
  import opened FilePaths
  import opened SchemaWalk

  /** The log index of the visit that named this one; -1 for an inline schema. */
  function ParentIndex(o: Origin): int {
    if o.Ref? then o.parent else -1
  }

  /** Position (`ka`, `pa`) is walked before (`kb`, `pb`) in one document. */
  predicate KeyBefore(ka: RefKind, pa: nat, kb: RefKind, pb: nat) {
    (ka == Import && kb == Include) || (ka == kb && pa < pb)
  }

  /** `a` is walked before its sibling `b`. */
  predicate Precedes(a: Origin, b: Origin) {
    if a.Inline? && b.Inline? then a.index < b.index
    else if a.Ref? && b.Ref? && a.parent == b.parent then KeyBefore(a.kind, a.pos, b.kind, b.pos)
    else true
  }

  ghost predicate ParentsEarlier(log: seq<Visit>) {
    forall k :: 0 <= k < |log| ==> ParentIndex(log[k].origin) < k
  }

  ghost predicate SiblingOrder(log: seq<Visit>) {
    forall j, k :: 0 <= j < k < |log| ==> Precedes(log[j].origin, log[k].origin)
  }

  /** Every visit between a visit's parent and itself lies in that
      parent's subtree, so each subtree is a contiguous block. */
  ghost predicate PreOrder(log: seq<Visit>) {
    forall j, k :: 0 <= j < k < |log| && ParentIndex(log[k].origin) < j ==>
      ParentIndex(log[j].origin) >= ParentIndex(log[k].origin)
  }

  ghost predicate Tree(log: seq<Visit>) {
    ParentsEarlier(log) && SiblingOrder(log) && PreOrder(log)
  }

  /** Every visit after `p` lies in the subtree of `p`: `p` is still being
      processed. */
  ghost predicate Open(log: seq<Visit>, p: nat) {
    forall j :: p < j < |log| ==> ParentIndex(log[j].origin) >= p
  }

  /** Every child of visit `p` so far was named before position (`kind`, `i`). */
  ghost predicate ChildrenBefore(log: seq<Visit>, p: nat, kind: RefKind, i: nat) {
    forall j :: 0 <= j < |log| && log[j].origin.Ref? && log[j].origin.parent == p ==>
      KeyBefore(log[j].origin.kind, log[j].origin.pos, kind, i)
  }

  /** Every inline schema visited so far has an index below `i`. */
  ghost predicate InlineBefore(log: seq<Visit>, i: nat) {
    forall j :: 0 <= j < |log| && log[j].origin.Inline? ==> log[j].origin.index < i
  }

  /** What a new visit with `origin` needs for the log to stay a tree. */
  ghost predicate MayEnter(log: seq<Visit>, origin: Origin) {
    match origin
    case Inline(i) => InlineBefore(log, i)
    case Ref(p, kind, pos, _, _) => p < |log| && Open(log, p) && ChildrenBefore(log, p, kind, pos)
  }

  lemma Enter(log: seq<Visit>, v: Visit)
    requires Tree(log) && MayEnter(log, v.origin)
    ensures Tree(log + [v]) && Open(log + [v], |log|)
    ensures ChildrenBefore(log + [v], |log|, Import, 0)
  {
    var l := log + [v];
    forall j, k | 0 <= j < k < |l| ensures Precedes(l[j].origin, l[k].origin) {
      if k < |log| {
        assert l[j] == log[j] && l[k] == log[k];
      } else {
        assert l[j] == log[j];
      }
    }
    forall j, k | 0 <= j < k < |l| && ParentIndex(l[k].origin) < j
      ensures ParentIndex(l[j].origin) >= ParentIndex(l[k].origin)
    {
      if k < |log| {
        assert l[j] == log[j] && l[k] == log[k];
      } else {
        assert l[j] == log[j];
      }
    }
    forall j | 0 <= j < |l| ensures ParentIndex(l[j].origin) != |log| {
      if j < |log| {
        assert l[j] == log[j];
      }
    }
  }

  lemma {:induction false} ElementOrder(files: Files, u: set<string>, s: Schema, dir: Path, origin: Origin, st: Walk)
    requires st.ok && Closed(files, u) && RefsWithin(s, u)
    requires Tree(st.log) && MayEnter(st.log, origin)
    ensures var r := Element(files, u, s, dir, origin, st);
      Tree(r.log) && Open(r.log, |st.log|)
    decreases |u - st.seen|, 1
  {
    var p := |st.log|;
    var entered := st.(out := st.out + UriLines(s), log := st.log + [Visit(s, dir, origin)]);
    Enter(st.log, Visit(s, dir, origin));
    var afterImports := Refs(files, u, s.imports, 0, Import, p, dir, entered);
    RefsOrder(files, u, s.imports, 0, Import, p, dir, entered);
    if afterImports.ok {
      FewerUnseen(u, st.seen, afterImports.seen);
      assert ChildrenBefore(afterImports.log, p, Include, 0);
      RefsOrder(files, u, s.includes, 0, Include, p, dir, afterImports);
    }
  }

  lemma {:induction false} RefsOrder(files: Files, u: set<string>, locs: seq<string>, i: nat, kind: RefKind, p: nat, dir: Path, st: Walk)
    requires st.ok && Closed(files, u) && i <= |locs|
    requires forall k :: 0 <= k < |locs| ==> locs[k] in u
    requires Tree(st.log) && p < |st.log| && Open(st.log, p) && ChildrenBefore(st.log, p, kind, i)
    ensures var r := Refs(files, u, locs, i, kind, p, dir, st);
      Tree(r.log) && Open(r.log, p) && ChildrenBefore(r.log, p, kind, |locs|)
    decreases |u - st.seen|, 0, |locs| - i, 1
  {
    if i < |locs| {
      if locs[i] == "" || locs[i] in st.seen {
        RefsOrder(files, u, locs, i + 1, kind, p, dir, st);
      } else {
        FollowOrder(files, u, locs, i, kind, p, dir, st);
      }
    }
  }

  lemma {:induction false} FollowOrder(files: Files, u: set<string>, locs: seq<string>, i: nat, kind: RefKind, p: nat, dir: Path, st: Walk)
    requires st.ok && Closed(files, u) && i < |locs|
    requires forall k :: 0 <= k < |locs| ==> locs[k] in u
    requires locs[i] != "" && locs[i] !in st.seen
    requires Tree(st.log) && p < |st.log| && Open(st.log, p) && ChildrenBefore(st.log, p, kind, i)
    ensures var r := Follow(files, u, locs, i, kind, p, dir, st);
      Tree(r.log) && Open(r.log, p) && ChildrenBefore(r.log, p, kind, |locs|)
    decreases |u - st.seen|, 0, |locs| - i, 0
  {
    var loc := locs[i];
    var file := Resolve(dir, loc);
    var marked := st.(seen := st.seen + {loc});
    MarkingShrinks(u, st.seen, loc);
    var origin := Ref(p, kind, i, loc, file);
    var done := File(files, u, file, origin, marked);
    if file in files {
      ElementOrder(files, u, files[file], ParentDir(file), origin, marked);
      ChildAdded(st.log, done.log, p, kind, i);
    }
    if done.ok {
      FewerUnseen(u, marked.seen, done.seen);
      RefsOrder(files, u, locs, i + 1, kind, p, dir, done);
    }
  }

  /** After the walk of one child of `p`, named at (`kind`, `i`), `p` is
      still open and its children come before (`kind`, `i + 1`). */
  lemma ChildAdded(log: seq<Visit>, done: seq<Visit>, p: nat, kind: RefKind, i: nat)
    requires log <= done && |done| > |log| && p < |log|
    requires done[|log|].origin.Ref? && done[|log|].origin.parent == p
    requires done[|log|].origin.kind == kind && done[|log|].origin.pos == i
    requires Open(log, p) && ChildrenBefore(log, p, kind, i) && Open(done, |log|)
    ensures Open(done, p) && ChildrenBefore(done, p, kind, i + 1)
  {
    forall j | p < j < |done| ensures ParentIndex(done[j].origin) >= p {
      if j < |log| {
        assert done[j] == log[j];
      }
    }
    forall j | 0 <= j < |done| && done[j].origin.Ref? && done[j].origin.parent == p
      ensures KeyBefore(done[j].origin.kind, done[j].origin.pos, kind, i + 1)
    {
      if j < |log| {
        assert done[j] == log[j];
      }
    }
  }

  lemma {:induction false} TypesOrder(files: Files, u: set<string>, exts: seq<Extension>, i: nat, wsdlDir: Path, st: Walk)
    requires st.ok && Closed(files, u) && InlineWithin(exts, u) && i <= |exts|
    requires Tree(st.log) && InlineBefore(st.log, i)
    ensures Tree(Types(files, u, exts, i, wsdlDir, st).log)
    decreases |exts| - i
  {
    if i < |exts| && exts[i].SchemaExt? {
      var s := exts[i].schema;
      ElementOrder(files, u, s, wsdlDir, Inline(i), st);
      var done := Element(files, u, s, wsdlDir, Inline(i), st);
      if done.ok {
        forall j | 0 <= j < |done.log| && done.log[j].origin.Inline? ensures done.log[j].origin.index < i + 1 {
          if j < |st.log| {
            assert done.log[j] == st.log[j];
          }
        }
        TypesOrder(files, u, exts, i + 1, wsdlDir, done);
      }
    } else if i < |exts| {
      TypesOrder(files, u, exts, i + 1, wsdlDir, st);
    }
  }
}
