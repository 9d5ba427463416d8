/** The reference walk of PrintXSDPathsFromWSDL as functions over an
    abstract document graph. A schema document is reduced to what the walk
    reads from it: its base URI and, in document order, the schemaLocation
    attributes of its xs:import and xs:include elements (an absent
    attribute reads as ""). The files that can be read and parsed form a
    finite map from resolved path to document; a path outside the map is a
    read or parse failure. */
module SchemaWalk {
  import opened Wrappers
  import opened FilePaths

  datatype RefKind = Import | Include

  datatype Schema = Schema(baseUri: Option<string>, imports: seq<string>, includes: seq<string>)

  /** An extensibility element of the WSDL `<types>` section. */
  datatype Extension = SchemaExt(schema: Schema) | OtherExt

  type Files = map<Path, Schema>

  /** Where a visited document came from: the index of an inline schema in
      the WSDL's extensibility elements, or the reference followed to it
      (the index in the log of the visit that holds the reference, which
      list, the position in that list, the raw location and the file it
      resolved to). */
  datatype Origin =
    | Inline(index: nat)
    | Ref(parent: nat, kind: RefKind, pos: nat, location: string, file: Path)

  /** One call of processSchemaElement: the document, the directory its
      references resolve against, and its origin. */
  datatype Visit = Visit(schema: Schema, dir: Path, origin: Origin)

  /** The state of the walk: the processedSchemas set, the lines printed,
      the visits made (a record kept for stating properties) and whether
      no exception has been raised. */
  datatype Walk = Walk(seen: set<string>, out: seq<string>, log: seq<Visit>, ok: bool)

  function RefList(s: Schema, kind: RefKind): seq<string> {
    match kind
    case Import => s.imports
    case Include => s.includes
  }

  /** The line processSchemaElement prints for a document, if any. */
  function UriLines(s: Schema): seq<string> {
    match s.baseUri
    case Some(u) => [u]
    case None => []
  }

  ghost predicate RefsWithin(s: Schema, u: set<string>) {
    && (forall k :: 0 <= k < |s.imports| ==> s.imports[k] in u)
    && (forall k :: 0 <= k < |s.includes| ==> s.includes[k] in u)
  }

  /** Every location named by a readable file lies in `u`. */
  ghost predicate Closed(files: Files, u: set<string>) {
    forall f :: f in files ==> RefsWithin(files[f], u)
  }

  ghost predicate InlineWithin(exts: seq<Extension>, u: set<string>) {
    forall i :: 0 <= i < |exts| && exts[i].SchemaExt? ==> RefsWithin(exts[i].schema, u)
  }

  ghost function SchemaLocations(s: Schema): set<string> {
    (set k | 0 <= k < |s.imports| :: s.imports[k]) + (set k | 0 <= k < |s.includes| :: s.includes[k])
  }

  /** Every location string of the document graph: finitely many, which is
      why the walk terminates. */
  ghost function Universe(files: Files, exts: seq<Extension>): (u: set<string>)
    ensures Closed(files, u) && InlineWithin(exts, u)
  {
    var u := (set f, l | f in files && l in SchemaLocations(files[f]) :: l)
      + (set i, l | 0 <= i < |exts| && exts[i].SchemaExt? && l in SchemaLocations(exts[i].schema) :: l);
    UniverseCovers(files, exts, u);
    u
  }

  lemma UniverseCovers(files: Files, exts: seq<Extension>, u: set<string>)
    requires u == (set f, l | f in files && l in SchemaLocations(files[f]) :: l)
      + (set i, l | 0 <= i < |exts| && exts[i].SchemaExt? && l in SchemaLocations(exts[i].schema) :: l)
    ensures Closed(files, u) && InlineWithin(exts, u)
  {
    forall f | f in files ensures RefsWithin(files[f], u) {
      var s := files[f];
      forall k | 0 <= k < |s.imports| ensures s.imports[k] in u {
        assert s.imports[k] in SchemaLocations(s);
      }
      forall k | 0 <= k < |s.includes| ensures s.includes[k] in u {
        assert s.includes[k] in SchemaLocations(s);
      }
    }
    forall i | 0 <= i < |exts| && exts[i].SchemaExt? ensures RefsWithin(exts[i].schema, u) {
      var s := exts[i].schema;
      forall k | 0 <= k < |s.imports| ensures s.imports[k] in u {
        assert s.imports[k] in SchemaLocations(s);
      }
      forall k | 0 <= k < |s.includes| ensures s.includes[k] in u {
        assert s.includes[k] in SchemaLocations(s);
      }
    }
  }

  lemma {:induction false} SubsetCard<T>(a: set<T>, b: set<T>)
    requires a <= b
    ensures |a| <= |b|
    decreases |a|
  {
    if a != {} {
      var x :| x in a;
      SubsetCard(a - {x}, b - {x});
    }
  }

  /** Processing more locations never leaves more of `u` unprocessed. */
  lemma FewerUnseen(u: set<string>, a: set<string>, b: set<string>)
    requires a <= b
    ensures |u - b| <= |u - a|
  {
    SubsetCard(u - b, u - a);
  }

  /** Marking a new location of `u` leaves strictly fewer unprocessed. */
  lemma MarkingShrinks(u: set<string>, a: set<string>, loc: string)
    requires loc in u && loc !in a
    ensures |u - (a + {loc})| < |u - a|
  {
    var smaller := u - (a + {loc});
    assert smaller + {loc} == u - a;
    assert loc !in smaller;
  }

  /** processSchemaElement(schema, processedSchemas, dir): print the base
      URI, walk the import locations, then the include locations. */
  ghost function Element(files: Files, u: set<string>, s: Schema, dir: Path, origin: Origin, st: Walk): (r: Walk)
    requires st.ok && Closed(files, u) && RefsWithin(s, u)
    ensures st.seen <= r.seen && st.log <= r.log
    ensures |r.log| > |st.log| && r.log[|st.log|] == Visit(s, dir, origin)
    decreases |u - st.seen|, 1
  {
    var p := |st.log|;
    var entered := st.(out := st.out + UriLines(s), log := st.log + [Visit(s, dir, origin)]);
    var afterImports := Refs(files, u, s.imports, 0, Import, p, dir, entered);
    if !afterImports.ok then afterImports
    else
      FewerUnseen(u, st.seen, afterImports.seen);
      Refs(files, u, s.includes, 0, Include, p, dir, afterImports)
  }

  /** One of the two loops of processSchemaElement, from position `i` of
      `locs` on: a location that is empty or already processed is passed
      over, any other one is followed. */
  ghost function Refs(files: Files, u: set<string>, locs: seq<string>, i: nat, kind: RefKind, p: nat, dir: Path, st: Walk): (r: Walk)
    requires st.ok && Closed(files, u) && i <= |locs|
    requires forall k :: 0 <= k < |locs| ==> locs[k] in u
    ensures st.seen <= r.seen && st.log <= r.log
    decreases |u - st.seen|, 0, |locs| - i, 1
  {
    if i == |locs| then st
    else if locs[i] == "" || locs[i] in st.seen then
      Refs(files, u, locs, i + 1, kind, p, dir, st)
    else
      Follow(files, u, locs, i, kind, p, dir, st)
  }

  /** The body of the loop for a new location `locs[i]`: it is added to the
      set, resolved against `dir` and its file processed; the loop goes on
      with position `i + 1` unless that failed. */
  ghost function Follow(files: Files, u: set<string>, locs: seq<string>, i: nat, kind: RefKind, p: nat, dir: Path, st: Walk): (r: Walk)
    requires st.ok && Closed(files, u) && i < |locs|
    requires forall k :: 0 <= k < |locs| ==> locs[k] in u
    requires locs[i] != "" && locs[i] !in st.seen
    ensures st.seen <= r.seen && st.log <= r.log && locs[i] in r.seen
    decreases |u - st.seen|, 0, |locs| - i, 0
  {
    var loc := locs[i];
    var file := Resolve(dir, loc);
    var marked := st.(seen := st.seen + {loc});
    MarkingShrinks(u, st.seen, loc);
    var done := File(files, u, file, Ref(p, kind, i, loc, file), marked);
    if !done.ok then done
    else
      FewerUnseen(u, marked.seen, done.seen);
      Refs(files, u, locs, i + 1, kind, p, dir, done)
  }

  /** processSchemaFile(file, processedSchemas): parse the file (failing
      when it cannot be read or parsed) and process its document element
      against the file's own directory. */
  ghost function File(files: Files, u: set<string>, file: Path, origin: Origin, st: Walk): (r: Walk)
    requires st.ok && Closed(files, u)
    ensures st.seen <= r.seen && st.log <= r.log
    ensures file !in files ==> r == st.(ok := false)
    ensures file in files ==> |r.log| > |st.log| && r.log[|st.log|] == Visit(files[file], ParentDir(file), origin)
    decreases |u - st.seen|, 2
  {
    if file !in files then st.(ok := false)
    else Element(files, u, files[file], ParentDir(file), origin, st)
  }

  /** The loop of main over the WSDL's extensibility elements, from
      position `i` on: each schema element is processed against the WSDL
      file's directory, with one processedSchemas set for all of them. */
  ghost function Types(files: Files, u: set<string>, exts: seq<Extension>, i: nat, wsdlDir: Path, st: Walk): (r: Walk)
    requires st.ok && Closed(files, u) && InlineWithin(exts, u) && i <= |exts|
    ensures st.seen <= r.seen && st.log <= r.log
    decreases |exts| - i
  {
    if i == |exts| then st
    else
      match exts[i]
      case OtherExt => Types(files, u, exts, i + 1, wsdlDir, st)
      case SchemaExt(s) =>
        var done := Element(files, u, s, wsdlDir, Inline(i), st);
        if !done.ok then done
        else Types(files, u, exts, i + 1, wsdlDir, done)
  }

  ghost const Start := Walk({}, [], [], true)

  /** The whole of main: `types` is None when the WSDL file cannot be read
      or has no `<types>` section, otherwise its extensibility elements. A
      failure anywhere ends the run (the exception's trace is printed, which
      is not modelled); what was printed before stays printed. */
  ghost function Run(files: Files, wsdlPath: Path, types: Option<seq<Extension>>): (r: Walk)
    ensures types.None? ==> r == Start.(ok := false)
  {
    match types
    case None => Start.(ok := false)
    case Some(exts) => Types(files, Universe(files, exts), exts, 0, ParentDir(wsdlPath), Start)
  }
}
