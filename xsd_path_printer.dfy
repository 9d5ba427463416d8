/** PrintXSDPathsFromWSDL as imperative code: processSchemaElement and
    processSchemaFile as methods of a walker whose fields are the shared
    processedSchemas set and the lines printed so far, and main as a method
    that builds the walker and loops over the WSDL's extensibility
    elements. Each method is proved to compute exactly what the functions of
    SchemaWalk describe; the properties of the walk are proved about those
    functions in WalkLedger, WalkLinks, WalkOrder, WalkOutput and
    WalkCoverage. A thrown exception is a `false` result. */
module XsdPathPrinter {
  import opened Wrappers
  import opened FilePaths
  import opened SchemaWalk

  class Walker {
    /** The readable files; a path outside the map fails to parse. */
    const files: Files
    /** The location strings of the document graph (for termination). */
    ghost const universe: set<string>
    /** processedSchemas. */
    var processed: set<string>
    /** The lines printed to standard output, in order. */
    var output: seq<string>
    /** The visits made so far, for the specification. */
    ghost var log: seq<Visit>

    ghost predicate Valid() {
      Closed(files, universe)
    }

    ghost function State(ok: bool): Walk
      reads this
    {
      Walk(processed, output, log, ok)
    }

    constructor (files: Files, ghost universe: set<string>)
      requires Closed(files, universe)
      ensures Valid() && this.files == files && this.universe == universe
      ensures State(true) == Start
    {
      this.files := files;
      this.universe := universe;
      processed := {};
      output := [];
      log := [];
    }

    /** processSchemaElement(schemaElement, processedSchemas, baseDir):
        print the base URI, then run the loop over the import elements and
        the loop over the include elements. */
    method ProcessSchemaElement(s: Schema, dir: Path, ghost origin: Origin) returns (ok: bool)
      requires Valid() && RefsWithin(s, universe)
      modifies this
      ensures State(ok) == Element(files, universe, s, dir, origin, old(State(true)))
      decreases |universe - processed|, 1
    {
      ghost var st0 := State(true);
      ghost var p := |log|;
      if s.baseUri.Some? {
        output := output + [s.baseUri.value];
      }
      log := log + [Visit(s, dir, origin)];
      assert State(true) == st0.(out := st0.out + UriLines(s), log := st0.log + [Visit(s, dir, origin)]);
      ok := ProcessReferences(s.imports, Import, p, dir);
      if !ok {
        return;
      }
      FewerUnseen(universe, st0.seen, processed);
      ok := ProcessReferences(s.includes, Include, p, dir);
    }

    /** One of the two loops of processSchemaElement (they differ only in
        the element name, hence in `locs` and `kind`): each non-empty
        location not yet in processedSchemas is added to it, resolved
        against `dir` and processed as a file. `p` is the log index of the
        element being processed. */
    method ProcessReferences(locs: seq<string>, kind: RefKind, ghost p: nat, dir: Path) returns (ok: bool)
      requires Valid() && forall k :: 0 <= k < |locs| ==> locs[k] in universe
      modifies this
      ensures State(ok) == Refs(files, universe, locs, 0, kind, p, dir, old(State(true)))
      decreases |universe - processed|, 0
    {
      ghost var st0 := State(true);
      ok := true;
      var i := 0;
      while i < |locs|
        invariant 0 <= i <= |locs|
        invariant st0.seen <= processed
        invariant Refs(files, universe, locs, 0, kind, p, dir, st0)
               == Refs(files, universe, locs, i, kind, p, dir, State(true))
      {
        ghost var before := State(true);
        var location := locs[i];
        if location != "" && location !in processed {
          FewerUnseen(universe, st0.seen, processed);
          MarkingShrinks(universe, processed, location);
          processed := processed + {location};
          var file := Resolve(dir, location);
          ok := ProcessSchemaFile(file, Ref(p, kind, i, location, file));
          assert Refs(files, universe, locs, i, kind, p, dir, before)
              == if !ok then State(ok) else Refs(files, universe, locs, i + 1, kind, p, dir, State(true));
          if !ok {
            return;
          }
        }
        i := i + 1;
      }
    }

    /** processSchemaFile(schemaFile, processedSchemas). */
    method ProcessSchemaFile(file: Path, ghost origin: Origin) returns (ok: bool)
      requires Valid()
      modifies this
      ensures State(ok) == File(files, universe, file, origin, old(State(true)))
      decreases |universe - processed|, 2
    {
      if file !in files {
        return false;
      }
      ok := ProcessSchemaElement(files[file], ParentDir(file), origin);
    }

    /** The loop of main over the extensibility elements of the WSDL. */
    method ProcessTypes(exts: seq<Extension>, wsdlDir: Path) returns (ok: bool)
      requires Valid() && InlineWithin(exts, universe)
      modifies this
      ensures State(ok) == Types(files, universe, exts, 0, wsdlDir, old(State(true)))
    {
      ghost var st0 := State(true);
      ok := true;
      var i := 0;
      while i < |exts|
        invariant 0 <= i <= |exts|
        invariant Types(files, universe, exts, 0, wsdlDir, st0)
               == Types(files, universe, exts, i, wsdlDir, State(true))
      {
        if exts[i].SchemaExt? {
          ok := ProcessSchemaElement(exts[i].schema, wsdlDir, Inline(i));
          if !ok {
            return;
          }
        }
        i := i + 1;
      }
    }
  }

  /** main: read the WSDL at `wsdlPath` (`types` is None when that fails
      or the WSDL has no `<types>` section) and walk its schemas. Returns
      the printed lines and whether the run went through without an
      exception; a false outcome stands for an exception that was raised,
      whether main caught it and printed its trace or not. */
  method PrintXsdPaths(files: Files, wsdlPath: Path, types: Option<seq<Extension>>)
    returns (output: seq<string>, ok: bool)
    ensures output == Run(files, wsdlPath, types).out
    ensures ok == Run(files, wsdlPath, types).ok
  {
    match types
    case None =>
      output, ok := [], false;
    case Some(exts) =>
      var walker := new Walker(files, Universe(files, exts));
      ok := walker.ProcessTypes(exts, ParentDir(wsdlPath));
      output := walker.output;
  }
}
