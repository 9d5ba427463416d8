/** The properties of a whole run of PrintXSDPathsFromWSDL, over any
    document graph, collected from the invariants of WalkLedger, WalkLinks,
    WalkOrder, WalkOutput, WalkCoverage and WalkHandling. */
module WalkProperties {
  import opened Wrappers
  import opened FilePaths
  import opened SchemaWalk
  import opened WalkLedger
  import opened WalkLinks
  import opened WalkOrder
  import opened WalkOutput
  import opened WalkCoverage
  import opened WalkHandling

  lemma RunProperties(files: Files, wsdlPath: Path, exts: seq<Extension>)
    ensures var r := Run(files, wsdlPath, Some(exts));
      // no location string is expanded twice, whatever the cycles
      && (forall j, k :: 0 <= j < k < |r.log| && r.log[j].origin.Ref? && r.log[k].origin.Ref? ==>
            r.log[j].origin.location != r.log[k].origin.location)
      // only non-empty locations are followed, and each is in the set
      && (forall k :: 0 <= k < |r.log| && r.log[k].origin.Ref? ==>
            r.log[k].origin.location != "" && r.log[k].origin.location in r.seen)
      && "" !in r.seen
      // on success the set is exactly the locations followed; on failure
      // it also holds the one whose file could not be read
      && (r.ok ==> forall l :: l in r.seen ==> Visited(r.log, 0, l))
      && (!r.ok ==> exists l :: l in r.seen && !Visited(r.log, 0, l))
      // origins and resolution against the referring document's directory
      && Linked(files, exts, ParentDir(wsdlPath), r.log)
      // pre-order, imports before includes, document order
      && Tree(r.log)
      // the output is the base URIs of the visited documents, in visit order
      && r.out == Lines(r.log)
      // a successful run misses no reference and no inline schema
      && (r.ok ==> Covered(r.log, r.seen, 0))
      && (r.ok ==> forall j :: 0 <= j < |exts| && exts[j].SchemaExt? ==> InlineVisited(r.log, 0, j))
      // every reference is handled where it is met: a location is
      // followed the first time, and passed over later only because a
      // visit before that point reached it
      && (r.ok ==> forall j :: 0 <= j < |r.log| ==> Complete(r.log, j))
      // a failed run stopped at a reference whose file cannot be read,
      // with nothing visited after it
      && (!r.ok ==> exists q, kind, pos :: Stopped(files, r, q, kind, pos))
  {
    var u := Universe(files, exts);
    var wsdlDir := ParentDir(wsdlPath);
    var r := Types(files, u, exts, 0, wsdlDir, Start);
    TypesLedger(files, u, exts, 0, wsdlDir, Start);
    TypesLinked(files, u, exts, 0, wsdlDir, Start);
    TypesOrder(files, u, exts, 0, wsdlDir, Start);
    TypesOutput(files, u, exts, 0, wsdlDir, Start);
    TypesCoverage(files, u, exts, 0, wsdlDir, Start);
    TypesHandling(files, u, exts, 0, wsdlDir, Start);
    assert r.log[0..] == r.log;
    forall k | 0 <= k < |r.log| && r.log[k].origin.Ref?
      ensures r.log[k].origin.location != "" && r.log[k].origin.location in r.seen
    {
      assert NewLocation(Start, r, r.log[k].origin.location);
    }
  }
}
