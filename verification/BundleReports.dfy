// What a blind load returns, in terms of the manifest and the files alone.
module BundleReports {
  import opened Results
  import opened Ordering
  import opened BlindBundle

  // ---- the registry ---------------------------------------------------------------------------

  // Identifiers are not repeated, the problem is there to be solved, nothing else is but rules and
  // external data, required literature has a query, and every fact names a resource.
  ghost predicate Admissible(m: Manifest) {
    && (forall i, j :: 0 <= i < |m.resources| && 0 <= j < |m.resources| && m.resources[i].id == m.resources[j].id ==> i == j)
    && (exists i :: 0 <= i < |m.resources| && m.resources[i].phase == Solve && m.resources[i].role == Problem)
    && (forall i :: 0 <= i < |m.resources| ==> m.resources[i].phase == Evaluation || m.resources[i].role in {Problem, Rules, ExternalData})
    && (!m.requiresLiterature || |m.queries| > 0)
    && forall k :: 0 <= k < |m.factResources| ==> exists i :: 0 <= i < |m.resources| && m.resources[i].id == m.factResources[k]
  }

  lemma AdmissibleIff(m: Manifest)
    ensures Valid(m) <==> Admissible(m)
  {
    if Admissible(m) {
      forall f | f in m.factResources
        ensures f in Ids(m.resources)
      {
        var k :| 0 <= k < |m.factResources| && m.factResources[k] == f;
        var i :| 0 <= i < |m.resources| && m.resources[i].id == m.factResources[k];
        assert m.resources[i] in m.resources;
      }
      assert forall r :: r in m.resources ==> r.phase == Evaluation || r.role in {Problem, Rules, ExternalData};
    }
    if Valid(m) {
      var r :| r in m.resources && r.phase == Solve && r.role == Problem;
      var i :| 0 <= i < |m.resources| && m.resources[i] == r;
      assert forall j :: 0 <= j < |m.resources| ==> m.resources[j] in m.resources;
      forall k | 0 <= k < |m.factResources|
        ensures exists j :: 0 <= j < |m.resources| && m.resources[j].id == m.factResources[k]
      {
        assert m.factResources[k] in m.factResources;
        var q :| q in m.resources && q.id == m.factResources[k];
        var j :| 0 <= j < |m.resources| && m.resources[j] == q;
      }
    }
  }

  // Loading succeeds exactly when every manifest is admissible and no two carry one identifier.
  lemma LoadsIff(files: seq<Manifest>)
    ensures Registered(files).Some?
            <==> (forall m :: m in files ==> Admissible(m)) && forall i, j :: 0 <= i < j < |files| ==> files[i].id != files[j].id
  {
    RegisteredIff(files);
    forall m ensures Valid(m) <==> Admissible(m) { AdmissibleIff(m); }
    hide Valid, Admissible;
  }

  // ---- the artifacts -----------------------------------------------------------------------------

  // The SOLVE resources, each once, in lexicographic order of their identifiers.
  ghost predicate SolveInOrder(artifacts: seq<Artifact>, m: Manifest) {
    && (forall a :: a in artifacts ==> a.resource in m.resources && a.resource.phase == Solve)
    && (forall r :: r in m.resources && r.phase == Solve ==> exists a :: a in artifacts && a.resource == r)
    && (forall i, j :: 0 <= i < j < |artifacts| ==> Precedes(artifacts[i].resource.id, artifacts[j].resource.id))
  }

  lemma ArtifactsAreInOrder(m: Manifest, cache: Cache, h: Hashes)
    requires Valid(m) && Loaded(m, cache, h).Ok?
    ensures SolveInOrder(Loaded(m, cache, h).value.artifacts, m)
  {
    BundleContents(m, cache, h);
    var artifacts := Loaded(m, cache, h).value.artifacts;
    var rs := ResourcesOf(artifacts);
    hide Valid, Loaded, Pinned, LessEq, Precedes;
    forall a | a in artifacts
      ensures a.resource in m.resources && a.resource.phase == Solve
    {
      var i :| 0 <= i < |artifacts| && artifacts[i] == a;
      assert rs[i] in rs;
    }
    forall r | r in m.resources && r.phase == Solve
      ensures exists a :: a in artifacts && a.resource == r
    {
      assert r in rs;
      var i :| 0 <= i < |rs| && rs[i] == r;
      assert artifacts[i] in artifacts && artifacts[i].resource == r;
    }
    forall i, j | 0 <= i < j < |artifacts|
      ensures Precedes(artifacts[i].resource.id, artifacts[j].resource.id)
    {
      assert LessEq(rs[i].id, rs[j].id) && rs[i].id != rs[j].id;
      LessEqIff(rs[i].id, rs[j].id);
    }
  }

  // ---- the digest -----------------------------------------------------------------------------------

  // One item per artifact, with its identifier, its pinned hash and the size of its content.
  ghost predicate Describes(p: seq<PayloadItem>, artifacts: seq<Artifact>) {
    && |p| == |artifacts|
    && forall i :: 0 <= i < |p| ==>
         && p[i].id == artifacts[i].resource.id && artifacts[i].resource.sha256 == Some(p[i].sha256)
         && p[i].size == |artifacts[i].content|
  }

  // The solve-input digest covers the manifest's digest and those items.
  lemma DigestCoversArtifacts(m: Manifest, cache: Cache, h: Hashes)
    requires Valid(m) && Loaded(m, cache, h).Ok?
    ensures var b := Loaded(m, cache, h).value;
            b.manifest == m && exists p :: Describes(p, b.artifacts) && b.digest == h.payload(h.manifest(m), p)
  {
    BundleContents(m, cache, h);
    var b := Loaded(m, cache, h).value;
    var p := PayloadOf(b.artifacts, h);
    assert b.digest == h.payload(h.manifest(m), p);
    hide Valid, Loaded, IsSolveOrder;
    forall i | 0 <= i < |p|
      ensures p[i].id == b.artifacts[i].resource.id && b.artifacts[i].resource.sha256 == Some(p[i].sha256)
              && p[i].size == |b.artifacts[i].content|
    {
      assert b.artifacts[i] in b.artifacts;
    }
    assert Describes(p, b.artifacts);
  }

  // ---- the error ---------------------------------------------------------------------------------------

  predicate Present(r: Resource, cache: Cache) {
    cache.Root? && r.filename in cache.entries
  }

  // A file inside the cache that may be read.
  predicate Regular(e: Entry) {
    e.insideRoot && !e.symlink && e.regular
  }

  // Why a resource is refused: the first of the six conditions it violates.
  predicate RefusedAs(r: Resource, cache: Cache, h: Hashes, e: LoadError) {
    if !Present(r, cache) then e == Missing
    else
      var f := cache.entries[r.filename];
      match e
      case NotRegistered => false
      case Missing => false
      case Escaped => !f.insideRoot
      case NotRegular => f.insideRoot && (f.symlink || !f.regular)
      case ReparsePoint => Regular(f) && f.reparse
      case SizeMismatch(id) => Regular(f) && !f.reparse && id == r.id && r.size.Some? && r.size.value != |f.content|
      case HashMismatch(id) =>
        Regular(f) && !f.reparse && id == r.id && (r.size.Some? ==> r.size.value == |f.content|) && r.sha256 != Some(h.bytes(f.content))
  }

  lemma RefusalIs(r: Resource, cache: Cache, h: Hashes, e: LoadError)
    ensures VerifiedBytes(r, cache, h) == Err(e) <==> RefusedAs(r, cache, h, e)
  {
  }

  lemma {:induction false} FirstRefused(ordered: seq<Resource>, cache: Cache, h: Hashes) returns (k: nat)
    requires Artifacts(ordered, cache, h).Err?
    ensures k < |ordered| && VerifiedBytes(ordered[k], cache, h) == Err(Artifacts(ordered, cache, h).error)
    ensures forall j :: 0 <= j < k ==> VerifiedBytes(ordered[j], cache, h).Ok?
  {
    hide VerifiedBytes;
    if VerifiedBytes(ordered[0], cache, h).Err? {
      k := 0;
    } else {
      var rest := FirstRefused(ordered[1..], cache, h);
      k := rest + 1;
      forall j | 0 <= j < k
        ensures VerifiedBytes(ordered[j], cache, h).Ok?
      {
        if j > 0 { assert ordered[j] == ordered[1..][j - 1]; }
      }
    }
  }

  lemma BeforeOrAfter(ordered: seq<Resource>, k: nat, j: nat)
    requires Ascending(ordered) && k < |ordered| && j < |ordered|
    ensures j < k || LessEq(ordered[k].id, ordered[j].id)
  {
    hide LessEq;
  }

  lemma EarlierIsBefore(ordered: seq<Resource>, k: nat, q: Resource) returns (j: nat)
    requires Ascending(ordered) && k < |ordered| && q in ordered && Precedes(q.id, ordered[k].id)
    ensures j < k && ordered[j] == q
  {
    j :| 0 <= j < |ordered| && ordered[j] == q;
    hide LessEq, Precedes, Ascending;
    BeforeOrAfter(ordered, k, j);
    NotBoth(q.id, ordered[k].id);
  }

  lemma NotBoth(s: string, t: string)
    ensures !(Precedes(s, t) && LessEq(t, s))
  {
    assert !Precedes(s, s);
    hide Precedes, LessEq;
    LessEqIff(s, t);
    if Precedes(s, t) && LessEq(t, s) { Antisymmetric(s, t); }
  }

  // A load fails with the reason of the first resource, in identifier order, whose file is not
  // what the manifest pins.
  lemma FirstFailureIsReported(m: Manifest, cache: Cache, h: Hashes) returns (r: Resource)
    requires Valid(m) && Loaded(m, cache, h).Err?
    ensures r in m.resources && r.phase == Solve && RefusedAs(r, cache, h, Loaded(m, cache, h).error)
    ensures forall q :: q in m.resources && q.phase == Solve && Precedes(q.id, r.id) ==> Pinned(q, cache, h)
  {
    var ordered := SortById(SolveOnly(m.resources));
    SolveOrder(m);
    var k := FirstRefused(ordered, cache, h);
    r := ordered[k];
    RefusalIs(r, cache, h, Loaded(m, cache, h).error);
    hide VerifiedBytes, Pinned, SortById, SolveOnly, LessEq, Ascending, Precedes, Valid, RefusedAs;
    assert r in ordered;
    forall q | q in m.resources && q.phase == Solve && Precedes(q.id, r.id)
      ensures Pinned(q, cache, h)
    {
      var j := EarlierIsBefore(ordered, k, q);
      VerifiedMeans(q, cache, h);
    }
  }
}
