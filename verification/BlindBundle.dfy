// Benchmark manifests and the blind solve bundle: which files of a cache a solver may see, in
// which order, and under which pinned hashes.
module BlindBundle {
  import opened Results
  import opened Ordering

  type Bytes = seq<bv8>

  datatype Phase = Solve | Evaluation

  datatype Role = Problem | Rules | ExternalData | ReferenceSolution | JudgeCommentary | HumanNotes

  datatype Resource = Resource(id: string, phase: Phase, role: Role, filename: string, sha256: Option<string>, size: Option<nat>)

  // `rest` stands for the fields that matter to the manifest digest only.
  datatype Manifest = Manifest(id: string, resources: seq<Resource>, requiresLiterature: bool, queries: seq<string>,
                               factResources: seq<string>, rest: string)

  // What the file system holds under one plain name of the cache directory.
  datatype Entry = Entry(insideRoot: bool, symlink: bool, regular: bool, reparse: bool, content: Bytes)

  datatype Cache = NoRoot | Root(entries: map<string, Entry>)

  datatype Artifact = Artifact(resource: Resource, content: Bytes)

  datatype PayloadItem = PayloadItem(id: string, sha256: string, size: nat)

  datatype Bundle = Bundle(manifest: Manifest, artifacts: seq<Artifact>, digest: string)

  datatype LoadError =
    | NotRegistered | Missing | Escaped | NotRegular | ReparsePoint
    | SizeMismatch(id: string) | HashMismatch(id: string)

  // SHA-256 of bytes, of a manifest's canonical form, and of the digest payload.
  datatype Hashes = Hashes(bytes: Bytes -> string, manifest: Manifest -> string, payload: (string, seq<PayloadItem>) -> string)

  // ---- manifests -----------------------------------------------------------------------------

  predicate DistinctIds(rs: seq<Resource>) {
    forall i, j :: 0 <= i < j < |rs| ==> rs[i].id != rs[j].id
  }

  predicate Forbidden(role: Role) {
    role in {ReferenceSolution, JudgeCommentary, HumanNotes}
  }

  function SolveOnly(rs: seq<Resource>): seq<Resource> {
    if rs == [] then []
    else if rs[0].phase == Solve then [rs[0]] + SolveOnly(rs[1..])
    else SolveOnly(rs[1..])
  }

  function Ids(rs: seq<Resource>): set<string> {
    set r | r in rs :: r.id
  }

  // The validator every loaded manifest has passed.
  predicate Valid(m: Manifest) {
    && DistinctIds(m.resources)
    && (exists r :: r in m.resources && r.phase == Solve && r.role == Problem)
    && (forall r :: r in m.resources && r.phase == Solve ==> !Forbidden(r.role))
    && (m.requiresLiterature ==> m.queries != [])
    && (forall f :: f in m.factResources ==> f in Ids(m.resources))
  }

  // The files case-*/manifest.json in path order, as parsed.
  function Registered(files: seq<Manifest>): Option<map<string, Manifest>> {
    if files == [] then Some(map[])
    else
      var k := |files| - 1;
      match Registered(files[..k])
      case None => None
      case Some(m) => if !Valid(files[k]) || files[k].id in m then None else Some(m[files[k].id := files[k]])
  }

  class Registry {
    var manifests: map<string, Manifest>

    constructor ()
      ensures manifests == map[]
    {
      manifests := map[];
    }

    // Fails on the first invalid or repeated manifest.
    method Load(files: seq<Manifest>) returns (ok: bool)
      requires manifests == map[]
      modifies this
      ensures ok <==> Registered(files).Some?
      ensures ok ==> Some(manifests) == Registered(files)
    {
      for i := 0 to |files|
        invariant Registered(files[..i]) == Some(manifests)
      {
        assert files[..i + 1][..i] == files[..i];
        if !Valid(files[i]) || files[i].id in manifests {
          RegistrationFails(files, i + 1);
          return false;
        }
        manifests := manifests[files[i].id := files[i]];
      }
      assert files[..|files|] == files;
      ok := true;
    }

    method LoadBlindSolveBundle(id: string, cache: Cache, h: Hashes) returns (r: Result<Bundle, LoadError>)
      ensures r == if id in manifests then Loaded(manifests[id], cache, h) else Err(NotRegistered)
    {
      if id !in manifests {
        return Err(NotRegistered);
      }
      var manifest := manifests[id];
      var ordered := SortById(SolveOnly(manifest.resources));
      var artifacts: seq<Artifact>, payload: seq<PayloadItem> := [], [];
      NothingRead(ordered, cache, h);
      hide VerifiedBytes, SortById, SolveOnly, Artifacts, HaveRead;
      for i := 0 to |ordered|
        invariant HaveRead(ordered, i, artifacts, cache, h)
        invariant payload == PayloadOf(artifacts, h)
      {
        var resource := ordered[i];
        var data := VerifiedBytes(resource, cache, h);
        if data.Err? {
          ReadFails(ordered, i, artifacts, cache, h);
          return Err(data.error);
        }
        ReadNext(ordered, i, artifacts, cache, h);
        artifacts := artifacts + [Artifact(resource, data.value)];
        payload := payload + [PayloadItem(resource.id, h.bytes(data.value), |data.value|)];
      }
      AllRead(ordered, artifacts, cache, h);
      r := Ok(Bundle(manifest, artifacts, h.payload(h.manifest(manifest), payload)));
    }
  }

  lemma {:induction false} RegistrationFails(files: seq<Manifest>, i: nat)
    requires i <= |files| && Registered(files[..i]).None?
    ensures Registered(files).None?
  {
    if i < |files| {
      var k := |files| - 1;
      assert files[..k][..i] == files[..i];
      RegistrationFails(files[..k], i);
    } else {
      assert files[..i] == files;
    }
  }

  ghost predicate DistinctManifests(files: seq<Manifest>) {
    forall i, j :: 0 <= i < j < |files| ==> files[i].id != files[j].id
  }

  // The registry holds every file's manifest under its own identifier and nothing else.
  lemma {:induction false} RegisteredHolds(files: seq<Manifest>)
    requires Registered(files).Some?
    ensures forall m :: m in files ==> m.id in Registered(files).value && Registered(files).value[m.id] == m
    ensures forall id :: id in Registered(files).value ==> Registered(files).value[id] in files && Registered(files).value[id].id == id
    ensures (forall m :: m in files ==> Valid(m)) && DistinctManifests(files)
  {
    if files != [] {
      hide Valid;
      var k := |files| - 1;
      RegisteredHolds(files[..k]);
      assert files == files[..k] + [files[k]];
      forall i, j | 0 <= i < j < |files|
        ensures files[i].id != files[j].id
      {
        if j == k {
          assert files[i] in files[..k];
        } else {
          assert files[..k][i] == files[i] && files[..k][j] == files[j];
        }
      }
    }
  }

  // Loading succeeds exactly when every manifest is valid and no identifier repeats.
  lemma {:induction false} RegisteredIff(files: seq<Manifest>)
    ensures Registered(files).Some? <==> (forall m :: m in files ==> Valid(m)) && DistinctManifests(files)
  {
    if Registered(files).Some? {
      RegisteredHolds(files);
    } else {
      hide Valid;
      var k := |files| - 1;
      RegisteredIff(files[..k]);
      assert forall m :: m in files[..k] ==> m in files;
      if Registered(files[..k]).Some? && files[k].id in Registered(files[..k]).value {
        RegisteredHolds(files[..k]);
        var other := Registered(files[..k]).value[files[k].id];
        var i :| 0 <= i < k && files[..k][i] == other;
        assert files[i].id == files[k].id;
      } else if Registered(files[..k]).Some? {
        assert files[k] in files;
      } else if DistinctManifests(files) {
        assert forall i, j :: 0 <= i < j < k ==> files[..k][i] == files[i] && files[..k][j] == files[j];
      }
    }
  }

  // ---- sorting ---------------------------------------------------------------------------------

  function Insert(r: Resource, rs: seq<Resource>): seq<Resource> {
    if rs == [] then [r]
    else if LessEq(rs[0].id, r.id) then [rs[0]] + Insert(r, rs[1..])
    else [r] + rs
  }

  function SortById(rs: seq<Resource>): seq<Resource> {
    if rs == [] then [] else Insert(rs[|rs| - 1], SortById(rs[..|rs| - 1]))
  }

  ghost predicate Ascending(rs: seq<Resource>) {
    forall i, j :: 0 <= i <= j < |rs| ==> LessEq(rs[i].id, rs[j].id)
  }

  lemma {:induction false} Reflexive(s: string)
    ensures LessEq(s, s)
  {
    if s != "" { Reflexive(s[1..]); }
  }

  lemma {:induction false} InsertKeeps(r: Resource, rs: seq<Resource>)
    ensures multiset(Insert(r, rs)) == multiset(rs) + multiset{r}
  {
    hide LessEq;
    if rs != [] {
      assert rs == [rs[0]] + rs[1..];
      InsertKeeps(r, rs[1..]);
    }
  }

  lemma {:induction false} InsertSorts(r: Resource, rs: seq<Resource>)
    requires Ascending(rs)
    ensures Ascending(Insert(r, rs)) && multiset(Insert(r, rs)) == multiset(rs) + multiset{r}
  {
    Reflexive(r.id);
    InsertKeeps(r, rs);
    if rs != [] {
      if LessEq(rs[0].id, r.id) {
        AscendingTail(rs);
        hide LessEq, Ascending;
        InsertSorts(r, rs[1..]);
        FirstIsLeast(rs[0], r, rs[1..]);
      } else {
        LeastFirst(r, rs);
      }
    }
  }

  lemma AscendingTail(rs: seq<Resource>)
    requires Ascending(rs) && rs != []
    ensures Ascending(rs[1..]) && rs == [rs[0]] + rs[1..]
  {
    hide LessEq;
  }

  lemma LeastFirst(r: Resource, rs: seq<Resource>)
    requires Ascending(rs) && rs != [] && !LessEq(rs[0].id, r.id)
    ensures Ascending([r] + rs)
  {
    Total(rs[0].id, r.id);
    Reflexive(r.id);
    hide LessEq;
    forall j | 0 <= j < |rs|
      ensures LessEq(r.id, rs[j].id)
    {
      Transitive(r.id, rs[0].id, rs[j].id);
    }
  }

  lemma FirstIsLeast(first: Resource, r: Resource, rest: seq<Resource>)
    requires Ascending([first] + rest) && LessEq(first.id, r.id) && Ascending(Insert(r, rest))
    requires multiset(Insert(r, rest)) == multiset(rest) + multiset{r}
    ensures Ascending([first] + Insert(r, rest))
  {
    var all := [first] + rest;
    assert LessEq(all[0].id, all[0].id);
    forall x | x in Insert(r, rest)
      ensures LessEq(first.id, x.id)
    {
      assert x in multiset(Insert(r, rest));
      if x != r {
        var j :| 0 <= j < |rest| && rest[j] == x;
        assert all[j + 1] == x;
      }
    }
  }

  lemma {:induction false} SortByIdSorts(rs: seq<Resource>)
    ensures Ascending(SortById(rs)) && multiset(SortById(rs)) == multiset(rs)
  {
    if rs != [] {
      var k := |rs| - 1;
      hide LessEq, Insert;
      SortByIdSorts(rs[..k]);
      InsertSorts(rs[k], SortById(rs[..k]));
      assert rs == rs[..k] + [rs[k]];
    }
  }

  lemma HeadsAgree(p: seq<Resource>, q: seq<Resource>)
    requires p != [] && q != [] && Ascending(p) && Ascending(q) && multiset(p) == multiset(q) && DistinctIds(p)
    ensures p[0] == q[0]
  {
    hide LessEq;
    assert p[0] in multiset(q) && q[0] in multiset(p);
    var i :| 0 <= i < |q| && q[i] == p[0];
    var j :| 0 <= j < |p| && p[j] == q[0];
    assert LessEq(p[0].id, p[j].id) && LessEq(q[0].id, q[i].id);
    Antisymmetric(p[0].id, q[0].id);
    assert j == 0;
  }

  lemma TailMultiset<T>(s: seq<T>)
    requires s != []
    ensures multiset(s[1..]) == multiset(s) - multiset{s[0]}
  {
    assert s == [s[0]] + s[1..];
  }

  // With distinct identifiers there is only one ascending arrangement.
  lemma {:induction false} ArrangementIsUnique(p: seq<Resource>, q: seq<Resource>)
    requires Ascending(p) && Ascending(q) && multiset(p) == multiset(q) && DistinctIds(p)
    ensures p == q
    decreases |p|
  {
    assert |p| == |multiset(p)| && |q| == |multiset(q)|;
    if p != [] {
      HeadsAgree(p, q);
      TailMultiset(p);
      TailMultiset(q);
      AscendingTail(p);
      AscendingTail(q);
      DistinctTail(p);
      hide Ascending, DistinctIds, LessEq;
      ArrangementIsUnique(p[1..], q[1..]);
    }
  }

  lemma DistinctTail(rs: seq<Resource>)
    requires DistinctIds(rs) && rs != []
    ensures DistinctIds(rs[1..])
  {
  }

  // ---- the checked read --------------------------------------------------------------------------

  function VerifiedBytes(r: Resource, cache: Cache, h: Hashes): Result<Bytes, LoadError> {
    if cache.NoRoot? || r.filename !in cache.entries then Err(Missing)
    else
      var e := cache.entries[r.filename];
      if !e.insideRoot then Err(Escaped)
      else if e.symlink || !e.regular then Err(NotRegular)
      else if e.reparse then Err(ReparsePoint)
      else if r.size.Some? && |e.content| != r.size.value then Err(SizeMismatch(r.id))
      else if r.sha256 != Some(h.bytes(e.content)) then Err(HashMismatch(r.id))
      else Ok(e.content)
  }

  function Artifacts(ordered: seq<Resource>, cache: Cache, h: Hashes): Result<seq<Artifact>, LoadError> {
    if ordered == [] then Ok([])
    else
      match VerifiedBytes(ordered[0], cache, h)
      case Err(e) => Err(e)
      case Ok(data) =>
        match Artifacts(ordered[1..], cache, h)
        case Err(e) => Err(e)
        case Ok(more) => Ok([Artifact(ordered[0], data)] + more)
  }

  // `artifacts` are the first i of the resources, read.
  ghost predicate HaveRead(ordered: seq<Resource>, i: nat, artifacts: seq<Artifact>, cache: Cache, h: Hashes)
    requires i <= |ordered|
  {
    Artifacts(ordered, cache, h) == match Artifacts(ordered[i..], cache, h)
                                    case Err(e) => Err(e)
                                    case Ok(more) => Ok(artifacts + more)
  }

  lemma NothingRead(ordered: seq<Resource>, cache: Cache, h: Hashes)
    ensures HaveRead(ordered, 0, [], cache, h)
  {
    assert ordered[0..] == ordered;
    hide VerifiedBytes;
    match Artifacts(ordered, cache, h)
    case Err(_) =>
    case Ok(all) => assert [] + all == all;
  }

  lemma ReadNext(ordered: seq<Resource>, i: nat, artifacts: seq<Artifact>, cache: Cache, h: Hashes)
    requires i < |ordered| && HaveRead(ordered, i, artifacts, cache, h) && VerifiedBytes(ordered[i], cache, h).Ok?
    ensures HaveRead(ordered, i + 1, artifacts + [Artifact(ordered[i], VerifiedBytes(ordered[i], cache, h).value)], cache, h)
  {
    hide VerifiedBytes;
    var last := Artifact(ordered[i], VerifiedBytes(ordered[i], cache, h).value);
    assert ordered[i..][1..] == ordered[i + 1..];
    match Artifacts(ordered[i + 1..], cache, h)
    case Err(_) =>
    case Ok(more) => assert artifacts + ([last] + more) == (artifacts + [last]) + more;
  }

  lemma ReadFails(ordered: seq<Resource>, i: nat, artifacts: seq<Artifact>, cache: Cache, h: Hashes)
    requires i < |ordered| && HaveRead(ordered, i, artifacts, cache, h) && VerifiedBytes(ordered[i], cache, h).Err?
    ensures Artifacts(ordered, cache, h) == Err(VerifiedBytes(ordered[i], cache, h).error)
  {
    hide VerifiedBytes;
    assert ordered[i..][0] == ordered[i];
  }

  lemma AllRead(ordered: seq<Resource>, artifacts: seq<Artifact>, cache: Cache, h: Hashes)
    requires HaveRead(ordered, |ordered|, artifacts, cache, h)
    ensures Artifacts(ordered, cache, h) == Ok(artifacts)
  {
    assert artifacts + [] == artifacts;
  }

  function PayloadOf(artifacts: seq<Artifact>, h: Hashes): (p: seq<PayloadItem>)
    ensures |p| == |artifacts|
  {
    seq(|artifacts|, i requires 0 <= i < |artifacts| =>
      PayloadItem(artifacts[i].resource.id, h.bytes(artifacts[i].content), |artifacts[i].content|))
  }

  function Loaded(m: Manifest, cache: Cache, h: Hashes): Result<Bundle, LoadError> {
    match Artifacts(SortById(SolveOnly(m.resources)), cache, h)
    case Err(e) => Err(e)
    case Ok(artifacts) => Ok(Bundle(m, artifacts, h.payload(h.manifest(m), PayloadOf(artifacts, h))))
  }

  // ---- what a bundle contains -----------------------------------------------------------------

  lemma {:induction false} SolveOnlyIs(rs: seq<Resource>)
    ensures forall r :: r in SolveOnly(rs) <==> r in rs && r.phase == Solve
    ensures DistinctIds(rs) ==> DistinctIds(SolveOnly(rs))
  {
    if rs != [] {
      SolveOnlyIs(rs[1..]);
      assert rs == [rs[0]] + rs[1..];
      if DistinctIds(rs) && rs[0].phase == Solve {
        forall j | 0 <= j < |SolveOnly(rs[1..])|
          ensures SolveOnly(rs[1..])[j].id != rs[0].id
        {
          assert SolveOnly(rs[1..])[j] in rs[1..];
        }
      }
    }
  }

  lemma SameId(p: seq<Resource>, x: Resource, y: Resource)
    requires DistinctIds(p) && x in p && y in p && x.id == y.id
    ensures x == y
  {
  }

  lemma TwoOccurrences<T>(q: seq<T>, i: nat, j: nat)
    requires i < j < |q| && q[i] == q[j]
    ensures multiset(q)[q[i]] >= 2
  {
    assert q == q[..j] + [q[j]] + q[j + 1..];
    assert q[i] in q[..j];
  }

  lemma DistinctByMultiset(p: seq<Resource>, q: seq<Resource>)
    requires multiset(p) == multiset(q) && DistinctIds(p)
    ensures DistinctIds(q)
  {
    DistinctMultiset(p);
    forall i, j | 0 <= i < j < |q|
      ensures q[i].id != q[j].id
    {
      assert q[i] in multiset(p) && q[j] in multiset(p);
      if q[i].id == q[j].id {
        SameId(p, q[i], q[j]);
        TwoOccurrences(q, i, j);
      }
    }
  }

  lemma {:induction false} DistinctMultiset(p: seq<Resource>)
    requires DistinctIds(p)
    ensures multiset(p) == multiset(set r | r in p)
  {
    if p != [] {
      var before, last := p[..|p| - 1], p[|p| - 1];
      assert p == before + [last];
      assert forall i :: 0 <= i < |before| ==> before[i].id != last.id;
      assert DistinctIds(before) && last !in before;
      DistinctMultiset(before);
      hide DistinctIds;
      ElementsSnoc(before, last);
    }
  }

  lemma ElementsSnoc<T>(before: seq<T>, last: T)
    ensures (set r | r in before + [last]) == (set r | r in before) + {last}
  {
  }

  ghost predicate IsSolveOrder(ordered: seq<Resource>, m: Manifest) {
    && Ascending(ordered) && DistinctIds(ordered)
    && forall r :: r in ordered <==> r in m.resources && r.phase == Solve
  }

  lemma SolveOrder(m: Manifest)
    requires Valid(m)
    ensures IsSolveOrder(SortById(SolveOnly(m.resources)), m)
  {
    var solve := SolveOnly(m.resources);
    SolveOnlyIs(m.resources);
    SortByIdSorts(solve);
    DistinctByMultiset(solve, SortById(solve));
    assert forall r :: r in SortById(solve) <==> r in multiset(solve);
  }

  lemma {:induction false} ArtifactsAre(ordered: seq<Resource>, cache: Cache, h: Hashes)
    ensures Artifacts(ordered, cache, h).Ok? <==> forall r :: r in ordered ==> VerifiedBytes(r, cache, h).Ok?
    ensures Artifacts(ordered, cache, h).Ok? ==>
              var as_ := Artifacts(ordered, cache, h).value;
              |as_| == |ordered| && forall i :: 0 <= i < |as_| ==>
                as_[i].resource == ordered[i] && VerifiedBytes(ordered[i], cache, h) == Ok(as_[i].content)
  {
    if ordered != [] {
      hide VerifiedBytes;
      ArtifactsAre(ordered[1..], cache, h);
      assert ordered == [ordered[0]] + ordered[1..];
    }
  }

  // The file is what the manifest pins: inside the cache, regular, neither link nor reparse
  // point, of the pinned size if one is given and with the pinned hash.
  predicate Pinned(r: Resource, cache: Cache, h: Hashes) {
    && cache.Root? && r.filename in cache.entries
    && var e := cache.entries[r.filename];
       && e.insideRoot && !e.symlink && e.regular && !e.reparse
       && (r.size.Some? ==> |e.content| == r.size.value)
       && r.sha256 == Some(h.bytes(e.content))
  }

  lemma VerifiedMeans(r: Resource, cache: Cache, h: Hashes)
    ensures VerifiedBytes(r, cache, h).Ok? <==> Pinned(r, cache, h)
    ensures VerifiedBytes(r, cache, h).Ok? ==> VerifiedBytes(r, cache, h).value == cache.entries[r.filename].content
  {
  }

  // A load succeeds exactly when every SOLVE resource's file is what the manifest pins, and then
  // the artifacts are exactly the SOLVE resources, each once, in ascending identifier order, with
  // the contents of their files.
  lemma BundleContents(m: Manifest, cache: Cache, h: Hashes)
    requires Valid(m)
    ensures Loaded(m, cache, h).Ok? <==> forall r :: r in m.resources && r.phase == Solve ==> Pinned(r, cache, h)
    ensures Loaded(m, cache, h).Ok? ==>
              var b := Loaded(m, cache, h).value;
              && b.manifest == m && IsSolveOrder(ResourcesOf(b.artifacts), m)
              && forall a :: a in b.artifacts ==> Pinned(a.resource, cache, h) && a.content == cache.entries[a.resource.filename].content
  {
    var ordered := SortById(SolveOnly(m.resources));
    SolveOrder(m);
    ArtifactsAre(ordered, cache, h);
    forall r | r in ordered
      ensures VerifiedBytes(r, cache, h).Ok? <==> Pinned(r, cache, h)
      ensures Pinned(r, cache, h) ==> VerifiedBytes(r, cache, h) == Ok(cache.entries[r.filename].content)
    {
      VerifiedMeans(r, cache, h);
    }
    hide VerifiedBytes, Pinned, SortById, SolveOnly, Ascending;
    if Loaded(m, cache, h).Ok? {
      assert ResourcesOf(Loaded(m, cache, h).value.artifacts) == ordered;
    }
  }

  function ResourcesOf(artifacts: seq<Artifact>): (rs: seq<Resource>)
    ensures |rs| == |artifacts|
  {
    seq(|artifacts|, i requires 0 <= i < |artifacts| => artifacts[i].resource)
  }

  // Evaluation material stays out, the official problem is in, and every file is pinned.
  lemma BundleIsBlind(m: Manifest, cache: Cache, h: Hashes)
    requires Valid(m) && Loaded(m, cache, h).Ok?
    ensures var artifacts := Loaded(m, cache, h).value.artifacts;
            && (forall a :: a in artifacts ==> a.resource.phase == Solve && a.resource.role in {Problem, Rules, ExternalData}
                                               && a.resource.sha256 == Some(h.bytes(a.content)))
            && (exists a :: a in artifacts && a.resource.role == Problem)
  {
    BundleContents(m, cache, h);
    var artifacts := Loaded(m, cache, h).value.artifacts;
    var rs := ResourcesOf(artifacts);
    forall a | a in artifacts
      ensures a.resource.phase == Solve && a.resource.role in {Problem, Rules, ExternalData} && a.resource.sha256 == Some(h.bytes(a.content))
    {
      var i :| 0 <= i < |artifacts| && artifacts[i] == a;
      assert rs[i] == a.resource && rs[i] in rs;
    }
    var r :| r in m.resources && r.phase == Solve && r.role == Problem;
    assert r in rs;
    var i :| 0 <= i < |rs| && rs[i] == r;
    assert artifacts[i] in artifacts && artifacts[i].resource.role == Problem;
  }

  // Whatever a loaded registry serves is blind: the manifest is one of the loaded files, and its
  // bundle holds the official problem, no evaluation material, and pinned files only.
  lemma RegistryServesBlindBundles(files: seq<Manifest>, id: string, cache: Cache, h: Hashes)
    requires Registered(files).Some? && id in Registered(files).value && Loaded(Registered(files).value[id], cache, h).Ok?
    ensures var b := Loaded(Registered(files).value[id], cache, h).value;
            && b.manifest in files && b.manifest.id == id && Valid(b.manifest)
            && (forall a :: a in b.artifacts ==> a.resource in b.manifest.resources && a.resource.phase == Solve
                                                 && a.resource.role in {Problem, Rules, ExternalData} && a.resource.sha256 == Some(h.bytes(a.content)))
            && (exists a :: a in b.artifacts && a.resource.role == Problem)
  {
    RegisteredHolds(files);
    var m := Registered(files).value[id];
    BundleIsBlind(m, cache, h);
    BundleContents(m, cache, h);
    var artifacts := Loaded(m, cache, h).value.artifacts;
    hide Valid, Loaded, Pinned, Registered, Ascending;
    forall a | a in artifacts
      ensures a.resource in m.resources
    {
      var i :| 0 <= i < |artifacts| && artifacts[i] == a;
      assert ResourcesOf(artifacts)[i] in ResourcesOf(artifacts);
    }
  }

  // ---- independence of the cache ---------------------------------------------------------------

  // The file names a solver run depends on.
  ghost predicate AgreeOnSolveFiles(m: Manifest, c: Cache, d: Cache) {
    && (c.Root? <==> d.Root?)
    && (c.Root? ==> forall r :: r in m.resources && r.phase == Solve ==>
          (r.filename in c.entries <==> r.filename in d.entries)
          && (r.filename in c.entries ==> c.entries[r.filename] == d.entries[r.filename]))
  }

  lemma {:induction false} ArtifactsAgree(ordered: seq<Resource>, c: Cache, d: Cache, h: Hashes)
    requires forall r :: r in ordered ==> VerifiedBytes(r, c, h) == VerifiedBytes(r, d, h)
    ensures Artifacts(ordered, c, h) == Artifacts(ordered, d, h)
  {
    if ordered != [] {
      hide VerifiedBytes;
      assert ordered[0] in ordered && forall r :: r in ordered[1..] ==> r in ordered;
      ArtifactsAgree(ordered[1..], c, d, h);
    }
  }

  // No other file, whatever it holds, influences the outcome: success, bundle or error.
  lemma NonInterference(m: Manifest, c: Cache, d: Cache, h: Hashes)
    requires Valid(m) && AgreeOnSolveFiles(m, c, d)
    ensures Loaded(m, c, h) == Loaded(m, d, h)
  {
    var ordered := SortById(SolveOnly(m.resources));
    SolveOrder(m);
    forall r | r in ordered
      ensures VerifiedBytes(r, c, h) == VerifiedBytes(r, d, h)
    {
    }
    hide VerifiedBytes, SortById, SolveOnly;
    ArtifactsAgree(ordered, c, d, h);
  }

  ghost predicate InjectiveBytes(h: Hashes) {
    forall x, y :: h.bytes(x) == h.bytes(y) ==> x == y
  }

  // Any two successful loads of one manifest return the same bundle, whatever the caches hold.
  lemma LoadsAgree(m: Manifest, c: Cache, d: Cache, h: Hashes)
    requires Valid(m) && InjectiveBytes(h) && Loaded(m, c, h).Ok? && Loaded(m, d, h).Ok?
    ensures Loaded(m, c, h) == Loaded(m, d, h)
  {
    var ordered := SortById(SolveOnly(m.resources));
    SolveOrder(m);
    ArtifactsAre(ordered, c, h);
    ArtifactsAre(ordered, d, h);
    forall r | r in ordered
      ensures VerifiedBytes(r, c, h) == VerifiedBytes(r, d, h)
    {
      VerifiedMeans(r, c, h);
      VerifiedMeans(r, d, h);
    }
    hide VerifiedBytes, SortById, SolveOnly;
    ArtifactsAgree(ordered, c, d, h);
  }

  // Listing the resources in another order changes no artifact.
  lemma ResourceOrderIsIrrelevant(m: Manifest, n: Manifest, cache: Cache, h: Hashes)
    requires Valid(m) && Valid(n) && forall r :: r in m.resources <==> r in n.resources
    requires Loaded(m, cache, h).Ok?
    ensures Loaded(n, cache, h).Ok? && Loaded(n, cache, h).value.artifacts == Loaded(m, cache, h).value.artifacts
  {
    SolveOrder(m);
    SolveOrder(n);
    SameArrangement(SortById(SolveOnly(m.resources)), SortById(SolveOnly(n.resources)));
  }

  lemma {:induction false} SameArrangement(p: seq<Resource>, q: seq<Resource>)
    requires Ascending(p) && Ascending(q) && DistinctIds(p) && DistinctIds(q) && forall r :: r in p <==> r in q
    ensures p == q
  {
    hide LessEq;
    DistinctMultiset(p);
    DistinctMultiset(q);
    assert (set r | r in p) == (set r | r in q);
    ArrangementIsUnique(p, q);
  }

  // With injective digests equal solve-input digests mean equal manifests and equal bytes.
  lemma DigestBinds(m: Manifest, n: Manifest, c: Cache, d: Cache, h: Hashes)
    requires Valid(m) && Valid(n) && Loaded(m, c, h).Ok? && Loaded(n, d, h).Ok?
    requires InjectiveBytes(h) && (forall x, y :: h.manifest(x) == h.manifest(y) ==> x == y)
    requires forall a, p, b, q :: h.payload(a, p) == h.payload(b, q) ==> a == b && p == q
    requires Loaded(m, c, h).value.digest == Loaded(n, d, h).value.digest
    ensures Loaded(m, c, h) == Loaded(n, d, h)
  {
    assert m == n by {
      hide InjectiveBytes, VerifiedBytes, SortById, SolveOnly, Artifacts;
      assert h.manifest(m) == h.manifest(n);
    }
    LoadsAgree(m, c, d, h);
  }
}
