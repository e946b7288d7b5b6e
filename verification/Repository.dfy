/**
 The artifact repository: staged outputs, commit receipts, integration candidates, and published
 revisions. The files are the fields of a `Disk`; each method performs its file writes one by
 one and records them in a journal, so that a crash is a prefix of what the method writes.
 */
module Repository {
  import opened Graphs
  import opened WorkItems

  /** SHA-256 of the UTF-8 text, modelled as an injective function: a digest determines its text. */
  datatype Digest = Digest(of: string)

  datatype Error = BadValue | NotFound | Inconsistent | NotPermitted | AlreadyExists

  datatype Result<+T> = Ok(value: T) | Err(error: Error)

  // ---- Files ----

  /** The directory of one WorkItem; its slots share one manifest and one receipt. */
  datatype Root = Root(traceId: string, workItemId: Id)

  datatype OutputFile = OutputFile(root: Root, slot: string)

  datatype Provenance = Provenance(sources: seq<ArtifactRef>, digests: seq<Digest>, contract: Option<string>)

  datatype Manifest = Manifest(key: string, slot: string, digest: Digest, provenance: Option<Provenance>)

  datatype Receipt = Receipt(ref: ArtifactRef, digest: Digest)

  datatype Issue = InvalidSource(ref: ArtifactRef) | SourceUnavailable(ref: ArtifactRef) | NoStagedOutputs

  datatype CandidateFile = CandidateFile(key: string, id: string)

  datatype CandidateData = CandidateData(
    traceId: string,
    workItemId: Id,
    digest: Digest,
    sources: seq<ArtifactRef>,
    sourceDigests: seq<Digest>,
    contract: Option<string>,
    issues: seq<Issue>)

  datatype Candidate = Candidate(file: CandidateFile, data: CandidateData, content: string)

  datatype Current = Current(revision: nat, candidateId: string, digest: Digest)

  datatype Disk = Disk(
    outputs: map<OutputFile, string>,
    manifests: map<Root, Manifest>,
    receipts: map<Root, Receipt>,
    candidateDirs: set<CandidateFile>,
    candidateTexts: map<CandidateFile, string>,
    candidates: map<CandidateFile, CandidateData>,
    revisions: map<string, map<nat, string>>,
    current: map<string, Current>,
    projections: map<string, string>)

  const EMPTY_DISK := Disk(map[], map[], map[], {}, map[], map[], map[], map[], map[])

  /** One atomic file system change. */
  datatype Write =
    | Output(file: OutputFile, text: string)
    | ManifestJson(root: Root, manifest: Manifest)
    | ReceiptJson(root: Root, receipt: Receipt)
    | CandidateDir(candidate: CandidateFile)
    | CandidateText(candidate: CandidateFile, text: string)
    | CandidateJson(candidate: CandidateFile, data: CandidateData)
    | Revision(key: string, number: nat, text: string)
    | CurrentJson(key: string, current: Current)
    | Projection(key: string, text: string)

  function RevisionsOf(d: Disk, key: string): map<nat, string> {
    if key in d.revisions then d.revisions[key] else map[]
  }

  function Apply(d: Disk, w: Write): Disk {
    match w
    case Output(file, text) => d.(outputs := d.outputs[file := text])
    case ManifestJson(root, manifest) => d.(manifests := d.manifests[root := manifest])
    case ReceiptJson(root, receipt) => d.(receipts := d.receipts[root := receipt])
    case CandidateDir(candidate) => d.(candidateDirs := d.candidateDirs + {candidate})
    case CandidateText(candidate, text) => d.(candidateTexts := d.candidateTexts[candidate := text])
    case CandidateJson(candidate, data) => d.(candidates := d.candidates[candidate := data])
    case Revision(key, number, text) => d.(revisions := d.revisions[key := RevisionsOf(d, key)[number := text]])
    case CurrentJson(key, current) => d.(current := d.current[key := current])
    case Projection(key, text) => d.(projections := d.projections[key := text])
  }

  function ApplyAll(d: Disk, ws: seq<Write>): Disk {
    if ws == [] then d else Apply(ApplyAll(d, ws[..|ws| - 1]), ws[|ws| - 1])
  }

  // ---- Names ----

  const KNOWN_ARTIFACTS: set<string> :=
    {"requirement", "architecture", "architecture_contract", "tasks", "implementation", "environment", "tests",
     "review"}

  predicate IsAlphanumeric(c: char) {
    'A' <= c <= 'Z' || 'a' <= c <= 'z' || '0' <= c <= '9'
  }

  /** A restricted id: an alphanumeric character and at most 127 further safe ones. */
  predicate SafeId(s: string) {
    && 0 < |s| <= 128 && IsAlphanumeric(s[0])
    && forall i :: 0 < i < |s| ==> IsAlphanumeric(s[i]) || s[i] in {'_', '.', '-'}
  }

  // ---- Reading ----

  /**
   What reading a text file returns. Writing keeps every character, but reading in text mode
   turns a carriage return, alone or before a line feed, into one line feed.
   */
  function ReadBack(text: string): string {
    if text == "" then ""
    else if text[0] != '\r' then [text[0]] + ReadBack(text[1..])
    else "\n" + ReadBack(if |text| > 1 && text[1] == '\n' then text[2..] else text[1..])
  }

  /** Both forms of a carriage return become one line feed, and everything else stays. */
  lemma ReadBackStep(text: string)
    ensures ReadBack("") == "" && ReadBack("\r\n" + text) == "\n" + ReadBack(text)
    ensures text == "" || text[0] != '\n' ==> ReadBack("\r" + text) == "\n" + ReadBack(text)
    ensures forall c :: c != '\r' ==> ReadBack([c] + text) == [c] + ReadBack(text)
  {
    assert ("\r\n" + text)[2..] == text && ("\r" + text)[1..] == text;
    forall c | c != '\r' ensures ReadBack([c] + text) == [c] + ReadBack(text) {
      assert ([c] + text)[1..] == text;
    }
  }

  predicate Plain(text: string) {
    '\r' !in text
  }

  /** A text survives being written and read exactly when it has no carriage return; what was read has none. */
  lemma {:induction false} ReadBackKeepsPlain(text: string)
    ensures Plain(ReadBack(text))
    ensures ReadBack(text) == text <==> Plain(text)
  {
    if text != "" {
      if text[0] != '\r' {
        ReadBackKeepsPlain(text[1..]);
        assert text == [text[0]] + text[1..];
        assert ReadBack(text)[1..] == ReadBack(text[1..]);
      } else {
        ReadBackKeepsPlain(if |text| > 1 && text[1] == '\n' then text[2..] else text[1..]);
      }
    }
  }

  function Placeholder(key: string): string {
    "not created yet: " + key
  }

  function LoadProjection(d: Disk, key: string): string {
    if key in d.projections then ReadBack(d.projections[key]) else Placeholder(key)
  }

  /** Reads a reference; a staged one must agree with its WorkItem's manifest. */
  function LoadRef(d: Disk, ref: ArtifactRef): Result<string> {
    if ref.key !in KNOWN_ARTIFACTS then Err(BadValue)
    else match ref
      case Published(key, None) => Ok(LoadProjection(d, key))
      case Published(key, Some(n)) =>
        if n in RevisionsOf(d, key) then Ok(ReadBack(RevisionsOf(d, key)[n])) else Err(NotFound)
      case Staged(key, traceId, workItemId, slot) =>
        var root := Root(traceId, workItemId);
        if root !in d.manifests || OutputFile(root, slot) !in d.outputs then Err(NotFound)
        else
          var manifest, content := d.manifests[root], ReadBack(d.outputs[OutputFile(root, slot)]);
          if manifest.key != key || manifest.digest != Digest(content) then Err(Inconsistent) else Ok(content)
  }

  /** The reference can be read now and its content has the given digest. */
  predicate HasVersion(d: Disk, ref: ArtifactRef, digest: Digest) {
    LoadRef(d, ref).Ok? && Digest(LoadRef(d, ref).value) == digest
  }

  predicate VersionsHold(d: Disk, refs: seq<ArtifactRef>, digests: seq<Digest>) {
    |refs| == |digests| && forall i :: 0 <= i < |refs| ==> HasVersion(d, refs[i], digests[i])
  }

  /** The digests of all references, if every one of them can be read. */
  function DigestsOf(d: Disk, refs: seq<ArtifactRef>): Result<seq<Digest>> {
    if refs == [] then Ok([]) else
      var before, last := DigestsOf(d, refs[..|refs| - 1]), LoadRef(d, refs[|refs| - 1]);
      if before.Err? then before else if last.Err? then Err(last.error) else Ok(before.value + [Digest(last.value)])
  }

  lemma {:induction false} DigestsOfHold(d: Disk, refs: seq<ArtifactRef>)
    ensures DigestsOf(d, refs).Ok? ==> VersionsHold(d, refs, DigestsOf(d, refs).value)
    ensures DigestsOf(d, refs).Ok? <==> forall i :: 0 <= i < |refs| ==> LoadRef(d, refs[i]).Ok?
  {
    if refs != [] {
      DigestsOfHold(d, refs[..|refs| - 1]);
    }
  }

  function LoadCandidate(d: Disk, key: string, id: string): Result<Candidate> {
    var file := CandidateFile(key, id);
    if key !in KNOWN_ARTIFACTS || !SafeId(id) then Err(BadValue)
    else if file !in d.candidates || file !in d.candidateTexts then Err(NotFound)
    else
      var content := ReadBack(d.candidateTexts[file]);
      if d.candidates[file].digest != Digest(content) then Err(Inconsistent)
      else Ok(Candidate(file, d.candidates[file], content))
  }

  /** `verify_candidate_sources` passes. */
  predicate SourcesCurrent(d: Disk, c: CandidateData) {
    VersionsHold(d, c.sources, c.sourceDigests)
  }

  function LoadReceipt(d: Disk, ref: ArtifactRef): Result<Receipt> {
    if !ref.Staged? then Err(BadValue)
    else
      var root := Root(ref.traceId, ref.workItemId);
      if root !in d.receipts then Err(NotFound)
      else
        var content := LoadRef(d, ref);
        if content.Err? then Err(content.error)
        else if d.receipts[root].digest != Digest(content.value) then Err(Inconsistent)
        else Ok(d.receipts[root])
  }

  // ---- What each operation writes ----

  datatype Staging = Staging(
    key: string, root: Root, slot: string, content: string,
    sources: Option<seq<ArtifactRef>>, contract: Option<string>, expected: Option<seq<Digest>>)

  datatype Check = Check(
    ref: ArtifactRef, root: Root, slot: string, validatorPasses: bool,
    expectedSources: Option<seq<ArtifactRef>>, expectedContract: Option<string>)

  datatype Creation = Creation(
    key: string, id: string, root: Root, content: string,
    sources: seq<ArtifactRef>, contract: Option<string>, expected: Option<seq<Digest>>)

  datatype Operation =
    | WriteStaged(s: Staging)
    | VerifyStaged(c: Check)
    | CreateCandidate(n: Creation)
    | Promote(key: string, id: string)
    | SaveArtifact(key: string, content: string)

  predicate ExpectedHolds(d: Disk, refs: seq<ArtifactRef>, expected: Option<seq<Digest>>) {
    expected.Some? ==> VersionsHold(d, refs, expected.value)
  }

  predicate StagingAllowed(d: Disk, s: Staging) {
    && s.key in KNOWN_ARTIFACTS && SafeId(s.root.traceId) && SafeId(s.root.workItemId) && SafeId(s.slot)
      && !Blank(s.content)
    && ExpectedHolds(d, s.sources.GetOr([]), s.expected)
    && (s.sources.Some? ==> s.expected.Some? || DigestsOf(d, s.sources.value).Ok?)
  }

  function ProvenanceOf(d: Disk, s: Staging): Option<Provenance>
    requires StagingAllowed(d, s)
  {
    if s.sources.None? then None
    else
      var digests := if s.expected.Some? then s.expected.value else DigestsOf(d, s.sources.value).value;
      Some(Provenance(s.sources.value, digests, s.contract))
  }

  function ManifestOf(d: Disk, s: Staging): Manifest
    requires StagingAllowed(d, s)
  {
    Manifest(s.key, s.slot, Digest(s.content), ProvenanceOf(d, s))
  }

  predicate CheckPasses(d: Disk, c: Check) {
    && c.ref.Staged? && Root(c.ref.traceId, c.ref.workItemId) == c.root && c.ref.slot == c.slot
    && LoadRef(d, c.ref).Ok? && c.validatorPasses
    && c.root in d.manifests
    && (c.expectedSources.Some? ==>
          && d.manifests[c.root].provenance.Some?
          && d.manifests[c.root].provenance.value.sources == c.expectedSources.value
          && DigestsOf(d, c.expectedSources.value) == Ok(d.manifests[c.root].provenance.value.digests))
    && (c.expectedContract.Some? ==>
          d.manifests[c.root].provenance.Some? && d.manifests[c.root].provenance.value.contract == c.expectedContract)
  }

  predicate Usable(d: Disk, key: string, ref: ArtifactRef) {
    ref.Staged? && ref.key == key && LoadRef(d, ref).Ok?
  }

  function IssuesOf(d: Disk, key: string, sources: seq<ArtifactRef>): seq<Issue> {
    if sources == [] then [] else
      var last := sources[|sources| - 1];
      IssuesOf(d, key, sources[..|sources| - 1])
      + (if !last.Staged? || last.key != key then [InvalidSource(last)]
         else if LoadRef(d, last).Err? then [SourceUnavailable(last)]
         else [])
  }

  function UsableDigests(d: Disk, key: string, sources: seq<ArtifactRef>): seq<Digest> {
    if sources == [] then [] else
      var last := sources[|sources| - 1];
      UsableDigests(d, key, sources[..|sources| - 1])
        + (if Usable(d, key, last) then [Digest(LoadRef(d, last).value)] else [])
  }

  /** `n.id` stands for the generated candidate id, which is always a safe one. */
  predicate CreationAllowed(d: Disk, n: Creation) {
    && n.key in KNOWN_ARTIFACTS && SafeId(n.root.traceId) && SafeId(n.root.workItemId) && !Blank(n.content)
    && ExpectedHolds(d, n.sources, n.expected)
    && SafeId(n.id) && CandidateFile(n.key, n.id) !in d.candidateDirs
  }

  function CreatedData(d: Disk, n: Creation): CandidateData {
    CandidateData(n.root.traceId, n.root.workItemId, Digest(n.content), n.sources,
                  if n.expected.Some? then n.expected.value else UsableDigests(d, n.key, n.sources),
                  n.contract,
                  IssuesOf(d, n.key, n.sources) + if n.sources == [] then [NoStagedOutputs] else [])
  }

  predicate AlreadyPublished(d: Disk, key: string, id: string) {
    key in d.current && d.current[key].candidateId == id
  }

  predicate PublishedIntact(d: Disk, key: string, digest: Digest) {
    && key in d.current && d.current[key].digest == digest
    && HasVersion(d, Published(key, Some(d.current[key].revision)), digest)
  }

  /** The revision a promotion returns, or why it refuses. */
  function PromotionResult(d: Disk, key: string, id: string): Result<nat> {
    var candidate := LoadCandidate(d, key, id);
    if candidate.Err? then Err(candidate.error)
    else if candidate.value.data.issues != [] then Err(NotPermitted)
    else if !SourcesCurrent(d, candidate.value.data) then Err(Inconsistent)
    else if AlreadyPublished(d, key, id) then
      if PublishedIntact(d, key, candidate.value.data.digest) then Ok(d.current[key].revision) else Err(Inconsistent)
    else Ok(|RevisionsOf(d, key)| + 1)
  }

  function PromotionWrites(d: Disk, key: string, id: string): seq<Write>
    requires PromotionResult(d, key, id).Ok?
  {
    var candidate, number := LoadCandidate(d, key, id).value, PromotionResult(d, key, id).value;
    if AlreadyPublished(d, key, id) then [Projection(key, candidate.content)]
    else [Revision(key, number, candidate.content),
          CurrentJson(key, Current(number, id, candidate.data.digest)),
          Projection(key, candidate.content)]
  }

  predicate Allowed(d: Disk, op: Operation) {
    match op
    case WriteStaged(s) => StagingAllowed(d, s)
    case VerifyStaged(c) => CheckPasses(d, c)
    case CreateCandidate(n) => CreationAllowed(d, n)
    case Promote(key, id) => PromotionResult(d, key, id).Ok?
    case SaveArtifact(key, content) => key in KNOWN_ARTIFACTS
  }

  /** The file writes of an operation, in order; an operation that raises writes nothing. */
  function Writes(d: Disk, op: Operation): seq<Write> {
    if !Allowed(d, op) then [] else
      match op
      case WriteStaged(s) => [Output(OutputFile(s.root, s.slot), s.content), ManifestJson(s.root, ManifestOf(d, s))]
      case VerifyStaged(c) => [ReceiptJson(c.root, Receipt(c.ref, d.manifests[c.root].digest))]
      case CreateCandidate(n) =>
        var file := CandidateFile(n.key, n.id);
        [CandidateDir(file), CandidateText(file, n.content), CandidateJson(file, CreatedData(d, n))]
      case Promote(key, id) => PromotionWrites(d, key, id)
      case SaveArtifact(key, content) => [Projection(key, content)]
  }

  // ---- The repository object ----

  class ArtifactRepository {
    var disk: Disk
    ghost var journal: seq<Write>

    constructor (disk: Disk)
      ensures this.disk == disk && journal == []
    {
      this.disk := disk;
      journal := [];
    }

    /** One file write. */
    method Perform(w: Write)
      modifies this
      ensures disk == Apply(old(disk), w) && journal == old(journal) + [w]
    {
      disk := Apply(disk, w);
      journal := journal + [w];
    }

    method VerifyInputVersions(refs: seq<ArtifactRef>, expected: Option<seq<Digest>>) returns (ok: bool)
      ensures ok <==> ExpectedHolds(disk, refs, expected)
    {
      if expected.None? {
        return true;
      }
      if |refs| != |expected.value| {
        return false;
      }
      for i := 0 to |refs|
        invariant forall k :: 0 <= k < i ==> HasVersion(disk, refs[k], expected.value[k])
      {
        if !HasVersion(disk, refs[i], expected.value[i]) {
          return false;
        }
      }
      return true;
    }

    method CollectDigests(refs: seq<ArtifactRef>) returns (r: Result<seq<Digest>>)
      ensures r.Ok? <==> DigestsOf(disk, refs).Ok?
      ensures r.Ok? ==> r == DigestsOf(disk, refs)
    {
      var digests: seq<Digest> := [];
      for i := 0 to |refs|
        invariant DigestsOf(disk, refs[..i]) == Ok(digests)
      {
        assert refs[..i + 1][..i] == refs[..i];
        var content := LoadRef(disk, refs[i]);
        if content.Err? {
          DigestsOfHold(disk, refs);
          return Err(content.error);
        }
        digests := digests + [Digest(content.value)];
      }
      assert refs[..|refs|] == refs;
      return Ok(digests);
    }

    /** Content first, then the manifest. */
    method Stage(s: Staging) returns (ok: bool)
      modifies this
      ensures ok <==> StagingAllowed(old(disk), s)
      ensures journal == old(journal) + Writes(old(disk), WriteStaged(s))
      ensures disk == ApplyAll(old(disk), Writes(old(disk), WriteStaged(s)))
    {
      if s.key !in KNOWN_ARTIFACTS || !SafeId(s.root.traceId) || !SafeId(s.root.workItemId) || !SafeId(s.slot)
        || Blank(s.content) {
        return false;
      }
      var versions := VerifyInputVersions(s.sources.GetOr([]), s.expected);
      if !versions {
        return false;
      }
      var provenance: Option<Provenance> := None;
      if s.sources.Some? {
        if s.expected.Some? {
          provenance := Some(Provenance(s.sources.value, s.expected.value, s.contract));
        } else {
          var digests := CollectDigests(s.sources.value);
          if digests.Err? {
            return false;
          }
          provenance := Some(Provenance(s.sources.value, digests.value, s.contract));
        }
      }
      TwoWrites(disk, Output(OutputFile(s.root, s.slot), s.content), ManifestJson(s.root, ManifestOf(disk, s)));
      Perform(Output(OutputFile(s.root, s.slot), s.content));
      Perform(ManifestJson(s.root, Manifest(s.key, s.slot, Digest(s.content), provenance)));
      return true;
    }

    method Verify(c: Check) returns (ok: bool)
      modifies this
      ensures ok <==> CheckPasses(old(disk), c)
      ensures journal == old(journal) + Writes(old(disk), VerifyStaged(c))
      ensures disk == ApplyAll(old(disk), Writes(old(disk), VerifyStaged(c)))
    {
      if !c.ref.Staged? || c.ref.traceId != c.root.traceId || c.ref.workItemId != c.root.workItemId
        || c.ref.slot != c.slot {
        return false;
      }
      var content := LoadRef(disk, c.ref);
      if content.Err? || !c.validatorPasses {
        return false;
      }
      var manifest := disk.manifests[c.root];
      if c.expectedSources.Some? {
        if manifest.provenance.None? || manifest.provenance.value.sources != c.expectedSources.value {
          return false;
        }
        var digests := CollectDigests(c.expectedSources.value);
        if digests.Err? || digests.value != manifest.provenance.value.digests {
          return false;
        }
      }
      if c.expectedContract.Some?
        && (manifest.provenance.None? || manifest.provenance.value.contract != c.expectedContract) {
        return false;
      }
      OneWrite(disk, ReceiptJson(c.root, Receipt(c.ref, manifest.digest)));
      Perform(ReceiptJson(c.root, Receipt(c.ref, manifest.digest)));
      return true;
    }

    /** The loop over the sources that collects issues and digests. */
    method InspectSources(key: string, sources: seq<ArtifactRef>) returns (issues: seq<Issue>, digests: seq<Digest>)
      requires key in KNOWN_ARTIFACTS
      ensures issues == IssuesOf(disk, key, sources) + if sources == [] then [NoStagedOutputs] else []
      ensures digests == UsableDigests(disk, key, sources)
    {
      issues, digests := [], [];
      for i := 0 to |sources|
        invariant issues == IssuesOf(disk, key, sources[..i]) && digests == UsableDigests(disk, key, sources[..i])
      {
        assert sources[..i + 1][..i] == sources[..i];
        var ref := sources[i];
        if !ref.Staged? || ref.key != key {
          issues := issues + [InvalidSource(ref)];
          continue;
        }
        var content := LoadRef(disk, ref);
        if content.Err? {
          issues := issues + [SourceUnavailable(ref)];
          continue;
        }
        digests := digests + [Digest(content.value)];
      }
      assert sources[..|sources|] == sources;
      if sources == [] {
        issues := issues + [NoStagedOutputs];
      }
    }

    /** Directory, content, description. */
    method Create(n: Creation) returns (ok: bool)
      modifies this
      ensures ok <==> CreationAllowed(old(disk), n)
      ensures journal == old(journal) + Writes(old(disk), CreateCandidate(n))
      ensures disk == ApplyAll(old(disk), Writes(old(disk), CreateCandidate(n)))
    {
      if n.key !in KNOWN_ARTIFACTS || !SafeId(n.root.traceId) || !SafeId(n.root.workItemId) || Blank(n.content) {
        return false;
      }
      var issues, digests := InspectSources(n.key, n.sources);
      var sourceDigests := if n.expected.Some? then n.expected.value else digests;
      var data := CandidateData(n.root.traceId, n.root.workItemId, Digest(n.content), n.sources, sourceDigests,
                                n.contract, issues);
      var versions := VerifyInputVersions(n.sources, n.expected);
      var file := CandidateFile(n.key, n.id);
      if !versions || !SafeId(n.id) || file in disk.candidateDirs {
        return false;
      }
      ThreeWrites(disk, CandidateDir(file), CandidateText(file, n.content), CandidateJson(file, data));
      Perform(CandidateDir(file));
      Perform(CandidateText(file, n.content));
      Perform(CandidateJson(file, data));
      return true;
    }

    /** Revision, `current.json`, projection; after a crash past `current.json`, the projection alone. */
    method PromoteCandidate(key: string, id: string) returns (r: Result<nat>)
      modifies this
      ensures r == PromotionResult(old(disk), key, id)
      ensures journal == old(journal) + Writes(old(disk), Promote(key, id))
      ensures disk == ApplyAll(old(disk), Writes(old(disk), Promote(key, id)))
    {
      var loaded := LoadCandidate(disk, key, id);
      if loaded.Err? {
        return Err(loaded.error);
      }
      var candidate := loaded.value;
      if candidate.data.issues != [] {
        return Err(NotPermitted);
      }
      var versions := VerifyInputVersions(candidate.data.sources, Some(candidate.data.sourceDigests));
      if !versions {
        return Err(Inconsistent);
      }
      if key in disk.current {
        var current := disk.current[key];
        if current.candidateId == id {
          if current.digest != candidate.data.digest
            || !HasVersion(disk, Published(key, Some(current.revision)), candidate.data.digest) {
            return Err(Inconsistent);
          }
          OneWrite(disk, Projection(key, candidate.content));
          Perform(Projection(key, candidate.content));
          return Ok(current.revision);
        }
      }
      var number := |RevisionsOf(disk, key)| + 1;
      var pointer := Current(number, id, candidate.data.digest);
      ThreeWrites(disk, Revision(key, number, candidate.content), CurrentJson(key, pointer),
                  Projection(key, candidate.content));
      Perform(Revision(key, number, candidate.content));
      Perform(CurrentJson(key, pointer));
      Perform(Projection(key, candidate.content));
      return Ok(number);
    }

    /** `verify_published_candidate`: evidence of publication, not merely a finished gate. */
    method VerifyPublished(c: Candidate) returns (r: Result<nat>)
      ensures r == PublicationEvidence(disk, c)
    {
      var versions := VerifyInputVersions(c.data.sources, Some(c.data.sourceDigests));
      if !versions || c.data.issues != [] {
        return Err(Inconsistent);
      }
      if c.file.key !in disk.current {
        return Err(NotFound);
      }
      var current := disk.current[c.file.key];
      if current.candidateId != c.file.id || current.digest != c.data.digest {
        return Err(Inconsistent);
      }
      var content := LoadRef(disk, Published(c.file.key, Some(current.revision)));
      if content.Err? {
        return Err(content.error);
      }
      if Digest(content.value) != c.data.digest || Digest(LoadProjection(disk, c.file.key)) != c.data.digest {
        return Err(Inconsistent);
      }
      return Ok(current.revision);
    }

    method CheckMatch(f: CandidateFile, root: Root, sources: Option<seq<ArtifactRef>>, contract: Option<string>)
      returns (r: Result<bool>)
      ensures r.Err? <==> LoadCandidate(disk, f.key, f.id).Err?
      ensures r.Ok? ==> (r.value <==> IsCurrentMatch(disk, f, root, sources, contract))
    {
      var loaded := LoadCandidate(disk, f.key, f.id);
      if loaded.Err? {
        return Err(loaded.error);
      }
      var data := loaded.value.data;
      if !IsMatch(data, root, sources, contract) {
        return Ok(false);
      }
      var versions := VerifyInputVersions(data.sources, Some(data.sourceDigests));
      return Ok(versions);
    }

    /** Loads every described candidate of the artifact and keeps those that match with current sources. */
    method MatchingCandidates(key: string, root: Root, sources: Option<seq<ArtifactRef>>, contract: Option<string>)
      returns (r: Result<set<CandidateFile>>)
      ensures r.Ok? <==> AllLoad(disk, key)
      ensures r.Ok? ==> r.value == CurrentMatches(disk, key, root, sources, contract)
    {
      var todo := FilesOf(disk, key);
      ghost var done: set<CandidateFile> := {};
      var matches: set<CandidateFile> := {};
      while todo != {}
        invariant done + todo == FilesOf(disk, key)
        invariant matches == MatchesAmong(disk, done, root, sources, contract)
        invariant forall f :: f in done ==> LoadCandidate(disk, f.key, f.id).Ok?
        decreases |todo|
      {
        var file :| file in todo;
        todo := todo - {file};
        OneMoreMatch(disk, done, file, root, sources, contract);
        done := done + {file};
        var matching := CheckMatch(file, root, sources, contract);
        if matching.Err? {
          return Err(matching.error);
        }
        if matching.value {
          matches := matches + {file};
        }
      }
      return Ok(matches);
    }

    /** The one candidate an integration item created against the present inputs; anything else is refused. */
    method CandidateForWorkItem(key: string, root: Root, sources: Option<seq<ArtifactRef>>, contract: Option<string>)
      returns (r: Result<CandidateFile>)
      ensures r.Ok?
        <==> key in KNOWN_ARTIFACTS && AllLoad(disk, key) && |CurrentMatches(disk, key, root, sources, contract)| == 1
      ensures r.Ok? ==> CurrentMatches(disk, key, root, sources, contract) == {r.value}
    {
      if key !in KNOWN_ARTIFACTS {
        return Err(BadValue);
      }
      var matches := MatchingCandidates(key, root, sources, contract);
      if matches.Err? {
        return Err(matches.error);
      }
      if |matches.value| != 1 {
        return Err(Inconsistent);
      }
      var file :| file in matches.value;
      assert matches.value == {file} by {
        assert |matches.value - {file}| == 0;
      }
      return Ok(file);
    }
  }

  lemma OneWrite(d: Disk, w: Write)
    ensures ApplyAll(d, [w]) == Apply(d, w)
  {
    assert [w][..0] == [];
  }

  lemma TwoWrites(d: Disk, v: Write, w: Write)
    ensures ApplyAll(d, [v, w]) == Apply(Apply(d, v), w)
  {
    assert [v, w][..1] == [v];
    OneWrite(d, v);
  }

  lemma ThreeWrites(d: Disk, u: Write, v: Write, w: Write)
    ensures ApplyAll(d, [u, v, w]) == Apply(Apply(Apply(d, u), v), w)
  {
    assert [u, v, w][..2] == [u, v];
    TwoWrites(d, u, v);
  }

  function PublicationEvidence(d: Disk, c: Candidate): Result<nat> {
    if !SourcesCurrent(d, c.data) || c.data.issues != [] then Err(Inconsistent)
    else if c.file.key !in d.current then Err(NotFound)
    else
      var current := d.current[c.file.key];
      if current.candidateId != c.file.id || current.digest != c.data.digest then Err(Inconsistent)
      else
        var content := LoadRef(d, Published(c.file.key, Some(current.revision)));
        if content.Err? then Err(content.error)
        else if Digest(content.value) != c.data.digest || Digest(LoadProjection(d, c.file.key)) != c.data.digest then
          Err(Inconsistent)
        else Ok(current.revision)
  }

  function FilesOf(d: Disk, key: string): set<CandidateFile> {
    set f | f in d.candidates && f.key == key
  }

  predicate IsMatch(c: CandidateData, root: Root, sources: Option<seq<ArtifactRef>>, contract: Option<string>) {
    && Root(c.traceId, c.workItemId) == root
    && (sources.Some? ==> c.sources == sources.value)
    && (contract.Some? ==> c.contract == contract)
  }

  predicate IsCurrentMatch(d: Disk, f: CandidateFile, root: Root, sources: Option<seq<ArtifactRef>>,
                           contract: Option<string>) {
    f in d.candidates && IsMatch(d.candidates[f], root, sources, contract) && SourcesCurrent(d, d.candidates[f])
  }

  ghost function CurrentMatches(d: Disk, key: string, root: Root, sources: Option<seq<ArtifactRef>>,
                                contract: Option<string>): set<CandidateFile> {
    MatchesAmong(d, FilesOf(d, key), root, sources, contract)
  }

  ghost function MatchesAmong(d: Disk, files: set<CandidateFile>, root: Root, sources: Option<seq<ArtifactRef>>,
                              contract: Option<string>): set<CandidateFile> {
    set f | f in files && IsCurrentMatch(d, f, root, sources, contract)
  }

  lemma OneMoreMatch(d: Disk, files: set<CandidateFile>, f: CandidateFile, root: Root,
                     sources: Option<seq<ArtifactRef>>, contract: Option<string>)
    ensures MatchesAmong(d, files + {f}, root, sources, contract)
      == MatchesAmong(d, files, root, sources, contract)
        + if IsCurrentMatch(d, f, root, sources, contract) then {f} else {}
    ensures MatchesAmong(d, {}, root, sources, contract) == {}
  {
  }

  /** Every candidate of the artifact that has a description can be loaded. */
  ghost predicate AllLoad(d: Disk, key: string) {
    forall f :: f in d.candidates && f.key == key ==> LoadCandidate(d, key, f.id).Ok?
  }
}
