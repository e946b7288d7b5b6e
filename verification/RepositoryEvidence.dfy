/**
 What the answers of the artifact repository prove, over every history: publication evidence,
 promotion, verification of a staged output, and the lookup of a WorkItem's candidate, each in
 terms of what can be read and of the steps that led there.
 */
module RepositoryEvidence {
  import opened Graphs
  import opened WorkItems
  import opened Repository
  import opened RepositoryHistory

  /** Every source can be read, and reads as it did when its digest was taken. */
  ghost predicate SourcesReadAs(d: Disk, sources: seq<ArtifactRef>, digests: seq<Digest>) {
    |sources| == |digests|
    && forall i :: 0 <= i < |sources|
         ==> LoadRef(d, sources[i]).Ok? && Digest(LoadRef(d, sources[i]).value) == digests[i]
  }

  // ---- Publication evidence ----

  /**
   Evidence names a revision if and only if `current.json` names this very candidate with that
   revision, the revision and the projection both read exactly the candidate's content, its
   issues are empty, and its sources are current.
   */
  lemma EvidenceIff(h: History, key: string, id: string, c: Candidate, n: nat)
    requires LoadCandidate(Run(h), key, id) == Ok(c)
    ensures PublicationEvidence(Run(h), c) == Ok(n) <==>
      && key in Run(h).current && Run(h).current[key].candidateId == id && Run(h).current[key].revision == n
      && LoadRef(Run(h), Published(key, Some(n))) == Ok(c.content) && LoadProjection(Run(h), key) == c.content
      && c.data.issues == [] && SourcesReadAs(Run(h), c.data.sources, c.data.sourceDigests)
  {
    RunKeepsInvariant(h);
    RunKeepsPromoted(h);
    EvidenceIffIn(Run(h), key, id, c, n);
  }

  lemma EvidenceIffIn(d: Disk, key: string, id: string, c: Candidate, n: nat)
    requires CurrentIsPromoted(d) && LoadCandidate(d, key, id) == Ok(c)
    ensures PublicationEvidence(d, c) == Ok(n) <==>
      && key in d.current && d.current[key].candidateId == id && d.current[key].revision == n
      && LoadRef(d, Published(key, Some(n))) == Ok(c.content) && LoadProjection(d, key) == c.content
      && c.data.issues == [] && SourcesReadAs(d, c.data.sources, c.data.sourceDigests)
  {
    assert c.file == CandidateFile(key, id) && c.data == d.candidates[c.file] && c.data.digest == Digest(c.content);
    assert key in d.current && d.current[key].candidateId == id ==> PromotedFrom(d, c.file, d.current[key].digest);
  }

  /** Step `i` promoted this candidate at least as far as `current.json`. */
  ghost predicate PromotedAt(h: History, i: nat, key: string, id: string) {
    && i < |h| && h[i].op == Promote(key, id) && h[i].writes >= 2
    && PromotionResult(Run(h[..i]), key, id).Ok?
  }

  lemma StepCurrent(d: Disk, e: Event, key: string)
    requires key in Step(d, e).current
    ensures (key in d.current && Step(d, e).current[key].candidateId == d.current[key].candidateId)
            || (e.op.Promote? && e.op.key == key && e.op.id == Step(d, e).current[key].candidateId
                && e.writes >= 2 && PromotionResult(d, key, e.op.id).Ok?)
  {
    StepUntouched(d, e);
    if e.op.Promote? && PromotionResult(d, e.op.key, e.op.id).Ok? {
      var c, number := LoadCandidate(d, e.op.key, e.op.id).value, PromotionResult(d, e.op.key, e.op.id).value;
      StepPromoted(d, e);
      PublishedPointer(d, e.op.key, number, c.content, Current(number, e.op.id, c.data.digest), e.writes);
      ProjectingKeepsPointer(d, e.op.key, c.content, e.writes);
    }
  }

  lemma PublishedPointer(d: Disk, key: string, number: nat, text: string, pointer: Current, k: nat)
    ensures Published3(d, key, number, text, pointer, k).current
      == if k >= 2 then d.current[key := pointer] else d.current
  {
  }

  lemma {:induction false} CurrentOrigin(h: History, key: string)
    requires key in Run(h).current
    ensures exists i: nat :: PromotedAt(h, i, key, Run(h).current[key].candidateId)
  {
    var init, e, id := h[..|h| - 1], h[|h| - 1], Run(h).current[key].candidateId;
    StepCurrent(Run(init), e, key);
    if key in Run(init).current && id == Run(init).current[key].candidateId {
      CurrentOrigin(init, key);
      var i: nat :| PromotedAt(init, i, key, id);
      assert init[..i] == h[..i];
      assert PromotedAt(h, i, key, id);
    } else {
      assert PromotedAt(h, |h| - 1, key, id);
    }
  }

  /** A candidate that no step of the history promoted never has evidence of publication. */
  lemma EvidenceNeedsPromotion(h: History, key: string, id: string, c: Candidate)
    requires LoadCandidate(Run(h), key, id) == Ok(c) && PublicationEvidence(Run(h), c).Ok?
    ensures exists i: nat :: PromotedAt(h, i, key, id)
  {
    EvidenceIff(h, key, id, c, PublicationEvidence(Run(h), c).value);
    CurrentOrigin(h, key);
  }

  // ---- Promotion ----

  /**
   A promotion succeeds if and only if the candidate is described, its text has no carriage
   return, its issues are empty and its sources are current. It returns the current revision of a
   candidate that is published already, and else the number after the last one.
   */
  lemma PromotionSucceedsIff(h: History, key: string, id: string)
    ensures PromotionResult(Run(h), key, id).Ok? <==>
      var d, f := Run(h), CandidateFile(key, id);
      && f in d.candidates && f in d.candidateTexts && Plain(d.candidateTexts[f])
      && d.candidates[f].issues == [] && SourcesReadAs(d, d.candidates[f].sources, d.candidates[f].sourceDigests)
    ensures PromotionResult(Run(h), key, id).Ok? ==>
      PromotionResult(Run(h), key, id).value ==
        if key in Run(h).current && Run(h).current[key].candidateId == id then Run(h).current[key].revision
        else |RevisionsOf(Run(h), key)| + 1
  {
    RunKeepsInvariant(h);
    RunKeepsPromoted(h);
    PromotionSucceedsIffIn(Run(h), key, id);
  }

  lemma PromotionSucceedsIffIn(d: Disk, key: string, id: string)
    requires Invariant(d) && CurrentIsPromoted(d)
    ensures var f := CandidateFile(key, id);
      PromotionResult(d, key, id).Ok? <==>
        && f in d.candidates && f in d.candidateTexts && Plain(d.candidateTexts[f])
        && d.candidates[f].issues == [] && SourcesReadAs(d, d.candidates[f].sources, d.candidates[f].sourceDigests)
  {
    var f := CandidateFile(key, id);
    if f in d.candidates {
      ReadBackKeepsPlain(d.candidateTexts[f]);
      if AlreadyPublished(d, key, id) {
        PublishedIsIntact(d, key, id);
      }
    }
  }

  // ---- Verification of a staged output ----

  /** The step that wrote the manifest a WorkItem has now. */
  function LastStagedAt(h: History, root: Root): Option<nat> {
    if h == [] then None else
      var init, e := h[..|h| - 1], h[|h| - 1];
      if e.op.WriteStaged? && e.op.s.root == root && StagingAllowed(Run(init), e.op.s) && e.writes >= 2
      then Some(|h| - 1) else LastStagedAt(init, root)
  }

  ghost predicate StagedAt(h: History, i: nat, root: Root) {
    i < |h| && h[i].op.WriteStaged? && h[i].op.s.root == root && StagingAllowed(Run(h[..i]), h[i].op.s)
  }

  lemma {:induction false} ManifestOrigin(h: History, root: Root)
    ensures root in Run(h).manifests <==> LastStagedAt(h, root).Some?
    ensures LastStagedAt(h, root).Some? ==>
      && StagedAt(h, LastStagedAt(h, root).value, root)
      && Run(h).manifests[root]
        == ManifestOf(Run(h[..LastStagedAt(h, root).value]), h[LastStagedAt(h, root).value].op.s)
  {
    if h != [] {
      var init, e := h[..|h| - 1], h[|h| - 1];
      ManifestOrigin(init, root);
      if LastStagedAt(init, root).Some? {
        assert init[..LastStagedAt(init, root).value] == h[..LastStagedAt(init, root).value];
      }
      StepManifest(Run(init), e, root);
    }
  }

  lemma StepManifest(d: Disk, e: Event, root: Root)
    ensures var staged := e.op.WriteStaged? && e.op.s.root == root && StagingAllowed(d, e.op.s) && e.writes >= 2;
      && (root in Step(d, e).manifests <==> staged || root in d.manifests)
      && (staged ==> Step(d, e).manifests[root] == ManifestOf(d, e.op.s))
      && (!staged && root in d.manifests ==> Step(d, e).manifests[root] == d.manifests[root])
  {
    StepUntouched(d, e);
    if e.op.WriteStaged? && StagingAllowed(d, e.op.s) {
      StepStaged(d, e);
    }
  }

  lemma {:induction false} DigestsOfIff(d: Disk, refs: seq<ArtifactRef>, digests: seq<Digest>)
    ensures DigestsOf(d, refs) == Ok(digests) <==> SourcesReadAs(d, refs, digests)
  {
    DigestsOfHold(d, refs);
    if SourcesReadAs(d, refs, digests) {
      assert DigestsOf(d, refs).value == digests;
    }
  }

  /** Every input reads now what it read when the output was staged. */
  ghost predicate InputsUnchanged(d: Disk, staged: Disk, sources: seq<ArtifactRef>) {
    forall k :: 0 <= k < |sources|
      ==> LoadRef(staged, sources[k]).Ok? && LoadRef(d, sources[k]) == LoadRef(staged, sources[k])
  }

  /** The digests a staging records are those of its inputs at that moment, whether given or taken. */
  lemma RecordedDigests(d: Disk, s: Staging)
    requires StagingAllowed(d, s) && s.sources.Some?
    ensures SourcesReadAs(d, s.sources.value, ManifestOf(d, s).provenance.value.digests)
  {
    if s.expected.None? {
      DigestsOfIff(d, s.sources.value, DigestsOf(d, s.sources.value).value);
    }
  }

  lemma UnchangedIff(d: Disk, staged: Disk, sources: seq<ArtifactRef>, digests: seq<Digest>)
    requires SourcesReadAs(staged, sources, digests)
    ensures DigestsOf(d, sources) == Ok(digests) <==> InputsUnchanged(d, staged, sources)
  {
    DigestsOfIff(d, sources, digests);
  }

  /** What the staging in force has to do with what a verification expects. */
  ghost predicate StagedAsExpected(h: History, i: nat, c: Check)
    requires i < |h| && h[i].op.WriteStaged?
  {
    var s := h[i].op.s;
    && (c.expectedSources.Some?
        ==> s.sources == c.expectedSources && InputsUnchanged(Run(h), Run(h[..i]), s.sources.value))
    && (c.expectedContract.Some? ==> s.sources.Some? && s.contract == c.expectedContract)
  }

  /**
   A verification accepts a staged output if and only if the reference names the expected place,
   the output can be read, the validator passes, and the staging in force declared the expected
   inputs and contract, each of which still reads what it read at that staging.
   */
  lemma VerificationAcceptsIff(h: History, c: Check)
    ensures CheckPasses(Run(h), c) <==>
      && c.ref.Staged? && c.ref.traceId == c.root.traceId && c.ref.workItemId == c.root.workItemId
        && c.ref.slot == c.slot
      && LoadRef(Run(h), c.ref).Ok? && c.validatorPasses
      && LastStagedAt(h, c.root).Some? && StagedAt(h, LastStagedAt(h, c.root).value, c.root)
      && StagedAsExpected(h, LastStagedAt(h, c.root).value, c)
  {
    ManifestOrigin(h, c.root);
    if LastStagedAt(h, c.root).Some? {
      var i := LastStagedAt(h, c.root).value;
      ExpectationIff(Run(h), Run(h[..i]), h[i].op.s, c);
    }
  }

  lemma ExpectationIff(d: Disk, staged: Disk, s: Staging, c: Check)
    requires StagingAllowed(staged, s)
    ensures var p := ManifestOf(staged, s).provenance;
      && ((c.expectedSources.Some? ==>
             p.Some? && p.value.sources == c.expectedSources.value
               && DigestsOf(d, c.expectedSources.value) == Ok(p.value.digests))
          <==> (c.expectedSources.Some?
              ==> s.sources == c.expectedSources && InputsUnchanged(d, staged, s.sources.value)))
      && ((c.expectedContract.Some? ==> p.Some? && p.value.contract == c.expectedContract)
          <==> (c.expectedContract.Some? ==> s.sources.Some? && s.contract == c.expectedContract))
  {
    if s.sources.Some? {
      RecordedDigests(staged, s);
      UnchangedIff(d, staged, s.sources.value, ManifestOf(staged, s).provenance.value.digests);
    }
  }

  // ---- The lookup of a candidate ----

  /**
   What the lookup for a WorkItem finds was created by an earlier step for that very WorkItem and
   artifact, from the expected sources under the expected contract where these are asked for, and
   its sources are current.
   */
  lemma FoundCandidateIsOwn(h: History, key: string, root: Root, sources: Option<seq<ArtifactRef>>,
                            contract: Option<string>, f: CandidateFile)
    requires f in CurrentMatches(Run(h), key, root, sources, contract)
    ensures exists i: nat :: (
              && CreatedAt(h, i, f, Run(h).candidates[f]) && f.key == key && h[i].op.n.root == root
              && (sources.Some? ==> h[i].op.n.sources == sources.value)
              && (contract.Some? ==> h[i].op.n.contract == contract)
              && SourcesReadAs(Run(h), h[i].op.n.sources, Run(h).candidates[f].sourceDigests))
  {
    CandidateOrigin(h, f);
    var i: nat :| CreatedAt(h, i, f, Run(h).candidates[f]);
    assert Root(h[i].op.n.root.traceId, h[i].op.n.root.workItemId) == h[i].op.n.root;
  }

  // ---- What may be written ----

  /** A restricted id is the name of one entry of a directory, and not a hidden one. */
  lemma SafeIdIsOneName(s: string)
    requires SafeId(s)
    ensures s != "" && |s| <= 128 && '/' !in s && '\\' !in s && s[0] != '.'
    ensures forall c :: c in s
              ==> 'A' <= c <= 'Z' || 'a' <= c <= 'z' || '0' <= c <= '9' || c == '_' || c == '.' || c == '-'
  {
  }

  /**
   An output may be staged exactly when its artifact is known, its place is named by restricted
   ids, its text is not blank, expected inputs read as expected, and declared inputs can be read.
   */
  lemma StagingAllowedIff(d: Disk, s: Staging)
    ensures StagingAllowed(d, s) <==>
      && s.key in KNOWN_ARTIFACTS && SafeId(s.root.traceId) && SafeId(s.root.workItemId) && SafeId(s.slot)
      && (exists c :: c in s.content && !IsSpace(c))
      && (s.expected.Some? ==> SourcesReadAs(d, s.sources.GetOr([]), s.expected.value))
      && (s.expected.None? && s.sources.Some? ==> forall ref :: ref in s.sources.value ==> LoadRef(d, ref).Ok?)
  {
    if s.sources.Some? {
      DigestsOfHold(d, s.sources.value);
    }
  }

  /** And a candidate may be created when, beside that, its directory is not taken; its sources need not be readable. */
  lemma CreationAllowedIff(d: Disk, n: Creation)
    ensures CreationAllowed(d, n) <==>
      && n.key in KNOWN_ARTIFACTS && SafeId(n.root.traceId) && SafeId(n.root.workItemId) && SafeId(n.id)
      && (exists c :: c in n.content && !IsSpace(c))
      && (n.expected.Some? ==> SourcesReadAs(d, n.sources, n.expected.value))
      && CandidateFile(n.key, n.id) !in d.candidateDirs
  {
  }

  /** Which described candidates the lookup for a WorkItem considers. */
  lemma MatchesIff(d: Disk, key: string, root: Root, sources: Option<seq<ArtifactRef>>, contract: Option<string>,
                   f: CandidateFile)
    ensures f in CurrentMatches(d, key, root, sources, contract) <==>
      && f in d.candidates && f.key == key
      && d.candidates[f].traceId == root.traceId && d.candidates[f].workItemId == root.workItemId
      && (sources.Some? ==> d.candidates[f].sources == sources.value)
      && (contract.Some? ==> d.candidates[f].contract == contract)
      && SourcesReadAs(d, d.candidates[f].sources, d.candidates[f].sourceDigests)
  {
    assert Root(root.traceId, root.workItemId) == root;
  }

  /** How loading a candidate fails: an unrestricted name, a missing file, or a text other than the described one. */
  lemma LoadCandidateFails(d: Disk, key: string, id: string)
    ensures LoadCandidate(d, key, id) == Err(BadValue) <==> key !in KNOWN_ARTIFACTS || !SafeId(id)
    ensures LoadCandidate(d, key, id) == Err(NotFound) <==>
      && key in KNOWN_ARTIFACTS && SafeId(id)
      && (CandidateFile(key, id) !in d.candidates || CandidateFile(key, id) !in d.candidateTexts)
  {
  }
}
